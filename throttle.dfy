/** The per-client throttle that guards `POST /generate-readme`: a map from
    client identifier to the time of its last admitted request. */
module Throttle {

  /** Minimum distance, in milliseconds, between two admitted requests of one client. */
  const WindowMs: int := 15000

  /** The error text of the 429 response written on a denial. */
  const RateLimitMessage: string := "Rate limit exceeded. Please wait 15 seconds between requests."

  /** The stored time for `client`, or 0 for a client never admitted (`get(id) || 0`). */
  function LastAdmitted(times: map<string, int>, client: string): int {
    if client in times then times[client] else 0
  }

  /** The middleware's decision: a request is denied exactly when
      `now - last < WindowMs`. */
  predicate Admits(times: map<string, int>, client: string, now: int) {
    !(now - LastAdmitted(times, client) < WindowMs)
  }

  /** The map after one request has passed the middleware. */
  function Step(times: map<string, int>, client: string, now: int): (after: map<string, int>)
    ensures Admits(times, client, now) ==> client in after && after[client] == now
    ensures !Admits(times, client, now) ==> after == times
    ensures forall c :: c != client ==> LastAdmitted(after, c) == LastAdmitted(times, c)
    ensures times.Keys <= after.Keys <= times.Keys + {client}
  {
    if Admits(times, client, now) then times[client := now] else times
  }

  /** The module-level `userLastRequestTime` map and the middleware that reads
      and updates it. The clock and the caller's identity are parameters. */
  class ThrottleGuard {
    var lastAdmitted: map<string, int>

    constructor ()
      ensures lastAdmitted == map[]
    {
      lastAdmitted := map[];
    }

    /** Decides one request; an admission records `now` for `client`, a
        denial changes nothing. */
    method Admit(client: string, now: int) returns (allowed: bool)
      modifies this
      ensures allowed == Admits(old(lastAdmitted), client, now)
      ensures lastAdmitted == Step(old(lastAdmitted), client, now)
    {
      var last := if client in lastAdmitted then lastAdmitted[client] else 0;
      if now - last < WindowMs {
        return false;
      }
      lastAdmitted := lastAdmitted[client := now];
      allowed := true;
    }
  }

  /** The map grows by at most one entry per request, so it holds one entry
      per client ever admitted. */
  lemma StepAddsAtMostOneKey(times: map<string, int>, client: string, now: int)
    ensures |Step(times, client, now)| <= |times| + 1
  {
  }

  /** A client that has never been admitted is admitted exactly when the
      clock reads at least one window past zero. */
  lemma UnseenClient(times: map<string, int>, client: string, now: int)
    requires client !in times
    ensures Admits(times, client, now) <==> now >= WindowMs
  {
  }

  /** After an admission at `t`, the same client is admitted at `t2` exactly
      when a full window has passed; the boundary `t2 - t == WindowMs` is admitted. */
  lemma ReadmissionAfterWindow(times: map<string, int>, client: string, t: int, t2: int)
    requires Admits(times, client, t)
    ensures Admits(Step(times, client, t), client, t2) <==> t2 - t >= WindowMs
  {
  }

  /** A request of one client never changes the decision for another client. */
  lemma ClientsIndependent(times: map<string, int>, a: string, b: string, t: int, t2: int)
    requires a != b
    ensures Admits(Step(times, b, t), a, t2) == Admits(times, a, t2)
  {
  }

  /** One request as it reaches the middleware. */
  datatype Arrival = Arrival(client: string, now: int)

  /** The map after a sequence of requests has passed the middleware in order. */
  function Replay(times: map<string, int>, arrivals: seq<Arrival>): map<string, int>
    decreases |arrivals|
  {
    if arrivals == [] then times
    else
      var k := |arrivals| - 1;
      Step(Replay(times, arrivals[..k]), arrivals[k].client, arrivals[k].now)
  }

  /** Whether the `i`-th request of a sequence was admitted. */
  predicate AdmittedAt(times: map<string, int>, arrivals: seq<Arrival>, i: nat)
    requires i < |arrivals|
  {
    Admits(Replay(times, arrivals[..i]), arrivals[i].client, arrivals[i].now)
  }

  /** The stored time of a client is never below the time of any of its
      earlier admissions. */
  lemma {:induction false} LastAdmittedCoversAdmissions(times: map<string, int>, arrivals: seq<Arrival>, i: nat)
    requires i < |arrivals| && AdmittedAt(times, arrivals, i)
    ensures LastAdmitted(Replay(times, arrivals), arrivals[i].client) >= arrivals[i].now
    decreases |arrivals|
  {
    var k := |arrivals| - 1;
    var prefix := arrivals[..k];
    var before := Replay(times, prefix);
    assert Replay(times, arrivals) == Step(before, arrivals[k].client, arrivals[k].now);
    if i < k {
      assert prefix[..i] == arrivals[..i];
      assert prefix[i] == arrivals[i];
      LastAdmittedCoversAdmissions(times, prefix, i);
      assert LastAdmitted(before, arrivals[i].client) >= arrivals[i].now;
    } else {
      assert arrivals[..i] == prefix;
    }
  }

  /** Any two admitted requests of the same client, in any sequence of
      requests, are at least one window apart, whatever the clock does. */
  lemma {:induction false} AdmissionsAreSpaced(times: map<string, int>, arrivals: seq<Arrival>, i: nat, j: nat)
    requires i < j < |arrivals|
    requires arrivals[i].client == arrivals[j].client
    requires AdmittedAt(times, arrivals, i) && AdmittedAt(times, arrivals, j)
    ensures arrivals[j].now - arrivals[i].now >= WindowMs
  {
    var prefix := arrivals[..j];
    assert prefix[..i] == arrivals[..i];
    assert prefix[i] == arrivals[i];
    LastAdmittedCoversAdmissions(times, prefix, i);
  }
}
