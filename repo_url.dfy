/** Splitting the caller's repository URL into owner and repository, and the
    GitHub API address built from them. No validation is done: a missing
    segment becomes the text "undefined". */
module RepoUrl {
  import opened Js

  const Slash: char := '/'
  const ApiPrefix: string := "https://api.github.com/repos/"

  /** `s.split(sep)` for a one-character separator: the maximal runs between
      separators, including empty ones at either end. */
  function Split(s: string, sep: char): (parts: seq<string>)
    ensures |parts| >= 1
    ensures forall i :: 0 <= i < |parts| ==> sep !in parts[i]
    decreases |s|
  {
    if s == [] then [[]]
    else
      var rest := Split(s[1..], sep);
      if s[0] == sep then [[]] + rest
      else [[s[0]] + rest[0]] + rest[1..]
  }

  /** `parts.join(sep)`. */
  function Join(parts: seq<string>, sep: char): string
    decreases |parts|
  {
    if |parts| == 0 then []
    else if |parts| == 1 then parts[0]
    else parts[0] + [sep] + Join(parts[1..], sep)
  }

  /** Joining the pieces back with the separator gives the original text, so
      splitting loses nothing. */
  lemma {:induction false} JoinSplit(s: string, sep: char)
    ensures Join(Split(s, sep), sep) == s
    decreases |s|
  {
    if s != [] {
      var rest := Split(s[1..], sep);
      JoinSplit(s[1..], sep);
      if s[0] == sep {
        assert Split(s, sep) == [[]] + rest;
        assert ([[]] + rest)[1..] == rest;
      } else if |rest| == 1 {
        assert Split(s, sep) == [[s[0]] + rest[0]];
      } else {
        var parts := [[s[0]] + rest[0]] + rest[1..];
        assert parts[1..] == rest[1..];
        assert Join(rest, sep) == rest[0] + [sep] + Join(rest[1..], sep);
        assert Join(parts, sep) == [s[0]] + Join(rest, sep);
        assert s == [s[0]] + s[1..];
      }
    }
  }

  /** A text with no separator is a single piece. */
  lemma {:induction false} SplitWithoutSeparator(a: string, sep: char)
    requires sep !in a
    ensures Split(a, sep) == [a]
    decreases |a|
  {
    if a != [] {
      SplitWithoutSeparator(a[1..], sep);
      assert a == [a[0]] + a[1..];
    }
  }

  /** How a split extends when one character is put in front of the text. */
  lemma SplitCons(c: char, t: string, sep: char)
    ensures Split([c] + t, sep) ==
      var rest := Split(t, sep);
      if c == sep then [[]] + rest else [[c] + rest[0]] + rest[1..]
  {
  }

  /** The step case of `SplitAtSeparator`: a leading character is added to
      the first piece, or starts an empty one, on both sides alike. */
  lemma ConsAcrossConcat(c: char, ra: seq<string>, rb: seq<string>, sep: char)
    requires |ra| >= 1
    ensures (if c == sep then [[]] + (ra + rb) else [[c] + (ra + rb)[0]] + (ra + rb)[1..])
         == (if c == sep then [[]] + ra else [[c] + ra[0]] + ra[1..]) + rb
  {
  }

  /** Splitting at one separator splits the two sides independently. */
  lemma {:induction false} SplitAtSeparator(a: string, b: string, sep: char)
    ensures Split(a + [sep] + b, sep) == Split(a, sep) + Split(b, sep)
    decreases |a|
  {
    if a == [] {
      assert a + [sep] + b == [sep] + b;
      SplitCons(sep, b, sep);
    } else {
      var t := a[1..] + [sep] + b;
      assert a + [sep] + b == [a[0]] + t;
      assert a == [a[0]] + a[1..];
      SplitAtSeparator(a[1..], b, sep);
      SplitCons(a[0], t, sep);
      SplitCons(a[0], a[1..], sep);
      ConsAcrossConcat(a[0], Split(a[1..], sep), Split(b, sep), sep);
    }
  }

  /** The owner and repository taken from a URL; `None` where the URL has too
      few segments. */
  datatype RepoRef = RepoRef(owner: Option<string>, repo: Option<string>)

  /** The `index`-th element of a split, or `None` past its end. */
  function Segment(parts: seq<string>, index: nat): Option<string> {
    if index < |parts| then Some(parts[index]) else None
  }

  /** `const [, , , username, repo] = repoUrl.split('/')`. */
  function ParseRepoRef(url: string): (r: RepoRef)
    ensures r.owner.Some? <==> |Split(url, Slash)| >= 4
    ensures r.repo.Some? <==> |Split(url, Slash)| >= 5
    ensures r.owner.Some? ==> Slash !in r.owner.value
    ensures r.repo.Some? ==> Slash !in r.repo.value
  {
    var parts := Split(url, Slash);
    RepoRef(Segment(parts, 3), Segment(parts, 4))
  }

  /** The GitHub API address that is looked up for `url`. */
  function LookupUrl(url: string): string {
    var r := ParseRepoRef(url);
    ApiPrefix + OrUndefined(r.owner) + "/" + OrUndefined(r.repo)
  }
}

module RepoUrlProperties {
  import opened Js
  import opened RepoUrl

  /** A leading segment without a separator becomes the first piece. */
  lemma SplitLeading(a: string, rest: string)
    requires Slash !in a
    ensures Split(a + "/" + rest, Slash) == [a] + Split(rest, Slash)
  {
    assert a + "/" + rest == a + [Slash] + rest;
    SplitAtSeparator(a, rest, Slash);
    SplitWithoutSeparator(a, Slash);
  }

  /** The split of `first/second/host/rest` starts with its first three
      segments. */
  lemma SplitAuthority(first: string, second: string, host: string, rest: string)
    requires Slash !in first && Slash !in second && Slash !in host
    ensures Split(first + "/" + second + "/" + host + "/" + rest, Slash)
         == [first, second, host] + Split(rest, Slash)
  {
    var h := host + "/" + rest;
    var e := second + "/" + h;
    var sr := Split(rest, Slash);
    assert Split(e, Slash) == [second, host] + sr by {
      SplitLeading(host, rest);
      SplitLeading(second, h);
      assert [second] + ([host] + sr) == [second, host] + sr;
    }
    assert Split(first + "/" + e, Slash) == [first, second, host] + sr by {
      SplitLeading(first, e);
      assert [first] + ([second, host] + sr) == [first, second, host] + sr;
    }
    assert first + "/" + second + "/" + host + "/" + rest == first + "/" + e;
  }

  /** For any URL `first/second/host/owner/repo`, followed by nothing or by
      further `/`-separated segments, the owner and repository are recovered
      exactly and the lookup address names them. By `JoinSplit`, every text
      with at least five segments has this shape. */
  lemma ParseUsualUrl(first: string, second: string, host: string, owner: string, repo: string, tail: string)
    requires Slash !in first && Slash !in second && Slash !in host
    requires Slash !in owner && Slash !in repo
    requires tail == [] || tail[0] == Slash
    ensures ParseRepoRef(first + "/" + second + "/" + host + "/" + owner + "/" + repo + tail)
         == RepoRef(Some(owner), Some(repo))
    ensures LookupUrl(first + "/" + second + "/" + host + "/" + owner + "/" + repo + tail)
         == ApiPrefix + owner + "/" + repo
  {
    var r := repo + tail;
    if tail == [] {
      assert r == repo;
      SplitWithoutSeparator(repo, Slash);
    } else {
      assert r == repo + [Slash] + tail[1..];
      SplitAtSeparator(repo, tail[1..], Slash);
      SplitWithoutSeparator(repo, Slash);
    }
    assert Split(r, Slash)[0] == repo;
    SplitAtSeparator(owner, r, Slash);
    SplitWithoutSeparator(owner, Slash);
    SplitAuthority(first, second, host, owner + [Slash] + r);
    assert first + "/" + second + "/" + host + "/" + owner + "/" + repo + tail
        == first + "/" + second + "/" + host + "/" + (owner + [Slash] + r);
  }

  /** Segments after the repository do not change the result. */
  lemma TrailingSegmentsIgnored(url: string, extra: string)
    requires |Split(url, Slash)| >= 5
    ensures ParseRepoRef(url + "/" + extra) == ParseRepoRef(url)
  {
    SplitAtSeparator(url, extra, Slash);
    assert url + "/" + extra == url + [Slash] + extra;
  }

  /** A URL naming only an owner is not rejected: the repository part of the
      lookup address is the text "undefined". */
  lemma MissingRepositoryLooksUpUndefined(first: string, second: string, host: string, owner: string)
    requires Slash !in first && Slash !in second && Slash !in host && Slash !in owner
    ensures ParseRepoRef(first + "/" + second + "/" + host + "/" + owner) == RepoRef(Some(owner), None)
    ensures LookupUrl(first + "/" + second + "/" + host + "/" + owner) == ApiPrefix + owner + "/undefined"
  {
    SplitWithoutSeparator(owner, Slash);
    SplitAuthority(first, second, host, owner);
  }

  /** The address looked up for the repository `acme/widget`. */
  lemma WidgetLookupUrl(url: string)
    requires url == "https://github.com/acme/widget"
    ensures LookupUrl(url) == ApiPrefix + "acme/widget"
  {
    var scheme, second, host := url[..6], url[7..7], url[8..18];
    var owner, repo, tail := url[19..23], url[24..], url[30..];
    assert url == scheme + "/" + second + "/" + host + "/" + owner + "/" + repo + tail;
    ParseUsualUrl(scheme, second, host, owner, repo, tail);
    assert owner == "acme" && repo == "widget";
  }
}
