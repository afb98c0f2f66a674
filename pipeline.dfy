/** `POST /generate-readme`: the throttle middleware followed by the route
    handler. The GitHub lookup and the chat completion are foreign network
    calls; their replies are inputs, and the handler's behaviour is a trace
    of the calls it makes and the response it writes. */
module Pipeline {
  import opened Js
  import Throttle
  import RepoUrl
  import Prompt
  import RepoUrlProperties

  const StatusOk: int := 200
  const StatusTooManyRequests: int := 429
  const StatusServerError: int := 500

  /** The fixed parts of the chat completion request. */
  const Model: string := "gpt-3.5-turbo"
  const SystemInstruction: string := "You are a helpful assistant that generates GitHub README files."

  /** The message of the error `getRepoInfo` throws for any failed lookup. */
  const LookupFailedMessage: string := "Failed to fetch repository information or Private Repo"
  /** The text sent when a caught error has an empty message. */
  const FallbackMessage: string := "An error occurred while generating the README"
  /** The TypeError raised by `choices[0].message` when there is no choice. */
  const MissingChoiceMessage: string := "Cannot read properties of undefined (reading 'message')"

  /** The GitHub API's answer: the three fields read from the response, or
      any failure (transport error, 404, 403, 5xx), which are not told apart. */
  datatype GitHubReply = Found(info: Prompt.RepoInfo) | LookupFailed

  /** One choice of a completion; its message content may be `null`. */
  datatype Choice = Choice(content: JsValue)

  /** The completion service's answer, or the message of the error it threw. */
  datatype CompletionReply = Completion(choices: seq<Choice>) | CompletionFailed(message: string)

  /** The JSON body of a response: `{ readme }` or `{ error }`. */
  datatype Body = Readme(readme: JsValue) | Failure(error: string)

  /** What the server does for one request, in order. */
  datatype Event =
    | LookupRepo(url: string)
    | RequestCompletion(model: string, system: string, user: string)
    | Respond(status: int, body: Body)

  /** The TypeError raised by `repoUrl.split` when the body's `repoUrl` is
      `null` or missing. */
  function SplitFailureMessage(repoUrl: JsValue): string {
    "Cannot read properties of " + Interpolate(repoUrl) + " (reading 'split')"
  }

  /** `error.message || 'An error occurred while generating the README'`. */
  function ErrorText(message: string): string {
    if message != "" then message else FallbackMessage
  }

  /** Exactly one response is written, and it is the last thing done. */
  predicate Answered(trace: seq<Event>) {
    && |trace| > 0
    && trace[|trace| - 1].Respond?
    && forall i :: 0 <= i < |trace| - 1 ==> !trace[i].Respond?
  }

  function Status(trace: seq<Event>): int
    requires Answered(trace)
  {
    trace[|trace| - 1].status
  }

  function FinalBody(trace: seq<Event>): Body
    requires Answered(trace)
  {
    trace[|trace| - 1].body
  }

  /** The route handler, reached only when the middleware calls `next()`. */
  function Handle(repoUrl: JsValue, github: GitHubReply, openai: CompletionReply): seq<Event> {
    if !repoUrl.Str? then
      [Respond(StatusServerError, Failure(SplitFailureMessage(repoUrl)))]
    else
      var lookup := LookupRepo(RepoUrl.LookupUrl(repoUrl.s));
      match github
      case LookupFailed =>
        [lookup, Respond(StatusServerError, Failure(LookupFailedMessage))]
      case Found(info) =>
        var ask := RequestCompletion(Model, SystemInstruction, Prompt.Render(info));
        match openai
        case CompletionFailed(message) =>
          [lookup, ask, Respond(StatusServerError, Failure(ErrorText(message)))]
        case Completion(choices) =>
          if |choices| == 0 then
            [lookup, ask, Respond(StatusServerError, Failure(MissingChoiceMessage))]
          else
            [lookup, ask, Respond(StatusOk, Readme(choices[0].content))]
  }

  /** The middleware's decision followed, on admission, by the handler. */
  function Serve(allowed: bool, repoUrl: JsValue, github: GitHubReply, openai: CompletionReply): (trace: seq<Event>)
    ensures Answered(trace)
    ensures Status(trace) in {StatusOk, StatusTooManyRequests, StatusServerError}
    ensures Status(trace) == StatusTooManyRequests <==> !allowed
    ensures !allowed ==> trace == [Respond(StatusTooManyRequests, Failure(Throttle.RateLimitMessage))]
    ensures Status(trace) == StatusOk <==>
      allowed && repoUrl.Str? && github.Found? && openai.Completion? && |openai.choices| > 0
    ensures Status(trace) == StatusOk ==> FinalBody(trace) == Readme(openai.choices[0].content)
    ensures Status(trace) != StatusOk ==> FinalBody(trace).Failure? && FinalBody(trace).error != ""
    ensures allowed && repoUrl.Str? ==> trace[0] == LookupRepo(RepoUrl.LookupUrl(repoUrl.s))
    ensures forall i :: 0 <= i < |trace| && trace[i].LookupRepo? ==> i == 0 && allowed && repoUrl.Str?
    ensures allowed && repoUrl.Str? && github.Found? ==>
      |trace| == 3 && trace[1] == RequestCompletion(Model, SystemInstruction, Prompt.Render(github.info))
    ensures forall i :: 0 <= i < |trace| && trace[i].RequestCompletion? ==>
      i == 1 && allowed && repoUrl.Str? && github.Found?
  {
    if !allowed then [Respond(StatusTooManyRequests, Failure(Throttle.RateLimitMessage))]
    else Handle(repoUrl, github, openai)
  }

  /** A failed GitHub lookup is answered with 500 and the fixed lookup
      message; the completion service is never asked. */
  lemma LookupFailureAnswers500(repoUrl: string, openai: CompletionReply)
    ensures Serve(true, Str(repoUrl), LookupFailed, openai)
         == [LookupRepo(RepoUrl.LookupUrl(repoUrl)), Respond(StatusServerError, Failure(LookupFailedMessage))]
  {
  }

  /** A completion that fails, or that comes back with no choice, is answered
      with 500: the error's own message when it has one, the fallback text
      when it is empty, the TypeError's message when there is no choice. */
  lemma CompletionFailureAnswers500(repoUrl: string, info: Prompt.RepoInfo, openai: CompletionReply)
    requires openai.CompletionFailed? || openai.choices == []
    ensures var trace := Serve(true, Str(repoUrl), Found(info), openai);
      && |trace| == 3
      && trace[2] == Respond(StatusServerError, Failure(
           if openai.CompletionFailed? then ErrorText(openai.message) else MissingChoiceMessage))
      && (openai.CompletionFailed? && openai.message == "" ==> trace[2].body.error == FallbackMessage)
  {
  }

  /** One request, end to end: the middleware on the guard's map, then the
      handler. */
  method GenerateReadme(guard: Throttle.ThrottleGuard, client: string, now: int,
                        repoUrl: JsValue, github: GitHubReply, openai: CompletionReply)
    returns (trace: seq<Event>)
    modifies guard
    ensures trace == Serve(Throttle.Admits(old(guard.lastAdmitted), client, now), repoUrl, github, openai)
    ensures guard.lastAdmitted == Throttle.Step(old(guard.lastAdmitted), client, now)
  {
    var allowed := guard.Admit(client, now);
    trace := Serve(allowed, repoUrl, github, openai);
  }

  /** A fresh server receives a request for `https://github.com/acme/widget`
      and answers 200 with the generated text; the same client's next request
      within the window is answered 429 without any outside call. */
  method WidgetScenario(client: string, t1: int, t2: int, url: string, info: Prompt.RepoInfo, readme: string)
    returns (first: seq<Event>, second: seq<Event>)
    requires url == "https://github.com/acme/widget"
    requires t1 >= Throttle.WindowMs && t2 - t1 < Throttle.WindowMs
    ensures first == [
      LookupRepo("https://api.github.com/repos/acme/widget"),
      RequestCompletion(Model, SystemInstruction, Prompt.Render(info)),
      Respond(StatusOk, Readme(Str(readme)))]
    ensures second == [Respond(StatusTooManyRequests, Failure(Throttle.RateLimitMessage))]
  {
    var guard := new Throttle.ThrottleGuard();
    var completion := Completion([Choice(Str(readme))]);
    first := GenerateReadme(guard, client, t1, Str(url), Found(info), completion);
    assert first == Serve(true, Str(url), Found(info), completion);
    RepoUrlProperties.WidgetLookupUrl(url);
    assert RepoUrl.LookupUrl(url) == "https://api.github.com/repos/acme/widget";
    second := GenerateReadme(guard, client, t2, Str(url), Found(info), completion);
  }
}
