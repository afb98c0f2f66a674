# README generator backend — verified model of the request core

The service answers `POST /generate-readme` with a README written by a
chat-completion model for a GitHub repository. The request passes a per-client
throttle. The handler then splits the repository URL into owner and
repository, looks the repository up in the GitHub API, renders a fixed prompt
from the name, description and language, asks the completion service, and
answers with the first choice's text. This project models that core from
`server.js` in Dafny and proves its properties:

- `js.dfy` (module `Js`): the JavaScript values the core handles.
  A JSON string field is a string, `null` or absent. The module also gives
  truthiness, `${v}` interpolation and `v || fallback`.
- `throttle.dfy` (module `Throttle`): the `userLastRequestTime` map and
  `rateLimitMiddleware`. The map lives in class `ThrottleGuard` and is updated
  in place by `Admit`. The pure functions `Admits` and `Step` specify it.
  `Replay` runs a whole sequence of requests.
- `repo_url.dfy` (modules `RepoUrl`, `RepoUrlProperties`): JavaScript
  `split('/')` for a single character, segments 3 and 4 as owner and
  repository, and the GitHub API lookup address.
- `prompt.dfy` (module `Prompt`): the prompt template. It has three slots and
  keeps the static outline verbatim.
- `pipeline.dfy` (module `Pipeline`): middleware plus route handler. The
  result is a trace of the outside calls made, in order, and the one response
  written.

The clock (`Date.now()`), the caller's identity (`req.ip`) and the replies
of the GitHub API and the completion service are parameters.

## Model

| member | source | states |
|---|---|---|
| `Throttle.ThrottleGuard.constructor` | server.js:15 | The throttle map starts empty. |
| `Throttle.ThrottleGuard.Admit` | server.js:18-31 | The request is allowed exactly when `Admits` holds on the map as it was. The new map is `Step` of the old one: it records `now` on admission and is unchanged on denial. |
| `Throttle.Step` | server.js:21-29 | On admission the client's entry becomes `now`. On denial the map is unchanged. Every other client's stored time is unchanged. The keys only grow, and only by this client. |
| `Throttle.StepAddsAtMostOneKey` | server.js:29 | One request adds at most one entry to the map. |
| `Throttle.UnseenClient` | server.js:21-24 | A client with no entry counts as last admitted at time 0. It is admitted exactly when `now >= 15000`. |
| `Throttle.ReadmissionAfterWindow` | server.js:21-29 | After an admission at `t`, the same client is admitted at `t2` exactly when `t2 - t >= 15000`. A gap of exactly 15000 ms is admitted. |
| `Throttle.ClientsIndependent` | server.js:19-29 | A request of client B, admitted or not, never changes the decision for a different client A. |
| `Throttle.LastAdmittedCoversAdmissions` | server.js:21-29 | After any sequence of requests, a client's stored time is at least the time of each of its admitted requests. |
| `Throttle.AdmissionsAreSpaced` | server.js:21-29 | In any sequence of requests, any two admitted requests of one client are at least 15000 ms apart. This holds even if the clock goes backwards. |
| `RepoUrl.Split` | server.js:34 | `split('/')` yields at least one piece, and no piece contains the separator. |
| `RepoUrl.JoinSplit` | server.js:34 | Joining the pieces with the separator gives back the input, so splitting loses nothing. |
| `RepoUrl.SplitWithoutSeparator` | server.js:34 | A text with no separator splits into itself alone. |
| `RepoUrl.SplitAtSeparator` | server.js:34 | Splitting `a + "/" + b` gives the pieces of `a` followed by the pieces of `b`. |
| `RepoUrl.ParseRepoRef` | server.js:34 | The owner is present exactly when the URL has at least 4 segments. The repository is present exactly when it has at least 5. Neither contains a `/`. |
| `RepoUrlProperties.ParseUsualUrl` | server.js:34-35 | For any URL `first/second/host/owner/repo` whose five parts contain no `/`, followed by nothing or by `/...`, the owner and repository come back exactly. By `JoinSplit`, every URL with at least five segments has this shape. The lookup address is `https://api.github.com/repos/owner/repo`. |
| `RepoUrlProperties.TrailingSegmentsIgnored` | server.js:34 | Once a URL has 5 segments, adding more does not change the owner or the repository. |
| `RepoUrlProperties.MissingRepositoryLooksUpUndefined` | server.js:34-35 | A URL that names only an owner is not rejected. The repository is missing and the lookup address ends in `/undefined`. |
| `RepoUrlProperties.WidgetLookupUrl` | server.js:34-35 | `https://github.com/acme/widget` is looked up at `https://api.github.com/repos/acme/widget`. |
| `Prompt.RenderFraming` | server.js:56-109 | The prompt starts with the fixed opening and the name, interpolated verbatim. It ends with the fixed outline. |
| `Prompt.FillSlotsDecide` | server.js:56-59 | Fix any two of the template's three slots. Two filled templates are then equal exactly when the third slot is equal. |
| `Prompt.NameSlotDecides` | server.js:56 | With the same description and language slots, two prompts are equal exactly when the names interpolate to the same text. |
| `Prompt.DescriptionSlotDecides` | server.js:58 | With the same name and language slots, two prompts are equal exactly when their description slots are equal. The slot is the description, or `No description available` when it is null, absent or empty. |
| `Prompt.LanguageSlotDecides` | server.js:59 | With the same name and description slots, two prompts are equal exactly when their language slots are equal. The slot is the language, or `Not specified`. |
| `Prompt.FalsyFieldsRenderAlike` | server.js:58-59 | `null`, absent and empty description and language all render the placeholders, and so give the same prompt. |
| `Pipeline.Serve` | server.js:50-124 | Exactly one response is written, and it is written last. The status is 200, 429 or 500. 429 happens exactly on denial, with the fixed message and no outside call. 200 happens exactly when every stage succeeds and there is a choice; its body is the first choice's content. Every other response carries a non-empty error. The GitHub lookup is made first, and only for an admitted string `repoUrl`, at the address built from it. The completion is requested second, only after a successful lookup, with the fixed model, the system text and the rendered prompt. |
| `Pipeline.LookupFailureAnswers500` | server.js:44-46 | A failed lookup is answered with 500 and `Failed to fetch repository information or Private Repo`. The completion service is never asked. |
| `Pipeline.CompletionFailureAnswers500` | server.js:111-122 | A failed completion is answered with 500 and its message, or the fallback text when the message is empty. An empty `choices` array is answered with 500 and the TypeError raised by `choices[0].message`. |
| `Pipeline.GenerateReadme` | server.js:50 | One request runs the middleware on the guard's map and then the handler. The trace is `Serve` of the middleware's decision, and the map is updated by `Step`. |
| `Pipeline.WidgetScenario` | server.js:15-54 | On a fresh server, a request for `https://github.com/acme/widget` with successful replies produces the lookup, the completion request and a 200 with the generated text. The same client's next request less than 15000 ms later gets only the 429 response. |

## Behaviour of the code worth knowing

The model keeps these behaviours of `server.js` even where a cleaner design
would differ:

- **First request of a new client.** A missing entry counts as time 0, so a
  new client is admitted only when `now >= 15000`
  (`Throttle.UnseenClient`). Real timestamps are always far past this, so
  in practice a new client is always admitted.
- **URL validation.** There is none. Missing segments are interpolated as
  `undefined` and the lookup is still made
  (`RepoUrlProperties.MissingRepositoryLooksUpUndefined`). Empty segments
  pass through as empty text. A URL such as `https://host/a/b` is split into
  owner `a` and repository `b` (`RepoUrlProperties.ParseUsualUrl`).
- **The 429 response.** It has only the fixed message, with no retry-after
  hint.
- **Lookup errors.** They are not told apart. Not found, private and
  transport errors all give the same fixed message.
- **Completion errors.** The thrown error's own message is forwarded to the
  caller.
- **Lookup credential.** The GitHub lookup is sent unauthenticated.

## Left out

- Express setup, JSON body parsing, CORS, dotenv and `app.listen` with the
  port (server.js:1-13, 126-127): framework boundary. The JSON parser always
  supplies a body object, so destructuring `req.body` cannot fail. There is
  no `GET /` route in this source.
- The `axios.get` and `openai.chat.completions.create` calls: foreign
  network I/O. Their replies are inputs. A lookup either yields the three
  fields or fails; a completion either yields its choices or throws a
  message.
- `console.error` logging.
- `Date.now()` and `req.ip`: parameters. A missing `req.ip` would put all
  such callers under one key; here the client id is any string.
- Concurrency: requests are processed one at a time. The middleware's
  read-decide-write has no `await` inside it.
- JavaScript numbers: timestamps are unbounded integers. Double-precision
  effects are not modelled.
- JSON kinds other than string, `null` and absent, for `repoUrl` or for the
  fields of the GitHub response (numbers, objects, arrays): they raise other
  TypeErrors or interpolate differently. For a `null` or missing `repoUrl`,
  the model uses the error text of the V8 engine.
- `Pipeline.Serve`: does not model an exception thrown while writing the
  response itself.
