# AI study mentor: the chat send cycle and the mentor endpoint, in Dafny

This project models the two pieces of logic in the "AI study mentor" web chat:

- **The mentor endpoint** (`POST /api/mentor`, module `Mentor` in `mentor.dfy`). It is a pure
  function `Handle` from the parsed request body and the configured API key to a response.
  A body that cannot be parsed gives 500 `failed to handle request`. A missing or empty
  `messages` gives 400 `messages array is required`, whatever the key. With no key (absent or
  the empty string) the reply is a mock. The mock embeds the content of the most recent user
  message, found by the handler's reverse-then-find scan, when that content is non-empty.
  With a key the reply is a fixed safe-mode placeholder. Every reply has model
  `solar-pro-2`, zero token counters and role `assistant`.
- **The chat page's `sendMessage`** (module `Chat` in `chat.dfy`). A class `ChatSession`
  holds the page's four state cells: `messages`, `input`, `loading` and `error`. A blank input
  (every character is one that `trim` removes) or a send already in flight changes nothing.
  An accepted send appends the user message, clears the input, sets `loading` and clears
  `error` before the outcome is known (`BeginSend`). It then appends the assistant reply
  (`응답이 비어 있습니다.` when the reply has no content) or sets the error
  `네트워크 또는 서버 오류입니다.`, and clears `loading` either way (`CompleteSend`).
  `SendMessage` is the two steps together. The network result is an explicit `Outcome`
  parameter.

`Messages` (`messages.dfy`) holds the shared `ChatMessage` record, and `Wrappers`
(`wrappers.dfy`) holds `Option`. `Option` stands for JavaScript's `undefined`/`null`.

Both halves are tied together by `Chat.SentHistoryIsAnswered`. The history the page posts
always ends with the new, non-blank user message, so the endpoint never rejects it. With no
key, the mock reply carries back exactly the text that was typed.

The reverse scan in the handler runs on a copy (`[...body.messages]`). In this model,
sequences are values, so the request's messages cannot be changed by `Handle`; that property
holds by construction.

## Model

| member | source | states |
|---|---|---|
| `Mentor.Handle` | src/app/api/mentor/route.ts:8-59 | an unparsable body gives 500 `failed to handle request`; absent or empty `messages` gives 400 `messages array is required` for any key; a reply is given exactly when messages are present and non-empty; every reply has status 200, model `solar-pro-2`, role assistant, and prompt, completion and total token counters all 0; with a truthy key the content is the safe-mode placeholder |
| `Mentor.LastUserIndex` | src/app/api/mentor/route.ts:23-25 | reference definition of "most recent user message": none exactly when no message has role user; otherwise a user message with no user message after it |
| `Mentor.Reversed` | src/app/api/mentor/route.ts:23-24 | the reversed copy has the same length and holds element `len-1-k` at position `k` |
| `Mentor.Status` | src/app/api/mentor/route.ts:13-16 | an error response carries its own status (400 here, 500 at lines 54-57); a reply has the default status 200 of `NextResponse.json` |
| `Mentor.Truthy` | src/app/api/mentor/route.ts:22 | JavaScript truthiness of an optional string, as used by `!apiKey` and by `lastUserMessage ?` at line 34: true exactly when the string is present and not `""` |
| `Mentor.FirstUserContent` | src/app/api/mentor/route.ts:25 | `.find(m => m.role === "user")?.content`: none exactly when no message has role user; otherwise the content of a user message with no user message before it |
| `Mentor.LastUserContent` | src/app/api/mentor/route.ts:23-25 | the handler's `lastUserMessage`: none exactly when no message has role user; otherwise the content of some user message (which one: `LastUserContentIsLatest`) |
| `Mentor.LastUserContentIsLatest` | src/app/api/mentor/route.ts:22-25 | the handler's reverse-then-find picks the content of the most recent user message, and none when there is no user message |
| `Mentor.MockContent` | src/app/api/mentor/route.ts:31-37 | the mock text starts with the fixed header and ends with the fixed footer |
| `Mentor.MockContentRoundTrip` | src/app/api/mentor/route.ts:33-37 | reading the echo back out of the mock text gives the selected content when it is truthy and nothing when it is absent or empty, so the clause appears exactly for truthy content and carries it unaltered |
| `Mentor.MockEchoesLatestUserMessage` | src/app/api/mentor/route.ts:22-39 | with no key, the reply is header + `사용자 입력: "<c>"` + footer for the content `c` of the most recent user message (if non-empty); it contains that clause and `c` can be read back from it, so no earlier user message is chosen |
| `Mentor.MockOmitsEchoForEmptyInput` | src/app/api/mentor/route.ts:22-39 | with no key, when the most recent user message is the empty string (falsy), the reply is exactly header + footer, whatever earlier user messages say |
| `Mentor.MockOmitsEchoWithoutUserMessage` | src/app/api/mentor/route.ts:22-39 | with no key and no user message in a non-empty history, the reply is exactly header + footer |
| `Mentor.KeyedReplyIgnoresMessages` | src/app/api/mentor/route.ts:42-52 | with a truthy key, any two non-empty histories get the same placeholder reply (a corollary of `Handle`'s contract) |
| `Mentor.GreetingIsEchoed` | src/app/api/mentor/route.ts:22-39 | the request with one user message `안녕` and no key gets status 200 and a reply containing `사용자 입력: "안녕"` |
| `Chat.OutcomeOf` | src/app/page.tsx:26-30 | the page sees a delivered reply exactly for a 2xx status, and for an endpoint reply it receives that reply's content |
| `Chat.IsBlank` | src/app/page.tsx:14 | an input is blank exactly when every character is one that `trim` removes |
| `Chat.ReplyContent` | src/app/page.tsx:30 | the appended text is the reply content when present, otherwise `응답이 비어 있습니다.` |
| `Chat.TranscriptAlternates` | src/app/page.tsx:15-31 | N answered sends give 2N messages, user at even and assistant at odd positions, each pair holding that send's input and reply, and the history stays well formed |
| `Chat.TranscriptExtends` | src/app/page.tsx:15-31 | appending one successful send's user and assistant messages to the transcript of earlier turns gives the transcript with that turn added; this is the step `Chat.Converse` uses to tie a run of `SendMessage` calls to the transcript |
| `Chat.AppendQuestion` | src/app/page.tsx:15-16 | appending the user message keeps every assistant message directly after a user message |
| `Chat.AppendAnswer` | src/app/page.tsx:31 | appending an assistant message right after a user message keeps the history well formed |
| `Chat.SentHistoryIsAnswered` | src/app/page.tsx:15-24 | the posted history (old history + new non-blank user message) is always answered with a reply, which the page sees as delivered; with no key the reply is the mock whose echo clause carries the typed text |
| `Chat.Converse` | src/app/page.tsx:13-37 | on a fresh page, typing and sending N non-blank questions whose requests are each answered leaves exactly the transcript of those turns: 2N messages alternating user then assistant, input `""`, not loading and no error |
| `Chat.ChatSession.constructor` | src/app/page.tsx:8-11 | the page starts with no messages, empty input, not loading and no error |
| `Chat.ChatSession.Type` | src/app/page.tsx:75 | typing replaces `input` and changes nothing else |
| `Chat.ChatSession.BeginSend` | src/app/page.tsx:14-19 | a blank input or a send in flight changes nothing; otherwise the history gains the untrimmed input as a user message and input is `""`, loading true and error null before any outcome is known; the posted history is the new one |
| `Chat.ChatSession.CompleteSend` | src/app/page.tsx:20-36 | a delivered reply appends exactly one assistant message; a failure appends nothing and sets `네트워크 또는 서버 오류입니다.`; loading is false afterwards in both cases; appending only |
| `Chat.ChatSession.SendMessage` | src/app/page.tsx:13-37 | the whole send: dropped sends change nothing; an accepted send ends with input `""`, loading false, and history = old + user message (+ assistant message and error null on success, or error set on failure); the history stays well formed |

## Left out

- Reading `process.env.UPSTAGE_API_KEY`: the key is the `apiKey: Option<string>` parameter of `Handle`.
- `request.json()`, `NextResponse.json`, `fetch`, `res.json()` and JSON serialisation are framework and network calls. The parsed body is the `Body` input, the response is the `Response` value, and the network result is the `Outcome` input.
- Bodies that do not have the declared shape: a non-array `messages` or a `null` element would make the JavaScript throw (and so answer 500) or take other paths. The model types the body as a sequence of `ChatMessage`.
- Exceptions other than a parse failure: with a typed body, nothing else in the handler can throw.
- React's asynchronous scheduling, the stale capture of `loading` and interleaving at `await` points. One send is one atomic transition; `BeginSend` and `CompleteSend` expose the two halves around the `await`.
- The `context` field of the request body is ignored by the handler and is not modelled.
- JSX rendering, styling, the context panel, and the Enter-key and button handlers (src/app/page.tsx:39-104). These only call `sendMessage`.
- `Chat.IsBlank`: trimming is abstracted as "every character is ECMAScript white space or a line terminator"; Dafny characters are Unicode scalar values, not UTF-16 code units.
