/** The `POST /api/mentor` request handler as a pure function from what the
    framework gave it (the parsed body and the API key) to the response. */
module Mentor {
  import opened Wrappers
  import opened Messages

  /** What `await request.json()` produced. */
  datatype Body =
    | Unparsable                                  // the body was not JSON: `request.json()` threw
    | Parsed(messages: Option<seq<ChatMessage>>)  // `body?.messages`; None when the body or the field is null or absent

  /** Token counters of a reply. */
  datatype Usage = Usage(promptTokens: int, completionTokens: int, totalTokens: int)

  /** The JSON the handler answers with, and its HTTP status (see Status). */
  datatype Response =
    | ErrorReply(status: int, error: string)
    | Reply(model: string, usage: Usage, message: ChatMessage)

  const ModelName := "solar-pro-2"
  const ZeroUsage := Usage(0, 0, 0)
  const MissingMessages := "messages array is required"
  const HandlingFailed := "failed to handle request"

  /** The fixed pieces of the reply given when no API key is configured. */
  const MockHeader := "모의 응답입니다. Upstage API 키가 설정되면 실제 응답이 반환됩니다.\n\n"
  const EchoOpen := "사용자 입력: \""
  const EchoClose := "\"\n\n"
  const MockFooter := "지금은 PRD 기능 구현을 위한 UI/흐름 검증 단계입니다."

  /** The reply given when an API key is configured. */
  const SafeModeReply := "임시 안전 모드 응답입니다. 실제 Upstage 연동은 활성화 전 사전 검증 후 전환됩니다."

  /** HTTP status of a response; `NextResponse.json` defaults to 200. */
  function Status(r: Response): (s: int)
    ensures r.Reply? ==> s == 200
    ensures r.ErrorReply? ==> s == r.status
  {
    if r.ErrorReply? then r.status else 200
  }

  /** JavaScript truthiness of a string that may be `undefined`. */
  predicate Truthy(s: Option<string>): (b: bool)
    ensures b <==> s != None && s != Some("")
  {
    s.Some? && s.value != ""
  }

  /** Reference definition: the position of the most recent user message. */
  function LastUserIndex(ms: seq<ChatMessage>): (r: Option<nat>)
    ensures r.None? <==> forall i :: 0 <= i < |ms| ==> ms[i].role != User
    ensures r.Some? ==> r.value < |ms| && ms[r.value].role == User
    ensures r.Some? ==> forall j :: r.value < j < |ms| ==> ms[j].role != User
  {
    if ms == [] then None
    else if ms[|ms| - 1].role == User then Some(|ms| - 1)
    else LastUserIndex(ms[..|ms| - 1])
  }

  /** `[...ms].reverse()`: a fresh sequence holding the messages back to front. */
  function Reversed(ms: seq<ChatMessage>): (r: seq<ChatMessage>)
    ensures |r| == |ms|
    ensures forall k :: 0 <= k < |ms| ==> r[k] == ms[|ms| - 1 - k]
  {
    if ms == [] then [] else [ms[|ms| - 1]] + Reversed(ms[..|ms| - 1])
  }

  /** `.find((m) => m.role === "user")?.content`: the content of the first user message. */
  function FirstUserContent(ms: seq<ChatMessage>): (r: Option<string>)
    ensures r.None? <==> forall i :: 0 <= i < |ms| ==> ms[i].role != User
    ensures r.Some? ==> exists i :: 0 <= i < |ms| && ms[i].role == User && ms[i].content == r.value &&
                                    forall j :: 0 <= j < i ==> ms[j].role != User
  {
    if ms == [] then None
    else if ms[0].role == User then Some(ms[0].content)
    else
      var r := FirstUserContent(ms[1..]);
      assert forall i :: 0 <= i < |ms| - 1 ==> ms[1..][i] == ms[i + 1];
      r
  }

  /** `lastUserMessage` exactly as the handler computes it. */
  function LastUserContent(ms: seq<ChatMessage>): (r: Option<string>)
    ensures r.None? <==> forall i :: 0 <= i < |ms| ==> ms[i].role != User
    ensures r.Some? ==> exists i :: 0 <= i < |ms| && ms[i].role == User && ms[i].content == r.value
  {
    var rev := Reversed(ms);
    assert forall i :: 0 <= i < |ms| ==> ms[i] == rev[|ms| - 1 - i];
    FirstUserContent(rev)
  }

  /** The reverse-then-find scan picks the most recent user message: none when
      there is no user message, and never an earlier one over a later one. */
  lemma {:induction false} LastUserContentIsLatest(ms: seq<ChatMessage>)
    ensures LastUserContent(ms) == match LastUserIndex(ms)
                                   case None => None
                                   case Some(i) => Some(ms[i].content)
  {
    if ms != [] {
      var prefix := ms[..|ms| - 1];
      assert Reversed(ms)[1..] == Reversed(prefix);
      if ms[|ms| - 1].role != User {
        LastUserContentIsLatest(prefix);
      }
    }
  }

  /** The content of the mock reply for the selected user input. */
  function MockContent(last: Option<string>): (r: string)
    ensures |MockHeader| + |MockFooter| <= |r|
    ensures r[..|MockHeader|] == MockHeader
    ensures r[|r| - |MockFooter|..] == MockFooter
  {
    MockHeader + (if Truthy(last) then EchoOpen + last.value + EchoClose else "") + MockFooter
  }

  /** Reads the echoed user input back out of a mock reply: the inverse of MockContent. */
  function EchoedInput(content: string): Option<string> {
    if |content| <= |MockHeader| + |EchoOpen| + |EchoClose| + |MockFooter| then None
    else Some(content[|MockHeader| + |EchoOpen| .. |content| - |EchoClose| - |MockFooter|])
  }

  /** The echo clause appears exactly when the selected content is truthy, and
      then it carries that content unaltered. */
  lemma MockContentRoundTrip(last: Option<string>)
    ensures EchoedInput(MockContent(last)) == if Truthy(last) then last else None
  {
    var r := MockContent(last);
    if Truthy(last) {
      var v := last.value;
      assert r == MockHeader + EchoOpen + v + EchoClose + MockFooter;
      assert |r| == |MockHeader| + |EchoOpen| + |v| + |EchoClose| + |MockFooter|;
      assert r[|MockHeader| + |EchoOpen| .. |r| - |EchoClose| - |MockFooter|] == v;
    } else {
      assert r == MockHeader + MockFooter;
    }
  }

  /** The whole handler: validation first, then the branch on the API key. */
  function Handle(body: Body, apiKey: Option<string>): (r: Response)
    ensures body.Unparsable? ==> r == ErrorReply(500, HandlingFailed)
    ensures body.Parsed? && (body.messages.None? || body.messages.value == []) ==>
              r == ErrorReply(400, MissingMessages)
    ensures r.Reply? <==> body.Parsed? && body.messages.Some? && body.messages.value != []
    ensures r.Reply? ==> Status(r) == 200 && r.model == ModelName && r.message.role == Assistant
    ensures r.Reply? ==> r.usage == ZeroUsage
    ensures r.Reply? && Truthy(apiKey) ==> r.message.content == SafeModeReply
  {
    match body
    case Unparsable => ErrorReply(500, HandlingFailed)
    case Parsed(messages) =>
      if messages.None? || |messages.value| == 0 then
        ErrorReply(400, MissingMessages)
      else if !Truthy(apiKey) then
        Reply(ModelName, ZeroUsage, ChatMessage(Assistant, MockContent(LastUserContent(messages.value))))
      else
        Reply(ModelName, ZeroUsage, ChatMessage(Assistant, SafeModeReply))
  }

  /** `s` occurs in `t` starting at position `k`. */
  predicate OccursAt(t: string, s: string, k: nat) {
    k + |s| <= |t| && t[k..k + |s|] == s
  }

  /** `s` occurs in `t` as a contiguous piece. */
  ghost predicate Contains(t: string, s: string) {
    exists k: nat | k <= |t| :: OccursAt(t, s, k)
  }

  /** Without a key, a request whose most recent user message is `ms[i]` gets the
      mock reply echoing exactly that message, which can be read back out of it. */
  lemma MockEchoesLatestUserMessage(ms: seq<ChatMessage>, i: nat, apiKey: Option<string>)
    requires i < |ms| && ms[i].role == User && ms[i].content != ""
    requires forall j :: i < j < |ms| ==> ms[j].role != User
    requires !Truthy(apiKey)
    ensures Handle(Parsed(Some(ms)), apiKey).Reply?
    ensures Handle(Parsed(Some(ms)), apiKey).message.content
            == MockHeader + EchoOpen + ms[i].content + EchoClose + MockFooter
    ensures EchoedInput(Handle(Parsed(Some(ms)), apiKey).message.content) == Some(ms[i].content)
    ensures Contains(Handle(Parsed(Some(ms)), apiKey).message.content, EchoOpen + ms[i].content + EchoClose)
  {
    LastUserContentIsLatest(ms);
    assert LastUserIndex(ms) == Some(i);
    MockContentRoundTrip(Some(ms[i].content));
    var c := Handle(Parsed(Some(ms)), apiKey).message.content;
    var e := EchoOpen + ms[i].content + EchoClose;
    assert c == MockHeader + e + MockFooter;
    assert c[|MockHeader|..|MockHeader| + |e|] == e;
    assert OccursAt(c, e, |MockHeader|);
  }

  /** Without a key, a history whose most recent user message `ms[i]` is the
      empty string gets the mock reply without the echo clause (`""` is falsy). */
  lemma MockOmitsEchoForEmptyInput(ms: seq<ChatMessage>, i: nat, apiKey: Option<string>)
    requires i < |ms| && ms[i].role == User && ms[i].content == ""
    requires forall j :: i < j < |ms| ==> ms[j].role != User
    requires !Truthy(apiKey)
    ensures Handle(Parsed(Some(ms)), apiKey) == Reply(ModelName, ZeroUsage, ChatMessage(Assistant, MockHeader + MockFooter))
    ensures EchoedInput(Handle(Parsed(Some(ms)), apiKey).message.content) == None
  {
    LastUserContentIsLatest(ms);
    MockContentRoundTrip(LastUserContent(ms));
  }

  /** Without a key, a non-empty history with no user message at all gets the
      mock reply without the echo clause. */
  lemma MockOmitsEchoWithoutUserMessage(ms: seq<ChatMessage>, apiKey: Option<string>)
    requires ms != [] && !Truthy(apiKey)
    requires forall i :: 0 <= i < |ms| ==> ms[i].role != User
    ensures Handle(Parsed(Some(ms)), apiKey) == Reply(ModelName, ZeroUsage, ChatMessage(Assistant, MockHeader + MockFooter))
    ensures EchoedInput(Handle(Parsed(Some(ms)), apiKey).message.content) == None
  {
    LastUserContentIsLatest(ms);
    MockContentRoundTrip(LastUserContent(ms));
  }

  /** With a key, the reply does not depend on what the messages say: a
      corollary of the last ensures of Handle, stated for two histories. */
  lemma KeyedReplyIgnoresMessages(ms1: seq<ChatMessage>, ms2: seq<ChatMessage>, apiKey: Option<string>)
    requires ms1 != [] && ms2 != [] && Truthy(apiKey)
    ensures Handle(Parsed(Some(ms1)), apiKey) == Handle(Parsed(Some(ms2)), apiKey)
                                              == Reply(ModelName, ZeroUsage, ChatMessage(Assistant, SafeModeReply))
  {
  }

  /** A single user message "안녕" without a key: status 200, and the reply
      contains `사용자 입력: "안녕"`. */
  lemma GreetingIsEchoed()
    ensures Status(Handle(Parsed(Some([ChatMessage(User, "안녕")])), None)) == 200
    ensures Contains(Handle(Parsed(Some([ChatMessage(User, "안녕")])), None).message.content,
                     "사용자 입력: \"안녕\"")
  {
    var ms := [ChatMessage(User, "안녕")];
    MockEchoesLatestUserMessage(ms, 0, None);
    var c := Handle(Parsed(Some(ms)), None).message.content;
    var k := |MockHeader|;
    var s := "사용자 입력: \"안녕\"";
    assert c[k..k + |s|] == s;
    assert OccursAt(c, s, k);
  }
}
