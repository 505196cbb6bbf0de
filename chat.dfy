/** The chat page's send cycle: four pieces of UI state and the `sendMessage`
    transition over them, with the network outcome given as an input. */
module Chat {
  import opened Wrappers
  import opened Messages
  import Mentor

  const EmptyReply := "응답이 비어 있습니다."
  const NetworkError := "네트워크 또는 서버 오류입니다."

  /** How the request of one send ended. */
  datatype Outcome =
    | Delivered(content: Option<string>)  // `res.ok`; the reply's `data?.message?.content`
    | Failed                              // `fetch` threw, `res.ok` was false, or the body was not JSON

  /** The outcome the page sees when the endpoint answers `r` (`res.ok` holds for 2xx). */
  function OutcomeOf(r: Mentor.Response): (o: Outcome)
    ensures o.Delivered? <==> 200 <= Mentor.Status(r) < 300
    ensures r.Reply? ==> o == Delivered(Some(r.message.content))
  {
    var status := Mentor.Status(r);
    if 200 <= status < 300 then
      Delivered(if r.Reply? then Some(r.message.content) else None)
    else
      Failed
  }

  /** The characters `String.prototype.trim` removes: ECMAScript WhiteSpace
      (including the space separators of Unicode) and LineTerminator. */
  predicate IsWhitespace(c: char) {
    c in {'\t', '\n', '\U{B}', '\U{C}', '\r', ' ', '\U{A0}', '\U{1680}',
          '\U{2000}', '\U{2001}', '\U{2002}', '\U{2003}', '\U{2004}', '\U{2005}',
          '\U{2006}', '\U{2007}', '\U{2008}', '\U{2009}', '\U{200A}',
          '\U{2028}', '\U{2029}', '\U{202F}', '\U{205F}', '\U{3000}', '\U{FEFF}'}
  }

  /** `!s.trim()`: trimming leaves nothing. */
  function IsBlank(s: string): (r: bool)
    ensures r <==> forall i :: 0 <= i < |s| ==> IsWhitespace(s[i])
  {
    s == [] || (IsWhitespace(s[0]) && IsBlank(s[1..]))
  }

  /** The assistant text appended for a delivered reply (`?? "응답이 비어 있습니다."`). */
  function ReplyContent(o: Outcome): (r: string)
    requires o.Delivered?
    ensures o.content.Some? ==> r == o.content.value
    ensures o.content.None? ==> r == EmptyReply
  {
    o.content.GetOr(EmptyReply)
  }

  /** A history the page can build: every assistant message answers the user
      message just before it, and no system message is ever added. */
  ghost predicate WellFormed(ms: seq<ChatMessage>) {
    forall i :: 0 <= i < |ms| ==> FitsAt(ms, i)
  }

  /** `ms[i]` is a user message, or an answer to the user message before it. */
  ghost predicate FitsAt(ms: seq<ChatMessage>, i: nat)
    requires i < |ms|
  {
    ms[i].role == User || (ms[i].role == Assistant && 0 < i && ms[i - 1].role == User)
  }

  /** One answered exchange. */
  datatype Turn = Turn(question: string, answer: string)

  /** The history that a run of successful sends leaves behind. */
  function Transcript(turns: seq<Turn>): seq<ChatMessage> {
    if turns == [] then []
    else
      var last := turns[|turns| - 1];
      Transcript(turns[..|turns| - 1]) + [ChatMessage(User, last.question), ChatMessage(Assistant, last.answer)]
  }

  /** N successful sends give 2N messages, user then assistant in turn, each
      pair holding that send's input and its reply. */
  lemma {:induction false} TranscriptAlternates(turns: seq<Turn>)
    ensures |Transcript(turns)| == 2 * |turns|
    ensures forall i :: 0 <= i < |Transcript(turns)| ==>
              Transcript(turns)[i].role == if i % 2 == 0 then User else Assistant
    ensures forall k :: 0 <= k < |turns| ==>
              Transcript(turns)[2 * k] == ChatMessage(User, turns[k].question) &&
              Transcript(turns)[2 * k + 1] == ChatMessage(Assistant, turns[k].answer)
    ensures WellFormed(Transcript(turns))
  {
    if turns != [] {
      TranscriptAlternates(turns[..|turns| - 1]);
    }
  }

  /** What one successful send appends (see ChatSession.SendMessage) turns the
      transcript of the earlier turns into the transcript with one more turn. */
  lemma {:induction false} TranscriptExtends(turns: seq<Turn>, question: string, answer: string)
    ensures Transcript(turns) + [ChatMessage(User, question), ChatMessage(Assistant, answer)]
            == Transcript(turns + [Turn(question, answer)])
  {
    assert (turns + [Turn(question, answer)])[..|turns|] == turns;
  }

  /** Appending the user message of a send keeps a history well formed. */
  lemma AppendQuestion(ms: seq<ChatMessage>, text: string)
    requires WellFormed(ms)
    ensures WellFormed(ms + [ChatMessage(User, text)])
  {
    var ms' := ms + [ChatMessage(User, text)];
    forall i | 0 <= i < |ms'|
      ensures FitsAt(ms', i)
    {
      if i < |ms| {
        assert FitsAt(ms, i);
        assert ms'[i] == ms[i];
        if 0 < i { assert ms'[i - 1] == ms[i - 1]; }
      }
      else { assert ms'[i] == ChatMessage(User, text); }
    }
  }

  /** Appending an answer right after a user message keeps a history well formed. */
  lemma AppendAnswer(ms: seq<ChatMessage>, text: string)
    requires WellFormed(ms) && ms != [] && ms[|ms| - 1].role == User
    ensures WellFormed(ms + [ChatMessage(Assistant, text)])
  {
    var ms' := ms + [ChatMessage(Assistant, text)];
    forall i | 0 <= i < |ms'|
      ensures FitsAt(ms', i)
    {
      if i < |ms| {
        assert FitsAt(ms, i);
        assert ms'[i] == ms[i];
        if 0 < i { assert ms'[i - 1] == ms[i - 1]; }
      }
      else { assert ms'[i] == ChatMessage(Assistant, text) && ms'[i - 1] == ms[|ms| - 1]; }
    }
  }

  /** The request the page posts is never rejected: it holds at least the new
      user message. Without a key the reply is the mock that echoes exactly
      what was typed (read back by Mentor.MockContentRoundTrip). */
  lemma SentHistoryIsAnswered(history: seq<ChatMessage>, text: string, apiKey: Option<string>)
    requires !IsBlank(text)
    ensures Mentor.Handle(Mentor.Parsed(Some(history + [ChatMessage(User, text)])), apiKey).Reply?
    ensures OutcomeOf(Mentor.Handle(Mentor.Parsed(Some(history + [ChatMessage(User, text)])), apiKey)).Delivered?
    ensures !Mentor.Truthy(apiKey) ==>
              Mentor.Truthy(Some(text)) &&
              Mentor.Handle(Mentor.Parsed(Some(history + [ChatMessage(User, text)])), apiKey).message.content
              == Mentor.MockContent(Some(text))
  {
  }

  /** The state cells of the chat page (`messages`, `input`, `loading`, `error`). */
  class ChatSession {
    var messages: seq<ChatMessage>
    var input: string
    var loading: bool
    var error: Option<string>

    /** The history is one the page can build, and while a request is in
        flight the last message is the user message awaiting its answer. */
    ghost predicate Valid()
      reads this
    {
      WellFormed(messages) &&
      (loading ==> messages != [] && messages[|messages| - 1].role == User)
    }

    /** The initial `useState` values. */
    constructor ()
      ensures Valid()
      ensures messages == [] && input == "" && !loading && error == None
    {
      messages := [];
      input := "";
      loading := false;
      error := None;
    }

    /** The text field's `onChange`: `setInput(e.target.value)`. */
    method Type(text: string)
      requires Valid()
      modifies this
      ensures Valid()
      ensures input == text
      ensures messages == old(messages) && loading == old(loading) && error == old(error)
    {
      input := text;
    }

    /** Everything `sendMessage` does before its request is answered: the
        guard, then the optimistic update. Returns the history it posts, or
        None when the guard drops the send. */
    method BeginSend() returns (request: Option<seq<ChatMessage>>)
      requires Valid()
      modifies this
      ensures Valid()
      ensures request.None? <==> old(IsBlank(input)) || old(loading)
      ensures request.None? ==> unchanged(this)
      ensures request.Some? ==>
                request.value == old(messages) + [ChatMessage(User, old(input))] &&
                messages == request.value && input == "" && loading && error == None
    {
      if IsBlank(input) || loading {
        return None;
      }
      var nextMessages := messages + [ChatMessage(User, input)];
      AppendQuestion(messages, input);
      messages := nextMessages;
      input := "";
      loading := true;
      error := None;
      request := Some(nextMessages);
    }

    /** The rest of `sendMessage` once the request has ended: append the reply
        or record the error, then clear `loading` in either case. */
    method CompleteSend(outcome: Outcome)
      requires Valid() && loading
      modifies this
      ensures Valid() && !loading
      ensures input == old(input)
      ensures outcome.Delivered? ==>
                messages == old(messages) + [ChatMessage(Assistant, ReplyContent(outcome))] &&
                error == old(error)
      ensures outcome.Failed? ==> messages == old(messages) && error == Some(NetworkError)
    {
      match outcome {
        case Delivered(_) =>
          var content := ReplyContent(outcome);
          AppendAnswer(messages, content);
          messages := messages + [ChatMessage(Assistant, content)];
        case Failed =>
          error := Some(NetworkError);
      }
      loading := false;
    }

    /** `sendMessage` as one atomic transition whose request ends with `outcome`. */
    method SendMessage(outcome: Outcome) returns (request: Option<seq<ChatMessage>>)
      requires Valid()
      modifies this
      ensures Valid()
      ensures request.None? <==> old(IsBlank(input)) || old(loading)
      ensures request.None? ==> unchanged(this)
      ensures request.Some? ==>
                request.value == old(messages) + [ChatMessage(User, old(input))] &&
                input == "" && !loading
      ensures request.Some? && outcome.Delivered? ==>
                messages == request.value + [ChatMessage(Assistant, ReplyContent(outcome))] &&
                error == None
      ensures request.Some? && outcome.Failed? ==>
                messages == request.value && error == Some(NetworkError)
    {
      request := BeginSend();
      if request.Some? {
        CompleteSend(outcome);
      }
    }
  }

  /** A conversation on a fresh page: each turn's question is typed and sent,
      and its request is answered with that turn's reply. Starting from the
      empty history, N such sends leave 2N messages, user then assistant. */
  method Converse(turns: seq<Turn>) returns (s: ChatSession)
    requires forall k :: 0 <= k < |turns| ==> !IsBlank(turns[k].question)
    ensures s.Valid() && !s.loading && s.error == None && s.input == ""
    ensures s.messages == Transcript(turns) && |s.messages| == 2 * |turns|
    ensures forall i :: 0 <= i < |s.messages| ==>
              s.messages[i].role == if i % 2 == 0 then User else Assistant
  {
    s := new ChatSession();
    var n := 0;
    while n < |turns|
      invariant 0 <= n <= |turns|
      invariant fresh(s)
      invariant s.Valid() && !s.loading && s.error == None && s.input == ""
      invariant s.messages == Transcript(turns[..n])
    {
      var t := turns[n];
      s.Type(t.question);
      var request := s.SendMessage(Delivered(Some(t.answer)));
      TranscriptExtends(turns[..n], t.question, t.answer);
      assert turns[..n + 1] == turns[..n] + [t];
      n := n + 1;
    }
    assert turns[..n] == turns;
    TranscriptAlternates(turns);
  }
}
