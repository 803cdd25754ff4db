/** The standalone chat client: a conversation that starts with one system
    message built from the personality rules and the application rules, a
    running token total, trimming before each request, and the streamed
    variant that groups deltas into sentences. */
module GptClient {
  import opened Text
  import opened Chat

  const MaxModelTokens := 4096
  const MaxResponseTokens := 250

  /** The application rules. Two adjacent literals in the source have no
      comma between them, so the fourth rule is their concatenation (with no
      space) and the list has eight entries. */
  const AppRules: seq<string> := [
    "Do your best to give me responses in less than 40 words.",
    "You understand all languages",
    "I am communicating with you through a speech to text engine which may not always hear me correctly. Adjust for this, but don't tell me you're adjusting.",
    "If a query appears nonsensical, likely due to speech-to-text errors or ambient noise, respond with '-1' to indicate the issue and include no other text.In such a case, it is possible you are hearing me talking to someone else.",
    "Be aware that I will be using a speech-to-text engine that may not always be accurate.",
    "If I make a spelling mistake, don't point it out.",
    "Also, prompt me occasionally with relevant or interesting questions to foster a two-way conversation",
    "I will sometimes use the NATO phonetic alphabet."
  ]

  // ---------------------------------------------------------------------------
  // Making room for the response

  /** Where the trimming loop stops: the conversation, the running total,
      and whether `pop(1)` raised an IndexError for want of a second
      message. */
  datatype Trimmed = Trimmed(conversation: seq<Message>, total: int, failed: bool)

  /** The trimming loop as a function of the state it starts from. Each
      pass removes the message after the system message and then SETS the
      total to that message's token count. */
  function Trim(conv: seq<Message>, total: int, count: string -> nat): Trimmed
    decreases |conv|
  {
    if total <= MaxModelTokens - MaxResponseTokens then Trimmed(conv, total, false)
    else if |conv| < 2 then Trimmed(conv, total, true)
    else Trim([conv[0]] + conv[2..], count(conv[1].content), count)
  }

  /** Trimming removes a run of messages right after the first one and
      keeps the rest in order; the total it leaves is the starting total if
      nothing was removed and otherwise the token count of the last message
      removed (not the tokens left). */
  lemma {:induction false} TrimShape(conv: seq<Message>, total: int, count: string -> nat)
    ensures var t := Trim(conv, total, count);
      && |t.conversation| <= |conv|
      && (|conv| >= 1 ==> 1 <= |t.conversation|)
      && (|conv| >= 1 ==> t.conversation == conv[..1] + conv[|conv| - |t.conversation| + 1..])
      && t.total == (if |t.conversation| == |conv| then total else count(conv[|conv| - |t.conversation|].content))
    decreases |conv|
  {
    if total > MaxModelTokens - MaxResponseTokens && |conv| >= 2 {
      var next := [conv[0]] + conv[2..];
      TrimShape(next, count(conv[1].content), count);
      var t := Trim(next, count(conv[1].content), count);
      var j := |next| - |t.conversation| + 1;
      assert next[..1] == conv[..1];
      assert next[j..] == conv[j + 1..];
      if |t.conversation| < |next| {
        assert next[j - 1] == conv[j];
      }
    }
  }

  /** Trimming stops within budget unless it failed, and it fails only with
      at most one message left. */
  lemma {:induction false} TrimStops(conv: seq<Message>, total: int, count: string -> nat)
    ensures var t := Trim(conv, total, count);
      && (t.failed ==> |t.conversation| <= 1)
      && (!t.failed ==> t.total <= MaxModelTokens - MaxResponseTokens)
    decreases |conv|
  {
    if total > MaxModelTokens - MaxResponseTokens && |conv| >= 2 {
      TrimStops([conv[0]] + conv[2..], count(conv[1].content), count);
    }
  }

  /** Trimming raises exactly when the total is over budget and every
      message after the first is, on its own, over budget too. */
  lemma {:induction false} TrimFailsIff(conv: seq<Message>, total: int, count: string -> nat)
    ensures Trim(conv, total, count).failed <==>
      total > MaxModelTokens - MaxResponseTokens
      && forall k :: 1 <= k < |conv| ==> count(conv[k].content) > MaxModelTokens - MaxResponseTokens
    decreases |conv|
  {
    if total > MaxModelTokens - MaxResponseTokens && |conv| >= 2 {
      var next := [conv[0]] + conv[2..];
      TrimFailsIff(next, count(conv[1].content), count);
      assert forall k :: 1 <= k < |next| ==> next[k] == conv[k + 1];
      if forall k :: 1 <= k < |conv| ==> count(conv[k].content) > MaxModelTokens - MaxResponseTokens {
        assert forall k :: 1 <= k < |next| ==> count(next[k].content) > MaxModelTokens - MaxResponseTokens;
      }
      if forall k :: 1 <= k < |next| ==> count(next[k].content) > MaxModelTokens - MaxResponseTokens {
        forall k | 2 <= k < |conv|
          ensures count(conv[k].content) > MaxModelTokens - MaxResponseTokens
        {
          assert next[k - 1] == conv[k];
        }
      }
    }
  }

  // ---------------------------------------------------------------------------
  // Grouping streamed deltas into sentences

  /** The content contains a sentence end: '.', '!', '?' or a newline. */
  predicate EndsSentence(c: string)
  {
    exists i :: 0 <= i < |c| && c[i] in ".!?\n"
  }

  /** The generator's local state: the groups yielded so far, the deltas
      buffered since the last yield, and the last delta kept in `content`. */
  datatype Grouping = Grouping(groups: seq<string>, buffer: seq<string>, content: string)

  function GroupStep(g: Grouping, delta: Option<string>): Grouping
  {
    match delta
    case None => g
    case Some(c) =>
      if EndsSentence(c) then Grouping(g.groups + [Concat(g.buffer + [c])], [], "")
      else Grouping(g.groups, g.buffer + [c], c)
  }

  function Group(deltas: seq<Option<string>>): Grouping
  {
    if deltas == [] then Grouping([], [], "")
    else GroupStep(Group(deltas[..|deltas| - 1]), deltas[|deltas| - 1])
  }

  /** The text of the deltas that carry content, in order. */
  function Present(deltas: seq<Option<string>>): seq<string>
  {
    if deltas == [] then []
    else match deltas[|deltas| - 1]
      case None => Present(deltas[..|deltas| - 1])
      case Some(c) => Present(deltas[..|deltas| - 1]) + [c]
  }

  /** What is yielded after the stream ends: the last delta, if it was not
      yielded already, is not empty, and is not "1" or "-1". */
  function Leftover(content: string): seq<string>
  {
    if content != "" && content != "1" && content != "-1" then [content] else []
  }

  /** Everything streamed is either in a yielded group or still buffered. */
  lemma {:induction false} GroupAccount(deltas: seq<Option<string>>)
    ensures Concat(Group(deltas).groups) + Concat(Group(deltas).buffer) == Concat(Present(deltas))
  {
    if deltas != [] {
      var init := deltas[..|deltas| - 1];
      GroupAccount(init);
      var g := Group(init);
      match deltas[|deltas| - 1]
      case None =>
      case Some(c) =>
        ConcatSnoc(Present(init), c);
        ConcatSnoc(g.buffer, c);
        if EndsSentence(c) {
          ConcatSnoc(g.groups, Concat(g.buffer + [c]));
        }
    }
  }

  /** `content` is the last buffered delta, or empty when nothing is
      buffered. */
  lemma {:induction false} GroupContent(deltas: seq<Option<string>>)
    ensures var g := Group(deltas);
      (g.buffer == [] ==> g.content == "") && (g.buffer != [] ==> g.content == g.buffer[|g.buffer| - 1])
  {
    if deltas != [] {
      GroupContent(deltas[..|deltas| - 1]);
    }
  }

  lemma EndsSentenceAppend(a: string, c: string)
    requires EndsSentence(c)
    ensures EndsSentence(a + c)
  {
    var i :| 0 <= i < |c| && c[i] in ".!?\n";
    assert (a + c)[|a| + i] == c[i];
  }

  /** Every yielded group contains a sentence end, and no buffered delta
      does. */
  lemma {:induction false} GroupEnds(deltas: seq<Option<string>>)
    ensures forall k :: 0 <= k < |Group(deltas).groups| ==> EndsSentence(Group(deltas).groups[k])
    ensures forall k :: 0 <= k < |Group(deltas).buffer| ==> !EndsSentence(Group(deltas).buffer[k])
  {
    if deltas != [] {
      var init := deltas[..|deltas| - 1];
      GroupEnds(init);
      var g := Group(init);
      assert Group(deltas) == GroupStep(g, deltas[|deltas| - 1]);
      match deltas[|deltas| - 1]
      case None =>
        assert Group(deltas) == g;
      case Some(c) =>
        if EndsSentence(c) {
          ConcatSnoc(g.buffer, c);
          EndsSentenceAppend(Concat(g.buffer), c);
          var groups := g.groups + [Concat(g.buffer + [c])];
          assert Group(deltas) == Grouping(groups, [], "");
          forall k | 0 <= k < |groups|
            ensures EndsSentence(groups[k])
          {
            if k < |g.groups| {
              assert groups[k] == g.groups[k];
            }
          }
        } else {
          var buffer := g.buffer + [c];
          assert Group(deltas) == Grouping(g.groups, buffer, c);
          forall k | 0 <= k < |buffer|
            ensures !EndsSentence(buffer[k])
          {
            if k < |g.buffer| {
              assert buffer[k] == g.buffer[k];
            }
          }
        }
    }
  }

  /** What the generator says (the groups, then the leftover) is the whole
      streamed text when at most one delta is buffered at the end and it is
      not "1" or "-1"; with two or more buffered deltas only the last one is
      said, and the earlier ones are lost. */
  lemma SaidIsStreamed(deltas: seq<Option<string>>)
    requires |Group(deltas).buffer| <= 1
    requires Group(deltas).content != "1" && Group(deltas).content != "-1"
    ensures Concat(Group(deltas).groups + Leftover(Group(deltas).content)) == Concat(Present(deltas))
  {
    var g := Group(deltas);
    GroupAccount(deltas);
    GroupContent(deltas);
    ConcatAppend(g.groups, Leftover(g.content));
    if g.buffer != [] {
      assert Concat(g.buffer) == g.buffer[0] + Concat([]);
    }
  }

  /** The grouping loop of the generator. */
  method GroupDeltas(deltas: seq<Option<string>>) returns (groups: seq<string>, buffer: seq<string>, content: string)
    ensures Grouping(groups, buffer, content) == Group(deltas)
  {
    groups, buffer, content := [], [], "";
    var i := 0;
    while i < |deltas|
      invariant i <= |deltas|
      invariant Grouping(groups, buffer, content) == Group(deltas[..i])
    {
      assert deltas[..i + 1][..i] == deltas[..i];
      if deltas[i].Some? {
        content := deltas[i].value;
        buffer := buffer + [content];
        if EndsSentence(content) {
          groups := groups + [Concat(buffer)];
          buffer := [];
          content := "";
        }
      }
      i := i + 1;
    }
    assert deltas[..i] == deltas;
  }

  // ---------------------------------------------------------------------------
  // The client

  class Client {
    const count: string -> nat
    var conversation: seq<Message>
    var totalTokens: int

    /** The conversation starts with one system message: the personality
        rules followed by the application rules, joined by spaces. */
    constructor(count: string -> nat, personalityRules: seq<string>)
      ensures this.count == count
      ensures conversation == [Message(System, Join(" ", personalityRules + AppRules))]
      ensures totalTokens == count(conversation[0].content)
    {
      this.count := count;
      conversation := [Message(System, Join(" ", personalityRules + AppRules))];
      totalTokens := count(Join(" ", personalityRules + AppRules));
    }

    /** Appends the user's message and adds its tokens to the total. */
    method AddUserMessage(message: string)
      modifies this
      ensures conversation == old(conversation) + [Message(User, message)]
      ensures totalTokens == old(totalTokens) + count(message)
    {
      conversation := conversation + [Message(User, message)];
      totalTokens := totalTokens + count(message);
    }

    /** The trimming loop; IndexError when no second message is left to
        remove. */
    method MakeRoom() returns (raised: Option<Exception>)
      modifies this
      ensures var t := Trim(old(conversation), old(totalTokens), count);
        && conversation == t.conversation && totalTokens == t.total
        && raised == (if t.failed then Some(IndexError) else None)
    {
      while totalTokens > MaxModelTokens - MaxResponseTokens
        invariant Trim(conversation, totalTokens, count) == Trim(old(conversation), old(totalTokens), count)
        decreases |conversation|
      {
        if |conversation| < 2 {
          return Some(IndexError);
        }
        var removed := conversation[1];
        conversation := [conversation[0]] + conversation[2..];
        totalTokens := count(removed.content);
      }
      return None;
    }

    /** get_response: `reply` is the completion the model returns (or the
        exception it raises). The reply is appended as the assistant's
        message and its tokens added. */
    method GetResponse(message: string, reply: Result<string>) returns (r: Result<string>)
      modifies this
      ensures var t := Trim(old(conversation) + [Message(User, message)], old(totalTokens) + count(message), count);
        if t.failed then
          r == Err(IndexError) && conversation == t.conversation && totalTokens == t.total
        else if reply.Err? then
          r == reply && conversation == t.conversation && totalTokens == t.total
        else
          && r == reply
          && conversation == t.conversation + [Message(Assistant, reply.value)]
          && totalTokens == t.total + count(reply.value)
    {
      AddUserMessage(message);
      var raised := MakeRoom();
      if raised.Some? {
        return Err(raised.value);
      }
      if reply.Err? {
        return reply;
      }
      totalTokens := totalTokens + count(reply.value);
      conversation := conversation + [Message(Assistant, reply.value)];
      r := reply;
    }

    /** get_response_generator, run to the end: `deltas` are the streamed
        delta contents (None for a chunk without content). It yields each
        group, then the leftover, then None, and appends what it said as the
        assistant's message. */
    method GetResponseGenerator(message: string, deltas: seq<Option<string>>)
      returns (yielded: seq<Option<string>>, raised: Option<Exception>)
      modifies this
      ensures var t := Trim(old(conversation) + [Message(User, message)], old(totalTokens) + count(message), count);
        var g := Group(deltas);
        var said := g.groups + Leftover(g.content);
        if t.failed then
          raised == Some(IndexError) && yielded == []
          && conversation == t.conversation && totalTokens == t.total
        else
          && raised == None && yielded == Somes(said) + [None]
          && conversation == t.conversation + [Message(Assistant, Concat(said))]
          && totalTokens == t.total + count(Concat(said))
    {
      AddUserMessage(message);
      raised := MakeRoom();
      if raised.Some? {
        return [], raised;
      }
      var groups, buffer, content := GroupDeltas(deltas);
      var said := groups + Leftover(content);
      yielded := Somes(said) + [None];
      var response := Concat(said);
      totalTokens := totalTokens + count(response);
      conversation := conversation + [Message(Assistant, response)];
    }
  }
}
