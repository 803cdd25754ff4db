/** The conversation manager: an ordered message log with a cached token
    total, the pruning loop that keeps it within the model's context budget,
    and the chunk filter that streams the model's reply. */
module ConversationStore {
  import opened Text
  import opened Chat

  // ---------------------------------------------------------------------------
  // Pruning

  /** What make_room leaves of `conv`: messages are dropped from the front
      while more than one remains and the total (system message included)
      exceeds the budget. */
  function Pruned(conv: seq<Message>, sysTokens: nat, budget: int, count: string -> nat): (r: seq<Message>)
    ensures |r| <= |conv| && r == conv[|conv| - |r|..]
    ensures |conv| >= 1 ==> |r| >= 1
    ensures |r| <= 1 || sysTokens + SumTokens(r, count) <= budget
    decreases |conv|
  {
    if |conv| > 1 && sysTokens + SumTokens(conv, count) > budget then Pruned(conv[1..], sysTokens, budget, count)
    else conv
  }

  /** make_room stops as soon as it may: every message it dropped was dropped
      while more than one message remained and the total was over budget. */
  lemma {:induction false} PrunedOnlyWhileOver(conv: seq<Message>, sysTokens: nat, budget: int, count: string -> nat)
    ensures var r := Pruned(conv, sysTokens, budget, count);
      forall k :: 0 <= k < |conv| - |r| ==> |conv| - k > 1 && sysTokens + SumTokens(conv[k..], count) > budget
  {
    if |conv| > 1 && sysTokens + SumTokens(conv, count) > budget {
      PrunedOnlyWhileOver(conv[1..], sysTokens, budget, count);
      var r := Pruned(conv, sysTokens, budget, count);
      forall k | 1 <= k < |conv| - |r|
        ensures |conv| - k > 1 && sysTokens + SumTokens(conv[k..], count) > budget
      {
        assert conv[1..][k - 1..] == conv[k..];
      }
    }
  }

  /** The tokens freed by pruning are exactly those of the dropped messages. */
  lemma PrunedFreesDropped(conv: seq<Message>, sysTokens: nat, budget: int, count: string -> nat)
    ensures var r := Pruned(conv, sysTokens, budget, count);
      SumTokens(conv, count) == SumTokens(conv[..|conv| - |r|], count) + SumTokens(r, count)
  {
    var r := Pruned(conv, sysTokens, budget, count);
    SumTokensAppend(conv[..|conv| - |r|], r, count);
    assert conv[..|conv| - |r|] + r == conv;
  }

  /** Pruning never brings a system message into the log. */
  lemma PrunedKeepsNoSystem(conv: seq<Message>, sysTokens: nat, budget: int, count: string -> nat)
    requires NoSystem(conv)
    ensures NoSystem(Pruned(conv, sysTokens, budget, count))
  {
    var r := Pruned(conv, sysTokens, budget, count);
    forall i | 0 <= i < |r|
      ensures r[i].role != System
    {
      assert r[i] == conv[|conv| - |r| + i];
    }
  }

  // ---------------------------------------------------------------------------
  // get_conversation

  /** Where get_conversation puts the system message: before the last two. */
  function SystemIndex(conv: seq<Message>): nat
  {
    if |conv| < 2 then 0 else |conv| - 2
  }

  /** conv[:-2] + [system_msg] + conv[-2:] */
  function GetConversation(conv: seq<Message>, sys: Message): (r: seq<Message>)
    ensures |r| == |conv| + 1
    ensures r[SystemIndex(conv)] == sys
    ensures r[..SystemIndex(conv)] + r[SystemIndex(conv) + 1..] == conv
    ensures |conv| < 2 ==> r[0] == sys
    ensures |conv| >= 2 ==> r[|r| - 2..] == conv[|conv| - 2..]
    ensures sys.role == System && NoSystem(conv) ==>
      forall j :: 0 <= j < |r| ==> (r[j].role == System <==> j == SystemIndex(conv))
  {
    var i := SystemIndex(conv);
    var r := conv[..i] + [sys] + conv[i..];
    assert r[..i] == conv[..i] && r[i + 1..] == conv[i..];
    r
  }

  // ---------------------------------------------------------------------------
  // The chunk filter of get_response

  /** A chunk that get_response passes on: not empty and not a lone "-". */
  predicate Yieldable(c: string) { c != "" && c != "-" }

  predicate IsOne(c: string) { c == "1" || c == "-1" }

  /** The chunks of `chunks` that are passed on, in order. */
  function Kept(chunks: seq<string>): (r: seq<string>)
    ensures |r| <= |chunks|
    ensures forall i :: 0 <= i < |r| ==> Yieldable(r[i])
  {
    if chunks == [] then []
    else
      var last := chunks[|chunks| - 1];
      Kept(chunks[..|chunks| - 1]) + (if Yieldable(last) then [last] else [])
  }

  /** Chunk `i` completes the nonsense answer "-1": the text received before
      it is exactly "-" and it is "1" or "-1". */
  predicate NonsenseAt(chunks: seq<string>, i: int)
  {
    0 <= i < |chunks| && IsOne(chunks[i]) && Concat(chunks[..i]) == "-"
  }

  predicate HasNonsense(chunks: seq<string>)
  {
    exists i :: 0 <= i < |chunks| && NonsenseAt(chunks, i)
  }

  lemma ConcatLengthMono(chunks: seq<string>, i: nat, j: nat)
    requires i <= j <= |chunks|
    ensures |Concat(chunks[..j])| == |Concat(chunks[..i])| + |Concat(chunks[i..j])|
  {
    assert chunks[..j] == chunks[..i] + chunks[i..j];
    ConcatAppend(chunks[..i], chunks[i..j]);
  }

  /** At most one chunk can complete the nonsense answer. */
  lemma NonsenseUnique(chunks: seq<string>, i: int, j: int)
    requires NonsenseAt(chunks, i) && NonsenseAt(chunks, j)
    ensures i == j
  {
    if i < j {
      ConcatLengthMono(chunks, i, j);
    } else if j < i {
      ConcatLengthMono(chunks, j, i);
    }
  }

  /** get_response's loop over the model's chunks: empty chunks are skipped,
      a "-" is accumulated but not passed on, and "1"/"-1" right after a
      lone "-" raises InvalidInputError (`nonsense`). */
  method FilterChunks(chunks: seq<string>) returns (yielded: seq<string>, response: string, nonsense: bool)
    ensures nonsense <==> HasNonsense(chunks)
    ensures nonsense ==> forall i :: NonsenseAt(chunks, i) ==> yielded == Kept(chunks[..i])
    ensures !nonsense ==> yielded == Kept(chunks) && response == Concat(chunks)
  {
    yielded, response, nonsense := [], "", false;
    var i := 0;
    while i < |chunks|
      invariant 0 <= i <= |chunks|
      invariant response == Concat(chunks[..i])
      invariant yielded == Kept(chunks[..i])
      invariant forall j :: 0 <= j < i ==> !NonsenseAt(chunks, j)
    {
      var chunk := chunks[i];
      assert chunks[..i + 1][..i] == chunks[..i];
      ConcatSnoc(chunks[..i], chunk);
      assert chunks[..i + 1] == chunks[..i] + [chunk];
      if chunk != "" {
        if IsOne(chunk) && response == "-" {
          nonsense := true;
          assert NonsenseAt(chunks, i);
          forall k | NonsenseAt(chunks, k)
            ensures yielded == Kept(chunks[..k])
          {
            NonsenseUnique(chunks, i, k);
          }
          return;
        }
        response := response + chunk;
        if chunk != "-" {
          yielded := yielded + [chunk];
        }
      }
      i := i + 1;
    }
    assert chunks[..i] == chunks;
  }

  /** The non-empty chunks, in order. */
  function NonEmpty(chunks: seq<string>): (r: seq<string>)
    ensures forall i :: 0 <= i < |r| ==> r[i] != ""
  {
    if chunks == [] then []
    else if chunks[0] == "" then NonEmpty(chunks[1..])
    else [chunks[0]] + NonEmpty(chunks[1..])
  }

  lemma ConcatCons(chunks: seq<string>, i: nat)
    requires 0 < i <= |chunks|
    ensures Concat(chunks[..i]) == chunks[0] + Concat(chunks[1..][..i - 1])
  {
    assert chunks[..i][1..] == chunks[1..][..i - 1];
  }

  /** Chunk `i` is "1" or "-1" and only empty chunks come before it. */
  predicate OneAfterEmpty(chunks: seq<string>, i: int)
  {
    0 <= i < |chunks| && IsOne(chunks[i]) && Concat(chunks[..i]) == ""
  }

  predicate HasOneAfterEmpty(chunks: seq<string>)
  {
    exists i :: 0 <= i < |chunks| && OneAfterEmpty(chunks, i)
  }

  lemma OneAfterEmptyShift(chunks: seq<string>, i: nat)
    requires 0 < i < |chunks| && chunks[0] == ""
    ensures OneAfterEmpty(chunks, i) <==> OneAfterEmpty(chunks[1..], i - 1)
  {
    ConcatCons(chunks, i);
  }

  lemma NonsenseShift(chunks: seq<string>, i: nat)
    requires 0 < i < |chunks| && chunks[0] == ""
    ensures NonsenseAt(chunks, i) <==> NonsenseAt(chunks[1..], i - 1)
  {
    ConcatCons(chunks, i);
  }

  lemma NonsenseAfterDash(chunks: seq<string>, i: nat)
    requires 0 < i < |chunks| && chunks[0] == "-"
    ensures NonsenseAt(chunks, i) <==> OneAfterEmpty(chunks[1..], i - 1)
  {
    ConcatCons(chunks, i);
  }

  /** Some "1"/"-1" chunk follows only empty chunks exactly when the first
      non-empty chunk is "1" or "-1". */
  lemma {:induction false} FirstNonEmptyIsOne(chunks: seq<string>)
    ensures HasOneAfterEmpty(chunks) <==> (NonEmpty(chunks) != [] && IsOne(NonEmpty(chunks)[0]))
  {
    if chunks != [] {
      var rest := chunks[1..];
      if chunks[0] == "" {
        FirstNonEmptyIsOne(rest);
        if HasOneAfterEmpty(chunks) {
          var i :| 0 <= i < |chunks| && OneAfterEmpty(chunks, i);
          OneAfterEmptyShift(chunks, i);
        }
        if HasOneAfterEmpty(rest) {
          var i :| 0 <= i < |rest| && OneAfterEmpty(rest, i);
          OneAfterEmptyShift(chunks, i + 1);
        }
      } else {
        forall i | 0 < i < |chunks|
          ensures !OneAfterEmpty(chunks, i)
        {
          ConcatCons(chunks, i);
        }
        assert chunks[..0] == [];
        assert OneAfterEmpty(chunks, 0) <==> IsOne(NonEmpty(chunks)[0]);
      }
    }
  }

  /** The nonsense rule read on the stream as a whole: get_response raises
      exactly when the first two non-empty chunks are "-" and then "1" or
      "-1". */
  lemma {:induction false} NonsenseIffFirstTwo(chunks: seq<string>)
    ensures HasNonsense(chunks) <==>
      (|NonEmpty(chunks)| >= 2 && NonEmpty(chunks)[0] == "-" && IsOne(NonEmpty(chunks)[1]))
  {
    if chunks != [] {
      var rest := chunks[1..];
      assert !NonsenseAt(chunks, 0);
      if chunks[0] == "" {
        NonsenseIffFirstTwo(rest);
        if HasNonsense(chunks) {
          var i :| 0 <= i < |chunks| && NonsenseAt(chunks, i);
          NonsenseShift(chunks, i);
        }
        if HasNonsense(rest) {
          var i :| 0 <= i < |rest| && NonsenseAt(rest, i);
          NonsenseShift(chunks, i + 1);
        }
      } else if chunks[0] == "-" {
        FirstNonEmptyIsOne(rest);
        if HasNonsense(chunks) {
          var i :| 0 <= i < |chunks| && NonsenseAt(chunks, i);
          NonsenseAfterDash(chunks, i);
        }
        if HasOneAfterEmpty(rest) {
          var i :| 0 <= i < |rest| && OneAfterEmpty(rest, i);
          NonsenseAfterDash(chunks, i + 1);
        }
      } else {
        forall i | 0 < i < |chunks|
          ensures !NonsenseAt(chunks, i)
        {
          ConcatCons(chunks, i);
        }
      }
    }
  }

  // ---------------------------------------------------------------------------
  // The manager

  /** add_timestamp: the formatted time stamp (passed in, since it reads the
      clock), a space, then the text. */
  function AddTimestamp(stamp: string, text: string): string
  {
    stamp + " " + text
  }

  class ConversationManager {
    /** The system message: the persona's rules, a blank line, the directives. */
    const systemMsg: Message
    /** The tokenizer (count_tokens for the client's model). */
    const count: string -> nat
    const maxContextTokens: int
    const maxResponseTokens: int
    var conversation: seq<Message>
    var totalTokens: int

    /** The cached total is the system message's tokens plus the log's. */
    ghost predicate Valid()
      reads this
    {
      totalTokens == count(systemMsg.content) + SumTokens(conversation, count)
    }

    function Budget(): int
    {
      maxContextTokens - maxResponseTokens
    }

    constructor(personalityRules: seq<string>, directives: seq<string>, count: string -> nat,
                maxContextTokens: int, maxResponseTokens: int)
      ensures systemMsg == Message(System, Join(" ", personalityRules) + "\n\n" + Join(" ", directives))
      ensures this.count == count
      ensures this.maxContextTokens == maxContextTokens && this.maxResponseTokens == maxResponseTokens
      ensures conversation == [] && totalTokens == count(systemMsg.content)
      ensures Valid()
    {
      systemMsg := Message(System, Join(" ", personalityRules) + "\n\n" + Join(" ", directives));
      this.count := count;
      this.maxContextTokens := maxContextTokens;
      this.maxResponseTokens := maxResponseTokens;
      totalTokens := count(Join(" ", personalityRules) + "\n\n" + Join(" ", directives));
      conversation := [];
    }

    /** append_message: one message at the end, its tokens added to the total. */
    method AppendMessage(role: Role, content: string)
      requires Valid()
      modifies this
      ensures conversation == old(conversation) + [Message(role, content)]
      ensures totalTokens == old(totalTokens) + count(content)
      ensures Valid()
    {
      totalTokens := totalTokens + count(content);
      SumTokensSnoc(conversation, Message(role, content), count);
      conversation := conversation + [Message(role, content)];
    }

    /** make_room: evict from the front while more than one message remains
        and the total exceeds the budget, subtracting each evicted message's
        tokens. */
    method MakeRoom()
      requires Valid()
      modifies this
      ensures conversation == Pruned(old(conversation), count(systemMsg.content), Budget(), count)
      ensures Valid()
    {
      while |conversation| > 1 && totalTokens > maxContextTokens - maxResponseTokens
        invariant Valid()
        invariant Pruned(conversation, count(systemMsg.content), Budget(), count)
               == Pruned(old(conversation), count(systemMsg.content), Budget(), count)
        decreases |conversation|
      {
        var removed := conversation[0];
        conversation := conversation[1..];
        totalTokens := totalTokens - count(removed.content);
      }
    }

    /** get_total_token_count: the total recomputed from scratch. */
    method GetTotalTokenCount() returns (total: int)
      ensures total == count(systemMsg.content) + SumTokens(conversation, count)
      ensures Valid() ==> total == totalTokens
    {
      total := count(systemMsg.content);
      var i := 0;
      while i < |conversation|
        invariant 0 <= i <= |conversation|
        invariant total == count(systemMsg.content) + SumTokens(conversation[..i], count)
      {
        SumTokensSnoc(conversation[..i], conversation[i], count);
        assert conversation[..i + 1] == conversation[..i] + [conversation[i]];
        total := total + count(conversation[i].content);
        i := i + 1;
      }
      assert conversation[..i] == conversation;
    }

    /** load_conversation on a log that reads back as `records`: each record
        is appended, then the log is pruned once. */
    method LoadConversation(records: seq<Message>)
      requires Valid()
      modifies this
      ensures conversation == Pruned(old(conversation) + records, count(systemMsg.content), Budget(), count)
      ensures Valid()
    {
      var i := 0;
      while i < |records|
        invariant 0 <= i <= |records|
        invariant Valid()
        invariant conversation == old(conversation) + records[..i]
      {
        AppendMessage(records[i].role, records[i].content);
        assert records[..i + 1] == records[..i] + [records[i]];
        i := i + 1;
      }
      assert records[..i] == records;
      MakeRoom();
    }

    /** get_response: log the time-stamped user message, prune, then stream
        the model's `chunks` (after which the stream ends normally, or raises
        `failure`). The result is what the generator yields and the exception
        it lets escape. An HTTP error is logged and swallowed. */
    method GetResponse(userMessage: string, stamp: string, chunks: seq<string>, failure: Option<Exception>)
      returns (out: seq<Option<string>>, raised: Option<Exception>)
      requires Valid()
      modifies this
      ensures Valid()
      ensures NoSystem(old(conversation)) ==> NoSystem(conversation)
      ensures var asked := Pruned(old(conversation) + [Message(User, AddTimestamp(stamp, userMessage))],
                                  count(systemMsg.content), Budget(), count);
        if HasNonsense(chunks) then
          raised == Some(InvalidInputError) && conversation == asked
          && forall i :: NonsenseAt(chunks, i) ==> out == Somes(Kept(chunks[..i]))
        else if failure.Some? then
          raised == (if failure.value == HTTPError then None else failure)
          && conversation == asked && out == Somes(Kept(chunks))
        else
          raised == None && conversation == asked + [Message(Assistant, Concat(chunks))]
          && out == Somes(Kept(chunks)) + [None]
    {
      var userMsg := Message(User, AddTimestamp(stamp, userMessage));
      AppendMessage(User, AddTimestamp(stamp, userMessage));
      MakeRoom();
      ghost var asked := conversation;
      if NoSystem(old(conversation)) {
        NoSystemSnoc(old(conversation), userMsg);
        PrunedKeepsNoSystem(old(conversation) + [userMsg], count(systemMsg.content), Budget(), count);
      }
      var yielded, response, nonsense := FilterChunks(chunks);
      out := Somes(yielded);
      if nonsense {
        raised := Some(InvalidInputError);
        return;
      }
      if failure.Some? {
        raised := if failure.value == HTTPError then None else failure;
        return;
      }
      if NoSystem(old(conversation)) {
        NoSystemSnoc(asked, Message(Assistant, response));
      }
      AppendMessage(Assistant, response);
      out := out + [None];
      raised := None;
    }
  }
}
