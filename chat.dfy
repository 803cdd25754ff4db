/** Chat messages as the language-model clients store them, and the token
    cost of a list of them under an abstract tokenizer. */
module Chat {
  import opened Text

  datatype Role = System | User | Assistant

  /** A {"role": ..., "content": ...} dictionary. */
  datatype Message = Message(role: Role, content: string)

  /** The summed token count of the messages' contents. */
  function SumTokens(msgs: seq<Message>, count: string -> nat): nat
  {
    if msgs == [] then 0 else count(msgs[0].content) + SumTokens(msgs[1..], count)
  }

  lemma {:induction false} SumTokensAppend(a: seq<Message>, b: seq<Message>, count: string -> nat)
    ensures SumTokens(a + b, count) == SumTokens(a, count) + SumTokens(b, count)
  {
    if a == [] {
      assert a + b == b;
    } else {
      assert (a + b)[1..] == a[1..] + b;
      SumTokensAppend(a[1..], b, count);
    }
  }

  lemma SumTokensSnoc(a: seq<Message>, m: Message, count: string -> nat)
    ensures SumTokens(a + [m], count) == SumTokens(a, count) + count(m.content)
  {
    SumTokensAppend(a, [m], count);
  }

  /** No message of the list has the system role. */
  predicate NoSystem(msgs: seq<Message>)
  {
    forall i :: 0 <= i < |msgs| ==> msgs[i].role != System
  }

  /** Appending a message of another role keeps a list free of system
      messages. */
  lemma NoSystemSnoc(msgs: seq<Message>, m: Message)
    requires NoSystem(msgs) && m.role != System
    ensures NoSystem(msgs + [m])
  {
    forall i | 0 <= i < |msgs| + 1
      ensures (msgs + [m])[i].role != System
    {
      if i < |msgs| {
        assert (msgs + [m])[i] == msgs[i];
      }
    }
  }
}
