/** The two producer stages of the response pipeline, each run as a
    sequential loop over its input: the text producer (enqueue_text), which
    streams the model's reply with retries and end-of-stream markers, and the
    sentence segmenter (enqueue_audio), which cuts the text stream into
    sentences for speech synthesis. */
module Pipeline {
  import opened Text

  const MaxLlmRetries: nat := 2
  const MaxTtsRetries: nat := 2

  // ---------------------------------------------------------------------------
  // enqueue_text

  /** One call of get_response as the text producer sees it: the items the
      generator yields (None is its end marker), then the exception it
      raises, if any, once those are consumed. */
  datatype Attempt = Attempt(items: seq<Option<string>>, raised: Option<Exception>)

  /** The items the consumer forwards: up to and including the first None. */
  function UpToMarker(items: seq<Option<string>>): seq<Option<string>>
  {
    if items == [] then []
    else if items[0] == None then [None]
    else [items[0]] + UpToMarker(items[1..])
  }

  /** The forwarded items are a prefix of the stream that ends at its first
      end marker, or the whole stream when it has none. */
  lemma {:induction false} UpToMarkerSpec(items: seq<Option<string>>)
    ensures var r := UpToMarker(items);
      && |r| <= |items| && r == items[..|r|]
      && (None in items ==> r != [] && r[|r| - 1] == None && None !in r[..|r| - 1])
      && (None !in items ==> r == items)
  {
    if items != [] && items[0] != None {
      UpToMarkerSpec(items[1..]);
      var r := UpToMarker(items);
      assert r[1..] == UpToMarker(items[1..]);
      assert None in items ==> None in items[1..];
      if None in items {
        assert r[..|r| - 1] == [items[0]] + UpToMarker(items[1..])[..|r| - 2];
      }
    }
  }

  /** The attempt ends the retry loop normally: the generator yielded its end
      marker, or it ran out without raising. */
  predicate Completed(a: Attempt)
  {
    None in a.items || a.raised.None?
  }

  /** What the text producer does with the attempts from the `retries`-th
      retry on: everything it pushes, whether the conversation continues,
      the final retry count and how many attempts it used. */
  datatype TextRun = TextRun(pushed: seq<Option<string>>, continueConversation: bool, retries: nat, used: nat)

  function RunText(attempts: seq<Attempt>, retries: nat): (r: TextRun)
    ensures r.used <= |attempts|
    decreases |attempts|
  {
    if retries >= MaxLlmRetries || attempts == [] then TextRun([], true, retries, 0)
    else
      var a := attempts[0];
      var push := UpToMarker(a.items) + [None];
      if Completed(a) then TextRun(push, true, retries, 1)
      else if a.raised.value == InvalidInputError then TextRun(push, false, retries, 1)
      else
        var next := if a.raised.value == HTTPError then retries else retries + 1;
        var rest := RunText(attempts[1..], next);
        TextRun(push + rest.pushed, rest.continueConversation, rest.retries, rest.used + 1)
  }

  /** The retry counter never passes MAX_LLM_RETRIES, so the `retries >
      MAX_LLM_RETRIES` test that would set the timeout flag never holds. */
  lemma {:induction false} RunTextRetriesBounded(attempts: seq<Attempt>, retries: nat)
    requires retries <= MaxLlmRetries
    ensures RunText(attempts, retries).retries <= MaxLlmRetries
  {
    if retries < MaxLlmRetries && attempts != [] {
      var a := attempts[0];
      if !Completed(a) && a.raised.value != InvalidInputError {
        RunTextRetriesBounded(attempts[1..], if a.raised.value == HTTPError then retries else retries + 1);
      }
    }
  }

  /** Every attempt ends with a pushed None (the `finally`), so whenever an
      attempt was made the last item pushed is an end marker. */
  lemma {:induction false} RunTextEndsWithMarker(attempts: seq<Attempt>, retries: nat)
    ensures var r := RunText(attempts, retries);
      r.used == 0 <==> r.pushed == []
    ensures var r := RunText(attempts, retries);
      r.pushed != [] ==> r.pushed[|r.pushed| - 1] == None
  {
    if retries < MaxLlmRetries && attempts != [] {
      var a := attempts[0];
      if !Completed(a) && a.raised.value != InvalidInputError {
        RunTextEndsWithMarker(attempts[1..], if a.raised.value == HTTPError then retries else retries + 1);
      }
    }
  }

  /** The conversation stops only on the nonsense signal: `continue` is false
      exactly when the last attempt used raised InvalidInputError before any
      end marker. */
  lemma {:induction false} RunTextStopsOnNonsense(attempts: seq<Attempt>, retries: nat)
    ensures var r := RunText(attempts, retries);
      !r.continueConversation <==>
        (r.used >= 1 && !Completed(attempts[r.used - 1]) && attempts[r.used - 1].raised == Some(InvalidInputError))
  {
    if retries < MaxLlmRetries && attempts != [] {
      var a := attempts[0];
      if !Completed(a) && a.raised.value != InvalidInputError {
        var next := if a.raised.value == HTTPError then retries else retries + 1;
        RunTextRetriesBounded(attempts[1..], 0);
        RunTextStopsOnNonsense(attempts[1..], next);
        var rest := RunText(attempts[1..], next);
        if rest.used >= 1 {
          assert attempts[rest.used] == attempts[1..][rest.used - 1];
        }
      }
    }
  }

  /** A stream that completes with its own end marker leaves two end markers
      at the end of the queue: the generator's and the `finally`'s. */
  lemma SuccessPushesTwoMarkers(attempts: seq<Attempt>, retries: nat)
    requires attempts != [] && None in attempts[0].items && retries < MaxLlmRetries
    ensures var r := RunText(attempts, retries);
      r.used == 1 && |r.pushed| >= 2 && r.pushed[|r.pushed| - 2..] == [None, None]
  {
    UpToMarkerSpec(attempts[0].items);
  }

  /** RunText on the attempts from `i` on, when attempt `i` ends the loop. */
  lemma RunTextLast(attempts: seq<Attempt>, i: nat, retries: nat)
    requires i < |attempts| && retries < MaxLlmRetries
    requires Completed(attempts[i]) || attempts[i].raised == Some(InvalidInputError)
    ensures RunText(attempts[i..], retries)
         == TextRun(UpToMarker(attempts[i].items) + [None], Completed(attempts[i]), retries, 1)
  {
    assert attempts[i..][0] == attempts[i];
  }

  /** RunText on the attempts from `i` on, when attempt `i` is retried. */
  lemma RunTextRetry(attempts: seq<Attempt>, i: nat, retries: nat, next: nat)
    requires i < |attempts| && retries < MaxLlmRetries
    requires !Completed(attempts[i]) && attempts[i].raised != Some(InvalidInputError)
    requires next == if attempts[i].raised == Some(HTTPError) then retries else retries + 1
    ensures var rest := RunText(attempts[i + 1..], next);
      RunText(attempts[i..], retries)
        == TextRun(UpToMarker(attempts[i].items) + [None] + rest.pushed, rest.continueConversation, rest.retries, rest.used + 1)
  {
    assert attempts[i..][0] == attempts[i];
    assert attempts[i..][1..] == attempts[i + 1..];
  }

  /** The run so far (`pushed`, over `used` attempts) followed by the run
      `rest` of the remaining attempts. */
  function Resume(pushed: seq<Option<string>>, used: nat, rest: TextRun): TextRun
  {
    TextRun(pushed + rest.pushed, rest.continueConversation, rest.retries, used + rest.used)
  }

  /** Moving one retried attempt's items from the remaining run to the run
      so far. */
  lemma ResumeRetry(pushed: seq<Option<string>>, push: seq<Option<string>>, used: nat, rest: TextRun)
    ensures Resume(pushed, used, TextRun(push + rest.pushed, rest.continueConversation, rest.retries, rest.used + 1))
         == Resume(pushed + push, used + 1, rest)
  {
    assert pushed + (push + rest.pushed) == (pushed + push) + rest.pushed;
  }

  /** enqueue_text: a local reply is pushed with one end marker; otherwise the
      model is asked, with retries, and the flags are reported. */
  method EnqueueText(response: Option<string>, attempts: seq<Attempt>)
    returns (pushed: seq<Option<string>>, continueConversation: bool, timeoutFlag: bool)
    ensures response.Some? ==> pushed == [response, None] && continueConversation
    ensures response.None? ==>
      pushed == RunText(attempts, 0).pushed && continueConversation == RunText(attempts, 0).continueConversation
    ensures !timeoutFlag
  {
    if response.Some? {
      return [response, None], true, false;
    }
    pushed, continueConversation, timeoutFlag := [], true, false;
    var retries := 0;
    var i := 0;
    while retries < MaxLlmRetries && i < |attempts|
      invariant 0 <= i <= |attempts| && retries <= MaxLlmRetries && continueConversation
      invariant RunText(attempts, 0) == Resume(pushed, i, RunText(attempts[i..], retries))
      decreases |attempts| - i
    {
      var a := attempts[i];
      ghost var before := pushed;
      // the consumer loop: forward items until the end marker
      var forwarded := ForwardUntilMarker(a.items);
      // the `finally` clause pushes the end marker
      pushed := pushed + (forwarded + [None]);
      if Completed(a) {
        RunTextLast(attempts, i, retries);
        break;
      } else if a.raised.value == InvalidInputError {
        RunTextLast(attempts, i, retries);
        continueConversation := false;
        break;
      }
      var next := if a.raised.value == HTTPError then retries else retries + 1;
      RunTextRetry(attempts, i, retries, next);
      ResumeRetry(before, forwarded + [None], i, RunText(attempts[i + 1..], next));
      retries, i := next, i + 1;
    }
    if retries >= MaxLlmRetries || i == |attempts| {
      assert RunText(attempts[i..], retries) == TextRun([], true, retries, 0);
      assert pushed + [] == pushed;
    }
    if retries > MaxLlmRetries {
      timeoutFlag := true;
    }
  }

  /** The consumer loop of enqueue_text: forward each item, stopping after
      the end marker. */
  method ForwardUntilMarker(items: seq<Option<string>>) returns (forwarded: seq<Option<string>>)
    ensures forwarded == UpToMarker(items)
  {
    forwarded := [];
    var j := 0;
    while j < |items|
      invariant 0 <= j <= |items|
      invariant forwarded == items[..j]
      invariant UpToMarker(items) == forwarded + UpToMarker(items[j..])
    {
      ForwardStep(items, j);
      forwarded := forwarded + [items[j]];
      if items[j] == None {
        return;
      }
      j := j + 1;
    }
    assert items[j..] == [];
  }

  /** Forwarding item `j`: the marker ends the forwarded items, any other
      item moves from the rest to the forwarded prefix. */
  lemma ForwardStep(items: seq<Option<string>>, j: nat)
    requires j < |items|
    ensures items[..j + 1] == items[..j] + [items[j]]
    ensures items[j] == None ==> UpToMarker(items[j..]) == [None]
    ensures items[j] != None ==>
      items[..j] + UpToMarker(items[j..]) == items[..j + 1] + UpToMarker(items[j + 1..])
  {
    assert items[j..][0] == items[j];
    assert items[j..][1..] == items[j + 1..];
    if items[j] != None {
      assert UpToMarker(items[j..]) == [items[j]] + UpToMarker(items[j + 1..]);
      assert items[..j] + ([items[j]] + UpToMarker(items[j + 1..]))
          == (items[..j] + [items[j]]) + UpToMarker(items[j + 1..]);
    }
  }

  // ---------------------------------------------------------------------------
  // The sentence segmenter of enqueue_audio

  /** A character of the class [^\s.\d]. */
  predicate WordChar(c: char)
  {
    !IsSpace(c) && c != '.' && !IsDigit(c)
  }

  predicate Terminator(c: char)
  {
    c == '.' || c == '?' || c == '!' || c == '\n'
  }

  predicate NewlineFree(s: string)
  {
    forall k :: 0 <= k < |s| ==> s[k] != '\n'
  }

  /** Position `i` of `b` can end the first group of the sentence pattern:
      a terminator after at least two word characters, with no newline
      before it and at least one non-newline character after it. */
  predicate Boundary(b: string, i: int)
  {
    && 2 <= i && i + 1 < |b|
    && Terminator(b[i]) && WordChar(b[i - 2]) && WordChar(b[i - 1])
    && NewlineFree(b[..i]) && b[i + 1] != '\n'
  }

  function LastBoundaryBelow(b: string, n: nat): (r: Option<nat>)
    requires n <= |b|
    ensures r.Some? ==> r.value < n && Boundary(b, r.value) && forall j :: r.value < j < n ==> !Boundary(b, j)
    ensures r.None? ==> forall j :: 0 <= j < n ==> !Boundary(b, j)
  {
    if n == 0 then None
    else if Boundary(b, n - 1) then Some(n - 1)
    else LastBoundaryBelow(b, n - 1)
  }

  /** The greedy `^.*` makes the pattern end its first group at the last
      boundary of the buffer. */
  function LastBoundary(b: string): (r: Option<nat>)
    ensures r.Some? ==> Boundary(b, r.value) && forall j :: r.value < j < |b| ==> !Boundary(b, j)
    ensures r.None? ==> forall j :: 0 <= j < |b| ==> !Boundary(b, j)
  {
    LastBoundaryBelow(b, |b|)
  }

  /** The first newline at or after `k`, or the end of `b`. */
  function LineEnd(b: string, k: nat): (e: nat)
    requires k <= |b|
    ensures k <= e <= |b| && NewlineFree(b[k..e])
    ensures e < |b| ==> b[e] == '\n'
    decreases |b| - k
  {
    if k == |b| || b[k] == '\n' then k
    else
      var e := LineEnd(b, k + 1);
      assert b[k..e] == [b[k]] + b[k + 1..e];
      e
  }

  datatype Split = Split(sentence: string, trailing: string)

  /** re.search(r"(^.*[^\s.\d]{2,}[\.\?!\n])(.+)", buffer): the sentence up
      to the last boundary and the trailing text after it, which `.+` ends at
      the next newline. */
  function SentenceMatch(b: string): (r: Option<Split>)
    ensures r.None? <==> forall j :: 0 <= j < |b| ==> !Boundary(b, j)
    ensures r.Some? ==>
      var s, t := r.value.sentence, r.value.trailing;
      && Boundary(b, |s| - 1) && t != [] && NewlineFree(t)
      && |s| + |t| <= |b| && s + t == b[..|s| + |t|]
      && (|s| + |t| < |b| ==> b[|s| + |t|] == '\n')
  {
    match LastBoundary(b)
    case None => None
    case Some(i) =>
      var e := LineEnd(b, i + 1);
      assert b[..e] == b[..i + 1] + b[i + 1..e];
      Some(Split(b[..i + 1], b[i + 1..e]))
  }

  /** On newline-free text the split loses nothing, and the trailing text
      holds no further boundary (the last one was taken). */
  lemma NewlineFreeSplit(b: string)
    requires NewlineFree(b) && SentenceMatch(b).Some?
    ensures SentenceMatch(b).value.sentence + SentenceMatch(b).value.trailing == b
    ensures SentenceMatch(SentenceMatch(b).value.trailing) == None
  {
    var s, t := SentenceMatch(b).value.sentence, SentenceMatch(b).value.trailing;
    assert |s| + |t| == |b|;
    assert b[..|b|] == b;
    forall j | 0 <= j < |t|
      ensures !Boundary(t, j)
    {
      if Boundary(t, j) {
        assert t == b[|s|..];
        assert b[..|s| + j] == b[..|s|] + t[..j];
        assert Boundary(b, |s| + j);
        assert false;
      }
    }
  }

  /** One pass of the segmenter's body on the buffer `b` (the new chunk
      already appended; `end` when the item was the end marker): the
      sentence to synthesise, if any, and the buffer after it was sent. */
  datatype Step = Step(sentence: Option<string>, rest: string)

  function SegmentStep(b: string, end: bool): (r: Step)
    ensures r.sentence.Some? ==> r.sentence.value != ""
    ensures r.sentence.None? ==> r.rest == b
  {
    match SentenceMatch(b)
    case Some(m) => Step(Some(m.sentence), m.trailing)
    case None => if end && b != "" then Step(Some(b), "") else Step(None, b)
  }

  /** On newline-free text a step loses nothing, leaves no boundary in the
      buffer, and at the end marker empties a buffer that held none. */
  lemma SegmentStepKeepsText(b: string, end: bool)
    requires NewlineFree(b)
    ensures var r := SegmentStep(b, end);
      && (if r.sentence.Some? then r.sentence.value else "") + r.rest == b
      && NewlineFree(r.rest) && SentenceMatch(r.rest) == None
      && (end && SentenceMatch(b) == None ==> r.rest == "")
  {
    if SentenceMatch(b).Some? {
      NewlineFreeSplit(b);
    }
  }

  lemma NewlineFreeAppend(a: string, b: string)
    requires NewlineFree(a) && NewlineFree(b)
    ensures NewlineFree(a + b)
  {
    forall k | 0 <= k < |a + b|
      ensures (a + b)[k] != '\n'
    {
      if k >= |a| {
        assert (a + b)[k] == b[k - |a|];
      }
    }
  }

  /** Sequence bookkeeping behind the segmenter's account: moving a prefix
      of the buffer into the sent sentences keeps the total text. */
  lemma ConcatAccount(spoken: seq<string>, buffer: string, chunk: string, sent: seq<string>, rest: string, received: string)
    requires Concat(sent) + rest == buffer + chunk
    requires Concat(spoken) + buffer == received
    ensures Concat(spoken + sent) + rest == received + chunk
  {
    ConcatAppend(spoken, sent);
    calc {
      Concat(spoken + sent) + rest;
      Concat(spoken) + (Concat(sent) + rest);
      Concat(spoken) + (buffer + chunk);
      (Concat(spoken) + buffer) + chunk;
    }
  }

  /** One segmenter pass on newline-free text keeps the account: the
      sentences sent plus the buffer still spell out everything received. */
  lemma SegmentAccount(spoken: seq<string>, b: string, end: bool, before: string)
    requires NewlineFree(b)
    requires Concat(spoken) + b == before
    ensures var r := SegmentStep(b, end);
      Concat(spoken + (if r.sentence.Some? then [r.sentence.value] else [])) + r.rest == before
  {
    var r := SegmentStep(b, end);
    SegmentStepKeepsText(b, end);
    var sent := if r.sentence.Some? then [r.sentence.value] else [];
    assert Concat(sent) == if r.sentence.Some? then r.sentence.value else "";
    ConcatAccount(spoken, b, "", sent, r.rest, before);
  }

  /** The strings among the items, in order. */
  function Texts(items: seq<Option<string>>): seq<string>
  {
    if items == [] then []
    else
      var last := items[|items| - 1];
      Texts(items[..|items| - 1]) + (if last.Some? then [last.value] else [])
  }

  predicate NewlineFreeItems(items: seq<Option<string>>)
  {
    forall k :: 0 <= k < |items| && items[k].Some? ==> NewlineFree(items[k].value)
  }

  lemma NewlineFreeItemsStep(items: seq<Option<string>>, c: nat)
    requires c < |items|
    ensures NewlineFreeItems(items[..c + 1]) ==>
      NewlineFreeItems(items[..c]) && (items[c].Some? ==> NewlineFree(items[c].value))
  {
    if NewlineFreeItems(items[..c + 1]) {
      assert items[..c + 1][c] == items[c];
      forall k | 0 <= k < c && items[k].Some?
        ensures NewlineFree(items[k].value)
      {
        assert items[..c + 1][k] == items[k];
      }
    }
  }

  lemma TextsStep(items: seq<Option<string>>, c: nat)
    requires c < |items|
    ensures Concat(Texts(items[..c + 1])) == Concat(Texts(items[..c])) + (if items[c].Some? then items[c].value else "")
  {
    assert items[..c + 1][..c] == items[..c];
    if items[c].Some? {
      ConcatSnoc(Texts(items[..c]), items[c].value);
    } else {
      assert Texts(items[..c + 1]) == Texts(items[..c]);
    }
  }

  /** The segmenter's loop variables: the sentences synthesised so far, the
      sentence buffer, the items taken from the queue, the synthesis calls
      made, the retry counter, and whether the end marker has been handled. */
  datatype Segmenter = Segmenter(spoken: seq<string>, buffer: string, consumed: nat, calls: nat, retries: nat, done: bool)

  const SegStart: Segmenter := Segmenter([], "", 0, 0, 0, false)

  /** One pass of the loop body on the next queue item. A synthesis call whose
      number is in `failures` raises: the retry counter goes up and the
      buffer keeps the new chunk. */
  function SegNext(items: seq<Option<string>>, failures: set<nat>, s: Segmenter): (r: Segmenter)
    requires s.consumed < |items|
  {
    var item := items[s.consumed];
    var b := if item.Some? then s.buffer + item.value else s.buffer;
    var step := SegmentStep(b, item.None?);
    if step.sentence.Some? && s.calls in failures then
      Segmenter(s.spoken, b, s.consumed + 1, s.calls + 1, s.retries + 1, false)
    else if step.sentence.Some? then
      Segmenter(s.spoken + [step.sentence.value], step.rest, s.consumed + 1, s.calls + 1, s.retries, item.None?)
    else
      Segmenter(s.spoken, step.rest, s.consumed + 1, s.calls, s.retries, item.None?)
  }

  /** The loop from state `s` until the retries are spent, the queue is
      exhausted or the end marker was handled. */
  function SegRun(items: seq<Option<string>>, failures: set<nat>, s: Segmenter): (r: Segmenter)
    requires s.consumed <= |items|
    ensures r.consumed <= |items|
    decreases |items| - s.consumed
  {
    if s.retries >= MaxTtsRetries || s.consumed == |items| || s.done then s
    else SegRun(items, failures, SegNext(items, failures, s))
  }

  /** The account kept on newline-free input: the sentences synthesised and
      the buffer together are exactly the text received. */
  predicate Accounted(items: seq<Option<string>>, s: Segmenter)
    requires s.consumed <= |items|
  {
    NewlineFreeItems(items[..s.consumed]) ==>
      NewlineFree(s.buffer) && Concat(s.spoken) + s.buffer == Concat(Texts(items[..s.consumed]))
  }

  /** Facts that hold when no synthesis call fails: no retry is counted, only
      the last item taken can be the end marker, and on newline-free input
      the buffer holds no boundary and is empty once the marker is handled. */
  predicate CleanRun(items: seq<Option<string>>, s: Segmenter)
    requires s.consumed <= |items|
  {
    && s.retries == 0
    && (forall k :: 0 <= k < s.consumed - (if s.done then 1 else 0) ==> items[k].Some?)
    && (s.done ==> s.consumed >= 1 && items[s.consumed - 1].None?)
    && (NewlineFreeItems(items[..s.consumed]) ==> SentenceMatch(s.buffer) == None && (s.done ==> s.buffer == ""))
  }

  predicate SpokenNonEmpty(s: Segmenter)
  {
    forall k :: 0 <= k < |s.spoken| ==> s.spoken[k] != ""
  }

  /** The text the segmenter's buffer holds once item `c` is appended. */
  function Appended(items: seq<Option<string>>, s: Segmenter): string
    requires s.consumed < |items|
  {
    var item := items[s.consumed];
    if item.Some? then s.buffer + item.value else s.buffer
  }

  /** SegNext case by case: a failed synthesis keeps the appended buffer and
      sends nothing; otherwise the step's sentence, if any, is sent and its
      rest kept. */
  lemma SegNextCases(items: seq<Option<string>>, failures: set<nat>, s: Segmenter)
    requires s.consumed < |items|
    ensures var n, b := SegNext(items, failures, s), Appended(items, s);
      var step := SegmentStep(b, items[s.consumed].None?);
      && n.consumed == s.consumed + 1
      && n.calls == s.calls + (if step.sentence.Some? then 1 else 0)
      && n.retries == s.retries + (if step.sentence.Some? && s.calls in failures then 1 else 0)
      && n.done == (!(step.sentence.Some? && s.calls in failures) && items[s.consumed].None?)
      && (step.sentence.Some? && s.calls in failures ==> n.spoken == s.spoken && n.buffer == b)
      && (!(step.sentence.Some? && s.calls in failures) ==>
            n.spoken == s.spoken + (if step.sentence.Some? then [step.sentence.value] else [])
            && n.buffer == step.rest)
  {
  }

  lemma SegNextAccounted(items: seq<Option<string>>, failures: set<nat>, s: Segmenter)
    requires s.consumed < |items| && Accounted(items, s)
    ensures Accounted(items, SegNext(items, failures, s))
  {
    var c := s.consumed;
    var item := items[c];
    var chunk := if item.Some? then item.value else "";
    NewlineFreeItemsStep(items, c);
    TextsStep(items, c);
    SegNextCases(items, failures, s);
    if NewlineFreeItems(items[..c + 1]) {
      var received := Concat(Texts(items[..c + 1]));
      NewlineFreeAppend(s.buffer, chunk);
      var b := Appended(items, s);
      assert b == s.buffer + chunk;
      AppendAccount(s.spoken, s.buffer, chunk, Concat(Texts(items[..c])));
      assert Concat(s.spoken) + b == received;
      var step := SegmentStep(b, item.None?);
      var n := SegNext(items, failures, s);
      if step.sentence.Some? && s.calls in failures {
        assert n.spoken == s.spoken && n.buffer == b;
      } else {
        SegmentStepKeepsText(b, item.None?);
        SegmentAccount(s.spoken, b, item.None?, received);
        var sent := if step.sentence.Some? then [step.sentence.value] else [];
        assert n.spoken == s.spoken + sent && n.buffer == step.rest;
        assert Concat(s.spoken + sent) + step.rest == received;
      }
    }
  }

  /** Appending a chunk to the buffer extends the account by that chunk. */
  lemma AppendAccount(spoken: seq<string>, buffer: string, chunk: string, received: string)
    requires Concat(spoken) + buffer == received
    ensures Concat(spoken) + (buffer + chunk) == received + chunk
  {
    assert Concat(spoken) + (buffer + chunk) == (Concat(spoken) + buffer) + chunk;
  }

  lemma SegNextClean(items: seq<Option<string>>, s: Segmenter)
    requires s.consumed < |items| && !s.done && CleanRun(items, s) && Accounted(items, s)
    ensures CleanRun(items, SegNext(items, {}, s))
  {
    var c := s.consumed;
    var item := items[c];
    var chunk := if item.Some? then item.value else "";
    NewlineFreeItemsStep(items, c);
    if NewlineFreeItems(items[..c + 1]) {
      NewlineFreeAppend(s.buffer, chunk);
      var b := s.buffer + chunk;
      assert b == if item.Some? then s.buffer + item.value else s.buffer;
      SegmentStepKeepsText(b, item.None?);
    }
  }

  /** What the loop keeps, from the start to wherever it stops. */
  lemma {:induction false} SegRunKeeps(items: seq<Option<string>>, failures: set<nat>, s: Segmenter)
    requires s.consumed <= |items| && s.retries <= MaxTtsRetries
    requires Accounted(items, s) && SpokenNonEmpty(s)
    requires failures == {} ==> CleanRun(items, s)
    ensures var r := SegRun(items, failures, s);
      && r.retries <= MaxTtsRetries && Accounted(items, r) && SpokenNonEmpty(r)
      && (failures == {} ==> CleanRun(items, r) && (r.done || r.consumed == |items|))
    decreases |items| - s.consumed
  {
    if !(s.retries >= MaxTtsRetries || s.consumed == |items| || s.done) {
      var n := SegNext(items, failures, s);
      SegNextAccounted(items, failures, s);
      if failures == {} {
        SegNextClean(items, s);
      }
      SegRunKeeps(items, failures, n);
    }
  }

  /** enqueue_audio's loop over the text queue. `items` is what the queue
      delivers; `failures` numbers the process_tts_sentence calls that raise
      (a timeout or other error, which counts a retry and leaves the buffer as
      it was). `spoken` lists the sentences synthesised in order, and
      `endMarker` says whether the end marker reaches the voice queue. */
  method EnqueueAudio(items: seq<Option<string>>, failures: set<nat>, timeoutFlag: bool)
    returns (spoken: seq<string>, buffer: string, consumed: nat, retries: nat, timeoutOut: bool, endMarker: bool)
    ensures timeoutFlag ==> spoken == [] && consumed == 0 && buffer == ""
    ensures !timeoutFlag ==>
      var r := SegRun(items, failures, SegStart);
      spoken == r.spoken && buffer == r.buffer && consumed == r.consumed && retries == r.retries
    ensures consumed <= |items| && retries <= MaxTtsRetries
    ensures timeoutOut == timeoutFlag && endMarker == !timeoutFlag
    ensures forall k :: 0 <= k < |spoken| ==> spoken[k] != ""
    ensures NewlineFreeItems(items[..consumed]) ==> Concat(spoken) + buffer == Concat(Texts(items[..consumed]))
    ensures failures == {} ==> forall k :: 0 <= k < consumed - 1 ==> items[k].Some?
    ensures failures == {} && !timeoutFlag ==> consumed == |items| || (consumed >= 1 && items[consumed - 1].None?)
    ensures failures == {} && NewlineFreeItems(items[..consumed]) && consumed >= 1 && items[consumed - 1].None?
      ==> buffer == ""
  {
    spoken, buffer, consumed, retries, timeoutOut, endMarker := [], "", 0, 0, timeoutFlag, false;
    if timeoutFlag {
      return;
    }
    var r := Segment(items, failures);
    SegRunKeeps(items, failures, SegStart);
    spoken, buffer, consumed, retries := r.spoken, r.buffer, r.consumed, r.retries;
    endMarker := true;
    if retries > MaxTtsRetries {
      timeoutOut := true;
    }
  }

  /** The body of enqueue_audio's loop, run until the retries are spent, the
      queue is exhausted or the end marker was handled. */
  method Segment(items: seq<Option<string>>, failures: set<nat>) returns (r: Segmenter)
    ensures r == SegRun(items, failures, SegStart)
  {
    var spoken, buffer, consumed, calls, retries, done := [], "", 0, 0, 0, false;
    while retries < MaxTtsRetries && consumed < |items| && !done
      invariant consumed <= |items|
      invariant SegRun(items, failures, Segmenter(spoken, buffer, consumed, calls, retries, done))
             == SegRun(items, failures, SegStart)
      decreases |items| - consumed
    {
      ghost var s := Segmenter(spoken, buffer, consumed, calls, retries, done);
      SegNextCases(items, failures, s);
      var item := items[consumed];
      consumed := consumed + 1;
      if item.Some? {
        buffer := buffer + item.value;
      }
      var step := SegmentStep(buffer, item.None?);
      if step.sentence.Some? && calls in failures {
        // process_tts_sentence raised: the buffer is not updated
        calls := calls + 1;
        retries := retries + 1;
      } else {
        if step.sentence.Some? {
          calls := calls + 1;
          spoken := spoken + [step.sentence.value];
        }
        buffer := step.rest;
        if item.None? {
          done := true;
        }
      }
      assert Segmenter(spoken, buffer, consumed, calls, retries, done) == SegNext(items, failures, s);
    }
    r := Segmenter(spoken, buffer, consumed, calls, retries, done);
  }
}
