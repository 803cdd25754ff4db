/** Shared vocabulary: optional values, Python exceptions as data, and the
    handful of Python string builtins the assistant relies on (strip, lower,
    isalpha, isspace, str(int), int(str)). */
module Text {

  datatype Option<+T> = None | Some(value: T)

  /** The Python exceptions that the modelled code raises or catches. */
  datatype Exception =
    | ValueError        // list.index on a missing element
    | IndexError        // list.pop on a missing index
    | InvalidInputError // the model answered "-1" (nonsense)
    | TimeoutError      // a remote call timed out
    | HTTPError         // requests.exceptions.HTTPError
    | OtherError        // any other exception

  datatype Result<+T> = Ok(value: T) | Err(error: Exception)

  // ---------------------------------------------------------------------------
  // Characters

  /** Python's str.isspace, which is also what `\s` matches in a str pattern. */
  predicate IsSpace(c: char)
  {
    var n := c as int;
    (9 <= n <= 13) || (28 <= n <= 32) || n == 0x85 || n == 0xA0 || n == 0x1680
    || (0x2000 <= n <= 0x200A) || n == 0x2028 || n == 0x2029 || n == 0x202F
    || n == 0x205F || n == 0x3000
  }

  predicate IsDigit(c: char) { '0' <= c <= '9' }

  /** str.isalpha, restricted to ASCII letters. */
  predicate IsAlpha(c: char) { 'a' <= c <= 'z' || 'A' <= c <= 'Z' }

  /** str.lower, restricted to ASCII upper-case letters. */
  function LowerChar(c: char): (r: char)
    ensures 'A' <= c <= 'Z' ==> 'a' <= r <= 'z' && r as int == c as int + 32
    ensures !('A' <= c <= 'Z') ==> r == c
  {
    if 'A' <= c <= 'Z' then (c as int + 32) as char else c
  }

  function Lower(s: string): string
  {
    seq(|s|, i requires 0 <= i < |s| => LowerChar(s[i]))
  }

  // ---------------------------------------------------------------------------
  // str.strip(chars)

  /** str.lstrip(chars): drop leading characters of `cs`. */
  function LStrip(s: string, cs: set<char>): string
  {
    if s != [] && s[0] in cs then LStrip(s[1..], cs) else s
  }

  /** LStrip leaves the longest suffix of `s` whose first character is not
      in `cs`. */
  lemma {:induction false} LStripSpec(s: string, cs: set<char>)
    ensures |LStrip(s, cs)| <= |s| && LStrip(s, cs) == s[|s| - |LStrip(s, cs)|..]
    ensures forall i :: 0 <= i < |s| - |LStrip(s, cs)| ==> s[i] in cs
    ensures LStrip(s, cs) != [] ==> LStrip(s, cs)[0] !in cs
  {
    if s != [] && s[0] in cs {
      LStripSpec(s[1..], cs);
      var n := |LStrip(s, cs)|;
      assert s[1..][|s| - 1 - n..] == s[|s| - n..];
      forall i | 0 <= i < |s| - n
        ensures s[i] in cs
      {
        if i > 0 {
          assert s[i] == s[1..][i - 1];
        }
      }
    }
  }

  /** str.rstrip(chars): drop trailing characters of `cs`. */
  function RStrip(s: string, cs: set<char>): string
  {
    if s != [] && s[|s| - 1] in cs then RStrip(s[..|s| - 1], cs) else s
  }

  /** RStrip leaves the longest prefix of `s` whose last character is not
      in `cs`. */
  lemma {:induction false} RStripSpec(s: string, cs: set<char>)
    ensures |RStrip(s, cs)| <= |s| && RStrip(s, cs) == s[..|RStrip(s, cs)|]
    ensures forall i :: |RStrip(s, cs)| <= i < |s| ==> s[i] in cs
    ensures RStrip(s, cs) != [] ==> RStrip(s, cs)[|RStrip(s, cs)| - 1] !in cs
  {
    if s != [] && s[|s| - 1] in cs {
      RStripSpec(s[..|s| - 1], cs);
      var n := |RStrip(s, cs)|;
      assert s[..|s| - 1][..n] == s[..n];
      forall i | n <= i < |s|
        ensures s[i] in cs
      {
        if i < |s| - 1 {
          assert s[i] == s[..|s| - 1][i];
        }
      }
    }
  }

  /** str.strip(chars): drop characters of `cs` from both ends. */
  function Strip(s: string, cs: set<char>): string
  {
    RStrip(LStrip(s, cs), cs)
  }

  /** Strip leaves a contiguous slice of `s` whose ends are not in `cs`, and
      only characters of `cs` were removed. */
  lemma StripIsSlice(s: string, cs: set<char>)
    ensures exists i, j ::
      && 0 <= i <= j <= |s| && Strip(s, cs) == s[i..j]
      && (forall k :: 0 <= k < i ==> s[k] in cs)
      && (forall k :: j <= k < |s| ==> s[k] in cs)
    ensures Strip(s, cs) != [] ==> Strip(s, cs)[0] !in cs && Strip(s, cs)[|Strip(s, cs)| - 1] !in cs
  {
    var l := LStrip(s, cs);
    var r := RStrip(l, cs);
    LStripSpec(s, cs);
    RStripSpec(l, cs);
    var i := |s| - |l|;
    var j := i + |r|;
    assert r == s[i..j];
    forall k | j <= k < |s|
      ensures s[k] in cs
    {
      assert s[k] == l[k - i];
    }
    if r != [] {
      assert r[0] == l[0];
    }
  }

  lemma {:induction false} LStripExact(s: string, cs: set<char>, i: nat)
    requires i < |s|
    requires forall k :: 0 <= k < i ==> s[k] in cs
    requires s[i] !in cs
    ensures LStrip(s, cs) == s[i..]
  {
    if i > 0 {
      assert s[0] in cs;
      LStripExact(s[1..], cs, i - 1);
      assert s[1..][i - 1..] == s[i..];
    }
  }

  lemma {:induction false} RStripExact(s: string, cs: set<char>, j: nat)
    requires 0 < j <= |s|
    requires forall k :: j <= k < |s| ==> s[k] in cs
    requires s[j - 1] !in cs
    ensures RStrip(s, cs) == s[..j]
  {
    if j < |s| {
      assert s[|s| - 1] in cs;
      RStripExact(s[..|s| - 1], cs, j);
      assert s[..|s| - 1][..j] == s[..j];
    }
  }

  lemma RStripSliceExact(s: string, cs: set<char>, i: nat, j: nat)
    requires i < j <= |s|
    requires forall k :: j <= k < |s| ==> s[k] in cs
    requires s[j - 1] !in cs
    ensures RStrip(s[i..], cs) == s[i..j]
  {
    var t := s[i..];
    forall k | j - i <= k < |t|
      ensures t[k] in cs
    {
      assert t[k] == s[i + k];
    }
    assert t[j - i - 1] == s[j - 1];
    RStripExact(t, cs, j - i);
    assert t[..j - i] == s[i..j];
  }

  /** The converse of StripIsSlice: a slice whose ends are outside `cs`, with
      only characters of `cs` around it, is what Strip returns. */
  lemma StripExact(s: string, cs: set<char>, i: nat, j: nat)
    requires i < j <= |s|
    requires forall k :: 0 <= k < i ==> s[k] in cs
    requires forall k :: j <= k < |s| ==> s[k] in cs
    requires s[i] !in cs && s[j - 1] !in cs
    ensures Strip(s, cs) == s[i..j]
  {
    LStripExact(s, cs, i);
    RStripSliceExact(s, cs, i, j);
  }

  /** Lower leaves text without upper-case letters unchanged. */
  lemma LowerIdentity(s: string)
    requires forall k :: 0 <= k < |s| ==> !('A' <= s[k] <= 'Z')
    ensures Lower(s) == s
  {
  }

  // ---------------------------------------------------------------------------
  // Sequences of strings

  /** ''.join(ss) */
  function Concat(ss: seq<string>): string
  {
    if ss == [] then [] else ss[0] + Concat(ss[1..])
  }

  lemma {:induction false} ConcatAppend(a: seq<string>, b: seq<string>)
    ensures Concat(a + b) == Concat(a) + Concat(b)
  {
    if a == [] {
      assert a + b == b;
    } else {
      assert (a + b)[1..] == a[1..] + b;
      ConcatAppend(a[1..], b);
    }
  }

  lemma ConcatSnoc(a: seq<string>, s: string)
    ensures Concat(a + [s]) == Concat(a) + s
  {
    ConcatAppend(a, [s]);
  }

  /** The strings, each wrapped as a present value. */
  function Somes(ss: seq<string>): (r: seq<Option<string>>)
    ensures |r| == |ss| && forall i :: 0 <= i < |ss| ==> r[i] == Some(ss[i])
  {
    if ss == [] then [] else [Some(ss[0])] + Somes(ss[1..])
  }

  /** sep.join(ss) */
  function Join(sep: string, ss: seq<string>): string
  {
    if ss == [] then [] else if |ss| == 1 then ss[0] else ss[0] + sep + Join(sep, ss[1..])
  }

  predicate StartsWith(s: string, prefix: string)
  {
    |prefix| <= |s| && s[..|prefix|] == prefix
  }

  /** str.endswith */
  predicate EndsWith(s: string, suffix: string)
  {
    |suffix| <= |s| && s[|s| - |suffix|..] == suffix
  }

  /** The `in` operator on strings: `sub` occurs somewhere in `s`. */
  predicate Contains(s: string, sub: string)
  {
    exists i :: 0 <= i <= |s| && StartsWith(s[i..], sub)
  }

  // ---------------------------------------------------------------------------
  // str(n) and int(s)

  function DigitChar(d: nat): (c: char)
    requires d < 10
    ensures IsDigit(c)
  {
    ('0' as int + d) as char
  }

  function DigitValue(c: char): (d: nat)
    requires IsDigit(c)
    ensures d < 10 && DigitChar(d) == c
  {
    c as int - '0' as int
  }

  /** str(n) for a natural number: decimal digits, no leading zero. */
  function NatToString(n: nat): (r: string)
    ensures r != [] && forall i :: 0 <= i < |r| ==> IsDigit(r[i])
    ensures r[0] == '0' <==> n == 0
    ensures n < 10 <==> |r| == 1
  {
    if n < 10 then [DigitChar(n)] else NatToString(n / 10) + [DigitChar(n % 10)]
  }

  /** str(i) for any integer. */
  function IntToString(i: int): (r: string)
    ensures r != []
    ensures i >= 0 ==> r == NatToString(i)
    ensures i < 0 ==> r[0] == '-' && r[1..] == NatToString(-i)
  {
    if i < 0 then "-" + NatToString(-i) else NatToString(i)
  }

  predicate AllDigits(s: string)
  {
    forall i :: 0 <= i < |s| ==> IsDigit(s[i])
  }

  /** int(s) for a string of decimal digits (leading zeros allowed). */
  function ParseDigits(s: string): nat
    requires AllDigits(s)
  {
    if s == [] then 0 else ParseDigits(s[..|s| - 1]) * 10 + DigitValue(s[|s| - 1])
  }

  /** int(str(n)) == n */
  lemma {:induction false} ParseNatToString(n: nat)
    ensures ParseDigits(NatToString(n)) == n
  {
    var r := NatToString(n);
    if n >= 10 {
      ParseNatToString(n / 10);
      assert r[..|r| - 1] == NatToString(n / 10);
    }
  }

  /** A leading '0' does not change the value: int("07") == int("7"). */
  lemma {:induction false} ParseLeadingZero(s: string)
    requires AllDigits(s)
    ensures ParseDigits("0" + s) == ParseDigits(s)
  {
    if s != [] {
      assert ("0" + s)[..|"0" + s| - 1] == "0" + s[..|s| - 1];
      ParseLeadingZero(s[..|s| - 1]);
    }
  }

  /** "%02d": two digits, zero padded. */
  function Pad2(n: nat): (r: string)
    requires n < 100
    ensures |r| == 2 && AllDigits(r) && ParseDigits(r) == n
  {
    ParseNatToString(n);
    if n < 10 then ParseLeadingZero(NatToString(n)); "0" + NatToString(n)
    else NatToString(n)
  }

  /** str.lstrip of a single character. */
  function LStripChar(s: string, c: char): (r: string)
    ensures |r| <= |s| && r == s[|s| - |r|..]
    ensures forall i :: 0 <= i < |s| - |r| ==> s[i] == c
    ensures r != [] ==> r[0] != c
  {
    if s != [] && s[0] == c then LStripChar(s[1..], c) else s
  }
}
