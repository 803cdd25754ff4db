/** The turn preprocessor: a pure classifier from a transcribed utterance to an
    action and its payload. Rules are tried in order and the first that fires
    decides: cancel phrases, garbled characters, single words, exact time and
    date questions, and the "set volume" command. The clock and the random
    choice of reply template are parameters. */
module Preprocessing {
  import opened Text

  datatype Action = Drop | Continue | Replace | VolumeAdjust

  datatype Payload = NoPayload | Text(text: string) | Volume(fraction: real)

  datatype Decision = Decision(action: Action, payload: Payload)

  type Hour = h: int | 0 <= h < 24
  type Minute = m: int | 0 <= m < 60
  type Weekday = d: int | 0 <= d < 7   // 0 is Monday, as in time.localtime
  type Month = m: int | 1 <= m <= 12 witness 1
  type Day = d: int | 1 <= d <= 31 witness 1

  /** The fields of time.localtime() that the replies use. */
  datatype Clock = Clock(hour: Hour, minute: Minute, weekday: Weekday, month: Month, day: Day)

  /** Index chosen by random.choice among the four time replies. */
  type TimePick = i: int | 0 <= i < 4
  /** Index chosen by random.choice among the two date replies. */
  type DatePick = i: int | 0 <= i < 2

  const StripChars: set<char> := {'.', '?', '!', ' ', '\t', '\n'}
  const EndsWithCancelWords: seq<string> := ["nevermind", "forgetit", "thankyou"]
  const ContainsCancelWords: seq<string> := ["ignorethis"]
  /** The one character of `invalid_char_regex`. */
  const InvalidChar: char := '\U{A9}'
  const TimeQueries: seq<string> := ["what time is it", "what is the time", "tell me the time"]
  const DateQueries: seq<string> := ["what is the date", "what day is it", "what day of the week is it"]
  const NumberWords: seq<string> :=
    ["zero", "one", "two", "three", "four", "five", "six", "seven", "eight", "nine"]
  const WeekdayNames: seq<string> :=
    ["Monday", "Tuesday", "Wednesday", "Thursday", "Friday", "Saturday", "Sunday"]
  const MonthNames: seq<string> :=
    ["January", "February", "March", "April", "May", "June", "July", "August",
     "September", "October", "November", "December"]

  // ---------------------------------------------------------------------------
  // Normalisation

  /** query.strip(".?! \t\n").lower() */
  function Cleaned(query: string): string
  {
    Lower(Strip(query, StripChars))
  }

  /** The letters of `s`, in order. */
  function Letters(s: string): string
  {
    if s == [] then []
    else if IsAlpha(s[0]) then [s[0]] + Letters(s[1..])
    else Letters(s[1..])
  }

  /** The residue holds only letters and is empty exactly when `s` has none. */
  lemma {:induction false} LettersSpec(s: string)
    ensures |Letters(s)| <= |s|
    ensures forall i :: 0 <= i < |Letters(s)| ==> IsAlpha(Letters(s)[i])
    ensures Letters(s) == [] <==> forall i :: 0 <= i < |s| ==> !IsAlpha(s[i])
  {
    if s != [] {
      LettersSpec(s[1..]);
      if !IsAlpha(s[0]) && Letters(s[1..]) == [] {
        forall i | 0 <= i < |s| ensures !IsAlpha(s[i]) {
          if i > 0 { assert s[i] == s[1..][i - 1]; }
        }
      }
    }
  }

  lemma {:induction false} LettersAppend(a: string, b: string)
    ensures Letters(a + b) == Letters(a) + Letters(b)
  {
    if a != [] {
      assert (a + b)[1..] == a[1..] + b;
      LettersAppend(a[1..], b);
    } else {
      assert a + b == b;
    }
  }

  lemma {:induction false} LettersOfWord(s: string)
    requires forall i :: 0 <= i < |s| ==> IsAlpha(s[i])
    ensures Letters(s) == s
  {
    if s != [] {
      LettersOfWord(s[1..]);
    }
  }

  /** A word followed by a space contributes exactly its letters. */
  lemma LettersOfWordThenSpace(w: string, rest: string)
    requires forall i :: 0 <= i < |w| ==> IsAlpha(w[i])
    ensures Letters(w + " " + rest) == w + Letters(rest)
  {
    LettersAppend(w, " " + rest);
    LettersAppend(" ", rest);
    LettersOfWord(w);
    assert w + " " + rest == w + (" " + rest);
  }

  /** ''.join(e for e in stripped if e.isalpha()).lower() */
  function Residue(stripped: string): string
  {
    Lower(Letters(stripped))
  }

  predicate EndsWithAny(s: string, words: seq<string>)
  {
    exists k :: 0 <= k < |words| && EndsWith(s, words[k])
  }

  predicate ContainsAny(s: string, words: seq<string>)
  {
    exists k :: 0 <= k < |words| && Contains(s, words[k])
  }

  /** The first rule: an empty residue, a residue ending in a cancel phrase, or
      one containing a hard-cancel phrase. */
  predicate Cancelled(residue: string)
  {
    residue == [] || EndsWithAny(residue, EndsWithCancelWords)
    || ContainsAny(residue, ContainsCancelWords)
  }

  // ---------------------------------------------------------------------------
  // Time and date replies

  /** The hour as `%I` reads it: 12 for midnight and noon, else hour mod 12. */
  function Hour12(h: Hour): (r: nat)
    ensures 1 <= r <= 12
  {
    if h % 12 == 0 then 12 else h % 12
  }

  /** time.strftime("%I:%M").lstrip("0") */
  function TimeString(now: Clock): string
  {
    LStripChar(Pad2(Hour12(now.hour)) + ":" + Pad2(now.minute), '0')
  }

  /** The time string is H:MM on a 12-hour dial with no leading zero. */
  lemma TimeStringShape(now: Clock)
    ensures TimeString(now) == NatToString(Hour12(now.hour)) + ":" + Pad2(now.minute)
    ensures TimeString(now)[0] != '0'
  {
    var h := Hour12(now.hour);
    var tail := ":" + Pad2(now.minute);
    if h < 10 {
      assert Pad2(h) == "0" + NatToString(h);
      var s := "0" + NatToString(h) + tail;
      assert s[0] == '0';
      assert s[1..] == NatToString(h) + tail;
      assert s[1..][0] != '0';
      assert LStripChar(s[1..], '0') == s[1..];
      assert LStripChar(s, '0') == LStripChar(s[1..], '0');
      assert Pad2(h) + ":" + Pad2(now.minute) == s;
    } else {
      assert Pad2(h) == NatToString(h);
      assert (NatToString(h) + tail)[0] == NatToString(h)[0];
    }
  }

  /** The four time templates, filled with `t`. */
  function TimeReply(pick: TimePick, t: string): string
  {
    match pick
    case 0 => "It is " + t + "."
    case 1 => "The time is " + t + "."
    case 2 => "It is currently " + t
    case 3 => t + "."
  }

  /** check_for_time */
  function CheckForTime(query: string, now: Clock, pick: TimePick): (r: Option<string>)
    ensures r.Some? <==> query in TimeQueries
    ensures r.Some? ==> r.value == TimeReply(pick, TimeString(now)) && r.value != []
  {
    if query in TimeQueries then
      TimeStringShape(now);
      Some(TimeReply(pick, TimeString(now)))
    else None
  }

  /** number_suffix: str(d) followed by an ordinal suffix chosen from d % 20. */
  function NumberSuffix(d: int): string
  {
    IntToString(d) + match d % 20 { case 1 => "st" case 2 => "nd" case 3 => "rd" case _ => "th" }
  }

  /** The suffix depends on d % 20 only: 1, 2, 3 give st, nd, rd and every other
      remainder gives th, so the teens take th and so do 31, 32 and 33. */
  lemma NumberSuffixCases(d: int)
    ensures exists sfx ::
      && NumberSuffix(d) == IntToString(d) + sfx
      && (sfx == "st" <==> d % 20 == 1)
      && (sfx == "nd" <==> d % 20 == 2)
      && (sfx == "rd" <==> d % 20 == 3)
      && (sfx == "th" <==> d % 20 !in {1, 2, 3})
  {
    var sfx := match d % 20 { case 1 => "st" case 2 => "nd" case 3 => "rd" case _ => "th" };
    assert NumberSuffix(d) == IntToString(d) + sfx;
  }

  lemma NumberSuffixFirstDays()
    ensures NumberSuffix(1) == "1st" && NumberSuffix(2) == "2nd" && NumberSuffix(3) == "3rd"
  {
  }

  /** The teens take th. */
  lemma NumberSuffixTeens()
    ensures NumberSuffix(11) == "11th" && NumberSuffix(12) == "12th" && NumberSuffix(13) == "13th"
  {
  }

  /** 21 and 22 take st and nd, but 31 takes th, since 31 % 20 is 11. */
  lemma NumberSuffixLateDays()
    ensures NumberSuffix(21) == "21st" && NumberSuffix(22) == "22nd" && NumberSuffix(31) == "31th"
  {
  }

  /** "%A, %B": weekday and month names. */
  function DateHead(now: Clock): string
  {
    WeekdayNames[now.weekday] + ", " + MonthNames[now.month - 1]
  }

  /** int(strftime("%d").lstrip("0")): the day of the month, written with
      two digits, its leading zero stripped and read back. */
  function DayOfMonth(now: Clock): (d: int)
    ensures d == now.day
  {
    DayReadBack(now.day);
    ParseDigits(LStripChar(Pad2(now.day), '0'))
  }

  /** Stripping the zero padding from a day of the month leaves digits that
      read back as that day: no day is 0, so nothing but the pad is
      stripped. */
  lemma DayReadBack(d: Day)
    ensures AllDigits(LStripChar(Pad2(d), '0'))
    ensures ParseDigits(LStripChar(Pad2(d), '0')) == d
  {
    var digits := NatToString(d);
    ParseNatToString(d);
    if d < 10 {
      assert Pad2(d) == "0" + digits;
      assert ("0" + digits)[1..] == digits;
      assert LStripChar("0" + digits, '0') == LStripChar(digits, '0');
    }
    assert LStripChar(digits, '0') == digits;
  }

  /** The two date templates. */
  function DateReply(pick: DatePick, now: Clock): string
  {
    match pick
    case 0 => "It is " + DateHead(now) + " " + NumberSuffix(DayOfMonth(now)) + "."
    case 1 => DateHead(now) + " " + NumberSuffix(DayOfMonth(now))
  }

  /** check_for_date */
  function CheckForDate(query: string, now: Clock, pick: DatePick): (r: Option<string>)
    ensures r.Some? <==> query in DateQueries
    ensures r.Some? ==> r.value == DateReply(pick, now) && r.value != []
  {
    if query in DateQueries then Some(DateReply(pick, now)) else None
  }

  // ---------------------------------------------------------------------------
  // Volume: re.search(r'set(?: your| the)? volume to ([^\s%]+) ?(?:%|percent)?', query)

  /** The three spellings the optional group allows, in the order the regex tries them. */
  const VolumePrefixes: seq<string> := ["set your volume to ", "set the volume to ", "set volume to "]

  /** `[^\s%]` */
  predicate GroupChar(c: char) { !IsSpace(c) && c != '%' }

  /** Length of the longest run of group characters starting at `i`. */
  function RunLength(s: string, i: nat): (n: nat)
    requires i <= |s|
    ensures i + n <= |s|
    ensures forall k :: i <= k < i + n ==> GroupChar(s[k])
    ensures i + n < |s| ==> !GroupChar(s[i + n])
    decreases |s| - i
  {
    if i < |s| && GroupChar(s[i]) then 1 + RunLength(s, i + 1) else 0
  }

  /** The match attempt at position `i`: group 1 if one of the prefixes starts
      there and is followed by at least one group character. The trailing
      ` ?(?:%|percent)?` is optional and never makes an attempt fail. */
  function MatchAt(s: string, i: nat): Option<string>
    requires i <= |s|
  {
    MatchPrefixAt(s, i, 0)
  }

  function MatchPrefixAt(s: string, i: nat, p: nat): Option<string>
    requires i <= |s| && p <= |VolumePrefixes|
    decreases |VolumePrefixes| - p
  {
    if p == |VolumePrefixes| then None
    else
      var pre := VolumePrefixes[p];
      var g := i + |pre|;
      if g < |s| && s[i..g] == pre && GroupChar(s[g]) then
        Some(s[g..g + RunLength(s, g)])
      else MatchPrefixAt(s, i, p + 1)
  }

  /** re.search from position `i`: the leftmost successful attempt. */
  function SearchFrom(s: string, i: nat): Option<string>
    requires i <= |s|
    decreases |s| - i
  {
    match MatchAt(s, i)
    case Some(g) => Some(g)
    case None => if i == |s| then None else SearchFrom(s, i + 1)
  }

  /** What group 1 is when the search succeeds: it sits right after one of the
      prefixes at the leftmost position from `i` where an attempt succeeds,
      and is a maximal non-empty run of characters that are neither white
      space nor '%'; the search fails exactly when no attempt succeeds. */
  lemma {:induction false} SearchFromFinds(s: string, i: nat)
    requires i <= |s|
    ensures SearchFrom(s, i).Some? ==> exists j :: LeftmostMatch(s, i, j, SearchFrom(s, i).value)
    ensures SearchFrom(s, i).None? <==> NoMatchBetween(s, i, |s| + 1)
    decreases |s| - i
  {
    match MatchAt(s, i)
    case Some(g) =>
      MatchPrefixFound(s, i, 0);
      assert LeftmostMatch(s, i, i, g);
    case None =>
      if i < |s| {
        SearchFromFinds(s, i + 1);
        if SearchFrom(s, i + 1).Some? {
          var j :| LeftmostMatch(s, i + 1, j, SearchFrom(s, i + 1).value);
          assert LeftmostMatch(s, i, j, SearchFrom(s, i).value);
        } else {
          assert NoMatchBetween(s, i, |s| + 1);
        }
      } else {
        assert NoMatchBetween(s, i, |s| + 1);
      }
  }

  /** No attempt succeeds at a position from `i` up to (excluding) `j`. */
  ghost predicate NoMatchBetween(s: string, i: nat, j: nat)
  {
    forall k :: i <= k < j && k <= |s| ==> MatchAt(s, k).None?
  }

  /** `g` is matched at `j`, the leftmost position from `i` where an attempt
      succeeds. */
  ghost predicate LeftmostMatch(s: string, i: nat, j: nat, g: string)
  {
    && i <= j <= |s|
    && (exists p :: VolumeMatchAt(s, j, p, g))
    && NoMatchBetween(s, i, j)
  }

  /** The group `g` is a successful match for prefix number `p` at position `j`. */
  ghost predicate VolumeMatchAt(s: string, j: nat, p: nat, g: string)
  {
    p < |VolumePrefixes| && PrefixMatchAt(s, j, VolumePrefixes[p], g)
  }

  /** `pre` occurs at `j` and is followed by the maximal non-empty run `g`
      of group characters. */
  ghost predicate PrefixMatchAt(s: string, j: nat, pre: string, g: string)
  {
    && j + |pre| + |g| <= |s|
    && s[j..j + |pre|] == pre
    && s[j + |pre|..j + |pre| + |g|] == g
    && g != []
    && (forall k :: 0 <= k < |g| ==> GroupChar(g[k]))
    && (j + |pre| + |g| < |s| ==> !GroupChar(s[j + |pre| + |g|]))
  }

  /** A run that starts with a group character is a non-empty maximal run. */
  lemma RunAt(s: string, start: nat)
    requires start < |s| && GroupChar(s[start])
    ensures var g := s[start..start + RunLength(s, start)];
      && g != [] && (forall k :: 0 <= k < |g| ==> GroupChar(g[k]))
      && (start + |g| < |s| ==> !GroupChar(s[start + |g|]))
  {
  }

  lemma PrefixHit(s: string, i: nat, pre: string)
    requires i + |pre| < |s|
    requires s[i..i + |pre|] == pre && GroupChar(s[i + |pre|])
    ensures PrefixMatchAt(s, i, pre, s[i + |pre|..i + |pre| + RunLength(s, i + |pre|)])
  {
    RunAt(s, i + |pre|);
  }

  lemma MatchPrefixHit(s: string, i: nat, p: nat)
    requires p < |VolumePrefixes| && i + |VolumePrefixes[p]| < |s|
    requires s[i..i + |VolumePrefixes[p]|] == VolumePrefixes[p] && GroupChar(s[i + |VolumePrefixes[p]|])
    ensures MatchPrefixAt(s, i, p).Some? && VolumeMatchAt(s, i, p, MatchPrefixAt(s, i, p).value)
  {
    var pre := VolumePrefixes[p];
    PrefixHit(s, i, pre);
  }

  lemma {:induction false} MatchPrefixFound(s: string, i: nat, p: nat)
    requires i <= |s| && p <= |VolumePrefixes|
    ensures MatchPrefixAt(s, i, p).Some? ==> exists q :: VolumeMatchAt(s, i, q, MatchPrefixAt(s, i, p).value)
    decreases |VolumePrefixes| - p
  {
    if p < |VolumePrefixes| {
      var pre := VolumePrefixes[p];
      var g := i + |pre|;
      if g < |s| && s[i..g] == pre && GroupChar(s[g]) {
        MatchPrefixHit(s, i, p);
      } else {
        assert MatchPrefixAt(s, i, p) == MatchPrefixAt(s, i, p + 1);
        MatchPrefixFound(s, i, p + 1);
      }
    }
  }

  /** Position of `w` in `words` (list.index); the caller ensures it is there. */
  function IndexOf(words: seq<string>, w: string): (k: nat)
    requires w in words
    ensures k < |words| && words[k] == w
  {
    if words[0] == w then 0 else 1 + IndexOf(words[1..], w)
  }

  /** check_for_volume: None when the pattern is absent, the fraction N/100
      when it names N in digits or as a word zero..nine, and ValueError from
      list.index for any other word. */
  function CheckForVolume(query: string): (r: Result<Option<real>>)
  {
    VolumeOf(SearchFrom(query, 0))
  }

  /** int(n) / 100 */
  function Percentage(n: nat): real
  {
    n as real / 100.0
  }

  /** What check_for_volume makes of the search result (group 1, if any). */
  function VolumeOf(found: Option<string>): Result<Option<real>>
  {
    match found
    case None => Ok(None)
    case Some(g) =>
      if AllDigits(g) then Ok(Some(Percentage(ParseDigits(g))))
      else if g in NumberWords then Ok(Some(Percentage(IndexOf(NumberWords, g))))
      else Err(ValueError)
  }

  // ---------------------------------------------------------------------------
  // The classifier

  /** preprocess: the first rule that fires decides. */
  function Preprocess(query: string, now: Clock, timePick: TimePick, datePick: DatePick): Result<Decision>
  {
    var stripped := Cleaned(query);
    if Cancelled(Residue(stripped)) then Ok(Decision(Drop, NoPayload))
    else if InvalidChar in stripped then Ok(Decision(Drop, NoPayload))
    else if ' ' !in stripped then Ok(Decision(Drop, NoPayload))
    else Answer(query, stripped, now, timePick, datePick)
  }

  /** The rules after the drop rules: time, date, volume, else pass the query on. */
  function Answer(query: string, stripped: string, now: Clock, timePick: TimePick, datePick: DatePick): Result<Decision>
  {
    match CheckForTime(stripped, now, timePick)
    case Some(t) => Ok(Decision(Replace, Text(t)))
    case None =>
      match CheckForDate(stripped, now, datePick)
      case Some(d) => Ok(Decision(Replace, Text(d)))
      case None =>
        match CheckForVolume(stripped)
        case Err(e) => Err(e)
        case Ok(Some(f)) => Ok(Decision(VolumeAdjust, Volume(f)))
        case Ok(None) => Ok(Decision(Continue, Text(query)))
  }

  const Dropped := Ok(Decision(Drop, NoPayload))

  /** Every reply the time and date rules can produce at clock `now`. */
  function LocalReplies(now: Clock): set<string>
  {
    var t := TimeString(now);
    {TimeReply(0, t), TimeReply(1, t), TimeReply(2, t), TimeReply(3, t), DateReply(0, now), DateReply(1, now)}
  }

  /** Drop happens exactly when one of the three drop rules fires on the
      cleaned text: a cancel residue, the invalid character, or no space. */
  lemma DropExactly(query: string, now: Clock, tp: TimePick, dp: DatePick)
    ensures Preprocess(query, now, tp, dp) == Dropped <==>
      var c := Cleaned(query);
      Cancelled(Residue(c)) || InvalidChar in c || ' ' !in c
  {
  }

  /** The payload always fits the action: nothing for Drop, the reply or
      the query text for Replace and Continue, a fraction for VolumeAdjust,
      and that fraction is what the volume rule reads from the cleaned text. */
  lemma AnswerFits(query: string, stripped: string, now: Clock, tp: TimePick, dp: DatePick)
    requires Answer(query, stripped, now, tp, dp).Ok?
    ensures var d := Answer(query, stripped, now, tp, dp).value;
      && d.action != Drop
      && (d.action == Replace ==> d.payload.Text?)
      && (d.action == Continue ==> d.payload == Text(query))
      && (d.action == VolumeAdjust ==> CheckForVolume(stripped) == Ok(Some(d.payload.fraction)))
  {
  }

  lemma PayloadFitsAction(query: string, now: Clock, tp: TimePick, dp: DatePick)
    requires Preprocess(query, now, tp, dp).Ok?
    ensures var d := Preprocess(query, now, tp, dp).value;
      && (d.action == Drop <==> d.payload == NoPayload)
      && (d.action == Replace || d.action == Continue <==> d.payload.Text?)
      && (d.action == VolumeAdjust <==> d.payload.Volume?)
      && (d.action == VolumeAdjust ==> CheckForVolume(Cleaned(query)) == Ok(Some(d.payload.fraction)))
  {
    var c := Cleaned(query);
    if Cancelled(Residue(c)) || InvalidChar in c || ' ' !in c {
      assert Preprocess(query, now, tp, dp) == Dropped;
    } else {
      assert Preprocess(query, now, tp, dp) == Answer(query, c, now, tp, dp);
      AnswerFits(query, c, now, tp, dp);
    }
  }

  /** A query with no letters at all (after stripping) is dropped. */
  lemma NoLettersDrops(query: string, now: Clock, tp: TimePick, dp: DatePick)
    requires forall i :: 0 <= i < |Cleaned(query)| ==> !IsAlpha(Cleaned(query)[i])
    ensures Preprocess(query, now, tp, dp) == Dropped
  {
    LettersSpec(Cleaned(query));
  }

  /** Replace answers only the exact time and date questions, with a reply
      drawn from the fixed templates; time wins over date. */
  lemma ReplaceIsLocalAnswer(query: string, now: Clock, tp: TimePick, dp: DatePick)
    requires Preprocess(query, now, tp, dp).Ok?
    requires Preprocess(query, now, tp, dp).value.action == Replace
    ensures Cleaned(query) in TimeQueries || Cleaned(query) in DateQueries
    ensures Cleaned(query) in TimeQueries ==>
      Preprocess(query, now, tp, dp).value.payload == Text(TimeReply(tp, TimeString(now)))
    ensures Cleaned(query) in DateQueries ==>
      Preprocess(query, now, tp, dp).value.payload == Text(DateReply(dp, now))
    ensures Preprocess(query, now, tp, dp).value.payload.Text?
    ensures Preprocess(query, now, tp, dp).value.payload.text in LocalReplies(now)
  {
    var c := Cleaned(query);
    assert Preprocess(query, now, tp, dp) == Answer(query, c, now, tp, dp);
    AnswerReplace(query, c, now, tp, dp);
  }

  /** No question is both a time and a date question. */
  lemma QueriesDisjoint(q: string)
    requires q in TimeQueries
    ensures q !in DateQueries
  {
    assert |TimeQueries[0]| == 15 && |TimeQueries[1]| == 16 && |TimeQueries[2]| == 16;
    assert |DateQueries[0]| == 16 && |DateQueries[1]| == 14 && |DateQueries[2]| == 26;
    assert TimeQueries[1][12] != DateQueries[0][12];
    assert TimeQueries[2][0] != DateQueries[0][0];
  }

  lemma AnswerReplace(query: string, c: string, now: Clock, tp: TimePick, dp: DatePick)
    requires Answer(query, c, now, tp, dp).Ok?
    requires Answer(query, c, now, tp, dp).value.action == Replace
    ensures c in TimeQueries || c in DateQueries
    ensures c in TimeQueries ==> Answer(query, c, now, tp, dp).value.payload == Text(TimeReply(tp, TimeString(now)))
    ensures c in DateQueries ==> Answer(query, c, now, tp, dp).value.payload == Text(DateReply(dp, now))
    ensures Answer(query, c, now, tp, dp).value.payload.Text?
    ensures Answer(query, c, now, tp, dp).value.payload.text in LocalReplies(now)
  {
    LocalRepliesCover(now, tp, dp);
    match CheckForTime(c, now, tp)
    case Some(t) =>
      QueriesDisjoint(c);
      assert Answer(query, c, now, tp, dp) == Ok(Decision(Replace, Text(t)));
    case None =>
      match CheckForDate(c, now, dp)
      case Some(d) =>
        assert Answer(query, c, now, tp, dp) == Ok(Decision(Replace, Text(d)));
      case None =>
  }

  lemma LocalRepliesCover(now: Clock, tp: TimePick, dp: DatePick)
    ensures TimeReply(tp, TimeString(now)) in LocalReplies(now)
    ensures DateReply(dp, now) in LocalReplies(now)
  {
    var t := TimeString(now);
    var all := LocalReplies(now);
    if tp == 0 { assert TimeReply(0, t) in all; }
    else if tp == 1 { assert TimeReply(1, t) in all; }
    else if tp == 2 { assert TimeReply(2, t) in all; }
    else { assert TimeReply(3, t) in all; }
    if dp == 0 { assert DateReply(0, now) in all; } else { assert DateReply(1, now) in all; }
  }

  /** When no rule fires the original, unstripped query is passed on. */
  lemma ContinuePassesQuery(query: string, now: Clock, tp: TimePick, dp: DatePick)
    requires Preprocess(query, now, tp, dp).Ok?
    requires Preprocess(query, now, tp, dp).value.action == Continue
    ensures Preprocess(query, now, tp, dp).value.payload == Text(query)
    ensures CheckForVolume(Cleaned(query)) == Ok(None)
    ensures Cleaned(query) !in TimeQueries && Cleaned(query) !in DateQueries
  {
  }

  /** A volume command yields a non-negative fraction N/100 of a number named
      in digits, or below 0.1 when named as a word. */
  lemma VolumeIsPercent(query: string)
    requires CheckForVolume(query).Ok? && CheckForVolume(query).value.Some?
    ensures WholePercent(CheckForVolume(query).value.value)
    ensures SearchFrom(query, 0).Some?
    ensures !AllDigits(SearchFrom(query, 0).value) ==>
      SearchFrom(query, 0).value in NumberWords && CheckForVolume(query).value.value < 0.1
  {
    VolumeOfPercent(SearchFrom(query, 0));
  }

  lemma VolumeOfPercent(found: Option<string>)
    requires VolumeOf(found).Ok? && VolumeOf(found).value.Some?
    ensures WholePercent(VolumeOf(found).value.value)
    ensures found.Some?
    ensures !AllDigits(found.value) ==> found.value in NumberWords && VolumeOf(found).value.value < 0.1
  {
    var g := found.value;
    var n := if AllDigits(g) then ParseDigits(g) else IndexOf(NumberWords, g);
    assert VolumeOf(found).value.value == Percentage(n);
    Percent(n);
  }

  /** A non-negative fraction with a whole number of hundredths. */
  predicate WholePercent(f: real)
  {
    f >= 0.0 && (f * 100.0).Floor as real == f * 100.0
  }

  lemma Percent(n: nat)
    ensures WholePercent(Percentage(n))
    ensures n < 10 ==> Percentage(n) < 0.1
  {
    var f := Percentage(n);
    assert f == n as real / 100.0;
    assert f * 100.0 == n as real;
    assert (n as real).Floor == n;
  }

  /** The only error: the pattern matched a word that is neither digits nor
      one of zero..nine. */
  lemma VolumeErrorIsUnknownWord(query: string)
    requires CheckForVolume(query).Err?
    ensures CheckForVolume(query).error == ValueError
    ensures SearchFrom(query, 0).Some?
    ensures !AllDigits(SearchFrom(query, 0).value) && SearchFrom(query, 0).value !in NumberWords
  {
    var found := SearchFrom(query, 0);
    assert CheckForVolume(query) == VolumeOf(found);
  }

  /** A character of `sub` that never occurs in `s` rules out `sub in s`. */
  lemma MissingCharNotContained(s: string, sub: string, c: char)
    requires c in sub && c !in s
    ensures !Contains(s, sub)
  {
  }

  /** Facts about a literal query that the drop rules look at. */
  lemma NotCancelled(res: string)
    requires 'g' !in res
    requires !EndsWith(res, "nevermind") && !EndsWith(res, "forgetit") && !EndsWith(res, "thankyou")
    requires res != []
    ensures !Cancelled(res)
  {
    MissingCharNotContained(res, ContainsCancelWords[0], 'g');
    assert !ContainsAny(res, ContainsCancelWords);
  }

  lemma StripNeverMind()
    ensures Strip("Never mind.", StripChars) == "Never mind"
  {
    var q := "Never mind.";
    StripExact(q, StripChars, 0, 10);
    assert q[0..10] == "Never mind";
  }

  lemma LowerNeverMind()
    ensures Lower("Never mind") == "never mind"
  {
    var s := "Never mind";
    assert LowerChar('N') == 'n';
    assert forall i :: 1 <= i < |s| ==> LowerChar(s[i]) == s[i];
  }

  lemma CleanedNeverMind()
    ensures Cleaned("Never mind.") == "never mind"
  {
    StripNeverMind();
    LowerNeverMind();
  }

  /** Two lower-case words separated by a space leave both words, joined. */
  lemma ResidueOfTwoWords(w1: string, w2: string)
    requires forall i :: 0 <= i < |w1| ==> 'a' <= w1[i] <= 'z'
    requires forall i :: 0 <= i < |w2| ==> 'a' <= w2[i] <= 'z'
    ensures Residue(w1 + " " + w2) == w1 + w2
  {
    LettersOfWordThenSpace(w1, w2);
    LettersOfWord(w2);
    LowerIdentity(w1 + w2);
  }

  lemma ResidueNeverMind()
    ensures Residue("never mind") == "nevermind"
  {
    ResidueOfTwoWords("never", "mind");
    assert "never" + " " + "mind" == "never mind";
    assert "never" + "mind" == "nevermind";
  }

  /** "Never mind." is dropped: its residue ends with a cancel phrase. */
  lemma ExampleNeverMind(now: Clock, tp: TimePick, dp: DatePick)
    ensures Preprocess("Never mind.", now, tp, dp) == Dropped
  {
    CleanedNeverMind();
    ResidueNeverMind();
    assert EndsWith("nevermind", EndsWithCancelWords[0]);
  }

  lemma StripAsdf()
    ensures Strip("asdf", StripChars) == "asdf"
  {
    StripExact("asdf", StripChars, 0, 4);
    assert "asdf"[0..4] == "asdf";
  }

  lemma LowerAsdf()
    ensures Lower("asdf") == "asdf"
  {
    LowerIdentity("asdf");
  }

  lemma CleanedAsdf()
    ensures Cleaned("asdf") == "asdf"
  {
    StripAsdf();
    LowerAsdf();
  }

  /** "asdf" is dropped: a single word. */
  lemma ExampleSingleWord(now: Clock, tp: TimePick, dp: DatePick)
    ensures Preprocess("asdf", now, tp, dp) == Dropped
  {
    CleanedAsdf();
    DropExactly("asdf", now, tp, dp);
    assert ' ' !in Cleaned("asdf");
  }

  /** "set the volume to 7%" names 7 in digits: 0.07. */
  lemma ExampleVolumeDigits()
    ensures CheckForVolume("set the volume to 7%") == Ok(Some(0.07))
  {
    var q := "set the volume to 7%";
    assert q[0..|VolumePrefixes[0]|] != VolumePrefixes[0] by { assert q[4] != VolumePrefixes[0][4]; }
    assert q[0..|VolumePrefixes[1]|] == VolumePrefixes[1];
    assert GroupChar(q[18]);
    assert RunLength(q, 18) == 1;
    assert q[18..19] == "7";
    assert MatchPrefixAt(q, 0, 0) == Some("7");
    assert SearchFrom(q, 0) == Some("7");
    VolumeOfSeven();
  }

  lemma VolumeOfSeven()
    ensures VolumeOf(Some("7")) == Ok(Some(0.07))
  {
    assert AllDigits("7");
    assert ParseDigits("7") == 7;
    assert Percentage(7) == 0.07;
  }

  /** "set your volume to five" names 5 as a word: 0.05. */
  lemma ExampleVolumeWord()
    ensures CheckForVolume("set your volume to five") == Ok(Some(0.05))
  {
    var q := "set your volume to five";
    assert q[0..|VolumePrefixes[0]|] == VolumePrefixes[0];
    assert GroupChar(q[19]);
    assert RunLength(q, 19) == 4;
    assert q[19..23] == "five";
    assert MatchPrefixAt(q, 0, 0) == Some("five");
    assert SearchFrom(q, 0) == Some("five");
    VolumeOfFive();
  }

  lemma VolumeOfFive()
    ensures VolumeOf(Some("five")) == Ok(Some(0.05))
  {
    assert !IsDigit("five"[0]);
    assert NumberWords[5] == "five";
    assert IndexOf(NumberWords, "five") == 5;
    assert Percentage(5) == 0.05;
  }

  /** "set the volume to loud" raises: the word is not zero..nine. */
  lemma ExampleVolumeUnknownWord()
    ensures CheckForVolume("set the volume to loud") == Err(ValueError)
  {
    var q := "set the volume to loud";
    assert q[0..|VolumePrefixes[0]|] != VolumePrefixes[0] by { assert q[4] != VolumePrefixes[0][4]; }
    assert q[0..|VolumePrefixes[1]|] == VolumePrefixes[1];
    assert GroupChar(q[18]);
    assert RunLength(q, 18) == 4;
    assert q[18..22] == "loud";
    assert MatchPrefixAt(q, 0, 0) == Some("loud");
    assert SearchFrom(q, 0) == Some("loud");
    VolumeOfLoud();
  }

  lemma VolumeOfLoud()
    ensures VolumeOf(Some("loud")) == Err(ValueError)
  {
    assert !IsDigit("loud"[0]);
    assert forall k :: 0 <= k < |NumberWords| ==> NumberWords[k][0] != 'l';
  }
}
