/** The string functions the source packages apply to source wording. */
module Text {
  import opened Wrappers

  /** White space as the standard library classifies it. */
  predicate IsSpace(c: char) {
    || '\t' <= c <= '\r' || c == ' ' || c == '\U{85}' || c == '\U{A0}' || c == '\U{1680}'
    || '\U{2000}' <= c <= '\U{200A}' || c == '\U{2028}' || c == '\U{2029}'
    || c == '\U{202F}' || c == '\U{205F}' || c == '\U{3000}'
  }

  /** In code points: the ASCII ones, the next line and the no-break space, and the blanks
      and separators of the general punctuation. */
  lemma SpacesByNumber(c: char)
    ensures IsSpace(c) <==>
            var n := c as int;
            9 <= n <= 13 || 0x2000 <= n <= 0x200A
            || n in {32, 0x85, 0xA0, 0x1680, 0x2028, 0x2029, 0x202F, 0x205F, 0x3000}
  {
  }

  function TrimLeft(s: string): string {
    if s != "" && IsSpace(s[0]) then TrimLeft(s[1..]) else s
  }

  function TrimRight(s: string): string {
    if s != "" && IsSpace(s[|s| - 1]) then TrimRight(s[..|s| - 1]) else s
  }

  function Trim(s: string): string {
    TrimRight(TrimLeft(s))
  }

  /** Trimmed, with every inner run of white space replaced by one blank. */
  function Collapse(s: string): string {
    if s == "" then ""
    else if IsSpace(s[|s| - 1]) then Collapse(s[..|s| - 1])
    else if |s| > 1 && IsSpace(s[|s| - 2]) && Collapse(s[..|s| - 1]) != ""
      then Collapse(s[..|s| - 1]) + [' ', s[|s| - 1]]
    else Collapse(s[..|s| - 1]) + [s[|s| - 1]]
  }

  predicate AllSpace(s: string) {
    forall i :: 0 <= i < |s| ==> IsSpace(s[i])
  }

  predicate NoSpace(s: string) {
    s != "" && forall i :: 0 <= i < |s| ==> !IsSpace(s[i])
  }

  lemma {:induction false} TrimLeftOf(lead: string, s: string)
    requires AllSpace(lead) && (s == "" || !IsSpace(s[0]))
    ensures TrimLeft(lead + s) == s
    decreases |lead|
  {
    if lead == "" {
      assert lead + s == s;
    } else {
      assert (lead + s)[1..] == lead[1..] + s;
      TrimLeftOf(lead[1..], s);
    }
  }

  lemma {:induction false} TrimRightOf(s: string, trail: string)
    requires AllSpace(trail) && (s == "" || !IsSpace(s[|s| - 1]))
    ensures TrimRight(s + trail) == s
    decreases |trail|
  {
    var n := |trail| - 1;
    if trail == "" {
      assert s + trail == s;
    } else {
      assert (s + trail)[..|s + trail| - 1] == s + trail[..n];
      TrimRightOf(s, trail[..n]);
    }
  }

  /** Trimming takes away exactly the white space around a text. */
  lemma {:induction false} TrimIsExact(lead: string, s: string, trail: string)
    requires AllSpace(lead) && AllSpace(trail) && (s == "" || (!IsSpace(s[0]) && !IsSpace(s[|s| - 1])))
    ensures Trim(lead + s + trail) == s
  {
    if s == "" {
      assert lead + s + trail == lead + trail;
      TrimLeftOf(lead + trail, "");
      assert lead + trail + "" == lead + trail;
    } else {
      assert lead + s + trail == lead + (s + trail);
      TrimLeftOf(lead, s + trail);
      TrimRightOf(s, trail);
    }
  }

  /** Words with white space before, between and after them. */
  function Spaced(words: seq<string>, gaps: seq<string>): string
    requires |gaps| == |words| + 1
  {
    if words == [] then gaps[0]
    else Spaced(words[..|words| - 1], gaps[..|gaps| - 1]) + words[|words| - 1] + gaps[|gaps| - 1]
  }

  /** The words with one blank between them. */
  function Sentence(words: seq<string>): string {
    if words == [] then ""
    else if |words| == 1 then words[0]
    else Sentence(words[..|words| - 1]) + " " + words[|words| - 1]
  }

  lemma {:induction false} CollapseGap(s: string, gap: string)
    requires AllSpace(gap)
    ensures Collapse(s + gap) == Collapse(s)
    decreases |gap|
  {
    if gap == "" {
      assert s + gap == s;
    } else {
      assert (s + gap)[..|s + gap| - 1] == s + gap[..|gap| - 1];
      CollapseGap(s, gap[..|gap| - 1]);
    }
  }

  /** One more character that is no space. */
  lemma {:induction false} CollapseLast(s: string, c: char)
    requires !IsSpace(c)
    ensures Collapse(s + [c]) ==
            if s != "" && IsSpace(s[|s| - 1]) && Collapse(s) != "" then Collapse(s) + [' ', c] else Collapse(s) + [c]
  {
    var all := s + [c];
    assert all[..|all| - 1] == s && all[|all| - 1] == c;
    assert s != "" ==> all[|all| - 2] == s[|s| - 1];
  }

  lemma {:induction false} CollapseFirst(s: string, c: char)
    requires !IsSpace(c) && (s != "" ==> IsSpace(s[|s| - 1]))
    ensures Collapse(s + [c]) == if Collapse(s) == "" then [c] else Collapse(s) + " " + [c]
  {
    CollapseLast(s, c);
    assert Collapse(s) + [' ', c] == Collapse(s) + " " + [c];
    if Collapse(s) == "" {
      assert "" + [c] == [c];
    }
  }

  lemma {:induction false} CollapseWord(s: string, word: string)
    requires NoSpace(word) && (s != "" ==> IsSpace(s[|s| - 1]))
    ensures Collapse(s + word) == if Collapse(s) == "" then word else Collapse(s) + " " + word
    decreases |word|
  {
    var n := |word| - 1;
    var front, c := word[..n], word[n];
    assert word == front + [c];
    assert s + word == s + front + [c];
    if n == 0 {
      assert s + front == s && word == [c];
      CollapseFirst(s, c);
    } else {
      CollapseWord(s, front);
      assert (s + front)[|s + front| - 1] == word[n - 1];
      CollapseLast(s + front, c);
      assert Collapse(s) + " " + word == Collapse(s) + " " + front + [c];
    }
  }

  /** Collapsing keeps exactly the words, in order, with one blank between them. */
  lemma {:induction false} CollapseIsSentence(words: seq<string>, gaps: seq<string>)
    requires |gaps| == |words| + 1 && (forall i :: 0 <= i < |words| ==> NoSpace(words[i]))
    requires forall i :: 0 <= i < |gaps| ==> AllSpace(gaps[i]) && (0 < i < |words| ==> gaps[i] != "")
    ensures Collapse(Spaced(words, gaps)) == Sentence(words)
    ensures words != [] ==> Sentence(words) != ""
    ensures Spaced(words, gaps) != "" && gaps[|gaps| - 1] != "" ==>
              IsSpace(Spaced(words, gaps)[|Spaced(words, gaps)| - 1])
    decreases |words|
  {
    if words == [] {
      CollapseGap("", gaps[0]);
      assert "" + gaps[0] == gaps[0];
    } else {
      var n := |words| - 1;
      var before := Spaced(words[..n], gaps[..n + 1]);
      CollapseIsSentence(words[..n], gaps[..n + 1]);
      assert gaps[..n + 1][n] == gaps[n];
      CollapseWord(before, words[n]);
      CollapseGap(before + words[n], gaps[n + 1]);
    }
  }

  /** Case folding of the letters the fixed phrases below are made of. */
  function Fold(c: char): char {
    if 'A' <= c <= 'Z' then c + ' '
    else if c == '\U{C4}' then '\U{E4}'
    else if c == '\U{C5}' || c == '\U{212B}' then '\U{E5}'
    else if c == '\U{D6}' then '\U{F6}'
    else if c == '\U{212A}' then 'k'
    else if c == '\U{17F}' then 's'
    else c
  }

  predicate HasPrefixFold(s: string, prefix: string) {
    |prefix| <= |s| && forall i :: 0 <= i < |prefix| ==> Fold(s[i]) == Fold(prefix[i])
  }

  predicate EqualFold(s: string, t: string) {
    |s| == |t| && HasPrefixFold(s, t)
  }

  /** The letters in small. */
  function Folded(s: string): (r: string)
    ensures |r| == |s| && forall i :: 0 <= i < |s| ==> r[i] == Fold(s[i])
  {
    seq(|s|, i requires 0 <= i < |s| => Fold(s[i]))
  }

  /** A phrase in small letters that folding leaves as it is. */
  predicate IsSmall(phrase: string) {
    forall i :: 0 <= i < |phrase| ==> Fold(phrase[i]) == phrase[i]
  }

  predicate StartsWith(s: string, prefix: string) {
    |prefix| <= |s| && s[..|prefix|] == prefix
  }

  lemma FoldedPrefix(s: string, phrase: string)
    requires IsSmall(phrase)
    ensures HasPrefixFold(s, phrase) <==> StartsWith(Folded(s), phrase)
    ensures EqualFold(s, phrase) <==> Folded(s) == phrase
  {
    if StartsWith(Folded(s), phrase) {
      forall i | 0 <= i < |phrase| ensures Fold(s[i]) == Fold(phrase[i]) {
        assert Folded(s)[..|phrase|][i] == phrase[i];
      }
    }
  }

  /** Capitals fold to small letters, and nothing else folds to another ASCII letter than
      itself but the long s and the Kelvin sign. */
  lemma FoldOfLetters(c: char)
    ensures 'A' <= c <= 'Z' ==> Fold(c) as int == Lower(c) as int == c as int + 32
    ensures Lower('\U{C5}') == '\U{E5}' && Lower('\U{E5}') == '\U{E5}' && ('a' <= c <= 'z' ==> Lower(c) == c)
    ensures 'a' <= c <= 'z' || c in "\U{E5}\U{E4}\U{F6}0123456789 ,:-" ==> Fold(c) == c
    ensures Fold('\U{C5}') == '\U{E5}' && Fold('\U{C4}') == '\U{E4}' && Fold('\U{D6}') == '\U{F6}'
    ensures 'a' <= Fold(c) <= 'z' && c != Fold(c) ==> 'A' <= c <= 'Z' || c == '\U{17F}' || c == '\U{212A}'
  {
  }

  /** Lower case, for the characters whose lower case is a letter of those phrases. */
  function Lower(c: char): char {
    if c == '\U{17F}' then c else if c == '\U{130}' then 'i' else Fold(c)
  }

  predicate HasPrefixLower(s: string, prefix: string) {
    |prefix| <= |s| && forall i :: 0 <= i < |prefix| ==> Lower(s[i]) == prefix[i]
  }

  function Lowered(s: string): (r: string)
    ensures |r| == |s| && forall i :: 0 <= i < |s| ==> r[i] == Lower(s[i])
  {
    seq(|s|, i requires 0 <= i < |s| => Lower(s[i]))
  }

  lemma LoweredPrefix(s: string, phrase: string)
    ensures HasPrefixLower(s, phrase) <==> StartsWith(Lowered(s), phrase)
  {
    if StartsWith(Lowered(s), phrase) {
      forall i | 0 <= i < |phrase| ensures Lower(s[i]) == phrase[i] {
        assert Lowered(s)[..|phrase|][i] == phrase[i];
      }
    }
  }

  // ----- decimal numbers -----

  predicate IsDigit(c: char) {
    '0' <= c <= '9'
  }

  /** The number the decimal digits stand for. */
  function Number(digits: string): int
    requires forall i :: 0 <= i < |digits| ==> IsDigit(digits[i])
  {
    if digits == "" then 0
    else 10 * Number(digits[..|digits| - 1]) + (digits[|digits| - 1] as int - '0' as int)
  }

  /** The decimal digits of n, without leading zeros. */
  function Print(n: nat): (s: string)
    ensures s != "" && forall i :: 0 <= i < |s| ==> IsDigit(s[i])
  {
    (if n < 10 then "" else Print(n / 10)) + ['0' + (n % 10) as char]
  }

  lemma {:induction false} NumberOfPrint(n: nat)
    ensures Number(Print(n)) == n
    decreases n
  {
    var s := Print(n);
    assert s[|s| - 1] == '0' + (n % 10) as char;
    if n < 10 {
      assert s[..|s| - 1] == "";
    } else {
      NumberOfPrint(n / 10);
      assert s[..|s| - 1] == Print(n / 10);
    }
  }

  /** An optional sign and decimal digits, within 64 bits. */
  function Atoi(s: string): Option<int> {
    var signed := s != "" && (s[0] == '+' || s[0] == '-');
    var digits := if signed then s[1..] else s;
    if digits == "" || exists i :: 0 <= i < |digits| && !IsDigit(digits[i]) then None
    else
      var n := if signed && s[0] == '-' then -Number(digits) else Number(digits);
      if -0x8000_0000_0000_0000 <= n < 0x8000_0000_0000_0000 then Some(n) else None
  }

  // ----- decimal fields of fixed width -----

  /** The number in s[from..from+width], if it is all digits. */
  function FieldOf(s: string, from: nat, width: nat): Option<int> {
    if from + width > |s| then None
    else if width == 0 then Some(0)
    else
      var high := FieldOf(s, from, width - 1);
      var c := s[from + width - 1];
      if high.None? || !IsDigit(c) then None else Some(10 * high.value + (c as int - '0' as int))
  }

  function DaysIn(year: int, month: int): int {
    if month == 2 then if year % 4 == 0 && (year % 100 != 0 || year % 400 == 0) then 29 else 28
    else if month in {4, 6, 9, 11} then 30 else 31
  }

  /** April, June, September and November have 30 days, and February has 29 in a year that
      is divisible by 4 and not by 100, or by 400, and otherwise 28. */
  lemma DaysOfMonths(year: int, month: int)
    requires 1 <= month <= 12
    ensures var leap := year % 400 == 0 || (year % 4 == 0 && year % 100 != 0);
            DaysIn(year, month) ==
            if month == 2 then (if leap then 29 else 28)
            else if month == 4 || month == 6 || month == 9 || month == 11 then 30 else 31
  {
    FourHundred(year);
  }

  lemma FourHundred(n: int)
    ensures n % 400 == 0 ==> n % 4 == 0
  {
    if n % 400 == 0 {
      assert n == 4 * (100 * (n / 400));
    }
  }

  /** The civil date at the start of s as the number yyyymmdd. */
  function DateOf(s: string): Option<int> {
    var year, month, day := FieldOf(s, 0, 4), FieldOf(s, 5, 2), FieldOf(s, 8, 2);
    if |s| < 10 || s[4] != '-' || s[7] != '-' || year.None? || month.None? || day.None? then None
    else if !(1 <= month.value <= 12 && 1 <= day.value <= DaysIn(year.value, month.value)) then None
    else Some(10000 * year.value + 100 * month.value + day.value)
  }

  /** The date of a timestamp such as 2026-09-23T13:29:08, where one digit is enough for
      the hour and a fraction of the second may follow. */
  function TimestampDate(s: string): Option<int> {
    if |s| < 18 || s[10] != 'T' then None
    else
      var width := if IsDigit(s[12]) then 2 else 1;
      if ValidClock(s, 11, width) then DateOf(s) else None
  }

  /** A time of day from s[from] on, its hour in `width` digits, up to the end of s. */
  predicate ValidClock(s: string, from: nat, width: nat) {
    var end := from + width + 6;
    var hour, minute, second :=
      FieldOf(s, from, width), FieldOf(s, from + width + 1, 2), FieldOf(s, from + width + 4, 2);
    && end <= |s| && s[from + width] == ':' && s[from + width + 3] == ':'
    && hour.Some? && minute.Some? && second.Some? && hour.value <= 23 && minute.value <= 59 && second.value <= 59
    && (end < |s| ==>
          && (s[end] == '.' || s[end] == ',') && end + 1 < |s|
          && forall i :: end < i < |s| ==> IsDigit(s[i]))
  }

  lemma {:induction false} FieldIsNumber(s: string, from: nat, digits: string)
    requires from + |digits| <= |s| && s[from..from + |digits|] == digits
    requires forall i :: 0 <= i < |digits| ==> IsDigit(digits[i])
    ensures FieldOf(s, from, |digits|) == Some(Number(digits))
    decreases |digits|
  {
    if digits != "" {
      var n := |digits| - 1;
      assert s[from..from + n] == digits[..n] && s[from + n] == digits[n];
      FieldIsNumber(s, from, digits[..n]);
    }
  }

  predicate AllDigits(s: string) {
    forall i :: 0 <= i < |s| ==> IsDigit(s[i])
  }

  lemma {:induction false} FieldOfPrefix(s: string, date: string, from: nat, width: nat)
    requires |date| <= |s| && s[..|date|] == date && from + width <= |date|
    ensures FieldOf(s, from, width) == FieldOf(date, from, width)
    decreases width
  {
    if width > 0 {
      FieldOfPrefix(s, date, from, width - 1);
      assert s[..|date|][from + width - 1] == s[from + width - 1];
    }
  }

  /** A timestamp is a date, a T and a time of day: an hour of one or two digits, minutes
      and seconds of two, and perhaps a fraction. It has the date that its first ten
      characters are, if the time of day is one. */
  lemma {:induction false} TimestampOf(s: string, date: string, hour: string, minute: string, second: string,
                                       fraction: string)
    requires |date| == 10 && AllDigits(hour) && 1 <= |hour| <= 2
    requires AllDigits(minute) && |minute| == 2 && AllDigits(second) && |second| == 2
    requires fraction == "" || (fraction[0] in {'.', ','} && |fraction| >= 2 && AllDigits(fraction[1..]))
    requires s == date + "T" + hour + ":" + minute + ":" + second + fraction
    ensures TimestampDate(s) ==
            if Number(hour) <= 23 && Number(minute) <= 59 && Number(second) <= 59 then DateOf(date) else None
  {
    var w := |hour|;
    TimestampParts(s, date, hour, minute, second, fraction);
    FieldIsNumber(s, 11, hour);
    FieldIsNumber(s, 11 + w + 1, minute);
    FieldIsNumber(s, 11 + w + 4, second);
    DateOfPrefix(s, date);
  }

  lemma {:induction false} DateOfPrefix(s: string, date: string)
    requires |date| == 10 <= |s| && s[..10] == date
    ensures DateOf(s) == DateOf(date)
  {
    FieldOfPrefix(s, date, 0, 4);
    FieldOfPrefix(s, date, 5, 2);
    FieldOfPrefix(s, date, 8, 2);
    assert s[..10][4] == s[4] && s[..10][7] == s[7];
  }

  lemma TimestampParts(s: string, date: string, hour: string, minute: string, second: string, fraction: string)
    requires |date| == 10 && 1 <= |hour| <= 2 && |minute| == 2 && |second| == 2
    requires s == date + "T" + hour + ":" + minute + ":" + second + fraction
    ensures var w := |hour|;
            && |s| == 17 + w + |fraction| && s[..10] == date && s[10] == 'T' && s[11..11 + w] == hour
            && s[11 + w] == ':' && s[12 + w..14 + w] == minute && s[14 + w] == ':' && s[15 + w..17 + w] == second
            && s[17 + w..] == fraction && s[12] == (if w == 2 then hour[1] else ':')
            && forall i :: 17 + w <= i < |s| ==> s[i] == fraction[i - 17 - w]
  {
  }
}
