/** Listing cursors: base64url of a date, a bar and an id
    (encodeCursor and decodeCursor in internal/publicevent/publicevent.repository.go). */
module Cursor {
  import opened Wrappers
  import opened Text
  import Base64

  // ----- ids -----

  predicate IsNibbles(u: seq<int>) {
    |u| == 32 && forall i :: 0 <= i < 32 ==> 0 <= u[i] < 16
  }

  /** The 32 hexadecimal digits of an id. */
  type Uuid = u: seq<int> | IsNibbles(u) witness seq(32, _ => 0)

  function HexDigit(v: int): char
    requires 0 <= v < 16
  {
    if v < 10 then '0' + v as char else 'a' + (v - 10) as char
  }

  function HexValue(c: char): (r: Option<int>)
    ensures r.Some? ==> 0 <= r.value < 16
  {
    if IsDigit(c) then Some(c as int - '0' as int)
    else if 'a' <= c <= 'f' then Some(c as int - 'a' as int + 10)
    else if 'A' <= c <= 'F' then Some(c as int - 'A' as int + 10)
    else None
  }

  /** Where the k-th digit stands in the form with four dashes. */
  function Position(k: int): int {
    if k < 8 then k else if k < 12 then k + 1 else if k < 16 then k + 2 else if k < 20 then k + 3 else k + 4
  }

  predicate IsDash(i: int) {
    i == 8 || i == 13 || i == 18 || i == 23
  }

  /** Which digit stands at position i. */
  function DigitAt(i: int): int {
    if i < 8 then i else if i < 13 then i - 1 else if i < 18 then i - 2 else if i < 23 then i - 3 else i - 4
  }

  function PrintUuid(u: Uuid): (s: string)
    ensures |s| == 36
    ensures forall i :: 0 <= i < 36 ==> s[i] == if IsDash(i) then '-' else HexDigit(u[DigitAt(i)])
  {
    seq(36, i requires 0 <= i < 36 => if IsDash(i) then '-' else HexDigit(u[DigitAt(i)]))
  }

  predicate AllHex(digits: string) {
    forall k :: 0 <= k < |digits| ==> HexValue(digits[k]).Some?
  }

  function Values(digits: string): (r: seq<int>)
    requires AllHex(digits)
    ensures |r| == |digits|
    ensures forall k :: 0 <= k < |digits| ==> r[k] == HexValue(digits[k]).value && 0 <= r[k] < 16
  {
    seq(|digits|, k requires 0 <= k < |digits| => HexValue(digits[k]).value)
  }

  /** 32 hexadecimal digits of either case. */
  function ReadDigits(digits: string): Option<Uuid>
    requires |digits| == 32
  {
    if AllHex(digits) then Some(Values(digits)) else None
  }

  /** Without the dashes. */
  function Undashed(s: string): (digits: string)
    requires |s| >= 36
    ensures |digits| == 32 && forall k :: 0 <= k < 32 ==> digits[k] == s[Position(k)]
  {
    seq(32, k requires 0 <= k < 32 => s[Position(k)])
  }

  /** Exactly the first 36 characters matter. */
  function ParseDashed(s: string): Option<Uuid>
    requires |s| >= 36
  {
    if s[8] != '-' || s[13] != '-' || s[18] != '-' || s[23] != '-' then None
    else ReadDigits(Undashed(s))
  }

  /** The plain form, with a URN prefix, between two characters taken for braces, or
      without dashes. */
  function ParseUuid(s: string): Option<Uuid> {
    if |s| == 36 then ParseDashed(s)
    else if |s| == 45 then if EqualFold(s[..9], "urn:uuid:") then ParseDashed(s[9..]) else None
    else if |s| == 38 then ParseDashed(s[1..])
    else if |s| == 32 then ReadDigits(s)
    else None
  }

  lemma HexRoundTrip(v: int)
    requires 0 <= v < 16
    ensures HexValue(HexDigit(v)) == Some(v) && HexDigit(v) != '|' && HexDigit(v) as int < 256
  {
  }

  /** The small hexadecimal digit of a value. */
  predicate Shows(c: char, v: int) {
    c as int == if v < 10 then 48 + v else 87 + v
  }

  /** The layout of an id: groups of 8, 4, 4, 4 and 12 small hexadecimal digits. */
  lemma UuidLayout(u: Uuid)
    ensures var s := PrintUuid(u);
            && |s| == 36 && s[8] == '-' && s[13] == '-' && s[18] == '-' && s[23] == '-'
            && (forall i :: 0 <= i < 8 ==> Shows(s[i], u[i])) && (forall i :: 9 <= i < 13 ==> Shows(s[i], u[i - 1]))
            && (forall i :: 14 <= i < 18 ==> Shows(s[i], u[i - 2]))
            && (forall i :: 19 <= i < 23 ==> Shows(s[i], u[i - 3]))
            && (forall i :: 24 <= i < 36 ==> Shows(s[i], u[i - 4]))
  {
  }

  lemma UuidRoundTrip(u: Uuid)
    ensures ParseUuid(PrintUuid(u)) == Some(u)
  {
    var digits := Undashed(PrintUuid(u));
    forall k | 0 <= k < 32 ensures HexValue(digits[k]) == Some(u[k]) {
      assert DigitAt(Position(k)) == k && !IsDash(Position(k));
      HexRoundTrip(u[k]);
    }
    assert Values(digits) == u;
  }

  /** The other written forms of an id: after a URN prefix in any case, in braces, and as
      the 32 digits alone, in capitals too. */
  lemma UuidForms(u: Uuid, urn: string, digits: string)
    requires |urn| == 9 && EqualFold(urn, "urn:uuid:")
    requires |digits| == 32 && forall i :: 0 <= i < 32 ==> HexValue(digits[i]) == Some(u[i])
    ensures ParseUuid(urn + PrintUuid(u)) == Some(u) && ParseUuid("{" + PrintUuid(u) + "}") == Some(u)
    ensures ParseUuid(digits) == Some(u)
  {
    var s := PrintUuid(u);
    UuidRoundTrip(u);
    assert (urn + s)[..9] == urn && (urn + s)[9..] == s;
    ParsesAlike(s, ("{" + s + "}")[1..]);
    assert Values(digits) == u;
  }

  lemma ParsesAlike(s: string, t: string)
    requires |s| == 36 && |t| >= 36 && t[..36] == s
    ensures ParseDashed(t) == ParseDashed(s)
  {
    forall i | 0 <= i < 36 ensures t[i] == s[i] {
      assert t[..36][i] == t[i];
    }
    assert Undashed(t) == Undashed(s);
  }

  // ----- dates -----

  datatype Date = Date(year: int, month: int, day: int)
  {
    predicate Valid() {
      1 <= month <= 12 && 1 <= day <= DaysIn(year, month)
    }

    /** The number yyyymmdd. */
    function Number(): int { 10000 * year + 100 * month + day }
  }

  /** The last `width` decimal digits of n. */
  function Pad(n: nat, width: nat): (s: string)
    ensures |s| == width && forall i :: 0 <= i < width ==> IsDigit(s[i])
  {
    if width == 0 then "" else Pad(n / 10, width - 1) + ['0' + (n % 10) as char]
  }

  /** At least four digits, and a sign in front of them before year 0. */
  function PrintYear(year: int): string {
    var n := if year < 0 then -year else year;
    (if year < 0 then "-" else "") + if n < 10000 then Pad(n, 4) else Print(n)
  }

  function PrintDate(d: Date): string
    requires d.Valid()
  {
    PrintYear(d.year) + "-" + Pad(d.month, 2) + "-" + Pad(d.day, 2)
  }

  function ParseDate(s: string): Option<int> {
    if |s| != 10 then None else DateOf(s)
  }

  function Power(width: nat): nat {
    if width == 0 then 1 else 10 * Power(width - 1)
  }

  lemma {:induction false} FieldOfPad(s: string, from: nat, n: nat, width: nat)
    requires from + width <= |s| && s[from..from + width] == Pad(n, width) && n < Power(width)
    ensures FieldOf(s, from, width) == Some(n)
    decreases width
  {
    if width > 0 {
      var front := s[from..from + width - 1];
      assert front == s[from..from + width][..width - 1] == Pad(n / 10, width - 1);
      FieldOfPad(s, from, n / 10, width - 1);
      assert s[from + width - 1] == s[from..from + width][width - 1] == '0' + (n % 10) as char;
    }
  }

  /** A four-digit year makes a date of ten characters, read back field by field. */
  lemma ShortDate(d: Date)
    requires d.Valid() && 0 <= d.year <= 9999
    ensures ParseDate(PrintDate(d)) == Some(d.Number())
  {
    var s, y := PrintDate(d), PrintYear(d.year);
    assert s[..4] == s[0..4] == y && s[5..7] == Pad(d.month, 2) && s[8..10] == Pad(d.day, 2);
    assert Power(2) == 100 && Power(4) == 10000 by { assert Power(1) == 10 && Power(3) == 1000; }
    FieldOfPad(s, 0, d.year, 4);
    FieldOfPad(s, 5, d.month, 2);
    FieldOfPad(s, 8, d.day, 2);
  }

  /** Any other year makes a longer one. */
  lemma LongDate(d: Date)
    requires d.Valid() && !(0 <= d.year <= 9999)
    ensures ParseDate(PrintDate(d)) == None
  {
    LongYear(if d.year < 0 then -d.year else d.year);
    assert |PrintDate(d)| == |PrintYear(d.year)| + 6;
  }

  lemma DateLetters(d: Date)
    requires d.Valid()
    ensures forall i :: 0 <= i < |PrintDate(d)| ==> IsDigit(PrintDate(d)[i]) || PrintDate(d)[i] == '-'
  {
  }

  /** Dates are read back exactly if their year has four digits. */
  lemma DateRoundTrip(d: Date)
    requires d.Valid()
    ensures ParseDate(PrintDate(d)) == if 0 <= d.year <= 9999 then Some(d.Number()) else None
    ensures forall i :: 0 <= i < |PrintDate(d)| ==> IsDigit(PrintDate(d)[i]) || PrintDate(d)[i] == '-'
  {
    DateLetters(d);
    if 0 <= d.year <= 9999 {
      ShortDate(d);
    } else {
      LongDate(d);
    }
  }

  /** The layout of a date: four digits, two and two, with a dash between. */
  lemma DateLayout(d: Date)
    requires d.Valid() && 0 <= d.year <= 9999
    ensures var s := PrintDate(d);
            && |s| == 10 && s[4] == '-' && s[7] == '-'
            && s[0] as int - 48 == d.year / 1000 && s[1] as int - 48 == d.year / 100 % 10
            && s[2] as int - 48 == d.year / 10 % 10 && s[3] as int - 48 == d.year % 10
            && s[5] as int - 48 == d.month / 10 && s[6] as int - 48 == d.month % 10
            && s[8] as int - 48 == d.day / 10 && s[9] as int - 48 == d.day % 10
  {
    PadFour(d.year);
    PadTwo(d.month);
    PadTwo(d.day);
    assert PrintYear(d.year) == Pad(d.year, 4);
    assert PrintDate(d) == Pad(d.year, 4) + "-" + Pad(d.month, 2) + "-" + Pad(d.day, 2);
  }

  lemma {:induction false} PadTwo(n: nat)
    requires n < 100
    ensures |Pad(n, 2)| == 2 && Pad(n, 2)[0] as int - 48 == n / 10 && Pad(n, 2)[1] as int - 48 == n % 10
  {
    assert Pad(n / 10, 1) == Pad(n / 100, 0) + ['0' + (n / 10 % 10) as char];
  }

  lemma {:induction false} PadFour(n: nat)
    requires n < 10000
    ensures var s := Pad(n, 4);
            && |s| == 4 && s[0] as int - 48 == n / 1000 && s[1] as int - 48 == n / 100 % 10
            && s[2] as int - 48 == n / 10 % 10 && s[3] as int - 48 == n % 10
  {
    PadTwo(n / 100);
    assert Pad(n, 4) == Pad(n / 10, 3) + ['0' + (n % 10) as char];
    assert Pad(n / 10, 3) == Pad(n / 100, 2) + ['0' + (n / 10 % 10) as char];
    assert n / 100 / 10 == n / 1000 && n / 10 / 10 == n / 100;
  }

  lemma LongYear(n: nat)
    ensures n >= 10000 ==> |Print(n)| >= 5
  {
    if n >= 10000 {
      assert n / 10 >= 1000 && n / 10 / 10 >= 100 && n / 10 / 10 / 10 >= 10;
      assert |Print(n / 10 / 10 / 10)| >= 2;
      assert |Print(n / 10 / 10)| >= 3;
      assert |Print(n / 10)| >= 4;
    }
  }

  // ----- cursors -----

  /** The row a page ended with. */
  datatype Row = At(occurredOn: int, id: Uuid)

  function BytesOf(s: string): seq<Base64.Byte>
    requires forall i :: 0 <= i < |s| ==> s[i] as int < 256
  {
    seq(|s|, i requires 0 <= i < |s| => s[i] as int)
  }

  function StringOf(b: seq<Base64.Byte>): string {
    seq(|b|, i requires 0 <= i < |b| => b[i] as char)
  }

  /** The index of the first c in s, or |s|. */
  function IndexOf(s: string, c: char): (n: nat)
    ensures n <= |s| && (n < |s| ==> s[n] == c) && forall i :: 0 <= i < n ==> s[i] != c
  {
    if s == "" || s[0] == c then 0 else 1 + IndexOf(s[1..], c)
  }

  function Plain(d: Date, id: Uuid): string
    requires d.Valid()
  {
    PrintDate(d) + "|" + PrintUuid(id)
  }

  lemma PlainIsAscii(d: Date, id: Uuid)
    requires d.Valid()
    ensures forall i :: 0 <= i < |Plain(d, id)| ==> Plain(d, id)[i] as int < 256
  {
    DateLetters(d);
  }

  function EncodeCursor(d: Date, id: Uuid): string
    requires d.Valid()
  {
    PlainIsAscii(d, id);
    Base64.Encode(Base64.Url, BytesOf(Plain(d, id)))
  }

  function DecodeCursor(cursor: string): Option<Row> {
    var raw := Base64.Decode(Base64.Url, cursor);
    if raw.None? then None
    else
      var s := StringOf(raw.value);
      var bar := IndexOf(s, '|');
      if bar == |s| then None
      else
        var on, id := ParseDate(s[..bar]), ParseUuid(s[bar + 1..]);
        if on.None? || id.None? then None else Some(At(on.value, id.value))
  }

  /** The next page starts after the row the cursor was made of, provided that its year
      has four digits; a cursor made of any other row is refused. */
  lemma CursorRoundTrip(d: Date, id: Uuid)
    requires d.Valid()
    ensures EncodeCursor(d, id) == Base64.Encode(Base64.Url, BytesOf(PrintDate(d) + "|" + PrintUuid(id)))
    ensures DecodeCursor(EncodeCursor(d, id)) == if 0 <= d.year <= 9999 then Some(At(d.Number(), id)) else None
  {
    PlainIsAscii(d, id);
    DateRoundTrip(d);
    UuidRoundTrip(id);
    var s, date := Plain(d, id), PrintDate(d);
    Base64.RoundTrip(Base64.Url, BytesOf(s));
    assert StringOf(BytesOf(s)) == s;
    assert s[|date|] == '|';
    assert IndexOf(s, '|') == |date|;
    assert s[..|date|] == date && s[|date| + 1..] == PrintUuid(id);
  }
}
