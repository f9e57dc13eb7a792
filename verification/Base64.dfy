/** Unpadded base64 (section 4 of RFC 4648) as the standard library reads and writes
    it: the decoder skips line breaks and does not check the unused trailing bits. */
module Base64 {
  import opened Wrappers

  type Byte = b: int | 0 <= b < 256

  datatype Alphabet = Std | Url

  function Symbol(a: Alphabet, v: int): char
    requires 0 <= v < 64
  {
    if v < 26 then 'A' + v as char
    else if v < 52 then 'a' + (v - 26) as char
    else if v < 62 then '0' + (v - 52) as char
    else if v == 62 then (if a.Std? then '+' else '-')
    else if a.Std? then '/' else '_'
  }

  function Value(a: Alphabet, c: char): (r: Option<int>)
    ensures r.Some? ==> 0 <= r.value < 64
  {
    if 'A' <= c <= 'Z' then Some(c as int - 'A' as int)
    else if 'a' <= c <= 'z' then Some(c as int - 'a' as int + 26)
    else if '0' <= c <= '9' then Some(c as int - '0' as int + 52)
    else if c == (if a.Std? then '+' else '-') then Some(62)
    else if c == (if a.Std? then '/' else '_') then Some(63)
    else None
  }

  lemma ValueOfSymbol(a: Alphabet, v: int)
    requires 0 <= v < 64
    ensures Value(a, Symbol(a, v)) == Some(v)
    ensures Symbol(a, v) !in ['\r', '\n', '$', '|']
  {
  }

  /** Three bytes are four groups of six bits; a shorter rest is filled up with zeros
      and its unused groups are dropped. */
  function Groups(data: seq<Byte>): (r: seq<int>)
    ensures forall i :: 0 <= i < |r| ==> 0 <= r[i] < 64
  {
    if data == [] then []
    else if |data| == 1 then [data[0] / 4, data[0] % 4 * 16]
    else if |data| == 2 then [data[0] / 4, data[0] % 4 * 16 + data[1] / 16, data[1] % 16 * 4]
    else
      [data[0] / 4, data[0] % 4 * 16 + data[1] / 16, data[1] % 16 * 4 + data[2] / 64, data[2] % 64] + Groups(data[3..])
  }

  function Symbols(a: Alphabet, v: seq<int>): string
    requires forall i :: 0 <= i < |v| ==> 0 <= v[i] < 64
  {
    if v == [] then "" else [Symbol(a, v[0])] + Symbols(a, v[1..])
  }

  function Encode(a: Alphabet, data: seq<Byte>): string {
    Symbols(a, Groups(data))
  }

  function Values(a: Alphabet, s: string): (r: Option<seq<int>>)
    ensures r.Some? ==> forall i :: 0 <= i < |r.value| ==> 0 <= r.value[i] < 64
  {
    if s == "" then Some([]) else
      var rest := Values(a, s[1..]);
      if s[0] == '\r' || s[0] == '\n' then rest
      else if Value(a, s[0]).None? || rest.None? then None
      else Some([Value(a, s[0]).value] + rest.value)
  }

  /** Four groups of six bits are three bytes; one group alone is an error. */
  function Join(v: seq<int>): Option<seq<Byte>>
    requires forall i :: 0 <= i < |v| ==> 0 <= v[i] < 64
  {
    if v == [] then Some([])
    else if |v| == 1 then None
    else if |v| == 2 then Some([v[0] * 4 + v[1] / 16])
    else if |v| == 3 then Some([v[0] * 4 + v[1] / 16, v[1] % 16 * 16 + v[2] / 4])
    else
      var rest := Join(v[4..]);
      if rest.None? then None
      else Some([v[0] * 4 + v[1] / 16, v[1] % 16 * 16 + v[2] / 4, v[2] % 4 * 64 + v[3]] + rest.value)
  }

  function Decode(a: Alphabet, s: string): Option<seq<Byte>> {
    var v := Values(a, s);
    if v.None? then None else Join(v.value)
  }

  lemma {:induction false} ValuesOfSymbols(a: Alphabet, v: seq<int>)
    requires forall i :: 0 <= i < |v| ==> 0 <= v[i] < 64
    ensures Values(a, Symbols(a, v)) == Some(v)
    ensures forall i :: 0 <= i < |Symbols(a, v)| ==> Symbols(a, v)[i] != '$'
    decreases |v|
  {
    if v != [] {
      ValueOfSymbol(a, v[0]);
      ValuesOfSymbols(a, v[1..]);
      assert Symbols(a, v)[1..] == Symbols(a, v[1..]);
      assert [v[0]] + v[1..] == v;
    }
  }

  lemma ThreeBytes(x: Byte, y: Byte, z: Byte)
    ensures x / 4 * 4 + (x % 4 * 16 + y / 16) / 16 == x
    ensures (x % 4 * 16 + y / 16) % 16 * 16 + (y % 16 * 4 + z / 64) / 4 == y
    ensures (y % 16 * 4 + z / 64) % 4 * 64 + z % 64 == z
  {
  }

  lemma {:induction false} JoinOfGroups(data: seq<Byte>)
    ensures Join(Groups(data)) == Some(data)
    decreases |data|
  {
    if |data| >= 3 {
      ThreeBytes(data[0], data[1], data[2]);
      JoinOfGroups(data[3..]);
      assert Groups(data)[4..] == Groups(data[3..]);
      assert data == [data[0], data[1], data[2]] + data[3..];
    } else if |data| == 2 {
      ThreeBytes(data[0], data[1], 0);
      assert data == [data[0], data[1]];
    } else if |data| == 1 {
      ThreeBytes(data[0], 0, 0);
      assert data == [data[0]];
    }
  }

  /** Six bits at a time, from the left: the groups have the bits of the bytes. */
  lemma GroupsAreBits(x: Byte, y: Byte, z: Byte, rest: seq<Byte>)
    ensures var g := Groups([x, y, z] + rest);
            && |g| == 4 + |Groups(rest)| && g[4..] == Groups(rest)
            && ((g[0] * 64 + g[1]) * 64 + g[2]) * 64 + g[3] == (x * 256 + y) * 256 + z
    ensures var g := Groups([x, y]); |g| == 3 && (g[0] * 64 + g[1]) * 64 + g[2] == (x * 256 + y) * 4
    ensures var g := Groups([x]); |g| == 2 && g[0] * 64 + g[1] == x * 16
  {
    var data := [x, y, z] + rest;
    assert data[0] == x && data[1] == y && data[2] == z && data[3..] == rest;
  }

  /** The alphabets of sections 4 and 5 of RFC 4648. */
  lemma SymbolsInOrder(a: Alphabet, v: int)
    requires 0 <= v < 64
    ensures var c := Symbol(a, v) as int;
            && (v < 26 ==> c == 65 + v) && (26 <= v < 52 ==> c == 97 + (v - 26))
            && (52 <= v < 62 ==> c == 48 + (v - 52))
            && (v == 62 ==> Symbol(a, v) == if a == Std then '+' else '-')
            && (v == 63 ==> Symbol(a, v) == if a == Std then '/' else '_')
  {
  }

  /** What was encoded is decoded, and is free of the separator of the hash format. */
  lemma RoundTrip(a: Alphabet, data: seq<Byte>)
    ensures Decode(a, Encode(a, data)) == Some(data)
    ensures '$' !in Encode(a, data)
  {
    ValuesOfSymbols(a, Groups(data));
    JoinOfGroups(data);
  }

  /** Decoding is not injective: the four unused bits of the last symbol and line
      breaks are ignored, so a text need not be the encoding of what it decodes to. */
  lemma {:induction false} DecodeIgnoresLineBreaks(a: Alphabet, s: string, t: string, c: char)
    requires c == '\r' || c == '\n'
    ensures Decode(a, s + [c] + t) == Decode(a, s + t)
  {
    ValuesIgnoreLineBreaks(a, s, t, c);
  }

  lemma {:induction false} ValuesIgnoreLineBreaks(a: Alphabet, s: string, t: string, c: char)
    requires c == '\r' || c == '\n'
    ensures Values(a, s + [c] + t) == Values(a, s + t)
    decreases |s|
  {
    if s == "" {
      assert s + [c] + t == [c] + t && s + t == t;
      assert ([c] + t)[1..] == t;
    } else {
      ValuesIgnoreLineBreaks(a, s[1..], t, c);
      assert (s + [c] + t)[1..] == s[1..] + [c] + t && (s + t)[1..] == s[1..] + t;
    }
  }
}
