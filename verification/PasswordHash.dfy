/** The stored password hash and its parser (internal/platform/password/password.go).
    The key derivation is a parameter; salt and key come from outside. */
module PasswordHash {
  import opened Wrappers
  import opened Text
  import opened Base64

  const VERSION := 19
  const MIN_LENGTH := 12
  const MAX_LENGTH := 1024

  type Uint32 = n: int | 0 <= n < 0x1_0000_0000

  type Uint8 = n: int | 0 <= n < 0x100

  datatype Params = Params(memoryKiB: Uint32, time: Uint32, threads: Uint8, keyLen: Uint32, saltLen: Uint32)

  const DEFAULT_PARAMS := Params(19 * 1024, 2, 1, 32, 16)

  /** Password, salt, time, memory, threads, key length. */
  type Derivation = (seq<Byte>, seq<Byte>, int, int, int, int) -> seq<Byte>

  datatype Decoded = Decoded(costs: Costs, salt: seq<Byte>, key: seq<Byte>)

  // ----- splitting -----

  /** The parts between the separators; one more than there are separators. */
  function Split(s: string, sep: char): (parts: seq<string>)
    ensures parts != []
  {
    if s == "" then [""]
    else
      var rest := Split(s[1..], sep);
      if s[0] == sep then [""] + rest else [[s[0]] + rest[0]] + rest[1..]
  }

  function Joined(parts: seq<string>, sep: char): string
    requires parts != []
  {
    if |parts| == 1 then parts[0] else parts[0] + [sep] + Joined(parts[1..], sep)
  }

  lemma {:induction false} SplitFirst(a: string, rest: string, sep: char)
    requires sep !in a
    ensures Split(a + [sep] + rest, sep) == [a] + Split(rest, sep)
    decreases |a|
  {
    var s := a + [sep] + rest;
    if a == "" {
      assert s[1..] == rest;
    } else {
      assert sep !in a[1..];
      SplitFirst(a[1..], rest, sep);
      assert s[1..] == a[1..] + [sep] + rest;
      var tail := [a[1..]] + Split(rest, sep);
      assert [s[0]] + tail[0] == a && tail[1..] == Split(rest, sep);
    }
  }

  lemma {:induction false} SplitLast(a: string, sep: char)
    requires sep !in a
    ensures Split(a, sep) == [a]
    decreases |a|
  {
    if a != "" {
      SplitLast(a[1..], sep);
      assert [a[0]] + a[1..] == a;
    }
  }

  /** Parts without the separator are the parts of what joins them. */
  lemma {:induction false} SplitOfJoined(parts: seq<string>, sep: char)
    requires parts != [] && forall i :: 0 <= i < |parts| ==> sep !in parts[i]
    ensures Split(Joined(parts, sep), sep) == parts
    decreases |parts|
  {
    if |parts| == 1 {
      SplitLast(parts[0], sep);
    } else {
      SplitOfJoined(parts[1..], sep);
      SplitFirst(parts[0], Joined(parts[1..], sep), sep);
    }
  }

  // ----- scanning by format -----

  /** The text after a literal of the format. */
  function Literal(s: string, lit: string): Option<string> {
    if |lit| <= |s| && s[..|lit|] == lit then Some(s[|lit|..]) else None
  }

  /** A number and the text after it. */
  datatype Scanned = Scanned(value: int, rest: string)

  /** Blanks in front of a number are skipped; a line break is an error. */
  function SkipSpace(s: string): Option<string> {
    if s == "" || !IsSpace(s[0]) then Some(s)
    else if s[0] == '\n' then None
    else SkipSpace(s[1..])
  }

  /** The length of the run of digits at the start of s. */
  function DigitRun(s: string): (n: nat)
    ensures n <= |s| && forall i :: 0 <= i < n ==> IsDigit(s[i])
    ensures n < |s| ==> !IsDigit(s[n])
  {
    if s == "" || !IsDigit(s[0]) then 0 else 1 + DigitRun(s[1..])
  }

  function ScanDigits(s: string): Option<Scanned> {
    var n := DigitRun(s);
    if n == 0 then None else Some(Scanned(Number(s[..n]), s[n..]))
  }

  /** %d into a field of `bits` bits, unsigned. */
  function ScanUint(s: string, bound: nat): Option<Scanned> {
    var t := SkipSpace(s);
    if t.None? then None
    else
      var r := ScanDigits(t.value);
      if r.None? || r.value.value >= bound then None else r
  }

  /** %d into a 64-bit int: one sign is allowed. */
  function ScanInt(s: string): Option<Scanned> {
    var t := SkipSpace(s);
    if t.None? then None
    else
      var signed := t.value != "" && (t.value[0] == '+' || t.value[0] == '-');
      var r := ScanDigits(if signed then t.value[1..] else t.value);
      if r.None? then None
      else
        var n := if signed && t.value[0] == '-' then -r.value.value else r.value.value;
        if -0x8000_0000_0000_0000 <= n < 0x8000_0000_0000_0000 then Some(Scanned(n, r.value.rest)) else None
  }

  lemma {:induction false} DigitRunOf(digits: string, rest: string)
    requires forall i :: 0 <= i < |digits| ==> IsDigit(digits[i])
    requires rest == "" || !IsDigit(rest[0])
    ensures DigitRun(digits + rest) == |digits|
    decreases |digits|
  {
    if digits == "" {
      assert digits + rest == rest;
    } else {
      DigitRunOf(digits[1..], rest);
      assert (digits + rest)[1..] == digits[1..] + rest;
    }
  }

  lemma ScanOfDigits(digits: string, rest: string)
    requires digits != "" && forall i :: 0 <= i < |digits| ==> IsDigit(digits[i])
    requires rest == "" || !IsDigit(rest[0])
    ensures SkipSpace(digits + rest) == Some(digits + rest)
    ensures ScanDigits(digits + rest) == Some(Scanned(Number(digits), rest))
  {
    var s := digits + rest;
    assert s[0] == digits[0];
    DigitRunOf(digits, rest);
    assert s[..|digits|] == digits && s[|digits|..] == rest;
  }

  lemma ScanOfPrint(n: nat, rest: string)
    requires rest == "" || !IsDigit(rest[0])
    ensures SkipSpace(Print(n) + rest) == Some(Print(n) + rest)
    ensures ScanDigits(Print(n) + rest) == Some(Scanned(n, rest))
  {
    ScanOfDigits(Print(n), rest);
    NumberOfPrint(n);
  }

  lemma LiteralOf(lit: string, rest: string)
    ensures Literal(lit + rest, lit) == Some(rest)
  {
    assert (lit + rest)[..|lit|] == lit && (lit + rest)[|lit|..] == rest;
  }

  // ----- the format -----

  function ScanVersion(s: string): Option<int> {
    var a := Literal(s, "v=");
    if a.None? then None else
      var v := ScanInt(a.value);
      if v.None? then None else Some(v.value.value)
  }

  /** A field name of the format and an unsigned number below the bound. */
  function ScanField(s: string, name: string, bound: nat): Option<Scanned> {
    var a := Literal(s, name);
    if a.None? then None else ScanUint(a.value, bound)
  }

  datatype Costs = Costs(memoryKiB: int, time: int, threads: int)

  /** The widths of the source's unsigned fields. */
  predicate Fits(c: Costs) {
    0 <= c.memoryKiB < 0x1_0000_0000 && 0 <= c.time < 0x1_0000_0000 && 0 <= c.threads < 0x100
  }

  /** Text after the last number is not looked at. */
  function ScanCosts(s: string): Option<Costs> {
    var m := ScanField(s, "m=", 0x1_0000_0000);
    if m.None? then None else
      var t := ScanField(m.value.rest, ",t=", 0x1_0000_0000);
      if t.None? then None else
        var p := ScanField(t.value.rest, ",p=", 0x100);
        if p.None? then None else Some(Costs(m.value.value, t.value.value, p.value.value))
  }

  function PrintVersion(): string {
    "v=" + Print(VERSION)
  }

  function PrintField(name: string, n: nat, rest: string): string {
    name + (Print(n) + rest)
  }

  function PrintCosts(c: Costs): string
    requires Fits(c)
  {
    PrintField("m=", c.memoryKiB, PrintField(",t=", c.time, PrintField(",p=", c.threads, "")))
  }

  /** Not degenerate. */
  predicate Usable(c: Costs, salt: seq<Byte>, key: seq<Byte>) {
    c.memoryKiB >= 1024 && c.time >= 1 && c.threads >= 1 && salt != [] && key != []
  }

  /** Degenerate parameters and an empty salt or key are refused. */
  function Decode(hash: string): (r: Option<Decoded>)
    ensures r.Some? ==>
              Fits(r.value.costs) && Usable(r.value.costs, r.value.salt, r.value.key)
  {
    var parts := Split(hash, '$');
    if |parts| != 6 || parts[0] != "" || parts[1] != "argon2id" then None
    else if ScanVersion(parts[2]) != Some(VERSION) then None
    else
      var c := ScanCosts(parts[3]);
      if c.None? || c.value.memoryKiB < 1024 || c.value.time < 1 || c.value.threads < 1 then None
      else
        var salt, key := Base64.Decode(Std, parts[4]), Base64.Decode(Std, parts[5]);
        if salt.None? || salt.value == [] || key.None? || key.value == [] then None
        else Some(Decoded(c.value, salt.value, key.value))
  }

  function Format(c: Costs, salt: seq<Byte>, key: seq<Byte>): string
    requires Fits(c)
  {
    Joined(["", "argon2id", PrintVersion(), PrintCosts(c), Encode(Std, salt), Encode(Std, key)], '$')
  }

  datatype HashOutcome = Hashed(hash: string) | WrongLength | Panics

  /** The key derivation panics on zero time, threads or key length. */
  predicate Derivable(time: int, threads: int, keyLen: int) {
    time >= 1 && threads >= 1 && keyLen >= 1
  }

  function HashWithParams(derive: Derivation, password: seq<Byte>, salt: seq<Byte>, p: Params): HashOutcome {
    if |password| < MIN_LENGTH || |password| > MAX_LENGTH then WrongLength
    else if !Derivable(p.time, p.threads, p.keyLen) then Panics
    else Hashed(Format(CostsOf(p), salt, derive(password, salt, p.time, p.memoryKiB, p.threads, p.keyLen)))
  }

  datatype Verification = Answer(matches: bool) | Malformed | VerifyPanics

  function Verify(derive: Derivation, hash: string, password: seq<Byte>): Verification {
    VerifyDecoded(derive, Decode(hash), password)
  }

  /** The key length is asked for as 32 bits. */
  function VerifyDecoded(derive: Derivation, d: Option<Decoded>, password: seq<Byte>): Verification {
    if d.None? then Malformed
    else
      var c, keyLen := d.value.costs, |d.value.key| % 0x1_0000_0000;
      if !Derivable(c.time, c.threads, keyLen) then VerifyPanics
      else Answer(derive(password, d.value.salt, c.time, c.memoryKiB, c.threads, keyLen) == d.value.key)
  }

  predicate NeedsRehash(hash: string) {
    Outdated(Decode(hash))
  }

  predicate Outdated(d: Option<Decoded>) {
    || d.None?
    || d.value.costs.memoryKiB < DEFAULT_PARAMS.memoryKiB || d.value.costs.time < DEFAULT_PARAMS.time
    || d.value.costs.threads < DEFAULT_PARAMS.threads || |d.value.key| % 0x1_0000_0000 < DEFAULT_PARAMS.keyLen
  }

  // ----- round trip -----

  lemma FieldRoundTrip(name: string, n: nat, rest: string, bound: nat)
    requires (rest == "" || !IsDigit(rest[0])) && n < bound
    requires '$' !in name && '$' !in rest
    ensures ScanField(PrintField(name, n, rest), name, bound) == Some(Scanned(n, rest))
    ensures '$' !in PrintField(name, n, rest)
  {
    LiteralOf(name, Print(n) + rest);
    ScanOfPrint(n, rest);
  }

  lemma IntRoundTrip(n: nat)
    requires n < 0x8000_0000_0000_0000
    ensures ScanInt(Print(n)) == Some(Scanned(n, "")) && '$' !in Print(n)
  {
    ScanOfPrint(n, "");
    assert Print(n) + "" == Print(n);
    assert IsDigit(Print(n)[0]);
  }

  lemma VersionRoundTrip()
    ensures ScanVersion(PrintVersion()) == Some(VERSION) && '$' !in PrintVersion()
  {
    LiteralOf("v=", Print(VERSION));
    IntRoundTrip(VERSION);
  }

  lemma CostsRoundTrip(c: Costs)
    requires Fits(c)
    ensures ScanCosts(PrintCosts(c)) == Some(c) && '$' !in PrintCosts(c)
  {
    var p := PrintField(",p=", c.threads, "");
    var t := PrintField(",t=", c.time, p);
    FieldRoundTrip(",p=", c.threads, "", 0x100);
    FieldRoundTrip(",t=", c.time, p, 0x1_0000_0000);
    FieldRoundTrip("m=", c.memoryKiB, t, 0x1_0000_0000);
  }

  lemma PartsOfFormat(c: Costs, salt: seq<Byte>, key: seq<Byte>)
    requires Fits(c)
    ensures Split(Format(c, salt, key), '$') ==
            ["", "argon2id", PrintVersion(), PrintCosts(c), Encode(Std, salt), Encode(Std, key)]
  {
    RoundTrip(Std, salt);
    RoundTrip(Std, key);
    VersionRoundTrip();
    CostsRoundTrip(c);
    SplitOfSix(PrintVersion(), PrintCosts(c), Encode(Std, salt), Encode(Std, key));
  }

  lemma SplitOfSix(version: string, costs: string, salt: string, key: string)
    requires '$' !in version && '$' !in costs && '$' !in salt && '$' !in key
    ensures var parts := ["", "argon2id", version, costs, salt, key];
            Split(Joined(parts, '$'), '$') == parts
  {
    SplitOfJoined(["", "argon2id", version, costs, salt, key], '$');
  }

  /** What is printed is read back exactly if it is not degenerate. */
  lemma DecodeOfFormat(c: Costs, salt: seq<Byte>, key: seq<Byte>)
    requires Fits(c)
    ensures Decode(Format(c, salt, key)) == ReadBack(c, salt, key)
  {
    PartsOfFormat(c, salt, key);
    VersionRoundTrip();
    CostsRoundTrip(c);
    RoundTrip(Std, salt);
    RoundTrip(Std, key);
  }

  // ----- the layout -----

  /** The text of a stored hash, field by field. */
  function Layout(name: string, version: string, costs: string, salt: string, key: string): string {
    "" + "$" + (name + "$" + ("v=" + version + "$" + (costs + "$" + (salt + "$" + key))))
  }

  function CostsText(memory: string, time: string, threads: string): string {
    "m=" + (memory + (",t=" + (time + (",p=" + threads))))
  }

  predicate Digits(s: string) {
    s != "" && forall i :: 0 <= i < |s| ==> IsDigit(s[i])
  }

  lemma Assoc(a: string, b: string, c: string)
    ensures a + b + c == a + (b + c)
  {
  }

  /** The numbers are in the order of the format. */
  lemma {:induction false} CostsTextOf(memory: string, time: string, threads: string)
    ensures CostsText(memory, time, threads) == "m=" + memory + ",t=" + time + ",p=" + threads
  {
    Assoc("m=", memory, ",t=");
    Assoc("m=" + memory, ",t=", time);
    Assoc("m=" + memory + ",t=", time, ",p=");
    Assoc("m=" + memory + ",t=" + time, ",p=", threads);
    Assoc(",t=", time, ",p=" + threads);
    Assoc("m=" + memory, ",t=", time + (",p=" + threads));
    Assoc("m=", memory, ",t=" + (time + (",p=" + threads)));
    Assoc("m=" + memory + ",t=", time, ",p=" + threads);
  }

  lemma {:induction false} JoinedSix(a: string, b: string, c: string, d: string, e: string, f: string)
    ensures Joined([a, b, c, d, e, f], '$') == a + "$" + (b + "$" + (c + "$" + (d + "$" + (e + "$" + f))))
  {
    assert [a, b, c, d, e, f][1..] == [b, c, d, e, f] && [b, c, d, e, f][1..] == [c, d, e, f];
    assert [c, d, e, f][1..] == [d, e, f] && [d, e, f][1..] == [e, f] && [e, f][1..] == [f];
    assert Joined([e, f], '$') == e + "$" + f;
    assert Joined([d, e, f], '$') == d + "$" + (e + "$" + f);
    assert Joined([c, d, e, f], '$') == c + "$" + (d + "$" + (e + "$" + f));
  }

  lemma VersionText()
    ensures PrintVersion() == "v=" + "19"
  {
    assert Print(1) == "1";
  }

  lemma CostsArePrinted(c: Costs)
    requires Fits(c)
    ensures PrintCosts(c) == CostsText(Print(c.memoryKiB), Print(c.time), Print(c.threads))
  {
    assert Print(c.threads) + "" == Print(c.threads);
  }

  /** A hash is printed with its memory after m, its time after t, its threads after p. */
  lemma {:induction false} FormatIsText(c: Costs, salt: seq<Byte>, key: seq<Byte>)
    requires Fits(c)
    ensures PrintCosts(c) == "m=" + Print(c.memoryKiB) + ",t=" + Print(c.time) + ",p=" + Print(c.threads)
    ensures Format(c, salt, key) == Layout("argon2id", "19", PrintCosts(c), Encode(Std, salt), Encode(Std, key))
  {
    CostsArePrinted(c);
    CostsTextOf(Print(c.memoryKiB), Print(c.time), Print(c.threads));
    VersionText();
    JoinedSix("", "argon2id", PrintVersion(), PrintCosts(c), Encode(Std, salt), Encode(Std, key));
  }

  lemma {:induction false} FieldOfDigits(name: string, digits: string, rest: string, bound: nat)
    requires Digits(digits) && (rest == "" || !IsDigit(rest[0]))
    ensures ScanField(name + (digits + rest), name, bound) ==
            if Number(digits) < bound then Some(Scanned(Number(digits), rest)) else None
  {
    LiteralOf(name, digits + rest);
    ScanOfDigits(digits, rest);
  }

  lemma {:induction false} CostsOfDigits(m: string, t: string, p: string)
    requires Digits(m) && Digits(t) && Digits(p)
    ensures var c := Costs(Number(m), Number(t), Number(p));
            ScanCosts(CostsText(m, t, p)) == if FitsAbove(c) then Some(c) else None
  {
    var threads := ",p=" + p;
    var rest := ",t=" + (t + threads);
    FieldOfDigits("m=", m, rest, 0x1_0000_0000);
    FieldOfDigits(",t=", t, threads, 0x1_0000_0000);
    LastField(p);
    ScansAddUp("m=" + (m + rest), Number(m), rest, Number(t), threads, Number(p));
  }

  lemma {:induction false} LastField(p: string)
    requires Digits(p)
    ensures ScanField(",p=" + p, ",p=", 0x100) == if Number(p) < 0x100 then Some(Scanned(Number(p), "")) else None
  {
    assert p + "" == p;
    FieldOfDigits(",p=", p, "", 0x100);
  }

  lemma ScansAddUp(text: string, m: int, rest: string, t: int, threads: string, p: int)
    requires ScanField(text, "m=", 0x1_0000_0000) == if m < 0x1_0000_0000 then Some(Scanned(m, rest)) else None
    requires ScanField(rest, ",t=", 0x1_0000_0000) == if t < 0x1_0000_0000 then Some(Scanned(t, threads)) else None
    requires ScanField(threads, ",p=", 0x100) == if p < 0x100 then Some(Scanned(p, "")) else None
    ensures ScanCosts(text) == if FitsAbove(Costs(m, t, p)) then Some(Costs(m, t, p)) else None
  {
  }

  /** Numbers of digits are never negative, so only the upper bounds matter. */
  predicate FitsAbove(c: Costs) {
    c.memoryKiB < 0x1_0000_0000 && c.time < 0x1_0000_0000 && c.threads < 0x100
  }

  lemma {:induction false} NumberIsNatural(digits: string)
    requires forall i :: 0 <= i < |digits| ==> IsDigit(digits[i])
    ensures Number(digits) >= 0
    decreases |digits|
  {
    if digits != "" {
      NumberIsNatural(digits[..|digits| - 1]);
    }
  }

  lemma {:induction false} VersionOfDigits(v: string)
    requires Digits(v)
    ensures ScanVersion("v=" + v) == Some(VERSION) <==> Number(v) == 19
  {
    LiteralOf("v=", v);
    ScanOfDigits(v, "");
    assert v + "" == v;
    NumberIsNatural(v);
  }

  /** Any text of that layout is read as the three numbers in those places, exactly if
      its name and version are the known ones, the numbers fit, nothing is degenerate
      and salt and key are base64. */
  lemma {:induction false} DecodeOfText(name: string, v: string, m: string, t: string, p: string, salt: string,
                                        key: string)
    requires Digits(v) && Digits(m) && Digits(t) && Digits(p) && '$' !in name && '$' !in salt && '$' !in key
    ensures CostsText(m, t, p) == "m=" + m + ",t=" + t + ",p=" + p
    ensures Decode(Layout(name, v, CostsText(m, t, p), salt, key)) ==
            if name == "argon2id" && Number(v) == 19
            then Accepted(Costs(Number(m), Number(t), Number(p)), Base64.Decode(Std, salt), Base64.Decode(Std, key))
            else None
  {
    var costs := CostsText(m, t, p);
    CostsTextOf(m, t, p);
    NoSeparator(m, t, p);
    PartsOfLayout(name, v, costs, salt, key);
    VersionOfDigits(v);
    CostsOfDigits(m, t, p);
    NumberIsNatural(m);
    NumberIsNatural(t);
    NumberIsNatural(p);
    DecodeOfParts(Layout(name, v, costs, salt, key), name, "v=" + v, costs, salt, key);
  }

  lemma {:induction false} NoSeparator(m: string, t: string, p: string)
    requires Digits(m) && Digits(t) && Digits(p)
    ensures '$' !in CostsText(m, t, p)
  {
  }

  lemma {:induction false} DecodeOfParts(hash: string, name: string, version: string, costs: string, salt: string,
                                         key: string)
    requires Split(hash, '$') == ["", name, version, costs, salt, key]
    requires ScanCosts(costs).Some? ==> Fits(ScanCosts(costs).value)
    ensures Decode(hash) ==
            if name == "argon2id" && ScanVersion(version) == Some(VERSION) && ScanCosts(costs).Some?
            then Accepted(ScanCosts(costs).value, Base64.Decode(Std, salt), Base64.Decode(Std, key)) else None
  {
    var parts := Split(hash, '$');
    assert parts[0] == "" && parts[1] == name && parts[2] == version && parts[3] == costs;
    assert parts[4] == salt && parts[5] == key;
  }

  function Accepted(c: Costs, salt: Option<seq<Byte>>, key: Option<seq<Byte>>): Option<Decoded> {
    if FitsAbove(c) && salt.Some? && key.Some? && Usable(c, salt.value, key.value)
    then Some(Decoded(c, salt.value, key.value)) else None
  }

  lemma {:induction false} PartsOfLayout(name: string, v: string, costs: string, salt: string, key: string)
    requires '$' !in name && '$' !in v && '$' !in costs && '$' !in salt && '$' !in key
    ensures Split(Layout(name, v, costs, salt, key), '$') == ["", name, "v=" + v, costs, salt, key]
  {
    JoinedSix("", name, "v=" + v, costs, salt, key);
    SplitOfJoined(["", name, "v=" + v, costs, salt, key], '$');
  }

  /** The default parameters as they are printed. */
  lemma DefaultCosts()
    ensures PrintCosts(CostsOf(DEFAULT_PARAMS)) == "m=19456,t=2,p=1"
  {
    CostsArePrinted(CostsOf(DEFAULT_PARAMS));
    assert Print(2) == "2" && Print(1) == "1" && Print(19) == Print(1) + "9" && Print(194) == Print(19) + "4";
    assert Print(1945) == Print(194) + "5" && Print(19456) == Print(1945) + "6";
  }

  /** The derivation returns keys of the length asked for. */
  ghost predicate KeysHaveLength(derive: Derivation) {
    forall password, salt, time, memory, threads, n: nat :: |derive(password, salt, time, memory, threads, n)| == n
  }

  function CostsOf(p: Params): Costs {
    Costs(p.memoryKiB, p.time, p.threads)
  }

  /** Below a default, or without a salt. */
  predicate Weak(c: Costs, salt: seq<Byte>, key: seq<Byte>) {
    c.memoryKiB < 19456 || c.time < 2 || c.threads < 1 || |key| < 32 || salt == []
  }

  /** What is read back of a printed hash. */
  function ReadBack(c: Costs, salt: seq<Byte>, key: seq<Byte>): Option<Decoded> {
    if Usable(c, salt, key) then Some(Decoded(c, salt, key)) else None
  }

  lemma OutdatedIsWeak(c: Costs, salt: seq<Byte>, key: seq<Byte>)
    requires |key| < 0x1_0000_0000
    ensures Outdated(ReadBack(c, salt, key)) <==> Weak(c, salt, key)
  {
  }

  lemma VerifyReadBack(derive: Derivation, c: Costs, salt: seq<Byte>, key: seq<Byte>, password: seq<Byte>)
    requires |key| < 0x1_0000_0000
    ensures VerifyDecoded(derive, ReadBack(c, salt, key), password)
            == if Usable(c, salt, key)
               then Answer(derive(password, salt, c.time, c.memoryKiB, c.threads, |key|) == key) else Malformed
  {
  }

  /** What a password and parameters give: an error, a panic, or a hash. A hash is
      verified, by exactly the passwords with the same derived key, if and only if it
      has memory of 1024 KiB and a salt; it needs a rehash if and only if a cost or the
      key length is below the default, or the salt is empty. */
  lemma HashRoundTrip(derive: Derivation, password: seq<Byte>, salt: seq<Byte>, p: Params, other: seq<Byte>)
    requires KeysHaveLength(derive) && |salt| == p.saltLen
    ensures var h := HashWithParams(derive, password, salt, p);
            var key := derive(password, salt, p.time, p.memoryKiB, p.threads, p.keyLen);
            && (h.WrongLength? <==> !(12 <= |password| <= 1024))
            && (h.Panics? <==> !h.WrongLength? && (p.time == 0 || p.threads == 0 || p.keyLen == 0))
            && (h.Hashed? ==>
                  && h.hash == Layout("argon2id", "19", PrintCosts(CostsOf(p)), Encode(Std, salt), Encode(Std, key))
                  && Verify(derive, h.hash, other) ==
                     (if p.memoryKiB >= 1024 && p.saltLen >= 1
                      then Answer(derive(other, salt, p.time, p.memoryKiB, p.threads, p.keyLen) == key) else Malformed)
                  && (NeedsRehash(h.hash) <==> p.memoryKiB < 19456 || p.time < 2 || p.keyLen < 32 || p.saltLen == 0))
  {
    var key := derive(password, salt, p.time, p.memoryKiB, p.threads, p.keyLen);
    assert |key| == p.keyLen;
    FormatIsText(CostsOf(p), salt, key);
    DecodeOfFormat(CostsOf(p), salt, key);
    OutdatedIsWeak(CostsOf(p), salt, key);
    VerifyReadBack(derive, CostsOf(p), salt, key, other);
  }

  /** In particular the password itself is accepted exactly if memory is at least
      1024 KiB and there is a salt. */
  lemma OwnPasswordIsAccepted(derive: Derivation, password: seq<Byte>, salt: seq<Byte>, p: Params)
    requires KeysHaveLength(derive) && |salt| == p.saltLen
    ensures var h := HashWithParams(derive, password, salt, p);
            h.Hashed? ==> (Verify(derive, h.hash, password) == Answer(true) <==> p.memoryKiB >= 1024 && p.saltLen >= 1)
  {
    HashRoundTrip(derive, password, salt, p, password);
  }
}
