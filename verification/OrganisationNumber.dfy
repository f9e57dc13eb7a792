/** Swedish organisation numbers and their Luhn check digit
    (internal/publicevent/organisation.go). */
module OrganisationNumber {
  import opened Wrappers
  import Text

  predicate IsSeparator(c: char) {
    c == '-' || c == ' ' || c == '+'
  }

  predicate AllDigits(s: string) {
    forall i :: 0 <= i < |s| ==> Text.IsDigit(s[i])
  }

  function Digit(c: char): (d: int)
    requires Text.IsDigit(c)
    ensures 0 <= d <= 9
  {
    c as int - '0' as int
  }

  // ----- the check digit -----

  /** What the digit at a position adds: doubled, digits summed, at even positions. */
  function Weighted(i: nat, d: int): int {
    if i % 2 == 0 then if 2 * d > 9 then 2 * d - 9 else 2 * d else d
  }

  function LuhnSum(s: string): int
    requires AllDigits(s)
  {
    if s == "" then 0
    else LuhnSum(s[..|s| - 1]) + Weighted(|s| - 1, Digit(s[|s| - 1]))
  }

  predicate LuhnValid(s: string)
    requires AllDigits(s)
  {
    LuhnSum(s) % 10 == 0
  }

  /** The source's loop over the digits. */
  method CheckLuhn(digits: string) returns (valid: bool)
    requires AllDigits(digits)
    ensures valid == LuhnValid(digits)
  {
    var sum := 0;
    var i := 0;
    while i < |digits|
      invariant 0 <= i <= |digits|
      invariant sum == LuhnSum(digits[..i])
    {
      var d := Digit(digits[i]);
      if i % 2 == 0 {
        d := d * 2;
        if d > 9 {
          d := d - 9;
        }
      }
      sum := sum + d;
      assert digits[..i + 1][..i] == digits[..i];
      i := i + 1;
    }
    assert digits[..i] == digits;
    return sum % 10 == 0;
  }

  /** Replacing one digit moves the sum by the change of its weight. */
  lemma {:induction false} SumAfterSubstitution(s: string, i: nat, c: char)
    requires AllDigits(s) && i < |s| && Text.IsDigit(c)
    ensures AllDigits(s[i := c])
    ensures LuhnSum(s[i := c]) == LuhnSum(s) - Weighted(i, Digit(s[i])) + Weighted(i, Digit(c))
    decreases |s|
  {
    var n := |s| - 1;
    if i == n {
      assert s[i := c][..n] == s[..n];
    } else {
      SumAfterSubstitution(s[..n], i, c);
      assert s[i := c][..n] == s[..n][i := c];
    }
  }

  /** The check digit catches every single wrong digit, at every length. */
  lemma SubstitutionRejected(s: string, i: nat, c: char)
    requires AllDigits(s) && LuhnValid(s) && i < |s| && Text.IsDigit(c) && c != s[i]
    ensures AllDigits(s[i := c]) && !LuhnValid(s[i := c])
  {
    SumAfterSubstitution(s, i, c);
    WeightsDiffer(i, Digit(s[i]), Digit(c));
    DividesBoth(LuhnSum(s), Weighted(i, Digit(c)) - Weighted(i, Digit(s[i])));
  }

  lemma WeightsDiffer(i: nat, a: int, b: int)
    requires 0 <= a <= 9 && 0 <= b <= 9 && a != b
    ensures (Weighted(i, b) - Weighted(i, a)) % 10 != 0
  {
  }

  function Transposed(s: string, i: nat): string
    requires i + 1 < |s|
  {
    s[i := s[i + 1]][i + 1 := s[i]]
  }

  /** It catches every transposition of neighbours that changes the string, except
      a 0 with a 9; that one it never catches. */
  lemma TranspositionRejectedIff(s: string, i: nat)
    requires AllDigits(s) && LuhnValid(s) && i + 1 < |s|
    ensures AllDigits(Transposed(s, i))
    ensures LuhnValid(Transposed(s, i)) <==>
            s[i] == s[i + 1] || (s[i] == '0' && s[i + 1] == '9') || (s[i] == '9' && s[i + 1] == '0')
  {
    SumAfterTransposition(s, i);
    var a, b := Digit(s[i]), Digit(s[i + 1]);
    TransposedWeights(i, a, b);
    var change := Weighted(i, b) - Weighted(i, a) + Weighted(i + 1, a) - Weighted(i + 1, b);
    DividesBoth(LuhnSum(s), change);
  }

  lemma DividesBoth(sum: int, change: int)
    requires sum % 10 == 0
    ensures (sum + change) % 10 == 0 <==> change % 10 == 0
  {
  }

  lemma SumAfterTransposition(s: string, i: nat)
    requires AllDigits(s) && i + 1 < |s|
    ensures AllDigits(Transposed(s, i))
    ensures var a, b := Digit(s[i]), Digit(s[i + 1]);
            LuhnSum(Transposed(s, i)) ==
            LuhnSum(s) + (Weighted(i, b) - Weighted(i, a) + Weighted(i + 1, a) - Weighted(i + 1, b))
  {
    SumAfterSubstitution(s, i, s[i + 1]);
    SumAfterSubstitution(s[i := s[i + 1]], i + 1, s[i]);
  }

  lemma TransposedWeights(i: nat, a: int, b: int)
    requires 0 <= a <= 9 && 0 <= b <= 9
    ensures (Weighted(i, b) - Weighted(i, a) + Weighted(i + 1, a) - Weighted(i + 1, b)) % 10 == 0
            <==> a == b || (a == 0 && b == 9) || (a == 9 && b == 0)
  {
  }

  // ----- the written forms -----

  /** The digits of a written form, or none if it holds any other character. */
  function Kept(raw: string): (r: Option<string>)
    ensures r.Some? ==> AllDigits(r.value)
  {
    if raw == "" then Some("") else
      var front := Kept(raw[..|raw| - 1]);
      var c := raw[|raw| - 1];
      if front.None? || !(Text.IsDigit(c) || IsSeparator(c)) then None
      else if Text.IsDigit(c) then Some(front.value + [c]) else front
  }

  /** Ten digits from ten, or from twelve with a known century prefix. */
  function WithoutCentury(digits: string): Option<string> {
    if |digits| != 12 then Some(digits)
    else if digits[..2] in ["16", "19", "20"] then Some(digits[2..])
    else None
  }

  function Canonical(raw: string): Option<string> {
    var digits := Kept(raw);
    if digits.None? || WithoutCentury(digits.value).None? then None else
      var ten := WithoutCentury(digits.value).value;
      if |ten| != 10 || !LuhnValid(ten) then None else Some(ten)
  }

  method Normalize(raw: string) returns (r: Option<string>)
    ensures r == Canonical(raw)
  {
    var digits := "";
    var i := 0;
    while i < |raw|
      invariant 0 <= i <= |raw|
      invariant Kept(raw[..i]) == Some(digits)
    {
      var c := raw[i];
      assert raw[..i + 1][..i] == raw[..i];
      if Text.IsDigit(c) {
        digits := digits + [c];
      } else if !IsSeparator(c) {
        NoneStays(raw, i + 1);
        return None;
      }
      i := i + 1;
    }
    assert raw[..i] == raw;
    if |digits| == 12 {
      if digits[..2] == "16" || digits[..2] == "19" || digits[..2] == "20" {
        digits := digits[2..];
      } else {
        return None;
      }
    }
    if |digits| != 10 {
      return None;
    }
    var valid := CheckLuhn(digits);
    if !valid {
      return None;
    }
    return Some(digits);
  }

  lemma {:induction false} NoneStays(raw: string, i: nat)
    requires i <= |raw| && Kept(raw[..i]).None?
    ensures Kept(raw).None?
    decreases |raw|
  {
    if i == |raw| {
      assert raw[..i] == raw;
    } else {
      assert raw[..|raw| - 1][..i] == raw[..i];
      NoneStays(raw[..|raw| - 1], i);
    }
  }

  lemma {:induction false} KeptOfDigits(s: string)
    requires AllDigits(s)
    ensures Kept(s) == Some(s)
    decreases |s|
  {
    if s != "" {
      KeptOfDigits(s[..|s| - 1]);
      assert s == s[..|s| - 1] + [s[|s| - 1]];
    }
  }

  lemma {:induction false} KeptIgnoresSeparator(a: string, c: char, b: string)
    requires IsSeparator(c)
    ensures Kept(a + [c] + b) == Kept(a + b)
    decreases |b|
  {
    if b == "" {
      assert (a + [c] + b)[..|a|] == a && a + b == a;
    } else {
      var front := b[..|b| - 1];
      KeptIgnoresSeparator(a, c, front);
      assert (a + [c] + b)[..|a + [c] + b| - 1] == a + [c] + front;
      assert (a + b)[..|a + b| - 1] == a + front;
    }
  }

  /** A canonical number is ten digits with a valid check digit and is its own
      canonical form. */
  lemma CanonicalIsIdempotent(raw: string)
    requires Canonical(raw).Some?
    ensures var ten := Canonical(raw).value;
            |ten| == 10 && AllDigits(ten) && LuhnValid(ten) && Canonical(ten) == Some(ten)
  {
    KeptOfDigits(Canonical(raw).value);
  }

  /** The digit sum of twice a digit. */
  function Twice(c: char): int {
    var d := 2 * (c as int - '0' as int);
    d / 10 + d % 10
  }

  function Once(c: char): int {
    c as int - '0' as int
  }

  lemma {:induction false} LuhnStep(s: string, n: nat)
    requires AllDigits(s) && n < |s|
    ensures LuhnSum(s[..n + 1]) == LuhnSum(s[..n]) + if n % 2 == 0 then Twice(s[n]) else Once(s[n])
  {
    assert s[..n + 1][..n] == s[..n] && s[..n + 1][n] == s[n];
  }

  /** Of ten digits the first, third, fifth, seventh and ninth are doubled. */
  lemma {:induction false} LuhnOfTen(s: string)
    requires AllDigits(s) && |s| == 10
    ensures LuhnSum(s) ==
            Twice(s[0]) + Once(s[1]) + Twice(s[2]) + Once(s[3]) + Twice(s[4]) + Once(s[5]) + Twice(s[6]) + Once(s[7])
            + Twice(s[8]) + Once(s[9])
    ensures LuhnValid(s) <==> LuhnSum(s) % 10 == 0
  {
    LuhnOfFive(s);
    LuhnStep(s, 5);
    LuhnStep(s, 6);
    LuhnStep(s, 7);
    LuhnStep(s, 8);
    LuhnStep(s, 9);
    assert s[..10] == s;
  }

  lemma {:induction false} LuhnOfFive(s: string)
    requires AllDigits(s) && |s| == 10
    ensures LuhnSum(s[..5]) == Twice(s[0]) + Once(s[1]) + Twice(s[2]) + Once(s[3]) + Twice(s[4])
  {
    LuhnStep(s, 0);
    LuhnStep(s, 1);
    LuhnStep(s, 2);
    LuhnStep(s, 3);
    LuhnStep(s, 4);
    assert s[..0] == "";
  }

  /** Ten digits are their own canonical form, twelve digits are that of their last ten if
      they begin with a known century, and nothing else is valid. */
  lemma CanonicalOfDigits(s: string)
    requires AllDigits(s)
    ensures |s| == 10 ==> Canonical(s) == if LuhnValid(s) then Some(s) else None
    ensures |s| == 12 ==>
              Canonical(s) ==
              if (s[0] == '1' && s[1] == '6') || (s[0] == '1' && s[1] == '9') || (s[0] == '2' && s[1] == '0')
              then Canonical(s[2..]) else None
    ensures |s| != 10 && |s| != 12 ==> Canonical(s) == None
  {
    KeptOfDigits(s);
    if |s| == 12 {
      KeptOfDigits(s[2..]);
      assert s[..2] == [s[0], s[1]];
    }
  }

  /** Separators can stand anywhere without changing the result, errors included. */
  lemma SeparatorsDoNotMatter(a: string, c: char, b: string)
    requires IsSeparator(c)
    ensures Canonical(a + [c] + b) == Canonical(a + b)
  {
    KeptIgnoresSeparator(a, c, b);
  }

  lemma {:induction false} KeptRefuses(a: string, c: char, b: string)
    requires !Text.IsDigit(c) && !IsSeparator(c)
    ensures Kept(a + [c] + b).None?
  {
    assert (a + [c] + b)[..|a| + 1][..|a|] == a;
    NoneStays(a + [c] + b, |a| + 1);
  }

  lemma {:induction false} KeptCounts(a: string, c: char, b: string)
    requires Text.IsDigit(c) && Kept(a + b).Some?
    ensures Kept(a + [c] + b).Some? && |Kept(a + [c] + b).value| == |Kept(a + b).value| + 1
    decreases |b|
  {
    if b == "" {
      assert (a + [c] + b)[..|a|] == a && a + b == a;
    } else {
      var front := b[..|b| - 1];
      assert (a + [c] + b)[..|a + [c] + b| - 1] == a + [c] + front;
      assert (a + b)[..|a + b| - 1] == a + front;
      KeptCounts(a, c, front);
    }
  }

  /** Of the characters that can be added to a valid number, anywhere, exactly the
      dash, the blank and the plus are ignored; every other one makes it invalid. */
  lemma IgnoredIff(a: string, c: char, b: string)
    requires Canonical(a + b).Some?
    ensures Canonical(a + [c] + b) == Canonical(a + b) <==> c in {'-', ' ', '+'}
    ensures Canonical(a + [c] + b).None? <==> c !in {'-', ' ', '+'}
  {
    if IsSeparator(c) {
      SeparatorsDoNotMatter(a, c, b);
    } else if Text.IsDigit(c) {
      KeptCounts(a, c, b);
    } else {
      KeptRefuses(a, c, b);
    }
  }

  /** Other white space is not ignored. */
  lemma TabIsRefused()
    ensures Canonical("5594800418") == Some("5594800418") && Canonical("5594800418\t") == None
  {
    var s := "5594800418";
    KeptOfDigits(s);
    assert LuhnSum(s) == 40 by {
      assert s[..9] == "559480041" && s[..9][..8] == "55948004" && s[..9][..8][..7] == "5594800";
      assert LuhnSum("5594800") == 26 by {
        assert "5594800"[..6] == "559480" && "559480"[..5] == "55948" && "55948"[..4] == "5594";
        assert "5594"[..3] == "559" && "559"[..2] == "55" && "55"[..1] == "5";
        assert LuhnSum("55") == 6;
      }
    }
    assert s + "\t" == s + ['\t'] + "" && s + "" == s;
    IgnoredIff(s, '\t', "");
  }
}
