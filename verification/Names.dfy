/** Object names: validation, the canonical string form, and parsing it back. */
module Names {
  import opened Entries

  const U64_MAX: nat := 0xFFFF_FFFF_FFFF_FFFF

  // ---------- Decimal numbers ----------

  predicate IsDigit(c: char) { '0' <= c <= '9' }

  predicate AllDigits(s: string) { forall i | 0 <= i < |s| :: IsDigit(s[i]) }

  function DigitOf(k: nat): (c: char)
    requires k < 10
    ensures IsDigit(c) && c as int - '0' as int == k
  {
    ('0' as int + k) as char
  }

  /** The decimal spelling of `n`, without leading zeros. */
  function Decimal(n: nat): (s: string)
    ensures s != "" && AllDigits(s)
  {
    if n < 10 then [DigitOf(n)] else Decimal(n / 10) + [DigitOf(n % 10)]
  }

  function Value(s: string): nat
    requires AllDigits(s)
  {
    if s == "" then 0 else 10 * Value(s[..|s| - 1]) + (s[|s| - 1] as int - '0' as int)
  }

  /** `str::parse::<u64>` on text already known to hold no sign: digits, at least one, in range. */
  function ParseU64(s: string): Option<nat>
  {
    if s != "" && AllDigits(s) && Value(s) <= U64_MAX then Some(Value(s)) else None
  }

  lemma {:induction false} ValueOfDecimal(n: nat)
    ensures Value(Decimal(n)) == n
  {
    if n >= 10 {
      ValueOfDecimal(n / 10);
      assert Decimal(n)[..|Decimal(n)| - 1] == Decimal(n / 10);
    }
  }

  /** A decimal has a leading zero only when it is the single digit zero. */
  lemma {:induction false} DecimalHead(n: nat)
    ensures Decimal(n)[0] == '0' ==> n == 0
  {
    if n >= 10 {
      DecimalHead(n / 10);
      assert Decimal(n)[0] == Decimal(n / 10)[0];
    } else {
      assert Decimal(n)[0] == DigitOf(n);
    }
  }

  predicate NoLeadingZero(s: string) { |s| == 1 || (|s| > 1 && s[0] != '0') }

  lemma {:induction false} LeadingNonZero(s: string)
    requires AllDigits(s) && s != "" && s[0] != '0'
    ensures Value(s) > 0
    decreases |s|
  {
    if |s| > 1 { LeadingNonZero(s[..|s| - 1]); } else { assert s[..0] == ""; }
  }

  lemma {:induction false} SpellsBack(s: string)
    requires AllDigits(s) && NoLeadingZero(s)
    ensures Decimal(Value(s)) == s
    decreases |s|
  {
    var front, d := s[..|s| - 1], s[|s| - 1] as int - '0' as int;
    assert s == front + [s[|s| - 1]] && DigitOf(d) == s[|s| - 1];
    if |s| > 1 {
      SpellsBack(front);
      LeadingNonZero(front);
      assert Value(s) / 10 == Value(front) && Value(s) % 10 == d;
    } else {
      assert front == "" && Value(s) == d;
    }
  }

  /** A digit string is the decimal of its own value exactly when it has no leading zero. */
  lemma CanonicalIff(s: string)
    requires AllDigits(s) && s != ""
    ensures Decimal(Value(s)) == s <==> NoLeadingZero(s)
  {
    if NoLeadingZero(s) {
      SpellsBack(s);
    } else {
      DecimalHead(Value(s));
    }
  }

  // ---------- Names ----------

  predicate IsAlnum(c: char) { 'a' <= c <= 'z' || 'A' <= c <= 'Z' || IsDigit(c) }

  predicate IsPlain(s: string)
  {
    && 4 <= |s| <= 64
    && IsAlnum(s[0])
    && forall i | 0 <= i < |s| :: IsAlnum(s[i]) || s[i] == '_'
  }

  datatype Name = Plain(base: string) | Generated(base: string, suffix: nat)
  {
    predicate Valid() { IsPlain(base) && (Generated? ==> suffix <= U64_MAX) }
  }

  function AsStr(n: Name): string
  {
    match n
    case Plain(base) => base
    case Generated(base, suffix) => base + "-" + Decimal(suffix)
  }

  /** The index of the first '-', or the length when there is none. */
  function FirstDash(s: string): (i: nat)
    ensures i <= |s| && (i < |s| ==> s[i] == '-') && forall j | 0 <= j < i :: s[j] != '-'
  {
    if s == "" || s[0] == '-' then 0 else 1 + FirstDash(s[1..])
  }

  function FromParsed(s: string): Option<Name>
  {
    if s == "" || !IsAlnum(s[0]) || exists i | 0 <= i < |s| :: !(IsAlnum(s[i]) || s[i] == '_' || s[i] == '-') then None
    else
      var i := FirstDash(s);
      if i < |s| then
        var suffix := ParseU64(s[i + 1..]);
        if suffix.Some? && IsPlain(s[..i]) then Some(Generated(s[..i], suffix.value)) else None
      else if IsPlain(s) then Some(Plain(s))
      else None
  }

  /** `s` is a base, a dash and a digit string. */
  ghost predicate Spells(s: string, base: string, digits: string)
  {
    IsPlain(base) && digits != "" && AllDigits(digits) && s == base + "-" + digits
  }

  lemma SplitsAtDash(s: string, base: string, digits: string)
    requires Spells(s, base, digits)
    ensures FirstDash(s) == |base| && s[..|base|] == base && s[|base| + 1..] == digits
  {
    assert s[|base|] == '-';
    forall j | 0 <= j < |base| ensures s[j] != '-' {
      assert s[j] == base[j];
    }
  }

  /** The generated strings accepted, and what each means. */
  lemma ParsesGenerated(s: string, base: string, digits: string)
    requires Spells(s, base, digits)
    ensures FromParsed(s) == if Value(digits) <= U64_MAX then Some(Generated(base, Value(digits))) else None
  {
    SplitsAtDash(s, base, digits);
    forall i | 0 <= i < |s| ensures IsAlnum(s[i]) || s[i] == '_' || s[i] == '-' {
      if i < |base| { assert s[i] == base[i]; } else if i > |base| { assert s[i] == digits[i - |base| - 1]; }
    }
    assert s[0] == base[0];
  }

  lemma ParsesPlain(s: string)
    requires IsPlain(s)
    ensures FromParsed(s) == Some(Plain(s))
  {
    assert forall i | 0 <= i < |s| :: s[i] != '-';
  }

  /** Parsing undoes printing, for every valid name and every u64 suffix. */
  lemma PrintParse(n: Name)
    requires n.Valid()
    ensures FromParsed(AsStr(n)) == Some(n)
  {
    if n.Plain? {
      ParsesPlain(n.base);
    } else {
      ParsesGenerated(AsStr(n), n.base, Decimal(n.suffix));
      ValueOfDecimal(n.suffix);
    }
  }

  /** Printing is injective, so a plain and a generated name never share a spelling. */
  lemma PrintInjective(m: Name, n: Name)
    requires m.Valid() && n.Valid() && AsStr(m) == AsStr(n)
    ensures m == n
  {
    PrintParse(m);
    PrintParse(n);
  }

  /** The only strings accepted are plain names and a plain base, a dash and an in-range digit string. */
  lemma ParseAccepts(s: string)
    ensures FromParsed(s).Some? <==>
      IsPlain(s) || exists base, digits | Spells(s, base, digits) :: Value(digits) <= U64_MAX
  {
    if FromParsed(s).Some? {
      var i := FirstDash(s);
      if i < |s| {
        assert s == s[..i] + "-" + s[i + 1..];
        assert Spells(s, s[..i], s[i + 1..]);
      }
    } else {
      if IsPlain(s) { ParsesPlain(s); }
      forall base, digits | Spells(s, base, digits) ensures Value(digits) > U64_MAX {
        ParsesGenerated(s, base, digits);
      }
    }
  }

  /**
   * Every accepted string means a valid name whose canonical form parses to the same name; and that
   * form is the string itself exactly when its suffix, if any, has no leading zero.
   */
  lemma Reprints(s: string)
    requires FromParsed(s).Some?
    ensures var n := FromParsed(s).value;
      && n.Valid() && FromParsed(AsStr(n)) == Some(n)
      && (AsStr(n) == s <==> (n.Generated? ==> NoLeadingZero(s[FirstDash(s) + 1..])))
  {
    var n := FromParsed(s).value;
    PrintParse(n);
    if n.Generated? {
      var i := FirstDash(s);
      CanonicalIff(s[i + 1..]);
      assert s == s[..i] + "-" + s[i + 1..];
      assert AsStr(n)[..i] == s[..i] && AsStr(n)[i + 1..] == Decimal(n.suffix);
    }
  }

  lemma {:induction false} ZeroInFront(d: string)
    requires AllDigits(d)
    ensures AllDigits("0" + d) && Value("0" + d) == Value(d)
    decreases |d|
  {
    if d == "" {
      assert "0" + d == "0" && "0"[..0] == "";
    } else {
      ZeroInFront(d[..|d| - 1]);
      assert ("0" + d)[..|d|] == "0" + d[..|d| - 1];
    }
  }

  /** Parsing is not injective: a zero in front of the suffix is accepted and means the same name. */
  lemma ZeroPadded(base: string, digits: string)
    requires IsPlain(base) && digits != "" && AllDigits(digits)
    ensures FromParsed(base + "-" + ("0" + digits)) == FromParsed(base + "-" + digits)
  {
    ZeroInFront(digits);
    ParsesGenerated(base + "-" + ("0" + digits), base, "0" + digits);
    ParsesGenerated(base + "-" + digits, base, digits);
  }

  lemma NameHasNoSlash(n: Name)
    requires n.Valid()
    ensures '/' !in AsStr(n) && AsStr(n) != ""
  {
    forall i | 0 <= i < |AsStr(n)| ensures AsStr(n)[i] != '/' {
      if n.Generated? && i > |n.base| { assert AsStr(n)[i] == Decimal(n.suffix)[i - |n.base| - 1]; }
      else if i < |n.base| { assert AsStr(n)[i] == n.base[i]; }
    }
  }
}
