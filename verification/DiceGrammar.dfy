/**
 What dice notation means, as a grammar on the parts of the text: optional spaces and a quantity, `d`, the sides, and an
 optional signed modifier.
 */
module DiceGrammar {
  import opened Options
  import opened Sequences
  import opened Spacing
  import opened Text
  import opened DiceNotation

  function Pow10(n: nat): nat { if n == 0 then 1 else 10 * Pow10(n - 1) }

  /** Positional value: each digit times the power of ten of its place. */
  function Decimal(s: string): nat
    requires AllDigits(s)
  {
    if |s| == 0 then 0
    else
      assert s[0] in s;
      (s[0] as nat - '0' as nat) * Pow10(|s| - 1) + Decimal(s[1..])
  }

  /** The parts of a notation; `sign` and `magnitude` are empty when there is no modifier. */
  datatype Parts = Parts(
    lead: string, quantity: string, gap: string, die: char, beforeSides: string, sides: string,
    beforeSign: string, sign: string, afterSign: string, magnitude: string, trail: string)

  ghost predicate IsNotation(p: Parts) {
    Spaces(p.lead) && AllDigits(p.quantity) && Spaces(p.gap) && (p.quantity == "" ==> p.gap == "") &&
    (p.die == 'd' || p.die == 'D') && Spaces(p.beforeSides) && p.sides != "" && AllDigits(p.sides) && Spaces(p.trail) &&
    if p.sign == "" then p.beforeSign == "" && p.afterSign == "" && p.magnitude == ""
    else (p.sign == "+" || p.sign == "-") && Spaces(p.beforeSign) && Spaces(p.afterSign) && p.magnitude != "" && AllDigits(p.magnitude)
  }

  function ModifierPart(p: Parts): string {
    p.beforeSign + (p.sign + (p.afterSign + (p.magnitude + p.trail)))
  }

  function TextOf(p: Parts): string {
    p.lead + (p.quantity + (p.gap + ([p.die] + (p.beforeSides + (p.sides + ModifierPart(p))))))
  }

  /** Without a quantity it is one die; without a modifier nothing is added; a minus sign subtracts. */
  ghost function Meaning(p: Parts): Notation
    requires IsNotation(p)
  {
    Notation(if p.quantity == "" then 1 else Decimal(p.quantity), Decimal(p.sides),
             if p.sign == "-" then 0 - Decimal(p.magnitude) else Decimal(p.magnitude))
  }

  ghost predicate Denotes(s: string, n: Notation) {
    exists p :: IsNotation(p) && TextOf(p) == s && Meaning(p) == n
  }

  // ----- Numbers

  lemma {:induction false} DecimalLast(s: string)
    requires AllDigits(s) && s != ""
    ensures Decimal(s) == 10 * Decimal(s[..|s| - 1]) + (s[|s| - 1] as nat - '0' as nat)
  {
    if |s| == 1 {
      assert s[1..] == "" && s[..0] == "";
    } else {
      DecimalLast(s[1..]);
      var front := s[..|s| - 1];
      assert front[0] == s[0] && front[1..] == s[1..][..|s| - 2] && s[1..][|s| - 2] == s[|s| - 1];
      var d, p := s[0] as nat - '0' as nat, Pow10(|s| - 2);
      assert Pow10(|s| - 1) == 10 * p;
      assert d * (10 * p) == 10 * (d * p);
    }
  }

  /** Reading digit by digit gives the positional value. */
  lemma {:induction false} ParseNatIsDecimal(s: string)
    requires AllDigits(s)
    ensures ParseNat(s) == Decimal(s)
  {
    if s != "" {
      ParseNatIsDecimal(s[..|s| - 1]);
      DecimalLast(s);
    }
  }

  // ----- Digits

  lemma {:induction false} TakenAll(s: string)
    ensures s == TakeDigits(s) + s[|TakeDigits(s)|..]
    ensures |TakeDigits(s)| < |s| ==> !IsDigit(s[|TakeDigits(s)|])
  {
    if |s| > 0 && IsDigit(s[0]) { TakenAll(s[1..]); }
  }

  lemma SpaceIsNoDigit(c: char)
    ensures IsSpace(c) ==> !IsDigit(c) && c != '+' && c != '-' && c != 'd' && c != 'D'
    ensures c == '+' || c == '-' || c == 'd' || c == 'D' ==> !IsDigit(c) && !IsSpace(c)
    ensures IsDigit(c) ==> !IsSpace(c) && c != 'd' && c != 'D' && c != '+' && c != '-'
  {
  }

  // ----- Every notation is read as what it means

  lemma MagnitudeReads(m: string, trail: string)
    requires m != "" && AllDigits(m) && Spaces(trail)
    ensures ParseMagnitude(m + trail) == Some(Decimal(m))
  {
    hide TakeDigits, SkipSpaces, ParseNat, Decimal, IsSpace, IsDigit;
    if trail != "" { SpaceIsNoDigit(trail[0]); }
    TakeDigitsAppend(m, trail);
    ParseNatIsDecimal(m);
    JoinEmpty(trail);
    SkipSpacesAppend(trail, "");
  }

  lemma SignedModifier(s: string, t: string, u: string, n: nat)
    requires SkipSpaces(s) == t && |t| > 0 && (t[0] == '+' || t[0] == '-') && SkipSpaces(t[1..]) == u && ParseMagnitude(u) == Some(n)
    ensures ParseModifier(s) == Some(if t[0] == '-' then 0 - n else n)
  {
    hide SkipSpaces, ParseMagnitude;
  }

  lemma NoModifier(s: string)
    requires SkipSpaces(s) == ""
    ensures ParseModifier(s) == Some(0)
  {
    hide SkipSpaces, ParseMagnitude;
  }

  lemma ModifierReads(p: Parts)
    requires IsNotation(p)
    ensures ParseModifier(ModifierPart(p)) == Some(Meaning(p).modifier)
    ensures ModifierPart(p) == "" || !IsDigit(ModifierPart(p)[0])
  {
    hide TakeDigits, SkipSpaces, ParseNat, Decimal, IsSpace, IsDigit, ParseMagnitude, ParseModifier, AllDigits, Spaces;
    if p.sign == "" {
      JoinEmpty(p.trail);
      assert ModifierPart(p) == p.trail;
      EndReads(p.trail);
      NoDecimal(p.magnitude);
    } else {
      SignedReads(p.beforeSign, p.sign[0], p.afterSign, p.magnitude, p.trail);
      assert p.sign == [p.sign[0]];
    }
  }

  lemma EndReads(trail: string)
    requires Spaces(trail)
    ensures ParseModifier(trail) == Some(0) && (trail == "" || !IsDigit(trail[0]))
  {
    hide SkipSpaces, IsSpace, IsDigit, ParseModifier;
    JoinEmpty(trail);
    SkipSpacesAppend(trail, "");
    NoModifier(trail);
    if trail != "" { SpaceIsNoDigit(trail[0]); }
  }

  lemma SignedReads(b: string, c: char, a: string, m: string, trail: string)
    requires Spaces(b) && (c == '+' || c == '-') && Spaces(a) && m != "" && AllDigits(m) && Spaces(trail)
    ensures var s := b + ([c] + (a + (m + trail)));
            ParseModifier(s) == Some(if c == '-' then 0 - Decimal(m) else Decimal(m)) && !IsDigit(s[0])
  {
    hide *;
    var digits := m + trail;
    var t := [c] + (a + digits);
    assert t[0] == c && t[1..] == a + digits;
    SpaceIsNoDigit(c);
    SkipSpacesAppend(b, t);
    FirstDigit(m, trail);
    SkipSpacesAppend(a, digits);
    MagnitudeReads(m, trail);
    SignedModifier(b + t, t, digits, Decimal(m));
    FirstOf(b, t);
  }

  lemma FirstOf(b: string, t: string)
    requires Spaces(b) && t != "" && !IsDigit(t[0])
    ensures b + t != "" && !IsDigit((b + t)[0])
  {
    hide IsSpace, IsDigit;
    if b != "" { SpaceIsNoDigit(b[0]); } else { JoinEmpty(t); }
  }

  lemma NoDecimal(s: string)
    requires s == ""
    ensures AllDigits(s) && Decimal(s) == 0
  {
  }

  lemma FirstDigit(m: string, rest: string)
    requires m != "" && AllDigits(m)
    ensures (m + rest)[0] == m[0] && IsDigit(m[0]) && !IsSpace(m[0])
  {
    assert m[0] in m;
    SpaceIsNoDigit(m[0]);
  }

  lemma SidesRead(p: Parts, quantity: nat)
    requires IsNotation(p)
    ensures ParseSides(quantity, p.beforeSides + (p.sides + ModifierPart(p))) == Some(Meaning(p).(quantity := quantity))
  {
    hide TakeDigits, SkipSpaces, ParseNat, Decimal, IsSpace, IsDigit, ParseModifier, ModifierPart, AllDigits;
    var rest := ModifierPart(p);
    ModifierReads(p);
    FirstDigit(p.sides, rest);
    SkipSpacesAppend(p.beforeSides, p.sides + rest);
    TakeDigitsAppend(p.sides, rest);
    ParseNatIsDecimal(p.sides);
  }

  lemma NotationReads(p: Parts)
    requires IsNotation(p)
    ensures ParseShape(TextOf(p)) == Some(Meaning(p))
  {
    hide TakeDigits, SkipSpaces, ParseNat, Decimal, IsSpace, IsDigit, ParseSides, ModifierPart, AllDigits;
    var after := p.beforeSides + (p.sides + ModifierPart(p));
    var die := [p.die] + after;
    assert die[0] == p.die && die[1..] == after;
    SpaceIsNoDigit(p.die);
    SkipSpacesAppend(p.gap, die);
    var rest := p.gap + die;
    if p.gap != "" { assert rest[0] == p.gap[0]; SpaceIsNoDigit(rest[0]); } else { assert rest == die; }
    TakeDigitsAppend(p.quantity, rest);
    if p.quantity == "" {
      assert p.quantity + rest == die;
    } else {
      FirstDigit(p.quantity, rest);
      ParseNatIsDecimal(p.quantity);
    }
    SkipSpacesAppend(p.lead, p.quantity + rest);
    SidesRead(p, Meaning(p).quantity);
  }

  // ----- Everything read is a notation

  lemma SkipParts(s: string) returns (a: string, t: string)
    ensures t == SkipSpaces(s) && s == a + t && Spaces(a)
  {
    hide SkipSpaces, Spaces, IsSpace;
    SkippedAreSpaces(s);
    t := SkipSpaces(s);
    a := s[..|s| - |t|];
  }

  lemma DigitParts(s: string) returns (m: string, rest: string)
    ensures m == TakeDigits(s) && rest == s[|m|..] && s == m + rest && ParseNat(m) == Decimal(m)
  {
    hide TakeDigits, ParseNat, Decimal;
    TakenAll(s);
    m := TakeDigits(s);
    rest := s[|m|..];
    ParseNatIsDecimal(m);
  }

  lemma MagnitudeUnfolds(s: string, m: string, rest: string)
    requires ParseMagnitude(s).Some? && m == TakeDigits(s) && rest == s[|m|..]
    ensures |m| > 0 && |SkipSpaces(rest)| == 0 && ParseMagnitude(s) == Some(ParseNat(m))
  {
    hide TakeDigits, SkipSpaces, ParseNat;
  }

  lemma MagnitudeParts(s: string) returns (m: string, trail: string)
    requires ParseMagnitude(s).Some?
    ensures s == m + trail && m != "" && AllDigits(m) && Spaces(trail) && ParseMagnitude(s) == Some(Decimal(m))
  {
    hide *;
    m, trail := DigitParts(s);
    MagnitudeUnfolds(s, m, trail);
    var a, t := SkipParts(trail);
    assert t == "";
    JoinEmpty(a);
  }

  lemma ModifierEnds(s: string, t: string)
    requires ParseModifier(s).Some? && t == SkipSpaces(s) && |t| == 0
    ensures ParseModifier(s) == Some(0)
  {
    hide SkipSpaces, ParseMagnitude;
  }

  lemma ModifierGoesOn(s: string, t: string, w: string, u: string)
    requires ParseModifier(s).Some? && t == SkipSpaces(s) && |t| > 0 && w == t[1..] && u == SkipSpaces(w)
    ensures (t[0] == '+' || t[0] == '-') && ParseMagnitude(u).Some?
    ensures ParseModifier(s) == Some(if t[0] == '-' then 0 - ParseMagnitude(u).value else ParseMagnitude(u).value)
  {
    hide SkipSpaces, ParseMagnitude;
  }

  lemma SignedParts(s: string, b: string, t: string) returns (sign: string, a: string, m: string, trail: string)
    requires ParseModifier(s).Some? && t == SkipSpaces(s) && |t| > 0
    ensures t == sign + (a + (m + trail)) && Spaces(trail) && AllDigits(m)
    ensures (sign == "+" || sign == "-") && Spaces(a) && m != ""
    ensures ParseModifier(s) == Some(if sign == "-" then 0 - Decimal(m) else Decimal(m))
  {
    hide *;
    var w := t[1..];
    var u;
    a, u := SkipParts(w);
    ModifierGoesOn(s, t, w, u);
    m, trail := MagnitudeParts(u);
    sign := [t[0]];
    HeadAndTail(t, 1);
  }

  /** The parts of an accepted modifier. */
  lemma ModifierParts(s: string) returns (b: string, sign: string, a: string, m: string, trail: string)
    requires ParseModifier(s).Some?
    ensures s == b + (sign + (a + (m + trail))) && Spaces(trail) && AllDigits(m)
    ensures if sign == "" then b == "" && a == "" && m == ""
            else (sign == "+" || sign == "-") && Spaces(b) && Spaces(a) && m != ""
    ensures ParseModifier(s) == Some(if sign == "-" then 0 - Decimal(m) else Decimal(m))
  {
    hide *;
    var t;
    b, t := SkipParts(s);
    NoDecimal("");
    if |t| == 0 {
      ModifierEnds(s, t);
      JoinEmpty(b);
      JoinEmpty(s);
      b, sign, a, m, trail := "", "", "", "", s;
    } else {
      sign, a, m, trail := SignedParts(s, b, t);
    }
  }

  lemma ShapeUnfolds(s: string, t: string, quantity: string, rest: string)
    requires ParseShape(s).Some? && t == SkipSpaces(s) && quantity == TakeDigits(t) && rest == t[|quantity|..]
    ensures ParseShape(s) == ParseDie(if |quantity| == 0 then 1 else ParseNat(quantity), rest)
  {
    hide SkipSpaces, TakeDigits, ParseNat, ParseDie;
  }

  lemma DieUnfolds(quantity: nat, s: string, t: string)
    requires ParseDie(quantity, s).Some? && t == SkipSpaces(s)
    ensures |t| > 0 && (t[0] == 'd' || t[0] == 'D') && ParseDie(quantity, s) == ParseSides(quantity, t[1..])
  {
    hide SkipSpaces, ParseSides;
  }

  lemma SidesUnfold(quantity: nat, s: string, t: string, sides: string, rest: string)
    requires ParseSides(quantity, s).Some? && t == SkipSpaces(s) && sides == TakeDigits(t) && rest == t[|sides|..]
    ensures |sides| > 0 && ParseModifier(rest).Some? &&
            ParseSides(quantity, s) == Some(Notation(quantity, ParseNat(sides), ParseModifier(rest).value))
  {
    hide SkipSpaces, TakeDigits, ParseNat, ParseModifier;
  }

  /** The parts of accepted notation. */
  lemma ReadParts(s: string) returns (p: Parts)
    requires ParseShape(s).Some?
    ensures IsNotation(p) && TextOf(p) == s && Meaning(p) == ParseShape(s).value
  {
    hide *;
    var lead, t := SkipParts(s);
    var quantity, rest := DigitParts(t);
    ShapeUnfolds(s, t, quantity, rest);
    var n := if |quantity| == 0 then 1 else ParseNat(quantity);
    var gap, die := SkipParts(rest);
    DieUnfolds(n, rest, die);
    if |quantity| == 0 { NoGap(s, t, quantity, rest, gap, die); }
    var beforeSides, u := SkipParts(die[1..]);
    var sides, tail := DigitParts(u);
    SidesUnfold(n, die[1..], u, sides, tail);
    var b, sign, a, m, trail := ModifierParts(tail);
    p := Parts(lead, quantity, gap, die[0], beforeSides, sides, b, sign, a, m, trail);
    assert die == [die[0]] + die[1..];
    PartsFit(p, n);
  }

  /** Without a quantity nothing is left to skip before the `d`. */
  lemma NoGap(s: string, t: string, quantity: string, rest: string, gap: string, die: string)
    requires t == SkipSpaces(s) && quantity == "" && t == quantity + rest && rest == gap + die && die == SkipSpaces(rest)
    ensures gap == ""
  {
    JoinEmpty(rest);
    assert rest == t;
    if |t| > 0 { assert SkipSpaces(t) == t; }
  }

  lemma PartsFit(p: Parts, n: nat)
    requires Spaces(p.lead) && AllDigits(p.quantity) && Spaces(p.gap) && (p.quantity == "" ==> p.gap == "")
    requires (p.die == 'd' || p.die == 'D') && Spaces(p.beforeSides) && p.sides != "" && AllDigits(p.sides) && Spaces(p.trail)
    requires AllDigits(p.magnitude) && if p.sign == "" then p.beforeSign == "" && p.afterSign == "" && p.magnitude == ""
             else (p.sign == "+" || p.sign == "-") && Spaces(p.beforeSign) && Spaces(p.afterSign) && p.magnitude != ""
    requires n == if p.quantity == "" then 1 else Decimal(p.quantity)
    ensures IsNotation(p) && Meaning(p) == Notation(n, Decimal(p.sides), if p.sign == "-" then 0 - Decimal(p.magnitude) else Decimal(p.magnitude))
    ensures TextOf(p) == p.lead + (p.quantity + (p.gap + ([p.die] + (p.beforeSides + (p.sides +
                           (p.beforeSign + (p.sign + (p.afterSign + (p.magnitude + p.trail)))))))))
  {
    hide Spaces, AllDigits, Decimal;
  }

  /**
   What is accepted is exactly the notations of the grammar in range: one to a hundred dice of two to a thousand sides,
   with a modifier of at most ten thousand either way.
   */
  lemma ParseIff(s: string, n: Notation)
    ensures Parse(s) == Some(n) <==>
            Denotes(s, n) && 1 <= n.quantity <= 100 && 2 <= n.sides <= 1000 && -10_000 <= n.modifier <= 10_000
  {
    hide ParseShape, TextOf, IsNotation, Meaning;
    if ParseShape(s).Some? {
      var p := ReadParts(s);
    }
    if Denotes(s, n) {
      var p :| IsNotation(p) && TextOf(p) == s && Meaning(p) == n;
      NotationReads(p);
    }
  }

  /** For one die the quantity may be left out. */
  lemma OneDie(sides: nat)
    requires 2 <= sides <= 1000
    ensures Parse("d" + PrintNat(sides)) == Some(Notation(1, sides, 0))
  {
    var digits := PrintNat(sides);
    var p := Parts("", "", "", 'd', "", digits, "", "", "", "", "");
    ParsePrintNat(sides);
    ParseNatIsDecimal(digits);
    assert TextOf(p) == "d" + digits;
    assert Meaning(p) == Notation(1, sides, 0);
    assert Denotes("d" + digits, Notation(1, sides, 0));
    ParseIff("d" + digits, Notation(1, sides, 0));
  }

  // ----- The canonical form

  lemma {:induction false} PrintedNumber(n: nat)
    ensures Decimal(PrintNat(n)) == n && (n > 0 ==> PrintNat(n)[0] != '0')
  {
    ParsePrintNat(n);
    ParseNatIsDecimal(PrintNat(n));
    if n >= 10 { PrintedNumber(n / 10); }
  }

  /** The shortest way to write a notation: no spaces, no leading zeros, a quantity always and a modifier only if there is one. */
  ghost predicate Canonical(p: Parts, n: Notation) {
    IsNotation(p) && Meaning(p) == n &&
    p.lead == "" && p.gap == "" && p.die == 'd' && p.beforeSides == "" && p.beforeSign == "" && p.afterSign == "" && p.trail == "" &&
    p.quantity != "" && p.quantity[0] != '0' && p.sides[0] != '0' && (p.sign == "" <==> n.modifier == 0) &&
    (p.magnitude == "" || p.magnitude[0] != '0')
  }

  /** What is printed is the canonical form, and means the notation. */
  lemma PrintIsCanonical(n: Notation)
    requires n.quantity > 0 && n.sides > 0
    ensures exists p :: Canonical(p, n) && TextOf(p) == Print(n)
  {
    hide PrintNat, Decimal, IsDigit, IsSpace;
    PrintedNumber(n.quantity);
    PrintedNumber(n.sides);
    var sign, magnitude := "", "";
    if n.modifier != 0 {
      var m := if n.modifier > 0 then n.modifier else -n.modifier;
      PrintedNumber(m);
      sign, magnitude := if n.modifier > 0 then "+" else "-", PrintNat(m);
      assert ModifierText(n.modifier) == sign + magnitude;
    } else {
      NoDecimal("");
      assert ModifierText(n.modifier) == "";
    }
    var p := Parts("", PrintNat(n.quantity), "", 'd', "", PrintNat(n.sides), "", sign, "", magnitude, "");
    assert Canonical(p, n);
    assert TextOf(p) == PrintNat(n.quantity) + "d" + PrintNat(n.sides) + (sign + magnitude);
  }
}
