/** Dice notation: `NdM`, `NdM+K` and `NdM-K`, as typed and in canonical form. */
module DiceNotation {
  import opened Options
  import opened Text

  datatype Notation = Notation(quantity: nat, sides: nat, modifier: int)

  predicate InRange(n: Notation) {
    1 <= n.quantity <= 100 && 2 <= n.sides <= 1000 && -10000 <= n.modifier <= 10000
  }

  /** A number up to the end of the expression. */
  function ParseMagnitude(s: string): Option<nat> {
    var digits := TakeDigits(s);
    if |digits| == 0 || |SkipSpaces(s[|digits|..])| > 0 then None else Some(ParseNat(digits))
  }

  /** The optional modifier and the end of the expression; `s` follows the digits of the sides. */
  function ParseModifier(s: string): Option<int> {
    var t := SkipSpaces(s);
    if |t| == 0 then Some(0)
    else if t[0] != '+' && t[0] != '-' then None
    else
      match ParseMagnitude(SkipSpaces(t[1..]))
      case None => None
      case Some(magnitude) => Some(if t[0] == '-' then 0 - magnitude else magnitude)
  }

  /** Everything after the `d`. */
  function ParseSides(quantity: nat, s: string): Option<Notation> {
    var t := SkipSpaces(s);
    var digits := TakeDigits(t);
    if |digits| == 0 then None
    else
      match ParseModifier(t[|digits|..])
      case None => None
      case Some(modifier) => Some(Notation(quantity, ParseNat(digits), modifier))
  }

  /** Everything after the optional quantity. */
  function ParseDie(quantity: nat, s: string): Option<Notation> {
    var t := SkipSpaces(s);
    if |t| == 0 || (t[0] != 'd' && t[0] != 'D') then None else ParseSides(quantity, t[1..])
  }

  function ParseShape(s: string): Option<Notation> {
    var t := SkipSpaces(s);
    var digits := TakeDigits(t);
    ParseDie(if |digits| == 0 then 1 else ParseNat(digits), t[|digits|..])
  }

  function Parse(s: string): (r: Option<Notation>)
    ensures r.Some? ==> InRange(r.value)
  {
    var r := ParseShape(s);
    if r.Some? && InRange(r.value) then r else None
  }

  function ModifierText(m: int): string {
    if m > 0 then "+" + PrintNat(m) else if m < 0 then "-" + PrintNat(-m) else ""
  }

  function Print(n: Notation): string {
    PrintNat(n.quantity) + "d" + PrintNat(n.sides) + ModifierText(n.modifier)
  }

  lemma SkipNoSpaces(s: string)
    requires s == "" || !IsSpace(s[0])
    ensures SkipSpaces(s) == s
  {
  }

  lemma DigitIsNoSpace(c: char)
    requires IsDigit(c) || c == 'd' || c == '+' || c == '-'
    ensures !IsSpace(c)
  {
  }

  lemma SignIsNoDigit()
    ensures !IsDigit('+') && !IsDigit('-') && !IsDigit('d')
  {
  }

  lemma ParseMagnitudePrint(n: nat)
    ensures ParseMagnitude(PrintNat(n)) == Some(n)
  {
    hide PrintNat, ParseNat, TakeDigits, SkipSpaces, IsDigit;
    var digits := PrintNat(n);
    TakeDigitsAppend(digits, "");
    assert digits + "" == digits;
    assert SkipSpaces("") == "";
    ParsePrintNat(n);
  }

  lemma ParseSigned(t: string, n: nat)
    requires |t| > 1 && (t[0] == '+' || t[0] == '-') && !IsSpace(t[1]) && ParseMagnitude(t[1..]) == Some(n)
    ensures ParseModifier(t) == Some(if t[0] == '-' then 0 - n else n)
  {
    hide *;
    DigitIsNoSpace(t[0]);
    SkipNoSpaces(t);
    SkipNoSpaces(t[1..]);
    ParseSign(t, n);
  }

  lemma ParseSign(t: string, n: nat)
    requires t != "" && (t[0] == '+' || t[0] == '-') && SkipSpaces(t) == t
    requires ParseMagnitude(SkipSpaces(t[1..])) == Some(n)
    ensures ParseModifier(t) == Some(if t[0] == '-' then 0 - n else n)
  {
    hide ParseMagnitude, SkipSpaces;
  }

  lemma ParseModifierText(m: int)
    ensures ParseModifier(ModifierText(m)) == Some(m)
    ensures ModifierText(m) == "" || !IsDigit(ModifierText(m)[0])
  {
    hide PrintNat, ParseMagnitude, ParseModifier, IsSpace;
    if m != 0 {
      var magnitude := if m > 0 then m else -m;
      var digits := PrintNat(magnitude);
      var t := ModifierText(m);
      assert t[1..] == digits && t[1] == digits[0] && digits[0] in digits;
      DigitIsNoSpace(t[1]);
      ParseMagnitudePrint(magnitude);
      ParseSigned(t, magnitude);
    } else {
      assert ParseModifier("") == Some(0) by { ParseNoModifier(); }
    }
  }

  lemma ParseNoModifier()
    ensures ParseModifier("") == Some(0)
  {
  }

  lemma ParseSidesPrint(n: Notation)
    ensures ParseSides(n.quantity, PrintNat(n.sides) + ModifierText(n.modifier)) == Some(n)
  {
    hide PrintNat, ParseNat, TakeDigits, SkipSpaces, IsSpace, IsDigit, ModifierText, ParseModifier;
    var digits := PrintNat(n.sides);
    assert digits[0] in digits && IsDigit(digits[0]);
    var s := digits + ModifierText(n.modifier);
    ParseModifierText(n.modifier);
    assert s[0] == digits[0];
    DigitIsNoSpace(digits[0]);
    SkipNoSpaces(s);
    TakeDigitsAppend(digits, ModifierText(n.modifier));
    ParsePrintNat(n.sides);
  }

  /** Printing and parsing are inverse on every notation in range. */
  lemma ParsePrint(n: Notation)
    requires InRange(n)
    ensures Parse(Print(n)) == Some(n)
  {
    hide PrintNat, ParseNat, TakeDigits, SkipSpaces, IsSpace, IsDigit, ModifierText, ParseSides;
    SignIsNoDigit();
    var digits := PrintNat(n.quantity);
    assert digits[0] in digits && IsDigit(digits[0]);
    var rest := "d" + PrintNat(n.sides) + ModifierText(n.modifier);
    var s := digits + rest;
    assert Print(n) == s;
    assert s[0] == digits[0];
    DigitIsNoSpace(digits[0]);
    SkipNoSpaces(s);
    TakeDigitsAppend(digits, rest);
    ParsePrintNat(n.quantity);
    DigitIsNoSpace(rest[0]);
    SkipNoSpaces(rest);
    assert rest[1..] == PrintNat(n.sides) + ModifierText(n.modifier);
    ParseSidesPrint(n);
  }

  /** What is accepted is one notation, whose canonical form means the same and is accepted as itself. */
  lemma PrintParse(s: string)
    requires Parse(s).Some?
    ensures Parse(Print(Parse(s).value)) == Parse(s)
  {
    ParsePrint(Parse(s).value);
  }

  /** The canonical form fits a marker: 1 to 32 characters, none of them special to the scanner. */
  lemma PrintFits(n: Notation)
    requires InRange(n)
    ensures 1 <= |Print(n)| <= 32
    ensures forall c | c in Print(n) :: IsDigit(c) || c == 'd' || c == '+' || c == '-'
  {
    PrintNatShort(n.quantity);
    PrintNatShort(n.sides);
    PrintNatShort(if n.modifier < 0 then -n.modifier else n.modifier);
  }
}
