/** Strings as the services see them: white space, lines, decimal numbers. */
module Text {
  /** White space in the sense of `\s` and `trim`. */
  predicate IsSpace(c: char) {
    c == ' ' || '\t' <= c <= '\r' || (c >= '\U{00A0}' && IsWideSpace(c))
  }

  predicate IsWideSpace(c: char) {
    c == '\U{00A0}' || c == '\U{1680}' || '\U{2000}' <= c <= '\U{200A}' || '\U{2028}' <= c <= '\U{2029}' ||
    c == '\U{202F}' || c == '\U{205F}' || c == '\U{3000}' || c == '\U{FEFF}'
  }

  function SkipSpaces(s: string): (r: string)
    ensures |r| <= |s|
    ensures |r| > 0 ==> !IsSpace(r[0])
  {
    if |s| > 0 && IsSpace(s[0]) then SkipSpaces(s[1..]) else s
  }

  function DropTrailingSpaces(s: string): (r: string)
    ensures |r| <= |s| && r == s[..|r|]
    ensures |r| > 0 ==> !IsSpace(r[|r| - 1])
  {
    if |s| > 0 && IsSpace(s[|s| - 1]) then DropTrailingSpaces(s[..|s| - 1]) else s
  }

  function Trim(s: string): string {
    DropTrailingSpaces(SkipSpaces(s))
  }

  predicate Trimmed(s: string) {
    s == "" || (!IsSpace(s[0]) && !IsSpace(s[|s| - 1]))
  }

  lemma TrimTrims(s: string)
    ensures Trimmed(Trim(s))
    ensures Trimmed(s) ==> Trim(s) == s
  {
    var t := SkipSpaces(s);
    if Trim(s) != "" { assert Trim(s)[0] == t[0]; }
  }

  // ----- Lines

  /** `split('\n')`. */
  function Split(s: string): (lines: seq<string>)
    ensures lines != [] && forall l | l in lines :: '\n' !in l
  {
    if s == "" then [""]
    else
      var rest := Split(s[1..]);
      if s[0] == '\n' then [""] + rest else [[s[0]] + rest[0]] + rest[1..]
  }

  /** `join('\n')`. */
  function Join(lines: seq<string>): string
    requires lines != []
  {
    if |lines| == 1 then lines[0] else lines[0] + "\n" + Join(lines[1..])
  }

  lemma {:induction false} JoinSplit(s: string)
    ensures Join(Split(s)) == s
  {
    if s != "" {
      JoinSplit(s[1..]);
      var rest := Split(s[1..]);
      assert s == [s[0]] + s[1..];
      if s[0] == '\n' {
        assert Split(s)[1..] == rest && "" + "\n" + Join(rest) == [s[0]] + Join(rest);
      } else {
        JoinFirst(s[0], rest);
      }
    }
  }

  lemma JoinFirst(c: char, lines: seq<string>)
    requires lines != []
    ensures Join([[c] + lines[0]] + lines[1..]) == [c] + Join(lines)
  {
    var first := [[c] + lines[0]] + lines[1..];
    if |lines| > 1 {
      assert first[1..] == lines[1..];
      assert ([c] + lines[0]) + "\n" + Join(lines[1..]) == [c] + (lines[0] + "\n" + Join(lines[1..]));
    }
  }

  lemma {:induction false} SplitAppend(l: string, s: string)
    requires '\n' !in l
    ensures Split(l + s) == [l + Split(s)[0]] + Split(s)[1..]
    decreases |l|
  {
    if l == "" {
      assert l + s == s && l + Split(s)[0] == Split(s)[0];
      assert [Split(s)[0]] + Split(s)[1..] == Split(s);
    } else {
      SplitAppend(l[1..], s);
      assert (l + s)[1..] == l[1..] + s;
      assert (l + s)[0] == l[0] && l[0] in l;
      assert [l[0]] + (l[1..] + Split(s)[0]) == l + Split(s)[0];
    }
  }

  lemma {:induction false} SplitJoin(lines: seq<string>)
    requires lines != [] && forall l | l in lines :: '\n' !in l
    ensures Split(Join(lines)) == lines
  {
    if |lines| == 1 {
      SplitAppend(lines[0], "");
      assert lines[0] + "" == lines[0];
    } else {
      SplitJoin(lines[1..]);
      var s := "\n" + Join(lines[1..]);
      assert s[1..] == Join(lines[1..]);
      SplitAppend(lines[0], s);
      assert Join(lines) == lines[0] + s;
      assert lines[0] + "" == lines[0] && [lines[0]] + lines[1..] == lines;
    }
  }

  // ----- Decimal numbers

  predicate IsDigit(c: char) { '0' <= c <= '9' }

  function DigitValue(c: char): nat
    requires IsDigit(c)
  {
    c as nat - '0' as nat
  }

  function DigitChar(d: nat): char
    requires d < 10
  {
    "0123456789"[d]
  }

  predicate AllDigits(s: string) {
    forall c | c in s :: IsDigit(c)
  }

  /** The longest prefix of digits. */
  function TakeDigits(s: string): (r: string)
    ensures |r| <= |s| && r == s[..|r|] && AllDigits(r)
  {
    if |s| > 0 && IsDigit(s[0]) then [s[0]] + TakeDigits(s[1..]) else ""
  }

  function ParseNat(s: string): nat
    requires AllDigits(s)
  {
    if s == "" then 0 else 10 * ParseNat(s[..|s| - 1]) + DigitValue(s[|s| - 1])
  }

  function PrintNat(n: nat): (s: string)
    ensures s != "" && AllDigits(s)
  {
    if n < 10 then [DigitChar(n)] else PrintNat(n / 10) + [DigitChar(n % 10)]
  }

  lemma {:induction false} ParsePrintNat(n: nat)
    ensures ParseNat(PrintNat(n)) == n
  {
    if n >= 10 {
      ParsePrintNat(n / 10);
      assert PrintNat(n)[..|PrintNat(n)| - 1] == PrintNat(n / 10);
    } else {
      assert PrintNat(n)[..0] == "";
    }
  }

  /** A number below a power of ten has at most that many digits. */
  lemma PrintNatShort(n: nat)
    ensures n < 10 ==> |PrintNat(n)| == 1
    ensures n < 100 ==> |PrintNat(n)| <= 2
    ensures n < 1000 ==> |PrintNat(n)| <= 3
    ensures n < 10_000 ==> |PrintNat(n)| <= 4
    ensures n < 100_000 ==> |PrintNat(n)| <= 5
  {
    if n < 100_000 {
      assert n / 10 < 10_000 && n / 10 / 10 < 1000 && n / 10 / 10 / 10 < 100 && n / 10 / 10 / 10 / 10 < 10;
    }
  }

  lemma {:induction false} TakeDigitsAppend(d: string, s: string)
    requires AllDigits(d) && (s == "" || !IsDigit(s[0]))
    ensures TakeDigits(d + s) == d && (d + s)[|d|..] == s
  {
    if d == "" {
      assert d + s == s;
    } else {
      assert (d + s)[0] == d[0] && d[0] in d;
      assert (d + s)[1..] == d[1..] + s;
      TakeDigitsAppend(d[1..], s);
    }
  }

  // ----- Case

  function Lower(c: char): char {
    if 'A' <= c <= 'Z' then (c as int + 32) as char else c
  }

  function LowerAll(s: string): (r: string)
    ensures |r| == |s| && forall i | 0 <= i < |s| :: r[i] == Lower(s[i])
  {
    if s == "" then "" else [Lower(s[0])] + LowerAll(s[1..])
  }

  // ----- Backticks

  /** How many backticks `s` starts with. */
  function RunLength(s: string): (n: nat)
    ensures n <= |s| && (n < |s| ==> s[n] != '`')
    ensures forall i | 0 <= i < n :: s[i] == '`'
  {
    if s != "" && s[0] == '`' then 1 + RunLength(s[1..]) else 0
  }
}
