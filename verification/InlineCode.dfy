/** Removing code spans from a line (compare section 6.1 of CommonMark 0.31.2) and what is left of its backtick runs. */
module InlineCode {
  import opened Options
  import opened Text

  /** The end of the first maximal run of exactly `n` backticks. */
  function FindRun(s: string, n: nat): (r: Option<nat>)
    ensures r.Some? ==> n <= r.value <= |s|
  {
    if s == "" then None
    else
      var k := RunLength(s);
      if k > 0 && k == n then Some(k)
      else
        var step := if k > 0 then k else 1;
        match FindRun(s[step..], n)
        case None => None
        case Some(end) => Some(step + end)
  }

  function Strip(s: string): string
    decreases |s|
  {
    if s == "" then ""
    else if s[0] != '`' then [s[0]] + Strip(s[1..])
    else
      var n := RunLength(s);
      match FindRun(s[n..], n)
      case None => s[..n] + Strip(s[n..])
      case Some(end) => " " + Strip(s[n + end..])
  }

  /** The lengths of the maximal backtick runs, in order. */
  function Runs(s: string): (r: seq<nat>)
    ensures forall n | n in r :: n > 0
    decreases |s|
  {
    if s == "" then [] else if s[0] != '`' then Runs(s[1..]) else [RunLength(s)] + Runs(s[RunLength(s)..])
  }

  ghost predicate Distinct(runs: seq<nat>) {
    forall i, j | 0 <= i < j < |runs| :: runs[i] != runs[j]
  }

  lemma {:induction false} FindRunIff(s: string, n: nat)
    requires n > 0
    ensures FindRun(s, n).Some? <==> n in Runs(s)
    decreases |s|
  {
    if s != "" {
      var k := RunLength(s);
      FindRunIff(s[if k > 0 then k else 1..], n);
    }
  }

  /** What stays after a closing run is part of the runs that were there. */
  lemma {:induction false} FindRunRest(s: string, n: nat)
    requires n > 0 && FindRun(s, n).Some?
    ensures forall k | k in Runs(s[FindRun(s, n).value..]) :: k in Runs(s)
    decreases |s|
  {
    var k := RunLength(s);
    if k != n {
      var step := if k > 0 then k else 1;
      FindRunRest(s[step..], n);
      assert s[step..][FindRun(s[step..], n).value..] == s[FindRun(s, n).value..];
    }
  }

  lemma {:induction false} RunLengthJoin(n: nat, s: string, t: string)
    requires n <= |s| && (forall i | 0 <= i < n :: s[i] == '`') && (t == "" || t[0] != '`')
    ensures RunLength(s[..n] + t) == n
  {
    if n == 0 {
      assert s[..0] + t == t;
    } else {
      RunLengthJoin(n - 1, s[1..], t);
      assert (s[..n] + t)[1..] == s[1..][..n - 1] + t;
    }
  }

  /** A line that does not begin with a backtick does not begin with one afterwards. */
  lemma StripStart(s: string)
    requires s == "" || s[0] != '`'
    ensures Strip(s) == "" || Strip(s)[0] != '`'
  {
  }

  /** The runs that are left are runs of the line, pairwise different in length. */
  lemma {:induction false} StripRuns(s: string)
    ensures (forall k | k in Runs(Strip(s)) :: k in Runs(s)) && Distinct(Runs(Strip(s)))
    decreases |s|
  {
    hide FindRun, RunLength;
    if s == "" {
    } else if s[0] != '`' {
      StripRuns(s[1..]);
      assert Strip(s)[1..] == Strip(s[1..]);
    } else {
      var n := RunLength(s);
      assert n > 0;
      FindRunIff(s[n..], n);
      match FindRun(s[n..], n)
      case None =>
        StripRuns(s[n..]);
        StripStart(s[n..]);
        var rest := Strip(s[n..]);
        RunLengthJoin(n, s, rest);
        assert Strip(s)[0] == '`' && Strip(s)[n..] == rest;
        assert Runs(Strip(s)) == [n] + Runs(rest);
      case Some(end) =>
        StripRuns(s[n + end..]);
        FindRunRest(s[n..], n);
        assert s[n..][end..] == s[n + end..];
        assert Strip(s)[1..] == Strip(s[n + end..]);
    }
  }

  /** A line whose runs all differ in length has no code span. */
  lemma {:induction false} DistinctUnchanged(s: string)
    requires Distinct(Runs(s))
    ensures Strip(s) == s
    decreases |s|
  {
    hide FindRun, RunLength;
    if s == "" {
    } else if s[0] != '`' {
      DistinctUnchanged(s[1..]);
    } else {
      var n := RunLength(s);
      assert n > 0;
      var rest := Runs(s[n..]);
      assert Runs(s) == [n] + rest;
      assert Distinct(rest) && n !in rest by {
        assert forall i | 0 <= i < |rest| :: Runs(s)[i + 1] == rest[i] && Runs(s)[0] != Runs(s)[i + 1];
      }
      FindRunIff(s[n..], n);
      DistinctUnchanged(s[n..]);
    }
  }

  /** A line is returned unchanged exactly when no backtick run is followed by one of equal length. */
  lemma UnchangedIff(s: string)
    ensures Strip(s) == s <==> Distinct(Runs(s))
  {
    StripRuns(s);
    if Distinct(Runs(s)) { DistinctUnchanged(s); }
  }

  lemma StripIdempotent(s: string)
    ensures Strip(Strip(s)) == Strip(s)
  {
    StripRuns(s);
    DistinctUnchanged(Strip(s));
  }

  // ----- The loops

  /** The first backtick from `from` on, or the length of the line. */
  method IndexOfTick(line: string, from: nat) returns (i: nat)
    requires from <= |line|
    ensures from <= i <= |line| && (i < |line| ==> line[i] == '`') && forall k | from <= k < i :: line[k] != '`'
  {
    i := from;
    while i < |line| && line[i] != '`'
      invariant from <= i <= |line| && forall k | from <= k < i :: line[k] != '`'
    {
      i := i + 1;
    }
  }

  method RunEnd(line: string, from: nat) returns (i: nat)
    requires from < |line| && line[from] == '`'
    ensures from < i <= |line| && i - from == RunLength(line[from..])
  {
    i := from + 1;
    assert line[from..][1..] == line[from + 1..];
    while i < |line| && line[i] == '`'
      invariant from < i <= |line| && RunLength(line[from..]) == i - from + RunLength(line[i..])
    {
      assert line[i..][1..] == line[i + 1..];
      i := i + 1;
    }
  }

  lemma {:induction false} SkipPlain(line: string, from: nat, to: nat, n: nat)
    requires from <= to <= |line| && (forall k | from <= k < to :: line[k] != '`') && n > 0
    ensures FindRun(line[from..], n) ==
            (match FindRun(line[to..], n) case None => None case Some(end) => Some(to - from + end))
    decreases |line| - from
  {
    if from < to {
      assert line[from..][1..] == line[from + 1..];
      SkipPlain(line, from + 1, to, n);
    }
  }

  /** What is found from `to` on is found from `from` on. */
  ghost predicate FoundBeyond(line: string, from: nat, to: nat, n: nat)
    requires from <= to <= |line|
  {
    FindRun(line[from..], n) == (match FindRun(line[to..], n) case None => None case Some(end) => Some(to - from + end))
  }

  lemma RunStep(line: string, from: nat, to: nat, n: nat)
    requires from < to <= |line| && line[from] == '`' && to - from == RunLength(line[from..])
    ensures if to - from == n then FindRun(line[from..], n) == Some(n) else FoundBeyond(line, from, to, n)
  {
    hide RunLength;
    assert line[from..][to - from..] == line[to..];
  }

  lemma NothingFound(line: string, n: nat)
    ensures FindRun(line[|line|..], n).None?
  {
  }

  /** The end of the closing run for an opening run of `n` backticks that ends at `from`. */
  method FindClosing(line: string, from: nat, n: nat) returns (end: Option<nat>)
    requires from <= |line| && n > 0
    ensures match FindRun(line[from..], n)
            case None => end.None?
            case Some(k) => end == Some(from + k)
  {
    hide RunLength, FindRun;
    NothingFound(line, n);
    var cursor := from;
    while cursor < |line|
      invariant from <= cursor <= |line| && FoundBeyond(line, from, cursor, n)
    {
      var nextRun := IndexOfTick(line, cursor);
      SkipPlain(line, cursor, nextRun, n);
      if nextRun == |line| {
        return None;
      }
      var runEnd := RunEnd(line, nextRun);
      RunStep(line, nextRun, runEnd, n);
      if runEnd - nextRun == n {
        return Some(runEnd);
      }
      cursor := runEnd;
    }
    return None;
  }

  lemma StripPlain(line: string, index: nat)
    requires index < |line| && line[index] != '`'
    ensures Strip(line[index..]) == [line[index]] + Strip(line[index + 1..])
  {
    assert line[index..][1..] == line[index + 1..];
  }

  lemma StripTicks(s: string, n: nat)
    requires s != "" && s[0] == '`' && n == RunLength(s)
    ensures match FindRun(s[n..], n)
            case None => Strip(s) == s[..n] + Strip(s[n..])
            case Some(end) => Strip(s) == " " + Strip(s[n + end..])
  {
    hide FindRun, RunLength;
  }

  lemma StripRun(line: string, start: nat, index: nat)
    requires start < index <= |line| && line[start] == '`' && index - start == RunLength(line[start..])
    ensures match FindRun(line[index..], index - start)
            case None => Strip(line[start..]) == line[start..index] + Strip(line[index..])
            case Some(end) => Strip(line[start..]) == " " + Strip(line[index + end..])
  {
    hide FindRun, RunLength, Strip;
    var s, n := line[start..], index - start;
    StripTicks(s, n);
    assert s[n..] == line[index..] && s[..n] == line[start..index];
    if FindRun(s[n..], n).Some? { assert s[n + FindRun(s[n..], n).value..] == line[index + FindRun(s[n..], n).value..]; }
  }

  method StripInlineCode(line: string) returns (result: string)
    ensures result == Strip(line)
  {
    hide RunLength, FindRun, Strip;
    result := "";
    var index := 0;
    assert line[0..] == line;
    while index < |line|
      invariant index <= |line| && Strip(line) == result + Strip(line[index..])
    {
      if line[index] != '`' {
        StripPlain(line, index);
        result := result + [line[index]];
        index := index + 1;
        continue;
      }
      var openingStart := index;
      index := RunEnd(line, openingStart);
      StripRun(line, openingStart, index);
      var openingLength := index - openingStart;
      var closingEnd := FindClosing(line, index, openingLength);
      if closingEnd.None? {
        result := result + line[openingStart..index];
        continue;
      }
      result := result + " ";
      index := closingEnd.value;
    }
    assert line[index..] == "";
    StripEmpty();
  }

  lemma StripEmpty()
    ensures Strip("") == ""
  {
  }
}
