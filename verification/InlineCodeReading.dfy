/** Removing code spans, said on the characters of the line and of the result. */
module InlineCodeReading {
  import opened Options
  import opened Sequences
  import opened Text
  import opened InlineCode

  /** A run of exactly `n` backticks at `i`: no backtick before it and none after it. */
  ghost predicate RunAt(s: string, i: nat, n: nat) {
    n > 0 && i + n <= |s| && (forall j: nat | i <= j < i + n :: s[j] == '`') &&
    (i > 0 ==> s[i - 1] != '`') && (i + n < |s| ==> s[i + n] != '`')
  }

  /** The closing run of a span that starts with `n` backticks: the first later run of the same length. */
  ghost predicate ClosesAt(s: string, n: nat, i: nat) {
    i > 0 && RunAt(s, i, n) && forall j: nat | 0 < j < i :: !RunAt(s, j, n)
  }

  /** A run is closed by a later one of its length. */
  ghost predicate Closed(s: string, n: nat) { exists i: nat :: ClosesAt(s, n, i) }

  /**
   `r` is `s` without its code spans: every character outside backtick runs is kept, a span from a run to the first later
   run of the same length becomes one space, and a run that none closes is kept as it is.
   */
  ghost predicate Stripped(s: string, r: string)
    decreases |s|
  {
    if s == "" then r == ""
    else if s[0] != '`' then r != "" && r[0] == s[0] && Stripped(s[1..], r[1..])
    else
      exists n: nat ::
        RunAt(s, 0, n) &&
        if Closed(s, n) then exists i: nat :: ClosesAt(s, n, i) && r != "" && r[0] == ' ' && Stripped(s[i + n..], r[1..])
        else n <= |r| && r[..n] == s[..n] && Stripped(s[n..], r[n..])
  }

  lemma RunShift(s: string, c: nat, j: nat, n: nat)
    requires c <= |s| && (c == |s| || s[c] != '`' || c == 0 || s[c - 1] != '`')
    ensures RunAt(s[c..], j, n) <==> RunAt(s, c + j, n)
  {
    if RunAt(s[c..], j, n) {
      assert s[c..][j] == s[c + j];
      assert forall i: nat | c + j <= i < c + j + n :: s[i] == s[c..][i - c];
    }
    if RunAt(s, c + j, n) {
      assert s[c..][j] == s[c + j];
    }
  }

  lemma FirstRun(s: string, n: nat)
    ensures RunAt(s, 0, n) <==> n > 0 && RunLength(s) == n
  {
    hide RunLength;
  }

  /** Inside a run, and where no run begins, none is found. */
  lemma NoRunBefore(s: string, j: nat, n: nat)
    requires s != "" && RunLength(s) != n && j < (if RunLength(s) > 0 then RunLength(s) else 1)
    ensures !RunAt(s, j, n)
  {
    hide RunLength;
    if j == 0 { FirstRun(s, n); }
  }

  lemma {:induction false} FindRunIs(s: string, n: nat, i: nat)
    requires n > 0
    ensures FindRun(s, n) == Some(i + n) <==> RunAt(s, i, n) && forall j: nat | j < i :: !RunAt(s, j, n)
    decreases |s|
  {
    hide RunLength, RunAt;
    FirstRun(s, n);
    if s == "" {
      NoRun(s, i, n);
    } else if RunLength(s) != n {
      var step := if RunLength(s) > 0 then RunLength(s) else 1;
      if i < step {
        NoRunBefore(s, i, n);
      } else {
        FindRunIs(s[step..], n, i - step);
        StepShift(s, step, i - step, n);
        if forall j: nat | j < i :: !RunAt(s, j, n) {
          forall j: nat | j < i - step
            ensures !RunAt(s[step..], j, n)
          {
            StepShift(s, step, j, n);
          }
        }
        if forall j: nat | j < i - step :: !RunAt(s[step..], j, n) {
          forall j: nat | j < i
            ensures !RunAt(s, j, n)
          {
            if j < step { NoRunBefore(s, j, n); } else { StepShift(s, step, j - step, n); }
          }
        }
      }
    }
  }

  lemma StepShift(s: string, step: nat, j: nat, n: nat)
    requires s != "" && step == if RunLength(s) > 0 then RunLength(s) else 1
    ensures RunAt(s[step..], j, n) <==> RunAt(s, step + j, n)
  {
    hide RunLength;
    if RunLength(s) == 0 { NoTick(s); }
    RunShift(s, step, j, n);
  }

  lemma NoTick(s: string)
    requires s != "" && RunLength(s) == 0
    ensures s[0] != '`'
  {
    hide RunLength;
  }

  lemma NoRun(s: string, i: nat, n: nat)
    requires s == ""
    ensures !RunAt(s, i, n)
  {
  }

  lemma OpeningRun(s: string, n: nat)
    requires RunAt(s, 0, n)
    ensures 0 < n <= |s| && (n == |s| || s[n] != '`') && RunLength(s) == n
  {
    hide RunLength;
  }

  lemma InsideRun(s: string, n: nat, j: nat)
    requires RunAt(s, 0, n) && 0 < j < n
    ensures !RunAt(s, j, n)
  {
  }

  /** The closing run that is found is the first of its length after the opening run. */
  lemma ClosingIs(s: string, n: nat, i: nat)
    requires RunAt(s, 0, n) && i >= n
    ensures FindRun(s[n..], n) == Some(i) <==> ClosesAt(s, n, i)
  {
    hide RunLength, RunAt, FindRun;
    OpeningRun(s, n);
    FindRunIs(s[n..], n, i - n);
    RunShift(s, n, i - n, n);
    if ClosesAt(s, n, i) {
      forall j: nat | j < i - n
        ensures !RunAt(s[n..], j, n)
      {
        RunShift(s, n, j, n);
      }
    }
    if forall j: nat | j < i - n :: !RunAt(s[n..], j, n) {
      forall j: nat | 0 < j < i
        ensures !RunAt(s, j, n)
      {
        if j < n { InsideRun(s, n, j); } else { RunShift(s, n, j - n, n); }
      }
    }
  }

  lemma ClosedIff(s: string, n: nat)
    requires RunAt(s, 0, n)
    ensures Closed(s, n) <==> FindRun(s[n..], n).Some?
    ensures Closed(s, n) ==> ClosesAt(s, n, FindRun(s[n..], n).value)
  {
    hide RunAt, FindRun;
    OpeningRun(s, n);
    if FindRun(s[n..], n).Some? { ClosingIs(s, n, FindRun(s[n..], n).value); }
    if Closed(s, n) {
      var i: nat :| ClosesAt(s, n, i);
      assert i >= n by { if i < n { InsideRun(s, n, i); } }
      ClosingIs(s, n, i);
    }
  }

  lemma OneClosing(s: string, n: nat, i: nat, j: nat)
    requires ClosesAt(s, n, i) && ClosesAt(s, n, j)
    ensures i == j
  {
    hide RunAt;
  }

  lemma OneRun(s: string, n: nat, m: nat)
    requires RunAt(s, 0, n) && RunAt(s, 0, m)
    ensures n == m
  {
    hide RunAt;
    FirstRun(s, n);
    FirstRun(s, m);
  }

  lemma HasRun(s: string)
    requires s != "" && s[0] == '`'
    ensures RunAt(s, 0, RunLength(s))
  {
    FirstRun(s, RunLength(s));
  }

  lemma PlainUnfolds(s: string)
    requires s != "" && s[0] != '`'
    ensures Strip(s) == [s[0]] + Strip(s[1..])
  {
  }

  lemma PlainIff(s: string, r: string)
    requires s != "" && s[0] != '`'
    ensures Strip(s) == r <==> r != "" && r[0] == s[0] && Strip(s[1..]) == r[1..]
  {
    hide Strip;
    PlainUnfolds(s);
    JoinParts([s[0]], Strip(s[1..]));
    if r != "" { HeadAndTail(r, 1); }
  }

  lemma SpanIff(s: string, n: nat, i: nat, r: string)
    requires RunAt(s, 0, n) && FindRun(s[n..], n) == Some(i)
    ensures Strip(s) == r <==> r != "" && r[0] == ' ' && Strip(s[i + n..]) == r[1..]
  {
    hide RunAt, FindRun, Strip, RunLength;
    OpeningRun(s, n);
    TickFirst(s, n);
    StripTicks(s, n);
    if r != "" && r[0] == ' ' { assert r == " " + r[1..]; }
  }

  lemma RunIff(s: string, n: nat, r: string)
    requires RunAt(s, 0, n) && FindRun(s[n..], n).None?
    ensures Strip(s) == r <==> n <= |r| && r[..n] == s[..n] && Strip(s[n..]) == r[n..]
  {
    hide RunAt, FindRun, Strip, RunLength;
    OpeningRun(s, n);
    TickFirst(s, n);
    StripTicks(s, n);
    if n <= |r| && r[..n] == s[..n] { HeadAndTail(r, n); }
    JoinParts(s[..n], Strip(s[n..]));
  }

  lemma TickFirst(s: string, n: nat)
    requires RunAt(s, 0, n)
    ensures s != "" && s[0] == '`'
  {
  }

  /** The result is exactly the line without its code spans. */
  lemma {:induction false} StripIff(s: string, r: string)
    ensures Strip(s) == r <==> Stripped(s, r)
    decreases |s|
  {
    hide Strip, RunAt, FindRun, Closed, ClosesAt, RunLength;
    if s == "" {
      StripEmpty();
    } else if s[0] != '`' {
      PlainIff(s, r);
      if r != "" { StripIff(s[1..], r[1..]); }
    } else {
      var n := RunLength(s);
      HasRun(s);
      OpeningRun(s, n);
      ClosedIff(s, n);
      forall m: nat | RunAt(s, 0, m)
        ensures m == n
      {
        OneRun(s, n, m);
      }
      if Closed(s, n) {
        var i := FindRun(s[n..], n).value;
        SpanIff(s, n, i, r);
        forall j: nat | ClosesAt(s, n, j)
          ensures j == i
        {
          OneClosing(s, n, i, j);
        }
        if r != "" { StripIff(s[i + n..], r[1..]); }
      } else {
        RunIff(s, n, r);
        if n <= |r| { StripIff(s[n..], r[n..]); }
      }
    }
  }
}
