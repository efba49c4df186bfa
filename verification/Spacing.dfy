/** White space around a text, by its characters. */
module Spacing {
  import opened Sequences
  import opened Text

  ghost predicate Spaces(s: string) { forall i | 0 <= i < |s| :: IsSpace(s[i]) }

  lemma {:induction false} SkipSpacesAppend(a: string, t: string)
    requires Spaces(a) && (t == "" || !IsSpace(t[0]))
    ensures SkipSpaces(a + t) == t
  {
    if a == "" {
      assert a + t == t;
    } else {
      JoinHead(a, t);
      SkipSpacesAppend(a[1..], t);
    }
  }

  lemma {:induction false} SkippedAreSpaces(s: string)
    ensures var lead := s[..|s| - |SkipSpaces(s)|]; Spaces(lead) && s == lead + SkipSpaces(s)
  {
    hide IsSpace, Spaces;
    HeadAndTail(s, |s| - |SkipSpaces(s)|);
    if |s| > 0 && IsSpace(s[0]) {
      SkippedAreSpaces(s[1..]);
      OneMoreSpace(s, |s| - |SkipSpaces(s)|);
    } else {
      NoSpaces(s[..0]);
    }
  }

  lemma OneMoreSpace(s: string, n: nat)
    requires 0 < n <= |s| && IsSpace(s[0]) && Spaces(s[1..][..n - 1])
    ensures Spaces(s[..n])
  {
    hide IsSpace;
    forall i | 0 <= i < n
      ensures IsSpace(s[i])
    {
      if i > 0 { assert s[i] == s[1..][..n - 1][i - 1]; }
    }
  }

  lemma NoSpaces(s: string)
    requires s == ""
    ensures Spaces(s)
  {
  }

  lemma {:induction false} DropSpacesAppend(t: string, b: string)
    requires Spaces(b) && (t == "" || !IsSpace(t[|t| - 1]))
    ensures DropTrailingSpaces(t + b) == t
    decreases |b|
  {
    if b == "" {
      assert t + b == t;
    } else {
      assert (t + b)[..|t + b| - 1] == t + b[..|b| - 1] && (t + b)[|t + b| - 1] == b[|b| - 1];
      DropSpacesAppend(t, b[..|b| - 1]);
    }
  }

  lemma {:induction false} DroppedAreSpaces(s: string)
    ensures s == DropTrailingSpaces(s) + s[|DropTrailingSpaces(s)|..] && Spaces(s[|DropTrailingSpaces(s)|..])
    decreases |s|
  {
    if |s| > 0 && IsSpace(s[|s| - 1]) {
      var front := s[..|s| - 1];
      DroppedAreSpaces(front);
      var n := |DropTrailingSpaces(front)|;
      assert s[n..] == front[n..] + [s[|s| - 1]];
    }
  }

  /** `t` is what is left of `s` without the white space at both ends. */
  ghost predicate IsTrimmed(s: string, t: string) {
    (t == "" || (!IsSpace(t[0]) && !IsSpace(t[|t| - 1]))) &&
    exists a, b :: Spaces(a) && Spaces(b) && a + (t + b) == s
  }

  lemma TrimIff(s: string, t: string)
    requires t != ""
    ensures Trim(s) == t <==> IsTrimmed(s, t)
  {
    hide IsSpace, Spaces, SkipSpaces, DropTrailingSpaces;
    if Trim(s) == t {
      SkippedAreSpaces(s);
      var u := SkipSpaces(s);
      DroppedAreSpaces(u);
      TrimTrims(s);
      var a, b := s[..|s| - |u|], u[|t|..];
      assert a + (t + b) == s && Spaces(a) && Spaces(b);
    }
    if IsTrimmed(s, t) {
      var a, b :| Spaces(a) && Spaces(b) && a + (t + b) == s;
      assert (t + b)[0] == t[0];
      SkipSpacesAppend(a, t + b);
      DropSpacesAppend(t, b);
    }
  }
}
