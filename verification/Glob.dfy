/** Wildcard matching of error types: '*' is any run of bytes, '?' any one byte, everything
    else itself. A two-pointer loop that remembers only the last star it passed. */
module Glob {

  predicate Matches(p: string, s: string)
    decreases |p|, |s|
  {
    if p == "" then s == ""
    else if p[0] == '*' then Matches(p[1..], s) || (s != "" && Matches(p, s[1..]))
    else s != "" && (p[0] == '?' || p[0] == s[0]) && Matches(p[1..], s[1..])
  }

  /** From pattern position i and subject position j on. */
  predicate MatchesAt(p: string, s: string, i: nat, j: nat)
    requires i <= |p| && j <= |s|
  {
    Matches(p[i..], s[j..])
  }

  lemma Unfold(p: string, s: string, i: nat, j: nat)
    requires i <= |p| && j <= |s|
    ensures i == |p| ==> (MatchesAt(p, s, i, j) <==> j == |s|)
    ensures i < |p| && p[i] == '*' ==>
              (MatchesAt(p, s, i, j) <==> MatchesAt(p, s, i + 1, j) || (j < |s| && MatchesAt(p, s, i, j + 1)))
    ensures i < |p| && p[i] != '*' ==>
              (MatchesAt(p, s, i, j) <==> j < |s| && (p[i] == '?' || p[i] == s[j]) && MatchesAt(p, s, i + 1, j + 1))
  {
    if i < |p| {
      assert p[i..][1..] == p[i + 1..];
    }
    if j < |s| {
      assert s[j..][1..] == s[j + 1..];
    }
  }

  /** The pattern from i on matches some suffix of what is left of the subject. */
  predicate LaterMatch(p: string, s: string, i: nat, j: nat)
    requires i <= |p|
  {
    exists k :: j <= k <= |s| && MatchesAt(p, s, i, k)
  }

  /** A star matches exactly the runs: some suffix of the subject is left to the rest. */
  lemma {:induction false} StarIsAnyRun(p: string, s: string, i: nat, j: nat)
    requires i < |p| && p[i] == '*' && j <= |s|
    ensures MatchesAt(p, s, i, j) <==> LaterMatch(p, s, i + 1, j)
    decreases |s| - j
  {
    hide MatchesAt;
    Unfold(p, s, i, j);
    if j < |s| {
      StarIsAnyRun(p, s, i, j + 1);
    }
  }

  /** Without wildcards matching is equality. */
  lemma {:induction false} LiteralIsEquality(p: string, s: string)
    requires '*' !in p && '?' !in p
    ensures Matches(p, s) <==> p == s
    decreases |p|
  {
    if p != "" && s != "" {
      LiteralIsEquality(p[1..], s[1..]);
      assert p == [p[0]] + p[1..] && s == [s[0]] + s[1..];
    }
  }

  predicate NoStar(p: string, from: nat, to: nat)
    requires from <= to <= |p|
  {
    forall i :: from <= i < to ==> p[i] != '*'
  }

  /** A star-free stretch of pattern eats as many bytes as it is long. */
  lemma {:induction false} StretchEats(p: string, s: string, i: nat, to: nat, j: nat)
    requires i <= to <= |p| && j <= |s| && NoStar(p, i, to) && MatchesAt(p, s, i, j)
    ensures j + (to - i) <= |s| && MatchesAt(p, s, to, j + (to - i))
    decreases |p| - i
  {
    hide MatchesAt;
    Unfold(p, s, i, j);
    if i < to {
      StretchEats(p, s, i + 1, to, j + 1);
    }
  }

  /** Letting an earlier star absorb more cannot help past a later one: whatever it would leave
      to the later star, the later star can take from here. */
  lemma LastStarSuffices(p: string, s: string, star: nat, to: nat, from: nat, sx: nat)
    requires star < to <= |p| && p[star] == '*' && NoStar(p, star + 1, to)
    requires from <= |s| && MatchesAt(p, s, star, from)
    requires sx <= |s| && sx < from + (to - star - 1)
    ensures to < |p| && p[to] == '*' ==> MatchesAt(p, s, to, sx)
    ensures sx < |s|
  {
    hide MatchesAt;
    StarIsAnyRun(p, s, star, from);
    var k :| from <= k <= |s| && MatchesAt(p, s, star + 1, k);
    StretchEats(p, s, star + 1, to, k);
    var end := k + (to - star - 1);
    if to < |p| && p[to] == '*' {
      StarIsAnyRun(p, s, to, end);
      StarIsAnyRun(p, s, to, sx);
    }
  }

  /** What is still open: the match from here, or a longer run for the last star. */
  predicate Open(p: string, s: string, px: nat, sx: nat, star: int, mark: nat)
    requires px <= |p| && sx <= |s| && star < |p|
  {
    MatchesAt(p, s, px, sx) || (star >= 0 && mark < |s| && MatchesAt(p, s, star, mark + 1))
  }

  method Glob(pattern: string, s: string) returns (ok: bool)
    ensures ok <==> Matches(pattern, s)
  {
    hide MatchesAt;
    var px, sx, star, mark := 0, 0, -1, 0;
    WholeIsAt(pattern, s);
    while sx < |s|
      invariant 0 <= px <= |pattern| && 0 <= mark <= sx <= |s| && -1 <= star < px
      invariant star >= 0 ==> pattern[star] == '*' && NoStar(pattern, star + 1, px) && px - star - 1 == sx - mark
      invariant Matches(pattern, s) <==> Open(pattern, s, px, sx, star, mark)
      decreases |pattern| - star, |s| - mark, |pattern| - px
    {
      Unfold(pattern, s, px, sx);
      if px < |pattern| && pattern[px] == '*' {
        if star >= 0 && MatchesAt(pattern, s, star, mark + 1) {
          LastStarSuffices(pattern, s, star, px, mark + 1, sx);
        }
        star, mark := px, sx;
        px := px + 1;
      } else if px < |pattern| && (pattern[px] == '?' || pattern[px] == s[sx]) {
        px := px + 1;
        sx := sx + 1;
      } else if star >= 0 {
        Unfold(pattern, s, star, mark + 1);
        px := star + 1;
        mark := mark + 1;
        sx := mark;
      } else {
        return false;
      }
    }
    if star >= 0 && mark < |s| && MatchesAt(pattern, s, star, mark + 1) {
      LastStarSuffices(pattern, s, star, px, mark + 1, sx);
      assert false;
    }
    while px < |pattern| && pattern[px] == '*'
      invariant 0 <= px <= |pattern|
      invariant Matches(pattern, s) <==> MatchesAt(pattern, s, px, sx)
    {
      Unfold(pattern, s, px, sx);
      px := px + 1;
    }
    Unfold(pattern, s, px, sx);
    return px == |pattern|;
  }

  lemma WholeIsAt(p: string, s: string)
    ensures Matches(p, s) <==> MatchesAt(p, s, 0, 0)
  {
    assert p[0..] == p && s[0..] == s;
  }
}
