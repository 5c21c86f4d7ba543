/** Damerau-Levenshtein distance: the least number of insertions, deletions, substitutions and swaps of neighbours. */
module EditDistance {

  ghost predicate Inserts(s: string, t: string) {
    exists i, c: char :: 0 <= i <= |s| && t == s[..i] + [c] + s[i..]
  }

  ghost predicate Substitutes(s: string, t: string) {
    exists i, c: char :: 0 <= i < |s| && t == s[..i] + [c] + s[i + 1..]
  }

  ghost predicate Swaps(s: string, t: string) {
    exists i :: 0 <= i < |s| - 1 && t == s[..i] + [s[i + 1], s[i]] + s[i + 2..]
  }

  ghost predicate OneEdit(s: string, t: string) {
    Inserts(s, t) || Inserts(t, s) || Substitutes(s, t) || Swaps(s, t)
  }

  ghost predicate Reaches(s: string, t: string, edits: nat)
    decreases edits
  {
    if edits == 0 then s == t else exists u: string :: OneEdit(s, u) && Reaches(u, t, edits - 1)
  }

  lemma OneEditReaches(s: string, u: string, t: string, edits: nat)
    requires OneEdit(s, u) && Reaches(u, t, edits)
    ensures Reaches(s, t, edits + 1)
  {
  }

  lemma PrependIsInsert(s: string, c: char)
    ensures Inserts(s, [c] + s)
  {
    assert [c] + s == s[..0] + [c] + s[0..];
  }

  /** Delete everything, then type the other text. */
  lemma {:induction false} AlwaysReachable(s: string, t: string)
    ensures Reaches(s, t, |s| + |t|)
    decreases |s|
  {
    if s == "" {
      BuildsUp(t);
    } else {
      var u := s[1..];
      assert [s[0]] + u == s;
      PrependIsInsert(u, s[0]);
      AlwaysReachable(u, t);
      OneEditReaches(s, u, t, |u| + |t|);
    }
  }

  /** Text is typed one character after another. */
  lemma {:induction false} BuildsUp(t: string)
    ensures Reaches("", t, |t|)
  {
    if t != "" {
      BuildsUp(t[1..]);
      PrependsLast("", t[1..], t[0], |t| - 1);
      assert t == [t[0]] + t[1..];
    }
  }

  lemma {:induction false} PrependsLast(s: string, t: string, c: char, edits: nat)
    requires Reaches(s, t, edits)
    ensures Reaches(s, [c] + t, edits + 1)
    decreases edits
  {
    if edits == 0 {
      PrependIsInsert(s, c);
      OneEditReaches(s, [c] + t, [c] + t, 0);
    } else {
      var u: string :| OneEdit(s, u) && Reaches(u, t, edits - 1);
      PrependsLast(u, t, c, edits - 1);
      OneEditReaches(s, u, [c] + t, edits);
    }
  }

  ghost function Least(s: string, t: string, from: nat, bound: nat): (d: nat)
    requires from <= bound && Reaches(s, t, bound)
    requires forall n: nat :: n < from ==> !Reaches(s, t, n)
    ensures Reaches(s, t, d) && forall n: nat :: n < d ==> !Reaches(s, t, n)
    decreases bound - from
  {
    if Reaches(s, t, from) then from else Least(s, t, from + 1, bound)
  }

  ghost function Distance(s: string, t: string): (d: nat)
    ensures Reaches(s, t, d) && forall n: nat :: n < d ==> !Reaches(s, t, n)
  {
    AlwaysReachable(s, t);
    Least(s, t, 0, |s| + |t|)
  }

  function Gap(m: nat, n: nat): nat {
    if m < n then n - m else m - n
  }

  lemma {:induction false} EditsCoverTheGap(s: string, t: string, edits: nat)
    requires Reaches(s, t, edits)
    ensures Gap(|s|, |t|) <= edits
    decreases edits
  {
    if edits > 0 {
      var u: string :| OneEdit(s, u) && Reaches(u, t, edits - 1);
      EditsCoverTheGap(u, t, edits - 1);
    }
  }

  /** The length filter is safe: texts differ by at least as many edits as their lengths do. */
  lemma GapBoundsDistance(s: string, t: string)
    ensures Gap(|s|, |t|) <= Distance(s, t)
  {
    EditsCoverTheGap(s, t, Distance(s, t));
  }

  lemma ZeroOnlyForEqual(s: string, t: string)
    ensures Distance(s, t) == 0 <==> s == t
  {
    assert Reaches(s, t, 0) <==> s == t;
  }
}
