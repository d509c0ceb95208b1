/** String replacement as JavaScript's `String.prototype.replace` performs it
    for a pattern that is plain text: with the `g` flag every occurrence, scanning
    left to right and resuming after each replaced occurrence; with a string
    pattern only the first occurrence. */
module Text {

  /** `pat` occurs in `s` starting at index `i`. */
  predicate OccursAt(s: string, pat: string, i: int)
  {
    0 <= i && i + |pat| <= |s| && s[i..i + |pat|] == pat
  }

  predicate StartsWith(s: string, pat: string)
  {
    |pat| <= |s| && s[..|pat|] == pat
  }

  /** `pat` occurs nowhere in `s`. */
  predicate Absent(s: string, pat: string)
  {
    forall i :: 0 <= i <= |s| ==> !OccursAt(s, pat, i)
  }

  lemma AbsentTail(s: string, pat: string)
    requires s != [] && Absent(s, pat)
    ensures Absent(s[1..], pat)
  {
    forall i | 0 <= i <= |s[1..]|
      ensures !OccursAt(s[1..], pat, i)
    {
      if OccursAt(s[1..], pat, i) {
        assert s[i + 1..i + 1 + |pat|] == s[1..][i..i + |pat|];
        assert OccursAt(s, pat, i + 1);
      }
    }
  }

  /** A pattern that begins with a character `s` lacks cannot occur in `s`. */
  lemma AbsentByFirstChar(s: string, pat: string)
    requires pat != [] && pat[0] !in s
    ensures Absent(s, pat)
  {
    forall i | 0 <= i <= |s|
      ensures !OccursAt(s, pat, i)
    {
      if i + |pat| <= |s| {
        assert s[i..i + |pat|][0] == s[i];
      }
    }
  }

  /** `s.replace(/pat/g, rep)` where `pat` has no regular-expression metacharacters
      and `rep` no `$` patterns. Its properties are the lemmas below. */
  function ReplaceAll(s: string, pat: string, rep: string): string
    requires pat != []
    decreases |s|
  {
    if StartsWith(s, pat) then
      rep + ReplaceAll(s[|pat|..], pat, rep)
    else if s == [] then
      []
    else
      [s[0]] + ReplaceAll(s[1..], pat, rep)
  }

  /** Without an occurrence of the pattern nothing is replaced. */
  lemma {:induction false} ReplaceAllAbsent(s: string, pat: string, rep: string)
    requires pat != [] && Absent(s, pat)
    ensures ReplaceAll(s, pat, rep) == s
    decreases |s|
  {
    if s != [] {
      assert !OccursAt(s, pat, 0);
      AbsentTail(s, pat);
      ReplaceAllAbsent(s[1..], pat, rep);
      assert [s[0]] + s[1..] == s;
    }
  }

  /** A replacement no longer than the pattern never lengthens the text. */
  lemma {:induction false} ReplaceAllShrinks(s: string, pat: string, rep: string)
    requires pat != [] && |rep| <= |pat|
    ensures |ReplaceAll(s, pat, rep)| <= |s|
    decreases |s|
  {
    if StartsWith(s, pat) {
      ReplaceAllShrinks(s[|pat|..], pat, rep);
    } else if s != [] {
      ReplaceAllShrinks(s[1..], pat, rep);
    }
  }

  /** `pat` occurs at `i` and at no earlier index. */
  predicate FirstAt(s: string, pat: string, i: int)
  {
    OccursAt(s, pat, i) && forall j :: 0 <= j < i ==> !OccursAt(s, pat, j)
  }

  /** Occurrences in `s[1..]` are the occurrences in `s` shifted by one. */
  lemma OccursShift(s: string, pat: string)
    requires s != []
    ensures forall i :: 1 <= i <= |s| ==> (OccursAt(s, pat, i) <==> OccursAt(s[1..], pat, i - 1))
  {
    var t := s[1..];
    forall i | 1 <= i <= |s|
      ensures OccursAt(s, pat, i) <==> OccursAt(t, pat, i - 1)
    {
      if i + |pat| <= |s| {
        var u, v := s[i..i + |pat|], t[i - 1..i - 1 + |pat|];
        forall m | 0 <= m < |pat|
          ensures u[m] == v[m]
        {
          assert t[i - 1 + m] == s[i + m];
        }
        assert u == v;
      }
    }
  }

  /** `s.indexOf(pat)`: the first index where `pat` occurs, or -1. */
  function IndexOf(s: string, pat: string): (i: int)
    requires pat != []
    ensures i == -1 || (0 <= i && i + |pat| <= |s|)
    decreases |s|
  {
    if StartsWith(s, pat) then 0
    else if s == [] then -1
    else
      var k := IndexOf(s[1..], pat);
      if k == -1 then -1 else k + 1
  }

  /** IndexOf finds the first occurrence, and answers -1 exactly when there is none. */
  lemma {:induction false} IndexOfFindsFirst(s: string, pat: string)
    requires pat != []
    ensures IndexOf(s, pat) == -1 <==> Absent(s, pat)
    ensures IndexOf(s, pat) != -1 ==> FirstAt(s, pat, IndexOf(s, pat))
    decreases |s|
  {
    if StartsWith(s, pat) {
      assert OccursAt(s, pat, 0);
    } else if s != [] {
      var k := IndexOf(s[1..], pat);
      IndexOfFindsFirst(s[1..], pat);
      OccursShift(s, pat);
      assert !OccursAt(s, pat, 0);
      if k != -1 {
        assert OccursAt(s, pat, k + 1);
      }
    }
  }

  /** `s.replace(pat, rep)` with a string pattern: only the first occurrence of
      `pat` is replaced. */
  function ReplaceFirst(s: string, pat: string, rep: string): string
    requires pat != []
  {
    var i := IndexOf(s, pat);
    if i == -1 then s else s[..i] + rep + s[i + |pat|..]
  }

  /** ReplaceFirst leaves text without the pattern alone, and otherwise replaces
      the first occurrence and keeps everything around it. */
  lemma ReplaceFirstFirstOnly(s: string, pat: string, rep: string)
    requires pat != []
    ensures Absent(s, pat) ==> ReplaceFirst(s, pat, rep) == s
    ensures !Absent(s, pat) ==>
              exists i :: FirstAt(s, pat, i) && ReplaceFirst(s, pat, rep) == s[..i] + rep + s[i + |pat|..]
  {
    IndexOfFindsFirst(s, pat);
  }
}
