/** The two JavaScript string operations the reason labels are built with:
    `String.prototype.toUpperCase` (on ASCII text) and
    `String.prototype.replace` with a string pattern and an empty replacement. */
module JsStrings {

  /** Upper-cases one ASCII letter; every other character is kept. */
  function UpperChar(c: char): char {
    if 'a' <= c <= 'z' then (c as int - 32) as char else c
  }

  /** `s.toUpperCase()` on ASCII text: same length, each character upper-cased. */
  function ToUpper(s: string): (r: string)
    ensures |r| == |s|
    ensures forall i :: 0 <= i < |s| ==> r[i] == UpperChar(s[i])
  {
    seq(|s|, i requires 0 <= i < |s| => UpperChar(s[i]))
  }

  predicate OccursAt(s: string, pat: string, i: nat) {
    i + |pat| <= |s| && s[i..i + |pat|] == pat
  }

  ghost predicate Contains(s: string, pat: string) {
    exists i: nat :: OccursAt(s, pat, i)
  }

  /** `i` is the leftmost position at which `pat` occurs in `s`. */
  predicate FirstOccursAt(s: string, pat: string, i: nat) {
    OccursAt(s, pat, i) && forall k: nat :: k < i ==> !OccursAt(s, pat, k)
  }

  /** `s.replace(pat, '')`: with a string pattern, JavaScript replaces only the
      first occurrence. */
  function RemoveFirst(s: string, pat: string): (r: string)
    ensures |r| <= |s|
    decreases |s|
  {
    if |s| < |pat| then s
    else if s[..|pat|] == pat then s[|pat|..]
    else [s[0]] + RemoveFirst(s[1..], pat)
  }

  lemma OccursAtTail(s: string, pat: string, k: nat)
    requires |s| > 0
    ensures OccursAt(s, pat, k + 1) <==> OccursAt(s[1..], pat, k)
  {
    if k + 1 + |pat| <= |s| {
      assert s[k + 1..k + 1 + |pat|] == s[1..][k..k + |pat|];
    }
  }

  /** RemoveFirst leaves `s` alone when `pat` does not occur in it. */
  lemma {:induction false} RemoveFirstWhenAbsent(s: string, pat: string)
    requires !Contains(s, pat)
    ensures RemoveFirst(s, pat) == s
    decreases |s|
  {
    if |s| >= |pat| {
      assert !OccursAt(s, pat, 0);
      var t := s[1..];
      forall k: nat
        ensures !OccursAt(t, pat, k)
      {
        OccursAtTail(s, pat, k);
      }
      RemoveFirstWhenAbsent(t, pat);
      assert s == [s[0]] + t;
    }
  }

  /** RemoveFirstWhenAbsent as an implication, for use inside expressions. */
  lemma RemoveFirstIdentityUnlessPresent(s: string, pat: string)
    ensures !Contains(s, pat) ==> RemoveFirst(s, pat) == s
  {
    if !Contains(s, pat) {
      RemoveFirstWhenAbsent(s, pat);
    }
  }

  /** When the leftmost occurrence of `pat` in `s` is at `i`, RemoveFirst cuts
      out exactly that occurrence. */
  lemma {:induction false} RemoveFirstCutsLeftmost(s: string, pat: string, i: nat)
    requires FirstOccursAt(s, pat, i)
    ensures RemoveFirst(s, pat) == s[..i] + s[i + |pat|..]
    decreases i
  {
    if i == 0 {
      assert s[..|pat|] == pat;
    } else {
      assert !OccursAt(s, pat, 0);
      var t := s[1..];
      OccursAtTail(s, pat, i - 1);
      forall k: nat | k < i - 1
        ensures !OccursAt(t, pat, k)
      {
        OccursAtTail(s, pat, k);
      }
      RemoveFirstCutsLeftmost(t, pat, i - 1);
      assert s[..i] == [s[0]] + t[..i - 1];
      assert s[i + |pat|..] == t[i - 1 + |pat|..];
    }
  }
}
