/** String search as `String.prototype.includes` performs it, and the facts about it
    that focus detection relies on. */
module Text {

  /** `s.includes(p)`: try the match at the front of `s`, then move one character on. */
  predicate Includes(s: string, p: string)
    decreases |s|
  {
    |p| <= |s| && (s[..|p|] == p || Includes(s[1..], p))
  }

  /** `p` starts at index `i` of `s`. */
  predicate OccursAt(s: string, p: string, i: int)
  {
    0 <= i <= |s| - |p| && s[i..i + |p|] == p
  }

  /** The scanning search agrees with the declarative one: `s.includes(p)` holds exactly
      when some index of `s` starts a copy of `p`. */
  lemma {:induction false} IncludesIffOccurs(s: string, p: string)
    ensures Includes(s, p) <==> exists i | 0 <= i <= |s| - |p| :: OccursAt(s, p, i)
    decreases |s|
  {
    if |p| <= |s| {
      if s[..|p|] == p {
        assert OccursAt(s, p, 0);
      } else {
        IncludesIffOccurs(s[1..], p);
        if Includes(s[1..], p) {
          var i :| 0 <= i <= |s| - 1 - |p| && OccursAt(s[1..], p, i);
          TailSlice(s, i + 1, |p|);
          assert OccursAt(s, p, i + 1);
        } else {
          forall i | 0 <= i <= |s| - |p| ensures !OccursAt(s, p, i) {
            if i > 0 {
              TailSlice(s, i, |p|);
              assert !OccursAt(s[1..], p, i - 1);
            }
          }
        }
      }
    }
  }

  /** A window of `s` starting at `i > 0` is the window of `s[1..]` starting one earlier. */
  lemma TailSlice(s: string, i: int, n: int)
    requires 1 <= i && 0 <= n && i + n <= |s|
    ensures s[1..][i - 1..i - 1 + n] == s[i..i + n]
  {
  }

  /** A pattern holding a character that the text lacks is never found in it. */
  lemma {:induction false} MissingCharExcludes(s: string, p: string, c: char)
    requires c in p && c !in s
    ensures !Includes(s, p)
    decreases |s|
  {
    if |p| <= |s| {
      var k :| 0 <= k < |p| && p[k] == c;
      assert s[..|p|][k] == s[k];
      assert s[..|p|] != p;
      MissingCharExcludes(s[1..], p, c);
    }
  }

  /** A text that begins with the pattern contains it. */
  lemma PrefixIncluded(s: string, p: string)
    requires p <= s
    ensures Includes(s, p)
  {
    assert s[..|p|] == p;
  }

  /** The empty text contains no non-empty pattern. */
  lemma EmptyIncludesNothing(p: string)
    requires p != []
    ensures !Includes([], p)
  {
  }
}
