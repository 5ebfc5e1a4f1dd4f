/**
 * Literal, global, left-to-right replacement of a non-empty pattern, as
 * `String.prototype.replace` does with a global regular expression whose
 * source is plain text.  `Split` and `Join` give an independent reference
 * definition: the text is cut at every occurrence and glued back together
 * with the replacement.
 */
module TextReplace {

  /** `pat` occurs in `s` starting at index `i`. */
  predicate OccursAt(s: string, pat: string, i: nat)
  {
    i + |pat| <= |s| && s[i..i + |pat|] == pat
  }

  predicate Contains(s: string, pat: string)
  {
    exists i: nat | i <= |s| :: OccursAt(s, pat, i)
  }

  /** Scan left to right; each match is replaced and scanning resumes after it. */
  function ReplaceAll(s: string, pat: string, rep: string): string
    requires pat != []
    decreases |s|
  {
    if |s| < |pat| then s
    else if s[..|pat|] == pat then rep + ReplaceAll(s[|pat|..], pat, rep)
    else [s[0]] + ReplaceAll(s[1..], pat, rep)
  }

  /** The pieces of `s` between the leftmost non-overlapping occurrences of `pat`. */
  function Split(s: string, pat: string): (parts: seq<string>)
    requires pat != []
    ensures |parts| >= 1
    ensures parts[0] <= s
    decreases |s|
  {
    if |s| < |pat| then [s]
    else if s[..|pat|] == pat then [[]] + Split(s[|pat|..], pat)
    else
      var rest := Split(s[1..], pat);
      [[s[0]] + rest[0]] + rest[1..]
  }

  function Join(parts: seq<string>, sep: string): string
    requires |parts| >= 1
  {
    if |parts| == 1 then parts[0] else parts[0] + sep + Join(parts[1..], sep)
  }

  /** Prepending a character to the first piece prepends it to the joined text. */
  lemma {:induction false} JoinConsFirst(c: char, parts: seq<string>, sep: string)
    requires |parts| >= 1
    ensures Join([[c] + parts[0]] + parts[1..], sep) == [c] + Join(parts, sep)
  {
  }

  /** Splitting and joining with the pattern gives the text back. */
  lemma {:induction false} SplitJoin(s: string, pat: string)
    requires pat != []
    ensures Join(Split(s, pat), pat) == s
    decreases |s|
  {
    if |s| < |pat| {
    } else if s[..|pat|] == pat {
      var rest := Split(s[|pat|..], pat);
      SplitJoin(s[|pat|..], pat);
      assert ([[]] + rest)[1..] == rest;
      assert s == s[..|pat|] + s[|pat|..];
    } else {
      var rest := Split(s[1..], pat);
      SplitJoin(s[1..], pat);
      JoinConsFirst(s[0], rest, pat);
      assert s == [s[0]] + s[1..];
    }
  }

  /** No piece contains the pattern: every occurrence was cut out. */
  lemma {:induction false} SplitPiecesFree(s: string, pat: string)
    requires pat != []
    ensures forall k :: 0 <= k < |Split(s, pat)| ==> !Contains(Split(s, pat)[k], pat)
    decreases |s|
  {
    var parts := Split(s, pat);
    if |s| < |pat| {
      assert parts == [s];
      forall i: nat ensures !OccursAt(s, pat, i) { }
    } else if s[..|pat|] == pat {
      var rest := Split(s[|pat|..], pat);
      SplitPiecesFree(s[|pat|..], pat);
      forall k | 0 <= k < |parts| ensures !Contains(parts[k], pat) {
        if k == 0 {
          forall i: nat ensures !OccursAt(parts[0], pat, i) { }
        } else {
          assert parts[k] == rest[k - 1];
        }
      }
    } else {
      var rest := Split(s[1..], pat);
      SplitPiecesFree(s[1..], pat);
      forall k | 0 <= k < |parts| ensures !Contains(parts[k], pat) {
        if k == 0 {
          var head := [s[0]] + rest[0];
          assert head <= s;
          forall i: nat ensures !OccursAt(head, pat, i) {
            if i + |pat| <= |head| {
              if i == 0 {
                assert head[..|pat|] == s[..|pat|];
              } else {
                assert head[i..i + |pat|] == rest[0][i - 1..i - 1 + |pat|];
                assert !OccursAt(rest[0], pat, i - 1);
              }
            }
          }
        } else {
          assert parts[k] == rest[k];
        }
      }
    }
  }

  /** Replacing all occurrences is splitting at the pattern and joining with the replacement. */
  lemma {:induction false} ReplaceAllIsSplitJoin(s: string, pat: string, rep: string)
    requires pat != []
    ensures ReplaceAll(s, pat, rep) == Join(Split(s, pat), rep)
    decreases |s|
  {
    if |s| < |pat| {
    } else if s[..|pat|] == pat {
      var rest := Split(s[|pat|..], pat);
      ReplaceAllIsSplitJoin(s[|pat|..], pat, rep);
      assert ([[]] + rest)[1..] == rest;
    } else {
      var rest := Split(s[1..], pat);
      ReplaceAllIsSplitJoin(s[1..], pat, rep);
      JoinConsFirst(s[0], rest, rep);
    }
  }

  /** Text without an occurrence of the pattern is left verbatim. */
  lemma {:induction false} ReplaceAllAbsent(s: string, pat: string, rep: string)
    requires pat != []
    requires !Contains(s, pat)
    ensures ReplaceAll(s, pat, rep) == s
    decreases |s|
  {
    if |s| < |pat| {
    } else {
      assert !OccursAt(s, pat, 0);
      assert s[..|pat|] != pat;
      forall i: nat ensures !OccursAt(s[1..], pat, i) {
        if i + |pat| <= |s[1..]| {
          assert s[1..][i..i + |pat|] == s[i + 1..i + 1 + |pat|];
          assert !OccursAt(s, pat, i + 1);
        }
      }
      ReplaceAllAbsent(s[1..], pat, rep);
      assert s == [s[0]] + s[1..];
    }
  }

  /** No occurrence of `pat` in `u + w` starts in `u` and ends in `w`. */
  predicate NoStraddle(u: string, w: string, pat: string)
  {
    forall q: nat :: q < |u| < q + |pat| ==> !OccursAt(u + w, pat, q)
  }

  /** Dropping a prefix of `u` keeps the boundary free of straddling occurrences. */
  lemma NoStraddleSuffix(u: string, w: string, pat: string, d: nat)
    requires d <= |u| && NoStraddle(u, w, pat)
    ensures NoStraddle(u[d..], w, pat)
  {
    var s, s' := u + w, u[d..] + w;
    assert s' == s[d..];
    forall q: nat | q < |u[d..]| < q + |pat| ensures !OccursAt(s', pat, q) {
      if q + |pat| <= |s'| {
        assert s'[q..q + |pat|] == s[q + d..q + d + |pat|];
      }
      assert !OccursAt(s, pat, q + d);
    }
  }

  /**
   * When no occurrence of the pattern straddles the boundary between `u` and
   * `w`, replacing in `u + w` is replacing in each part.
   */
  lemma {:induction false} ReplaceAllConcat(u: string, w: string, pat: string, rep: string)
    requires pat != []
    requires NoStraddle(u, w, pat)
    ensures ReplaceAll(u + w, pat, rep) == ReplaceAll(u, pat, rep) + ReplaceAll(w, pat, rep)
    decreases |u|
  {
    var s := u + w;
    if u == [] {
      assert s == w;
    } else if |s| < |pat| {
    } else if s[..|pat|] == pat {
      assert OccursAt(s, pat, 0);
      assert |pat| <= |u| && u[..|pat|] == pat;
      var u' := u[|pat|..];
      assert s[|pat|..] == u' + w;
      NoStraddleSuffix(u, w, pat, |pat|);
      ReplaceAllConcat(u', w, pat, rep);
    } else {
      var u' := u[1..];
      assert s[1..] == u' + w;
      NoStraddleSuffix(u, w, pat, 1);
      ReplaceAllConcat(u', w, pat, rep);
      if |u| >= |pat| {
        assert u[..|pat|] == s[..|pat|];
      }
    }
  }
}
