/**
 * The few string operations the page scripts use: ASCII lower-casing,
 * substring containment (`String.prototype.includes`) and global replacement
 * (`String.prototype.replace` with a `/g` pattern).
 */
module Text {

  predicate IsUpper(c: char)
  {
    'A' <= c <= 'Z'
  }

  /** Lower-cases one ASCII letter; every other character is left alone. */
  function LowerChar(c: char): char
  {
    if IsUpper(c) then (c as int + 32) as char else c
  }

  /** `toLowerCase`, restricted to ASCII. */
  function ToLower(s: string): (r: string)
    ensures |r| == |s|
    ensures forall i :: 0 <= i < |s| ==> r[i] == LowerChar(s[i])
    ensures forall i :: 0 <= i < |r| ==> !IsUpper(r[i])
  {
    seq(|s|, i requires 0 <= i < |s| => LowerChar(s[i]))
  }

  /** Lower-casing commutes with taking a slice. */
  lemma LowerOfSlice(s: string, i: nat, j: nat)
    requires i <= j <= |s|
    ensures ToLower(s[i..j]) == ToLower(s)[i..j]
  {
    assert forall k :: 0 <= k < j - i ==> ToLower(s[i..j])[k] == LowerChar(s[i + k]) == ToLower(s)[i..j][k];
  }

  /** `sub` occurs in `s` starting at position `i`. */
  predicate OccursAt(s: string, sub: string, i: nat)
  {
    i + |sub| <= |s| && s[i..i + |sub|] == sub
  }

  /** `s.includes(sub)`; the empty string occurs in every string. */
  predicate Contains(s: string, sub: string)
  {
    exists i: nat :: i <= |s| && OccursAt(s, sub, i)
  }

  /** An occurrence of a longer pattern carries an occurrence of each of its pieces. */
  lemma ContainsPiece(s: string, sub: string, i: nat, j: nat)
    requires i <= j <= |sub|
    requires Contains(s, sub)
    ensures Contains(s, sub[i..j])
  {
    var k: nat :| k <= |s| && OccursAt(s, sub, k);
    assert s[k..k + |sub|] == sub;
    assert forall x :: 0 <= x < j - i ==> s[k + i..k + j][x] == s[k..k + |sub|][i + x] == sub[i..j][x];
    assert s[k + i..k + j] == sub[i..j];
    assert OccursAt(s, sub[i..j], k + i);
  }

  /**
   * `s.replace(/pat/g, rep)` for a literal, non-empty pattern: occurrences are
   * found left to right and do not overlap.
   */
  function ReplaceAll(s: string, pat: string, rep: string): string
    requires |pat| > 0
    decreases |s|
  {
    if |s| < |pat| then
      s
    else if OccursAt(s, pat, 0) then
      rep + ReplaceAll(s[|pat|..], pat, rep)
    else
      [s[0]] + ReplaceAll(s[1..], pat, rep)
  }

  /** A string in which the pattern does not occur comes back unchanged. */
  lemma {:induction false} ReplaceAllWithoutPattern(s: string, pat: string, rep: string)
    requires |pat| > 0
    ensures !Contains(s, pat) ==> ReplaceAll(s, pat, rep) == s
    decreases |s|
  {
    if |s| >= |pat| && !Contains(s, pat) {
      assert !OccursAt(s, pat, 0);
      TailOccurrence(s, pat);
      ReplaceAllWithoutPattern(s[1..], pat, rep);
    }
  }

  /**
   * The first occurrence, at `i`, is replaced and the text before it is kept;
   * the replacement then continues after the occurrence.
   */
  lemma {:induction false} ReplaceAllFirst(s: string, pat: string, rep: string, i: nat)
    requires |pat| > 0 && OccursAt(s, pat, i)
    requires forall j: nat :: j < i ==> !OccursAt(s, pat, j)
    ensures ReplaceAll(s, pat, rep) == s[..i] + rep + ReplaceAll(s[i + |pat|..], pat, rep)
    decreases i
  {
    if i == 0 {
      ReplaceAllAtFront(s, pat, rep);
    } else {
      var tail, after := s[1..], ReplaceAll(s[i + |pat|..], pat, rep);
      FirstOccurrenceInTail(s, pat, i);
      ReplaceAllFirst(tail, pat, rep, i - 1);
      KeptHead(s, rep, after, i, |pat|);
      assert ReplaceAll(tail, pat, rep) == tail[..i - 1] + rep + after;
      ReplaceAllSkips(s, pat, rep);
    }
  }

  /** The first occurrence at `i > 0` is the first occurrence of the tail, at `i - 1`. */
  lemma FirstOccurrenceInTail(s: string, pat: string, i: nat)
    requires 0 < i && OccursAt(s, pat, i)
    requires forall j: nat :: j < i ==> !OccursAt(s, pat, j)
    ensures |pat| < |s| && !OccursAt(s, pat, 0)
    ensures OccursAt(s[1..], pat, i - 1)
    ensures forall j: nat :: j < i - 1 ==> !OccursAt(s[1..], pat, j)
  {
    assert !OccursAt(s, pat, 0);
    ShiftedOccurrence(s, pat, i - 1);
    forall j: nat | j < i - 1
      ensures !OccursAt(s[1..], pat, j)
    {
      ShiftedOccurrence(s, pat, j);
    }
  }

  /** Putting the kept first character back in front of the tail's result. */
  lemma KeptHead(s: string, rep: string, after: string, i: nat, k: nat)
    requires 0 < i && i + k <= |s|
    ensures s[1..][i - 1 + k..] == s[i + k..]
    ensures [s[0]] + (s[1..][..i - 1] + rep + after) == s[..i] + rep + after
  {
    assert [s[0]] + s[1..][..i - 1] == s[..i];
  }

  /** An occurrence at the front is replaced. */
  lemma ReplaceAllAtFront(s: string, pat: string, rep: string)
    requires |pat| > 0 && OccursAt(s, pat, 0)
    ensures ReplaceAll(s, pat, rep) == s[..0] + rep + ReplaceAll(s[|pat|..], pat, rep)
  {
    assert s[..|pat|] == s[0..|pat|];
  }

  /** Without an occurrence at the front, the first character is kept. */
  lemma ReplaceAllSkips(s: string, pat: string, rep: string)
    requires |pat| > 0 && |pat| < |s| && !OccursAt(s, pat, 0)
    ensures ReplaceAll(s, pat, rep) == [s[0]] + ReplaceAll(s[1..], pat, rep)
  {
    assert s[..|pat|] == s[0..|pat|];
  }

  /** An occurrence in the tail of `s` is one in `s`, one position later, and back. */
  lemma ShiftedOccurrence(s: string, pat: string, j: nat)
    requires |s| > 0
    ensures OccursAt(s[1..], pat, j) <==> OccursAt(s, pat, j + 1)
  {
    if j + |pat| <= |s[1..]| {
      assert s[1..][j..j + |pat|] == s[j + 1..j + 1 + |pat|];
    }
  }

  /** No character of `rep` occurs in `pat`, and `rep` is not empty. */
  predicate Disjoint(pat: string, rep: string)
  {
    |rep| > 0 && forall k :: 0 <= k < |rep| ==> rep[k] !in pat
  }

  /** Every character of `t` is a character of `pat`. */
  predicate AllIn(t: string, pat: string)
  {
    forall k :: 0 <= k < |t| ==> t[k] in pat
  }

  /**
   * After a global replacement by a string that shares no character with the
   * pattern, the pattern occurs nowhere in the result: neither inside what
   * was kept nor across an inserted replacement.
   */
  lemma {:induction false} ReplaceAllRemovesPattern(s: string, pat: string, rep: string)
    requires |pat| > 0 && Disjoint(pat, rep)
    ensures !Contains(ReplaceAll(s, pat, rep), pat)
    decreases |s|
  {
    var r := ReplaceAll(s, pat, rep);
    if |s| < |pat| {
      NoRoomNoOccurrence(s, pat);
    } else if s[..|pat|] == pat {
      var rest := ReplaceAll(s[|pat|..], pat, rep);
      ReplaceAllRemovesPattern(s[|pat|..], pat, rep);
      assert r == rep + rest;
      forall i: nat | i <= |r|
        ensures !OccursAt(r, pat, i)
      {
        if i < |rep| {
          if i + |pat| <= |r| {
            assert r[i..i + |pat|][0] == rep[i];
          }
        } else {
          NoOccurrenceAfter(rep, rest, pat, i);
        }
      }
    } else {
      var rest := ReplaceAll(s[1..], pat, rep);
      ReplaceAllRemovesPattern(s[1..], pat, rep);
      assert r == [s[0]] + rest;
      forall i: nat | i <= |r|
        ensures !OccursAt(r, pat, i)
      {
        if i == 0 {
          if |pat| <= |r| {
            ReplacedPrefix(s, pat, rep, |pat|);
            assert AllIn(pat, pat);
            assert r[0..|pat|] == r[..|pat|];
          }
        } else {
          NoOccurrenceAfter([s[0]], rest, pat, i);
        }
      }
    }
  }

  /** An occurrence that starts after a prefix is an occurrence in what follows it. */
  lemma NoOccurrenceAfter(pre: string, rest: string, pat: string, i: nat)
    requires !Contains(rest, pat) && |pre| <= i <= |pre + rest|
    ensures !OccursAt(pre + rest, pat, i)
  {
    var j: nat := i - |pre|;
    assert !OccursAt(rest, pat, j);
    if i + |pat| <= |pre + rest| {
      assert (pre + rest)[i..i + |pat|] == rest[j..j + |pat|];
    }
  }

  /**
   * A prefix of the result made only of pattern characters contains no
   * replacement, so it is the same prefix of the input.
   */
  lemma {:induction false} ReplacedPrefix(s: string, pat: string, rep: string, m: nat)
    requires |pat| > 0 && Disjoint(pat, rep)
    requires m <= |ReplaceAll(s, pat, rep)|
    ensures AllIn(ReplaceAll(s, pat, rep)[..m], pat) ==>
      m <= |s| && ReplaceAll(s, pat, rep)[..m] == s[..m]
    decreases |s|
  {
    var r := ReplaceAll(s, pat, rep);
    if m == 0 {
    } else if |s| < |pat| {
      assert r == s;
    } else if s[..|pat|] == pat {
      assert r == rep + ReplaceAll(s[|pat|..], pat, rep);
      assert r[..m][0] == rep[0];
    } else {
      var rest := ReplaceAll(s[1..], pat, rep);
      assert r == [s[0]] + rest;
      ReplacedPrefix(s[1..], pat, rep, m - 1);
      assert r[..m] == [s[0]] + rest[..m - 1];
      var head, tail := r[..m], rest[..m - 1];
      if AllIn(head, pat) {
        forall k | 0 <= k < |tail|
          ensures tail[k] in pat
        {
          assert tail[k] == head[k + 1];
        }
        assert s[..m] == [s[0]] + s[1..][..m - 1];
      }
    }
  }

  /**
   * Replacing a character by one that is not in `pat` creates no occurrence
   * of `pat`.
   */
  lemma ReplaceCharKeepsAbsent(s: string, c: char, d: char, pat: string)
    requires d !in pat && !Contains(s, pat)
    ensures !Contains(ReplaceChar(s, c, d), pat)
  {
    var r := ReplaceChar(s, c, d);
    forall i: nat | i <= |r|
      ensures !OccursAt(r, pat, i)
    {
      if i + |pat| <= |r| && r[i..i + |pat|] == pat {
        forall k | 0 <= k < |pat|
          ensures s[i..i + |pat|][k] == pat[k]
        {
          assert r[i + k] == r[i..i + |pat|][k] == pat[k];
        }
        assert OccursAt(s, pat, i);
      }
    }
  }

  /** A pattern with a character that `s` lacks does not occur in `s`. */
  lemma MissingCharNoOccurrence(s: string, pat: string, k: nat)
    requires k < |pat| && pat[k] !in s
    ensures !Contains(s, pat)
  {
    forall i: nat | i <= |s|
      ensures !OccursAt(s, pat, i)
    {
      if i + |pat| <= |s| {
        assert s[i..i + |pat|][k] == s[i + k];
      }
    }
  }

  lemma NoRoomNoOccurrence(s: string, pat: string)
    requires |s| < |pat|
    ensures !Contains(s, pat)
  {
  }

  /** An occurrence in the tail of `s` is an occurrence in `s`, one position later. */
  lemma TailOccurrence(s: string, pat: string)
    requires |s| > 0
    ensures Contains(s[1..], pat) ==> Contains(s, pat)
  {
    if Contains(s[1..], pat) {
      var k: nat :| k <= |s[1..]| && OccursAt(s[1..], pat, k);
      assert s[k + 1..k + 1 + |pat|] == s[1..][k..k + |pat|];
      assert OccursAt(s, pat, k + 1);
    }
  }

  /** Replaces every occurrence of the character `c` by `d`. */
  function ReplaceChar(s: string, c: char, d: char): (r: string)
    ensures |r| == |s|
    ensures forall i :: 0 <= i < |s| ==> r[i] == (if s[i] == c then d else s[i])
  {
    if s == [] then [] else [if s[0] == c then d else s[0]] + ReplaceChar(s[1..], c, d)
  }
  /** Character replacement works piece by piece on a concatenation. */
  lemma {:induction false} ReplaceCharConcat(a: string, b: string, c: char, d: char)
    ensures ReplaceChar(a + b, c, d) == ReplaceChar(a, c, d) + ReplaceChar(b, c, d)
    decreases |a|
  {
    if a == [] {
      assert a + b == b;
    } else {
      assert (a + b)[1..] == a[1..] + b;
      ReplaceCharConcat(a[1..], b, c, d);
    }
  }


}
