/** The string operations the source calls on its host: searching for a
    substring, splitting on one, and joining with one. */
module Text {

  predicate OccursAt(s: string, pat: string, i: int)
  {
    0 <= i <= |s| - |pat| && s[i..i + |pat|] == pat
  }

  ghost predicate Occurs(s: string, pat: string)
  {
    exists i :: OccursAt(s, pat, i)
  }

  /** The first occurrence of `pat` in `s` at or after `from`, or -1. */
  function Find(s: string, pat: string, from: nat): (r: int)
    requires from <= |s|
    ensures r == -1 ==> forall i :: from <= i ==> !OccursAt(s, pat, i)
    ensures r != -1 ==> from <= r && OccursAt(s, pat, r)
    ensures r != -1 ==> forall i :: from <= i < r ==> !OccursAt(s, pat, i)
    decreases |s| - from
  {
    if OccursAt(s, pat, from) then from
    else if from == |s| then -1
    else Find(s, pat, from + 1)
  }

  /** The pieces of `s` between the successive non-overlapping occurrences of `pat`. */
  function SplitOn(s: string, pat: string): (parts: seq<string>)
    requires pat != ""
    ensures |parts| > 0
  {
    var i := Find(s, pat, 0);
    if i == -1 then [s] else [s[..i]] + SplitOn(s[i + |pat|..], pat)
  }

  function Join(parts: seq<string>, sep: string): string
    requires |parts| > 0
  {
    if |parts| == 1 then parts[0] else parts[0] + sep + Join(parts[1..], sep)
  }

  function ReplaceAll(s: string, pat: string, sub: string): string
    requires pat != ""
  {
    Join(SplitOn(s, pat), sub)
  }

  lemma SplitStep(s: string, pat: string)
    requires pat != ""
    ensures var i := Find(s, pat, 0);
      SplitOn(s, pat) == if i == -1 then [s] else [s[..i]] + SplitOn(s[i + |pat|..], pat)
    ensures var i := Find(s, pat, 0); i != -1 ==> s == s[..i] + pat + s[i + |pat|..]
  {
  }

  lemma JoinStep(first: string, parts: seq<string>, sep: string)
    requires |parts| > 0
    ensures Join([first] + parts, sep) == first + sep + Join(parts, sep)
  {
    assert ([first] + parts)[1..] == parts;
  }

  lemma ReplaceAllStep(s: string, pat: string, sub: string)
    requires pat != ""
    ensures var i := Find(s, pat, 0);
      ReplaceAll(s, pat, sub) == if i == -1 then s else s[..i] + sub + ReplaceAll(s[i + |pat|..], pat, sub)
  {
    var i := Find(s, pat, 0);
    SplitStep(s, pat);
    if i != -1 {
      JoinStep(s[..i], SplitOn(s[i + |pat|..], pat), sub);
    }
  }

  lemma SliceOfSlice(s: string, i: nat, end: nat, a: nat, b: nat)
    requires i <= a <= b <= end <= |s|
    ensures s[i..end][a - i..b - i] == s[a..b]
  {
    var part := s[i..end];
    assert forall k :: 0 <= k < b - a ==> part[a - i..b - i][k] == part[a - i + k] == s[a + k] == s[a..b][k];
  }

  // When replacing can be repeated

  /** `head` can stand before an occurrence of `pat` that is replaced: no other begins earlier. */
  predicate CanPrecede(head: string, pat: string)
  {
    Find(head + pat, pat, 0) == |head|
  }

  /** Text left as it was, ending in all of `pat` but its last `k` characters, runs on into `sub`. */
  predicate RunsInto(pat: string, sub: string, k: nat)
    requires 0 < k < |pat| && k < |sub|
  {
    pat[|pat| - k..] == sub[..k] && CanPrecede(pat[..|pat| - k], pat)
  }

  /** The last `k` characters of `sub` begin `pat`. */
  predicate RunsOutOf(pat: string, sub: string, k: nat)
    requires 0 < k < |pat| && k < |sub|
  {
    sub[|sub| - k..] == pat[..k]
  }

  /** Neither string contains the other, and no occurrence of `pat` can run
      into or out of a replacement; or there is nothing to replace. */
  ghost predicate Repeatable(pat: string, sub: string)
  {
    || pat == sub
    || (&& !Occurs(sub, pat)
        && !Occurs(pat, sub)
        && forall k | 0 < k < |pat| && k < |sub| :: !RunsInto(pat, sub, k) && !RunsOutOf(pat, sub, k))
  }

  /** What stands before the first occurrence can precede one. */
  lemma BeforeFirstCanPrecede(s: string, pat: string, i: nat)
    requires OccursAt(s, pat, i) && forall j :: 0 <= j < i ==> !OccursAt(s, pat, j)
    ensures CanPrecede(s[..i], pat) && s == s[..i] + pat + s[i + |pat|..]
  {
    var t := s[..i] + pat;
    assert t == s[..i + |pat|];
    forall j ensures OccursAt(t, pat, j) <==> OccursAt(s, pat, j) && j <= i {
      if 0 <= j <= i { SliceOfSlice(s, 0, i + |pat|, j, j + |pat|); }
    }
  }

  lemma EndCanPrecede(head: string, pat: string, i: nat)
    requires CanPrecede(head, pat) && i <= |head|
    ensures CanPrecede(head[i..], pat)
  {
    var t := head[i..] + pat;
    assert t == (head + pat)[i..];
    forall j ensures OccursAt(t, pat, j) <==> 0 <= j && OccursAt(head + pat, pat, i + j) {
      if 0 <= j <= |t| - |pat| { SliceOfSlice(head + pat, i, |head + pat|, i + j, i + j + |pat|); }
    }
    assert OccursAt(t, pat, |t| - |pat|);
  }

  /** An occurrence of one string cannot contain one of the other. */
  lemma SeamInside(r: string, pat: string, sub: string, i: nat, a: nat)
    requires OccursAt(r, pat, i) && OccursAt(r, sub, a) && pat != sub
    requires (i <= a && a + |sub| <= i + |pat|) || (a <= i && i + |pat| <= a + |sub|)
    ensures !Repeatable(pat, sub)
  {
    if i <= a && a + |sub| <= i + |pat| {
      SliceOfSlice(r, i, i + |pat|, a, a + |sub|);
      assert OccursAt(pat, sub, a - i);
    } else {
      SliceOfSlice(r, a, a + |sub|, i, i + |pat|);
      assert OccursAt(sub, pat, i - a);
    }
  }

  /** Nor can one of `pat` begin before a replacement and end in it. */
  lemma SeamInto(head: string, r: string, pat: string, sub: string, i: nat)
    requires head <= r && CanPrecede(head, pat)
    requires OccursAt(r, pat, i) && OccursAt(r, sub, |head|) && pat != sub
    requires i < |head| < i + |pat| < |head| + |sub|
    ensures !Repeatable(pat, sub)
  {
    var k := i + |pat| - |head|;
    SliceOfSlice(r, i, i + |pat|, |head|, i + |pat|);
    SliceOfSlice(r, |head|, |head| + |sub|, |head|, i + |pat|);
    SliceOfSlice(r, i, i + |pat|, i, |head|);
    SliceOfSlice(r, 0, |head|, i, |head|);
    assert head == r[..|head|] && pat[..|pat| - k] == head[i..];
    EndCanPrecede(head, pat, i);
    assert RunsInto(pat, sub, k);
  }

  /** Nor begin in one and end after it. */
  lemma SeamOutOf(r: string, pat: string, sub: string, i: nat, a: nat)
    requires OccursAt(r, pat, i) && OccursAt(r, sub, a) && pat != sub
    requires a < i < a + |sub| < i + |pat|
    ensures !Repeatable(pat, sub)
  {
    var k := a + |sub| - i;
    SliceOfSlice(r, i, i + |pat|, i, a + |sub|);
    SliceOfSlice(r, a, a + |sub|, i, a + |sub|);
    assert RunsOutOf(pat, sub, k);
  }

  /** No occurrence of `pat` can appear across the seams of a replacement. */
  lemma SeamHasNoOccurrence(head: string, sub: string, rest: string, pat: string, i: int)
    requires pat != "" && sub != "" && pat != sub && CanPrecede(head, pat)
    requires OccursAt(head + sub + rest, pat, i)
    ensures OccursAt(head, pat, i) || OccursAt(rest, pat, i - |head| - |sub|) || !Repeatable(pat, sub)
  {
    var r := head + sub + rest;
    var a, end := |head|, i + |pat|;
    assert OccursAt(r, sub, a);
    if end <= a {
      assert r[i..end] == head[i..end];
    } else if i >= a + |sub| {
      assert r[i..end] == rest[i - a - |sub|..end - a - |sub|];
    } else if (i <= a && a + |sub| <= end) || (a <= i && end <= a + |sub|) {
      SeamInside(r, pat, sub, i, a);
    } else if i < a {
      assert head <= r;
      SeamInto(head, r, pat, sub, i);
    } else {
      SeamOutOf(r, pat, sub, i, a);
    }
  }

  /** Replacing every occurrence leaves none behind. */
  lemma {:induction false} ReplaceAllLeavesNone(s: string, pat: string, sub: string)
    requires pat != "" && sub != "" && pat != sub && Repeatable(pat, sub)
    ensures !Occurs(ReplaceAll(s, pat, sub), pat)
    decreases |s|
  {
    ReplaceAllStep(s, pat, sub);
    var i := Find(s, pat, 0);
    if i != -1 {
      var rest := s[i + |pat|..];
      ReplaceAllLeavesNone(rest, pat, sub);
      BeforeFirst(s, pat, i);
      BeforeFirstCanPrecede(s, pat, i);
      var replaced := ReplaceAll(rest, pat, sub);
      forall j ensures !OccursAt(s[..i] + sub + replaced, pat, j) {
        if OccursAt(s[..i] + sub + replaced, pat, j) {
          SeamHasNoOccurrence(s[..i], sub, replaced, pat, j);
        }
      }
    }
  }

  /** What precedes the first occurrence contains none. */
  lemma BeforeFirst(s: string, pat: string, i: nat)
    requires i <= |s| && forall j :: 0 <= j < i ==> !OccursAt(s, pat, j)
    requires pat != ""
    ensures !Occurs(s[..i], pat)
  {
    forall j ensures !OccursAt(s[..i], pat, j) {
      if 0 <= j && j + |pat| <= i {
        assert s[..i][j..j + |pat|] == s[j..j + |pat|];
        assert !OccursAt(s, pat, j);
      }
    }
  }

  lemma ReplaceAllWithoutOccurrence(s: string, pat: string, sub: string)
    requires pat != "" && !Occurs(s, pat)
    ensures ReplaceAll(s, pat, sub) == s
  {
    var i := Find(s, pat, 0);
    assert i == -1 || OccursAt(s, pat, i);
  }

  lemma {:induction false} ReplaceAllOfItself(s: string, pat: string)
    requires pat != ""
    ensures ReplaceAll(s, pat, pat) == s
  {
    SplitOnJoins(s, pat);
  }

  /** Rewriting a second time changes nothing. */
  lemma ReplaceAllIdempotent(s: string, pat: string, sub: string)
    requires pat != "" && sub != "" && Repeatable(pat, sub)
    ensures ReplaceAll(ReplaceAll(s, pat, sub), pat, sub) == ReplaceAll(s, pat, sub)
  {
    if pat == sub {
      ReplaceAllOfItself(ReplaceAll(s, pat, sub), pat);
    } else {
      ReplaceAllLeavesNone(s, pat, sub);
      ReplaceAllWithoutOccurrence(ReplaceAll(s, pat, sub), pat, sub);
    }
  }

  // When it cannot

  lemma {:induction false} ReplaceAllLength(s: string, pat: string, sub: string)
    requires pat != ""
    ensures |sub| >= |pat| ==> |ReplaceAll(s, pat, sub)| >= |s|
    ensures |sub| <= |pat| ==> |ReplaceAll(s, pat, sub)| <= |s|
    decreases |s|
  {
    ReplaceAllStep(s, pat, sub);
    var i := Find(s, pat, 0);
    if i != -1 {
      ReplaceAllLength(s[i + |pat|..], pat, sub);
    }
  }

  lemma SwapDiffers(head: string, pat: string, sub: string, rest: string, replaced: string)
    requires |sub| == |pat| && pat != sub
    ensures head + sub + replaced != head + pat + rest
  {
    var s, t := head + pat + rest, head + sub + replaced;
    assert s[|head|..|head| + |pat|] == pat && t[|head|..|head| + |sub|] == sub;
  }

  /** Text that contains `pat` is changed. */
  lemma ReplaceAllChanges(s: string, pat: string, sub: string)
    requires pat != "" && pat != sub && Occurs(s, pat)
    ensures ReplaceAll(s, pat, sub) != s
  {
    ReplaceAllStep(s, pat, sub);
    SplitStep(s, pat);
    var i := Find(s, pat, 0);
    var rest := s[i + |pat|..];
    ReplaceAllLength(rest, pat, sub);
    if |sub| == |pat| {
      SwapDiffers(s[..i], pat, sub, rest, ReplaceAll(rest, pat, sub));
    }
  }

  /** One replacement, with nothing after it to replace. */
  lemma ReplaceOne(head: string, pat: string, rest: string, sub: string)
    requires pat != "" && CanPrecede(head, pat) && |rest| < |pat|
    ensures ReplaceAll(head + pat + rest, pat, sub) == head + sub + rest
  {
    var s := head + pat + rest;
    assert (head + pat) == s[..|head| + |pat|];
    forall j | 0 <= j < |head| ensures !OccursAt(s, pat, j) {
      SliceOfSlice(s, 0, |head| + |pat|, j, j + |pat|);
      assert !OccursAt(head + pat, pat, j);
    }
    assert OccursAt(s, pat, |head|);
    assert Find(s, pat, 0) == |head|;
    ReplaceAllStep(s, pat, sub);
    assert s[..|head|] == head && s[|head| + |pat|..] == rest;
    ReplaceAllWithoutOccurrence(rest, pat, sub);
  }

  /** The first place of `sub` in `pat`: what is before it can precede `pat`. */
  lemma BeforeFirstPlace(pat: string, sub: string, a: nat)
    requires OccursAt(pat, sub, a) && forall j :: 0 <= j < a ==> !OccursAt(pat, sub, j)
    ensures CanPrecede(pat[..a], pat)
  {
    var t := pat[..a] + pat;
    assert t[a..] == pat;
    forall i | 0 <= i < a ensures !OccursAt(t, pat, i) {
      if OccursAt(t, pat, i) {
        forall j | 0 <= j < |sub| ensures pat[i + j] == sub[j] {
          assert t[i..i + |pat|][a + j] == t[i + a + j] == pat[i + j];
          assert pat[a..a + |sub|][j] == pat[a + j];
        }
        assert pat[i..i + |sub|] == sub;
        assert OccursAt(pat, sub, i);
      }
    }
    assert OccursAt(t, pat, a);
  }

  lemma Itself(s: string)
    ensures "" + s + "" == s && OccursAt(s, s, 0) && CanPrecede("", s)
  {
    assert "" + s == s;
  }

  lemma HoldingKeepsOne(pat: string, sub: string) returns (s: string)
    requires pat != "" && sub != "" && Occurs(sub, pat)
    ensures Occurs(ReplaceAll(s, pat, sub), pat)
  {
    s := "" + pat + "";
    Itself(pat);
    Itself(sub);
    ReplaceOne("", pat, "", sub);
  }

  lemma HeldKeepsOne(pat: string, sub: string) returns (s: string)
    requires pat != "" && sub != "" && Occurs(pat, sub)
    ensures Occurs(ReplaceAll(s, pat, sub), pat)
  {
    var a := Find(pat, sub, 0);
    var before, after := pat[..a], pat[a + |sub|..];
    BeforeFirstPlace(pat, sub, a);
    s := before + pat + after;
    ReplaceOne(before, pat, after, sub);
    SplitStep(pat, sub);
    Itself(pat);
  }

  lemma RunningOutKeepsOne(pat: string, sub: string, k: nat) returns (s: string)
    requires 0 < k < |pat| && k < |sub| && RunsOutOf(pat, sub, k)
    ensures Occurs(ReplaceAll(s, pat, sub), pat)
  {
    s := "" + pat + pat[k..];
    Itself(pat);
    ReplaceOne("", pat, pat[k..], sub);
    KeptAfter(pat, sub, k);
  }

  lemma RunningInKeepsOne(pat: string, sub: string, k: nat) returns (s: string)
    requires 0 < k < |pat| && k < |sub| && RunsInto(pat, sub, k)
    ensures Occurs(ReplaceAll(s, pat, sub), pat)
  {
    s := pat[..|pat| - k] + pat + "";
    ReplaceOne(pat[..|pat| - k], pat, "", sub);
    KeptBefore(pat, sub, k);
  }

  /** Each way for the two strings to meet yields a text that replacing once
      leaves containing `pat`. */
  lemma SomeTextKeepsOne(pat: string, sub: string) returns (s: string)
    requires pat != "" && sub != "" && !Repeatable(pat, sub)
    ensures Occurs(ReplaceAll(s, pat, sub), pat)
  {
    if Occurs(sub, pat) {
      s := HoldingKeepsOne(pat, sub);
    } else if Occurs(pat, sub) {
      s := HeldKeepsOne(pat, sub);
    } else {
      var k :| 0 < k < |pat| && k < |sub| && (RunsInto(pat, sub, k) || RunsOutOf(pat, sub, k));
      if RunsOutOf(pat, sub, k) {
        s := RunningOutKeepsOne(pat, sub, k);
      } else {
        s := RunningInKeepsOne(pat, sub, k);
      }
    }
  }

  lemma KeptAfter(pat: string, sub: string, k: nat)
    requires 0 < k < |pat| && k < |sub| && RunsOutOf(pat, sub, k)
    ensures OccursAt("" + sub + pat[k..], pat, |sub| - k)
  {
    var t := "" + sub + pat[k..];
    assert t[|sub| - k..|sub| - k + |pat|] == sub[|sub| - k..] + pat[k..] == pat;
  }

  lemma KeptBefore(pat: string, sub: string, k: nat)
    requires 0 < k < |pat| && k < |sub| && RunsInto(pat, sub, k)
    ensures OccursAt(pat[..|pat| - k] + sub + "", pat, 0)
  {
    var t := pat[..|pat| - k] + sub + "";
    assert t[0..|pat|] == pat[..|pat| - k] + sub[..k] == pat;
  }

  /** Replacing can be repeated on every text exactly when no occurrence can
      appear at the edge of a replacement. */
  lemma RepeatableExactly(pat: string, sub: string)
    requires pat != "" && sub != ""
    ensures (forall s :: ReplaceAll(ReplaceAll(s, pat, sub), pat, sub) == ReplaceAll(s, pat, sub))
      <==> Repeatable(pat, sub)
  {
    if Repeatable(pat, sub) {
      forall s ensures ReplaceAll(ReplaceAll(s, pat, sub), pat, sub) == ReplaceAll(s, pat, sub) {
        ReplaceAllIdempotent(s, pat, sub);
      }
    } else {
      var s := SomeTextKeepsOne(pat, sub);
      ReplaceAllChanges(ReplaceAll(s, pat, sub), pat, sub);
    }
  }

  /** The pieces of a split rejoin to the text, and no piece contains the separator. */
  lemma {:induction false} SplitOnJoins(s: string, pat: string)
    requires pat != ""
    ensures Join(SplitOn(s, pat), pat) == s
    ensures forall k :: 0 <= k < |SplitOn(s, pat)| ==> !Occurs(SplitOn(s, pat)[k], pat)
    decreases |s|
  {
    var i := Find(s, pat, 0);
    SplitStep(s, pat);
    if i == -1 {
      assert !Occurs(s, pat);
    } else {
      var rest := s[i + |pat|..];
      SplitOnJoins(rest, pat);
      JoinStep(s[..i], SplitOn(rest, pat), pat);
      BeforeFirst(s, pat, i);
    }
  }
}
