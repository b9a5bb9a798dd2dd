/** Keeping only the newest compressed rotations of a log
    (apps/minds/electron/log-rotation.js:49-68). */
module LogPruning {
  import opened RotationNames

  predicate IsRotationOf(baseName: string, name: string)
  {
    baseName + "." <= name && |name| >= 3 && name[|name| - 3..] == ".gz"
  }

  function RotationsOf(baseName: string, names: set<string>): set<string>
  {
    set n | n in names && IsRotationOf(baseName, n)
  }

  /** The names of `rotations` that sort after `name`. */
  function Newer(rotations: set<string>, name: string): set<string>
  {
    set m | m in rotations && Less(name, m)
  }

  /** The rotations with at least `keep` newer ones beside them. */
  function Excess(rotations: set<string>, keep: nat): set<string>
  {
    set n | n in rotations && |Newer(rotations, n)| >= keep
  }

  // Sorting

  function Insert(name: string, sorted: seq<string>): seq<string>
  {
    if sorted == [] || Less(name, sorted[0]) then [name] + sorted else [sorted[0]] + Insert(name, sorted[1..])
  }

  function Sort(names: seq<string>): seq<string>
  {
    if names == [] then [] else Insert(names[0], Sort(names[1..]))
  }

  predicate Ascending(s: seq<string>)
  {
    forall i, j :: 0 <= i < j < |s| ==> Less(s[i], s[j])
  }

  lemma {:induction false} InsertAscends(name: string, s: seq<string>)
    requires Ascending(s) && name !in s
    ensures Ascending(Insert(name, s)) && |Insert(name, s)| == |s| + 1
    ensures forall x :: x in Insert(name, s) <==> x == name || x in s
  {
    if s != [] {
      if Less(name, s[0]) {
        forall i | 0 <= i < |s| ensures Less(name, s[i]) {
          if i > 0 { LessTransitive(name, s[0], s[i]); }
        }
      } else {
        LessTotal(name, s[0]);
        InsertAscends(name, s[1..]);
        var rest := Insert(name, s[1..]);
        forall i | 0 <= i < |rest| ensures Less(s[0], rest[i]) {
          assert rest[i] in rest;
        }
      }
    }
  }

  lemma {:induction false} SortAscends(names: seq<string>)
    requires forall i, j :: 0 <= i < j < |names| ==> names[i] != names[j]
    ensures Ascending(Sort(names)) && |Sort(names)| == |names|
    ensures forall x :: x in Sort(names) <==> x in names
  {
    if names != [] {
      SortAscends(names[1..]);
      InsertAscends(names[0], Sort(names[1..]));
    }
  }

  lemma {:induction false} SizeOf(s: seq<string>)
    requires forall i, j :: 0 <= i < j < |s| ==> s[i] != s[j]
    ensures |set x | x in s| == |s|
  {
    if s != [] {
      SizeOf(s[1..]);
      assert (set x | x in s) == {s[0]} + (set x | x in s[1..]);
    }
  }

  /** In an ascending list, as many names are newer than the i-th as follow it. */
  lemma NewerFollow(s: seq<string>, all: set<string>, i: nat)
    requires Ascending(s) && i < |s| && forall x :: x in all <==> x in s
    ensures |Newer(all, s[i])| == |s| - 1 - i
  {
    var rest := s[i + 1..];
    forall j, k | 0 <= j < k < |s| ensures s[j] != s[k] { LessIrreflexive(s[j]); }
    SizeOf(rest);
    forall x ensures x in Newer(all, s[i]) <==> x in rest {
      if x in Newer(all, s[i]) {
        var j :| 0 <= j < |s| && s[j] == x;
        if j <= i {
          LessIrreflexive(x);
          if j < i { LessTransitive(x, s[i], x); }
        }
        assert x == rest[j - i - 1];
      }
    }
    assert Newer(all, s[i]) == set x | x in rest;
  }

  // Pruning

  class Directory {
    var names: set<string>
    /** The files this process cannot delete. */
    const undeletable: set<string>

    constructor (names: set<string>, undeletable: set<string>)
      ensures this.names == names && this.undeletable == undeletable
    {
      this.names, this.undeletable := names, undeletable;
    }

    /** The rotations of one file, in whatever order the directory lists them. */
    method List(baseName: string) returns (listed: seq<string>)
      ensures forall i, j :: 0 <= i < j < |listed| ==> listed[i] != listed[j]
      ensures forall x :: x in listed <==> x in RotationsOf(baseName, names)
    {
      listed := [];
      var remaining := RotationsOf(baseName, names);
      while remaining != {}
        invariant forall x :: x in RotationsOf(baseName, names) <==> x in listed || x in remaining
        invariant forall i, j :: 0 <= i < j < |listed| ==> listed[i] != listed[j]
        invariant forall x :: x in listed ==> x !in remaining
        decreases |remaining|
      {
        var x :| x in remaining;
        listed := listed + [x];
        remaining := remaining - {x};
      }
    }

    /** Deletes the oldest rotations beyond the newest `keep`; one that cannot be deleted is skipped. */
    method Prune(baseName: string, keep: nat)
      modifies this
      ensures names == old(names) - (Excess(RotationsOf(baseName, old(names)), keep) - undeletable)
    {
      var listed := List(baseName);
      SortAscends(listed);
      var rotated := Sort(listed);
      ghost var all := RotationsOf(baseName, names);
      var excess := |rotated| - keep;
      var i := 0;
      while i < excess
        invariant 0 <= i <= |rotated| && (i <= excess || i == 0)
        invariant names == old(names) - ((set x | x in rotated[..i]) - undeletable)
      {
        if rotated[i] !in undeletable { names := names - {rotated[i]}; }
        assert rotated[..i + 1] == rotated[..i] + [rotated[i]];
        i := i + 1;
      }
      ExcessIsOldest(rotated, all, keep, i);
    }
  }

  lemma ExcessIsOldest(sorted: seq<string>, all: set<string>, keep: nat, cut: nat)
    requires Ascending(sorted) && forall x :: x in all <==> x in sorted
    requires cut == if |sorted| > keep then |sorted| - keep else 0
    ensures (set x | x in sorted[..cut]) == Excess(all, keep)
  {
    forall x ensures x in Excess(all, keep) <==> x in sorted[..cut] {
      if x in all {
        var i :| 0 <= i < |sorted| && sorted[i] == x;
        NewerFollow(sorted, all, i);
        if i < cut { assert x == sorted[..cut][i]; }
        if x in sorted[..cut] {
          var j :| 0 <= j < cut && sorted[j] == x;
          LessIrreflexive(x);
          assert i == j;
        }
      }
    }
  }

  // What is left

  /** All rotations are kept when there are at most `keep`, else exactly
      `keep`; and each one kept is newer than everything removed. */
  lemma KeptAreNewest(rotations: set<string>, keep: nat)
    ensures var kept := rotations - Excess(rotations, keep);
      && |kept| == (if |rotations| <= keep then |rotations| else keep)
      && (|rotations| <= keep ==> kept == rotations)
      && forall n, m :: n in kept && m in Excess(rotations, keep) ==> Less(m, n)
  {
    var removed := Excess(rotations, keep);
    var kept := rotations - removed;
    forall n, m | n in kept && m in removed ensures Less(m, n) {
      LessTotal(m, n);
      if Less(n, m) {
        assert Newer(rotations, m) <= Newer(rotations, n) by {
          forall x | x in Newer(rotations, m) ensures x in Newer(rotations, n) { LessTransitive(n, m, x); }
        }
        Subset(Newer(rotations, m), Newer(rotations, n));
      }
    }
    if kept != {} {
      var oldest := Oldest(kept);
      assert kept <= Newer(rotations, oldest) + {oldest};
      Subset(kept, Newer(rotations, oldest) + {oldest});
    }
    if removed != {} {
      var newest := Newest(removed);
      assert Newer(rotations, newest) <= kept by {
        forall x | x in Newer(rotations, newest) ensures x in kept {
          LessIrreflexive(x);
          if Less(x, newest) { LessTransitive(x, newest, x); }
        }
      }
      Subset(Newer(rotations, newest), kept);
      assert kept < rotations;
      Subset(kept, rotations);
    }
    if |rotations| <= keep {
      forall n | n in rotations ensures n !in removed {
        LessIrreflexive(n);
        assert Newer(rotations, n) <= rotations - {n};
        Subset(Newer(rotations, n), rotations - {n});
      }
    }
  }

  lemma {:induction false} Subset(a: set<string>, b: set<string>)
    requires a <= b
    ensures |a| <= |b|
  {
    if a != {} {
      var x :| x in a;
      Subset(a - {x}, b - {x});
    }
  }

  lemma {:induction false} Oldest(s: set<string>) returns (oldest: string)
    requires s != {}
    ensures oldest in s && forall x :: x in s ==> x == oldest || Less(oldest, x)
  {
    var x :| x in s;
    if s == {x} {
      oldest := x;
    } else {
      var y := Oldest(s - {x});
      LessTotal(x, y);
      oldest := if Less(x, y) then x else y;
      forall z | z in s ensures z == oldest || Less(oldest, z) {
        if z != x && z != y && oldest == x { LessTransitive(x, y, z); }
      }
    }
  }

  lemma {:induction false} Newest(s: set<string>) returns (newest: string)
    requires s != {}
    ensures newest in s && forall x :: x in s ==> x == newest || Less(x, newest)
  {
    var x :| x in s;
    if s == {x} {
      newest := x;
    } else {
      var y := Newest(s - {x});
      LessTotal(x, y);
      newest := if Less(x, y) then y else x;
      forall z | z in s ensures z == newest || Less(z, newest) {
        if z != x && z != y && newest == x { LessTransitive(z, y, x); }
      }
    }
  }

  /** Only compressed rotations of this very log are ever deleted: their names
      are the log's name, a dot, and something that ends in the suffix. */
  lemma PrunesOnlyRotations(baseName: string, names: set<string>, keep: nat, name: string)
    requires name in Excess(RotationsOf(baseName, names), keep)
    ensures name in names && |name| > |baseName| && name[..|baseName|] == baseName && name[|baseName|] == '.'
    ensures |name| > 2 && name[|name| - 3] == '.' && name[|name| - 2] == 'g' && name[|name| - 1] == 'z'
  {
    assert name[..|baseName + "."|] == baseName + ".";
    assert name[|name| - 3..][0] == '.' && name[|name| - 3..][1] == 'g' && name[|name| - 3..][2] == 'z';
  }

  /** And every name the sink's compressor gives is one of those looked at. */
  lemma RotatedNamesAreSeen(baseName: string, t: Instant, names: set<string>)
    requires RotatedName(baseName, t) in names
    ensures RotatedName(baseName, t) in RotationsOf(baseName, names)
  {
    RotatedNameParts(baseName, RotationTimestamp(t));
  }

  lemma RotatedNameParts(baseName: string, stamp: string)
    ensures IsRotationOf(baseName, baseName + "." + stamp + ".gz")
  {
    var name := baseName + "." + stamp + ".gz";
    assert name[|name| - 3..] == ".gz";
  }

  /** With rotation-timestamp names, "newer" is later in time: pruning keeps
      at most `keep` rotations, and each was made after every one it removed. */
  lemma PruningKeepsLatest(baseName: string, instants: set<Instant>, keep: nat)
    requires forall t <- instants :: IsValid(t) && t.year <= 9999
    ensures var rotations := set t | t in instants :: RotatedName(baseName, t);
      && |rotations - Excess(rotations, keep)| <= keep
      && forall a, b | a in instants && b in instants &&
           RotatedName(baseName, a) in Excess(rotations, keep) && RotatedName(baseName, b) !in Excess(rotations, keep) ::
           Millis(a) < Millis(b)
  {
    var rotations := set t | t in instants :: RotatedName(baseName, t);
    KeptAreNewest(rotations, keep);
    forall a, b | a in instants && b in instants
      && RotatedName(baseName, a) in Excess(rotations, keep) && RotatedName(baseName, b) !in Excess(rotations, keep)
      ensures Millis(a) < Millis(b)
    {
      RotatedNamesOrdered(baseName, a, b);
    }
  }
}
