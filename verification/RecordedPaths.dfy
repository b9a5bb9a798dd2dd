/** Rewriting the legacy root's path wherever a moved file points at it
    (apps/minds/electron/migrate-data-dir.js:106-141). */
module RecordedPaths {
  import opened Options
  import opened FileSystem
  import opened MigrationPlan
  import opened MigrationStates
  import Text

  // The walk: what is still to be visited

  predicate Strictly(top: Path, p: Path)
  {
    top <= p && top != p
  }

  predicate Covered(stack: seq<Path>, p: Path)
  {
    exists k :: 0 <= k < |stack| && Strictly(stack[k], p)
  }

  /** Under one of the entries `names[j..]` of `dir`, or one of them. */
  predicate Pending(dir: Path, names: seq<string>, j: nat, p: Path)
  {
    Strictly(dir, p) && exists k :: j <= k < |names| && names[k] == p[|dir|]
  }

  /** `now` is `fs0` with everything but what is still to be visited rewritten. */
  ghost predicate Walked(r: Roots, fs0: Files, now: Files, stack: seq<Path>, dir: Path, names: seq<string>, j: nat)
  {
    forall p :: At(now, p) ==
                if InScope(r, p) && !Covered(stack, p) && !Pending(dir, names, j, p)
                then Rewritten(r, At(fs0, p)) else At(fs0, p)
  }

  predicate AllApart(stack: seq<Path>)
  {
    forall i, k :: 0 <= i < k < |stack| ==> Apart(stack[i], stack[k])
  }

  /** The directories of the walk are apart, and none below them has been visited. */
  ghost predicate Frontier(r: Roots, fs0: Files, stack: seq<Path>, unvisited: set<Path>)
  {
    && AllApart(stack)
    && (forall k :: 0 <= k < |stack| ==> ScopeDir(r) <= stack[k])
    && (forall k :: 0 <= k < |stack| ==> IsDirectory(fs0, stack[k]))
    && (forall k, p :: 0 <= k < |stack| && stack[k] <= p && IsDirectory(fs0, p) ==> p in unvisited)
  }

  // How many files are rewritten

  /** The files in scope whose text names the legacy root. */
  ghost predicate NamesLegacy(r: Roots, fs: Files, p: Path)
  {
    p in fs && InScope(r, p) && fs[p].File? && Text.Occurs(fs[p].text, TextOf(r.legacy))
  }

  ghost function Naming(r: Roots, fs: Files): set<Path>
  {
    set p | p in fs && NamesLegacy(r, fs, p)
  }

  /** Those of them the walk has reached. */
  ghost function Reached(r: Roots, fs0: Files, stack: seq<Path>, dir: Path, names: seq<string>, j: nat): set<Path>
  {
    set p | p in Naming(r, fs0) && !Covered(stack, p) && !Pending(dir, names, j, p)
  }

  ghost function Counted(r: Roots, fs0: Files, stack: seq<Path>, dir: Path, names: seq<string>, j: nat): nat
  {
    |Reached(r, fs0, stack, dir, names, j)|
  }

  lemma ReachedByPop(r: Roots, fs0: Files, stack: seq<Path>, names: seq<string>)
    requires Tree(fs0) && stack != []
    requires forall n :: stack[|stack| - 1] + [n] in fs0 ==> n in names
    ensures Counted(r, fs0, stack[..|stack| - 1], stack[|stack| - 1], names, 0) == Counted(r, fs0, stack, [], [], 0)
  {
    var top := |stack| - 1;
    forall p | p in Naming(r, fs0)
      ensures Covered(stack, p) <==> Covered(stack[..top], p) || Pending(stack[top], names, 0, p)
    {
      assert stack == stack[..top] + [stack[top]];
      CoveredPush(stack[..top], stack[top], p);
      if Strictly(stack[top], p) { EntryOf(fs0, stack[top], p); }
    }
    assert Reached(r, fs0, stack[..top], stack[top], names, 0) == Reached(r, fs0, stack, [], [], 0);
  }

  lemma ReachedByPush(r: Roots, fs0: Files, stack: seq<Path>, dir: Path, names: seq<string>, j: nat)
    requires j < |names| && IsDirectory(fs0, dir + [names[j]])
    requires forall i, k :: 0 <= i < k < |names| ==> names[i] != names[k]
    ensures Counted(r, fs0, stack + [dir + [names[j]]], dir, names, j + 1) == Counted(r, fs0, stack, dir, names, j)
  {
    forall p | p in Naming(r, fs0)
      ensures Covered(stack + [dir + [names[j]]], p) || Pending(dir, names, j + 1, p) <==>
        Covered(stack, p) || Pending(dir, names, j, p)
    {
      CoveredPush(stack, dir + [names[j]], p);
      PendingStep(dir, names, j, p);
    }
    assert Reached(r, fs0, stack + [dir + [names[j]]], dir, names, j + 1) == Reached(r, fs0, stack, dir, names, j);
  }

  lemma PendingButEntry(fs0: Files, dir: Path, names: seq<string>, j: nat, p: Path)
    requires Tree(fs0) && j < |names| && !IsDirectory(fs0, dir + [names[j]]) && p in fs0
    requires forall i, k :: 0 <= i < k < |names| ==> names[i] != names[k]
    ensures Pending(dir, names, j, p) <==> Pending(dir, names, j + 1, p) || p == dir + [names[j]]
    ensures !Pending(dir, names, j + 1, dir + [names[j]])
  {
    var entry := dir + [names[j]];
    PendingStep(dir, names, j, p);
    PendingStep(dir, names, j, entry);
    if entry <= p && p != entry { AncestorsAreDirs(fs0, entry, p); }
  }

  lemma OneMore(before: set<Path>, after: set<Path>, entry: Path, isIn: bool)
    requires entry !in before && (entry in after <==> isIn)
    requires forall p :: p != entry ==> (p in after <==> p in before)
    ensures |after| == |before| + if isIn then 1 else 0
  {
    assert after == if isIn then before + {entry} else before;
  }

  lemma ReachedByEntry(r: Roots, fs0: Files, stack: seq<Path>, dir: Path, names: seq<string>, j: nat)
    requires Tree(fs0) && j < |names| && !IsDirectory(fs0, dir + [names[j]]) && !Covered(stack, dir + [names[j]])
    requires forall i, k :: 0 <= i < k < |names| ==> names[i] != names[k]
    ensures Counted(r, fs0, stack, dir, names, j + 1) ==
      Counted(r, fs0, stack, dir, names, j) + if NamesLegacy(r, fs0, dir + [names[j]]) then 1 else 0
  {
    var entry := dir + [names[j]];
    PendingStep(dir, names, j, entry);
    var before, after := Reached(r, fs0, stack, dir, names, j), Reached(r, fs0, stack, dir, names, j + 1);
    forall p | p != entry ensures p in after <==> p in before {
      if p in Naming(r, fs0) { PendingButEntry(fs0, dir, names, j, p); }
    }
    OneMore(before, after, entry, NamesLegacy(r, fs0, entry));
  }

  lemma ReachedAtEnds(r: Roots, fs0: Files, stack: seq<Path>, dir: Path, names: seq<string>)
    ensures Counted(r, fs0, stack, dir, names, |names|) == Counted(r, fs0, stack, [], [], 0)
    ensures Counted(r, fs0, [], [], [], 0) == |Naming(r, fs0)|
    ensures Counted(r, fs0, [ScopeDir(r)], [], [], 0) == 0
  {
    assert Reached(r, fs0, stack, dir, names, |names|) == Reached(r, fs0, stack, [], [], 0);
    assert Reached(r, fs0, [], [], [], 0) == Naming(r, fs0);
    forall p | p in Naming(r, fs0) ensures Covered([ScopeDir(r)], p) {
      assert Strictly([ScopeDir(r)][0], p);
    }
    assert Reached(r, fs0, [ScopeDir(r)], [], [], 0) == {};
  }

  // Steps of the walk

  lemma PopStep(r: Roots, fs0: Files, now: Files, stack: seq<Path>, names: seq<string>)
    requires Tree(now) && stack != []
    requires Walked(r, fs0, now, stack, [], [], 0)
    requires forall n :: n in names <==> stack[|stack| - 1] + [n] in now
    ensures Walked(r, fs0, now, stack[..|stack| - 1], stack[|stack| - 1], names, 0)
  {
    var top := |stack| - 1;
    var dir := stack[top];
    forall p ensures At(now, p) == if InScope(r, p) && !Covered(stack[..top], p) && !Pending(dir, names, 0, p)
                                   then Rewritten(r, At(fs0, p)) else At(fs0, p)
    {
      assert Covered(stack, p) <==> Covered(stack[..top], p) || Strictly(dir, p) by {
        if Covered(stack, p) && !Strictly(dir, p) {
          var k :| 0 <= k < |stack| && Strictly(stack[k], p);
          assert stack[..top][k] == stack[k];
        }
        if Strictly(dir, p) { assert Strictly(stack[top], p); }
        if Covered(stack[..top], p) {
          var k :| 0 <= k < top && Strictly(stack[..top][k], p);
          assert Strictly(stack[k], p);
        }
      }
      if Strictly(dir, p) && !Pending(dir, names, 0, p) {
        EntryOf(now, dir, p);
        assert p !in now;
      }
    }
  }

  lemma EntryOf(fs: Files, dir: Path, p: Path)
    requires Tree(fs) && Strictly(dir, p)
    ensures dir + [p[|dir|]] <= p
    ensures p in fs ==> dir + [p[|dir|]] in fs
    ensures p in fs && p != dir + [p[|dir|]] ==> IsDirectory(fs, dir + [p[|dir|]])
  {
    PrefixOfExtension(dir, p[|dir|], p);
    if p in fs && p != dir + [p[|dir|]] {
      AncestorsAreDirs(fs, dir + [p[|dir|]], p);
    }
  }

  lemma PendingStep(dir: Path, names: seq<string>, j: nat, p: Path)
    requires j < |names|
    requires forall i, k :: 0 <= i < k < |names| ==> names[i] != names[k]
    ensures Pending(dir, names, j, p) <==> Pending(dir, names, j + 1, p) || dir + [names[j]] <= p
    ensures !(Pending(dir, names, j + 1, p) && dir + [names[j]] <= p)
  {
    PrefixOfExtension(dir, names[j], p);
    if dir + [names[j]] <= p {
      assert Strictly(dir, p) && names[j] == p[|dir|];
    }
  }

  /** Putting a directory entry aside for later. */
  lemma PushStep(r: Roots, fs0: Files, now: Files, stack: seq<Path>, dir: Path, names: seq<string>, j: nat)
    requires j < |names|
    requires forall i, k :: 0 <= i < k < |names| ==> names[i] != names[k]
    requires IsDirectory(fs0, dir + [names[j]])
    requires Walked(r, fs0, now, stack, dir, names, j)
    ensures Walked(r, fs0, now, stack + [dir + [names[j]]], dir, names, j + 1)
  {
    var entry := dir + [names[j]];
    var pushed := stack + [entry];
    forall p ensures At(now, p) == if InScope(r, p) && !Covered(pushed, p) && !Pending(dir, names, j + 1, p)
                                   then Rewritten(r, At(fs0, p)) else At(fs0, p)
    {
      PendingStep(dir, names, j, p);
      CoveredPush(stack, entry, p);
    }
  }

  lemma CoveredPush(stack: seq<Path>, entry: Path, p: Path)
    ensures Covered(stack + [entry], p) <==> Covered(stack, p) || Strictly(entry, p)
  {
    var pushed := stack + [entry];
    if Covered(stack, p) {
      var k :| 0 <= k < |stack| && Strictly(stack[k], p);
      assert pushed[k] == stack[k];
    }
    if Strictly(entry, p) {
      assert pushed[|stack|] == entry;
    }
  }

  /** Passing over, or rewriting, an entry that is not a directory. */
  lemma EntryStep(r: Roots, fs0: Files, now: Files, next: Files, stack: seq<Path>, dir: Path, names: seq<string>, j: nat)
    requires Tree(fs0) && j < |names|
    requires forall i, k :: 0 <= i < k < |names| ==> names[i] != names[k]
    requires !IsDirectory(fs0, dir + [names[j]])
    requires !Covered(stack, dir + [names[j]])
    requires Walked(r, fs0, now, stack, dir, names, j)
    requires forall p :: p != dir + [names[j]] ==> At(next, p) == At(now, p)
    requires var e := dir + [names[j]];
      At(next, e) == if InScope(r, e) then Rewritten(r, At(fs0, e)) else At(fs0, e)
    ensures Walked(r, fs0, next, stack, dir, names, j + 1)
  {
    var entry := dir + [names[j]];
    forall p ensures At(next, p) == if InScope(r, p) && !Covered(stack, p) && !Pending(dir, names, j + 1, p)
                                    then Rewritten(r, At(fs0, p)) else At(fs0, p)
    {
      PendingStep(dir, names, j, p);
      if entry <= p && p != entry && p in fs0 {
        AncestorsAreDirs(fs0, entry, p);
      }
    }
  }

  lemma FrontierPush(r: Roots, fs0: Files, stack: seq<Path>, unvisited: set<Path>, dir: Path, names: seq<string>, j: nat)
    requires Frontier(r, fs0, stack, unvisited)
    requires j < |names|
    requires IsDirectory(fs0, dir + [names[j]])
    requires ScopeDir(r) <= dir
    requires forall p | Strictly(dir, p) && IsDirectory(fs0, p) :: p in unvisited
    requires forall k | 0 <= k < |stack| :: Apart(stack[k], dir) || BeforeIn(stack[k], dir, names, j)
    requires forall i, k :: 0 <= i < k < |names| ==> names[i] != names[k]
    ensures Frontier(r, fs0, stack + [dir + [names[j]]], unvisited)
    ensures forall k | 0 <= k < |stack| + 1 ::
              var s := stack + [dir + [names[j]]]; Apart(s[k], dir) || BeforeIn(s[k], dir, names, j + 1)
    ensures !Covered(stack, dir + [names[j]])
  {
    var entry := dir + [names[j]];
    var pushed := stack + [entry];
    forall k | 0 <= k < |stack| ensures Apart(stack[k], entry) {
      NotNested(stack[k], dir, names, j);
    }
    forall k, p | 0 <= k < |pushed| && pushed[k] <= p && IsDirectory(fs0, p) ensures p in unvisited {
      if k == |stack| {
        assert Strictly(dir, p) by { PrefixOfExtension(dir, names[j], p); }
      }
    }
    assert BeforeIn(entry, dir, names, j + 1);
  }

  predicate BeforeIn(d: Path, dir: Path, names: seq<string>, j: nat)
  {
    exists k :: 0 <= k < j && k < |names| && d == dir + [names[k]]
  }

  lemma NotNested(d: Path, dir: Path, names: seq<string>, j: nat)
    requires j < |names|
    requires forall i, k :: 0 <= i < k < |names| ==> names[i] != names[k]
    requires Apart(d, dir) || BeforeIn(d, dir, names, j)
    ensures Apart(d, dir + [names[j]])
  {
    var entry := dir + [names[j]];
    if BeforeIn(d, dir, names, j) {
      var k :| 0 <= k < j && d == dir + [names[k]];
      assert d[|dir|] != entry[|dir|];
    } else {
      assert dir <= entry;
      if d <= entry { Comparable(d, dir, entry); }
    }
  }

  /** What is on the stack is away from `dir`, or one of its first `j` entries. */
  ghost predicate ClearOf(stack: seq<Path>, dir: Path, names: seq<string>, j: nat)
  {
    forall k :: 0 <= k < |stack| ==> Apart(stack[k], dir) || BeforeIn(stack[k], dir, names, j)
  }

  ghost predicate AllDiffer(names: seq<string>)
  {
    forall i, k :: 0 <= i < k < |names| ==> names[i] != names[k]
  }

  /** How many of the first `j` entries are rewritten. */
  ghost function CountNaming(r: Roots, fs0: Files, dir: Path, names: seq<string>, j: nat): nat
    requires j <= |names|
  {
    if j == 0 then 0
    else CountNaming(r, fs0, dir, names, j - 1) + if NamesLegacy(r, fs0, dir + [names[j - 1]]) then 1 else 0
  }

  /** The stack once the directories among them have been pushed. */
  function Pushed(fs0: Files, stack: seq<Path>, dir: Path, names: seq<string>, j: nat): seq<Path>
    requires j <= |names|
  {
    if j == 0 then stack
    else
      var before, entry := Pushed(fs0, stack, dir, names, j - 1), dir + [names[j - 1]];
      if IsDirectory(fs0, entry) then before + [entry] else before
  }

  lemma ClearOneMore(fs0: Files, now: seq<Path>, dir: Path, names: seq<string>, j: nat)
    requires j < |names| && AllDiffer(names) && ClearOf(now, dir, names, j)
    ensures ClearOf(if IsDirectory(fs0, dir + [names[j]]) then now + [dir + [names[j]]] else now, dir, names, j + 1)
    ensures !Covered(now, dir + [names[j]])
  {
    var entry := dir + [names[j]];
    assert BeforeIn(entry, dir, names, j + 1);
    forall k | 0 <= k < |now|
      ensures Apart(now[k], entry) && (Apart(now[k], dir) || BeforeIn(now[k], dir, names, j + 1))
    {
      NotNested(now[k], dir, names, j);
    }
  }

  lemma {:induction false} PushedClear(fs0: Files, stack: seq<Path>, dir: Path, names: seq<string>, j: nat)
    requires j <= |names| && AllDiffer(names) && ClearOf(stack, dir, names, 0)
    ensures ClearOf(Pushed(fs0, stack, dir, names, j), dir, names, j)
  {
    if j > 0 {
      PushedClear(fs0, stack, dir, names, j - 1);
      ClearOneMore(fs0, Pushed(fs0, stack, dir, names, j - 1), dir, names, j - 1);
    }
  }

  ghost predicate AllBelowLeft(fs0: Files, dir: Path, unvisited: set<Path>)
  {
    forall p | Strictly(dir, p) && IsDirectory(fs0, p) :: p in unvisited
  }

  /** The directory `dir` of the scope is being read: its entries are listed
      once each, and what is on the stack was there before, away from it. */
  ghost predicate Listing(r: Roots, fs0: Files, stack: seq<Path>, unvisited: set<Path>, dir: Path, names: seq<string>)
  {
    && Tree(fs0) && ScopeDir(r) <= dir && AllDiffer(names)
    && Frontier(r, fs0, stack, unvisited)
    && AllBelowLeft(fs0, dir, unvisited) && ClearOf(stack, dir, names, 0)
  }

  /** The stack stays a frontier as directories are pushed. */
  lemma {:induction false} FrontierUpTo(r: Roots, fs0: Files, stack: seq<Path>, unvisited: set<Path>,
                                        dir: Path, names: seq<string>, j: nat)
    requires Listing(r, fs0, stack, unvisited, dir, names) && j <= |names|
    ensures Frontier(r, fs0, Pushed(fs0, stack, dir, names, j), unvisited)
    ensures ClearOf(Pushed(fs0, stack, dir, names, j), dir, names, j)
  {
    if j > 0 {
      FrontierUpTo(r, fs0, stack, unvisited, dir, names, j - 1);
      var before := Pushed(fs0, stack, dir, names, j - 1);
      if IsDirectory(fs0, dir + [names[j - 1]]) {
        FrontierPush(r, fs0, before, unvisited, dir, names, j - 1);
      }
      ClearOneMore(fs0, before, dir, names, j - 1);
    }
  }

  lemma NextEntry(r: Roots, fs0: Files, now: Files, stack: seq<Path>, unvisited: set<Path>,
                  dir: Path, names: seq<string>, j: nat)
    requires Listing(r, fs0, stack, unvisited, dir, names) && j < |names|
    requires Walked(r, fs0, now, Pushed(fs0, stack, dir, names, j), dir, names, j)
    ensures At(now, dir + [names[j]]) == At(fs0, dir + [names[j]])
    ensures !Covered(Pushed(fs0, stack, dir, names, j), dir + [names[j]])
    ensures InScope(r, dir + [names[j]]) <==> EndsWith(names[j], ".json")
  {
    var entry := dir + [names[j]];
    FrontierUpTo(r, fs0, stack, unvisited, dir, names, j);
    ClearOneMore(fs0, Pushed(fs0, stack, dir, names, j), dir, names, j);
    PendingStep(dir, names, j, entry);
    assert ScopeDir(r) <= entry;
  }

  /** One entry: a directory waits its turn, a JSON file that names the legacy root is rewritten. */
  method VisitEntry(disk: Disk, r: Roots, stack: seq<Path>, dir: Path, names: seq<string>, j: nat,
                    ghost fs0: Files, ghost unvisited: set<Path>, ghost start: seq<Path>)
    returns (io: Io, stack': seq<Path>, isRewritten: bool)
    requires disk.Valid() && Listing(r, fs0, start, unvisited, dir, names)
    requires j < |names| && stack == Pushed(fs0, start, dir, names, j)
    requires Walked(r, fs0, disk.files, stack, dir, names, j)
    modifies disk
    ensures disk.Valid()
    ensures disk.crashAfter.None? <==> old(disk.crashAfter.None?)
    ensures io != Refused && (io == Died ==> disk.crashAfter.Some? && disk.files == old(disk.files))
    ensures io == Done ==> Walked(r, fs0, disk.files, stack', dir, names, j + 1)
    ensures Touched(r, fs0, disk.files)
    ensures io == Done ==> stack' == Pushed(fs0, start, dir, names, j + 1)
    ensures io == Done ==>
              CountNaming(r, fs0, dir, names, j + 1) == CountNaming(r, fs0, dir, names, j) + if isRewritten then 1 else 0
  {
    NextEntry(r, fs0, disk.files, start, unvisited, dir, names, j);
    WalkedTouches(r, fs0, disk.files, stack, dir, names, j);
    var entry := dir + [names[j]];
    if IsDirectory(disk.files, entry) {
      PushStep(r, fs0, disk.files, stack, dir, names, j);
      return Done, stack + [entry], false;
    }
    ghost var now := disk.files;
    isRewritten := false;
    if entry in disk.files && disk.files[entry].File? && EndsWith(names[j], ".json") {
      var before := disk.files[entry].text;
      if Text.Find(before, TextOf(r.legacy), 0) == -1 {
        Text.ReplaceAllWithoutOccurrence(before, TextOf(r.legacy), TextOf(r.state));
      } else {
        assert Parent(entry) == dir;
        io := disk.WriteFile(entry, Text.ReplaceAll(before, TextOf(r.legacy), TextOf(r.state)));
        if io == Died {
          return Died, stack, false;
        }
        isRewritten := true;
      }
    }
    EntryStep(r, fs0, now, disk.files, stack, dir, names, j);
    WalkedTouches(r, fs0, disk.files, stack, dir, names, j + 1);
    return Done, stack, isRewritten;
  }

  lemma DirectoryRead(r: Roots, fs0: Files, now: Files, stack: seq<Path>, dir: Path, names: seq<string>)
    requires Walked(r, fs0, now, stack, dir, names, |names|)
    ensures Walked(r, fs0, now, stack, [], [], 0)
  {
  }

  /** Whatever the walk has reached, each path is as it was or rewritten. */
  ghost predicate Touched(r: Roots, fs0: Files, now: Files)
  {
    forall p :: At(now, p) == At(fs0, p) || (InScope(r, p) && At(now, p) == Rewritten(r, At(fs0, p)))
  }

  lemma WalkedTouches(r: Roots, fs0: Files, now: Files, stack: seq<Path>, dir: Path, names: seq<string>, j: nat)
    requires Walked(r, fs0, now, stack, dir, names, j)
    ensures Touched(r, fs0, now)
  {
  }

  lemma CountedOneMore(r: Roots, fs0: Files, now: seq<Path>, dir: Path, names: seq<string>, j: nat)
    requires Tree(fs0) && j < |names| && AllDiffer(names) && ClearOf(now, dir, names, j)
    ensures Counted(r, fs0, if IsDirectory(fs0, dir + [names[j]]) then now + [dir + [names[j]]] else now, dir, names, j + 1)
         == Counted(r, fs0, now, dir, names, j) + if NamesLegacy(r, fs0, dir + [names[j]]) then 1 else 0
  {
    ClearOneMore(fs0, now, dir, names, j);
    if IsDirectory(fs0, dir + [names[j]]) {
      ReachedByPush(r, fs0, now, dir, names, j);
    } else {
      ReachedByEntry(r, fs0, now, dir, names, j);
    }
  }

  lemma {:induction false} CountedUpTo(r: Roots, fs0: Files, stack: seq<Path>, dir: Path, names: seq<string>, j: nat)
    requires Tree(fs0) && j <= |names| && AllDiffer(names) && ClearOf(stack, dir, names, 0)
    ensures Counted(r, fs0, Pushed(fs0, stack, dir, names, j), dir, names, j)
         == Counted(r, fs0, stack, dir, names, 0) + CountNaming(r, fs0, dir, names, j)
  {
    if j > 0 {
      CountedUpTo(r, fs0, stack, dir, names, j - 1);
      PushedClear(fs0, stack, dir, names, j - 1);
      CountedOneMore(r, fs0, Pushed(fs0, stack, dir, names, j - 1), dir, names, j - 1);
    }
  }

  /** Visiting a directory reaches what is rewritten among its entries. */
  lemma CountedByDirectory(r: Roots, fs0: Files, stack: seq<Path>, names: seq<string>)
    requires Tree(fs0) && stack != []
    requires forall n :: stack[|stack| - 1] + [n] in fs0 ==> n in names
    requires forall i, k :: 0 <= i < k < |names| ==> names[i] != names[k]
    requires forall k :: 0 <= k < |stack| - 1 ==> Apart(stack[k], stack[|stack| - 1])
    ensures var top := |stack| - 1;
      Counted(r, fs0, Pushed(fs0, stack[..top], stack[top], names, |names|), [], [], 0) ==
        Counted(r, fs0, stack, [], [], 0) + CountNaming(r, fs0, stack[top], names, |names|)
  {
    var top := |stack| - 1;
    ReachedByPop(r, fs0, stack, names);
    CountedUpTo(r, fs0, stack[..top], stack[top], names, |names|);
    ReachedAtEnds(r, fs0, Pushed(fs0, stack[..top], stack[top], names, |names|), stack[top], names);
  }

  /** Rewriting changes texts, not which paths there are. */
  lemma SameNames(r: Roots, fs0: Files, now: Files, stack: seq<Path>, dir: Path)
    requires Walked(r, fs0, now, stack, [], [], 0)
    ensures forall n :: dir + [n] in now <==> dir + [n] in fs0
  {
    forall n ensures dir + [n] in now <==> dir + [n] in fs0 {
      assert At(now, dir + [n]).Some? <==> At(fs0, dir + [n]).Some?;
    }
  }

  /** The next directory of the stack, all its entries. */
  method VisitDirectory(disk: Disk, r: Roots, stack: seq<Path>, ghost fs0: Files, ghost unvisited: set<Path>)
    returns (io: Io, stack': seq<Path>, count: nat)
    requires disk.Valid() && Tree(fs0)
    requires stack != [] && Frontier(r, fs0, stack, unvisited)
    requires Walked(r, fs0, disk.files, stack, [], [], 0)
    modifies disk
    ensures disk.Valid()
    ensures disk.crashAfter.None? <==> old(disk.crashAfter.None?)
    ensures io != Refused && (io == Died ==> disk.crashAfter.Some?)
    ensures Touched(r, fs0, disk.files)
    ensures io == Done ==> Walked(r, fs0, disk.files, stack', [], [], 0)
    ensures io == Done ==> Frontier(r, fs0, stack', unvisited - {stack[|stack| - 1]})
    ensures io == Done ==>
              Counted(r, fs0, stack', [], [], 0) == Counted(r, fs0, stack, [], [], 0) + count
  {
    var top := |stack| - 1;
    var currentDir := stack[top];
    var names := disk.ReadDir(currentDir);
    PopStep(r, fs0, disk.files, stack, names);
    PopFrontier(r, fs0, stack, unvisited);
    SameNames(r, fs0, disk.files, stack, currentDir);
    CountedByDirectory(r, fs0, stack, names);
    io, stack', count := VisitEntries(disk, r, stack[..top], currentDir, names, fs0, unvisited - {currentDir});
    if io == Done {
      DirectoryRead(r, fs0, disk.files, stack', currentDir, names);
      FrontierUpTo(r, fs0, stack[..top], unvisited - {currentDir}, currentDir, names, |names|);
    }
  }

  /** The entries of one directory, in whatever order it lists them. */
  method VisitEntries(disk: Disk, r: Roots, stack: seq<Path>, dir: Path, names: seq<string>,
                      ghost fs0: Files, ghost unvisited: set<Path>)
    returns (io: Io, stack': seq<Path>, count: nat)
    requires disk.Valid() && Listing(r, fs0, stack, unvisited, dir, names)
    requires Walked(r, fs0, disk.files, stack, dir, names, 0)
    modifies disk
    ensures disk.Valid()
    ensures disk.crashAfter.None? <==> old(disk.crashAfter.None?)
    ensures io != Refused && (io == Died ==> disk.crashAfter.Some?)
    ensures Touched(r, fs0, disk.files)
    ensures io == Done ==> Walked(r, fs0, disk.files, stack', dir, names, |names|)
    ensures io == Done ==> stack' == Pushed(fs0, stack, dir, names, |names|)
    ensures io == Done ==> count == CountNaming(r, fs0, dir, names, |names|)
  {
    stack', count := stack, 0;
    var j := 0;
    while j < |names|
      invariant j <= |names|
      invariant disk.crashAfter.None? <==> old(disk.crashAfter.None?)
      invariant disk.Valid() && Walked(r, fs0, disk.files, stack', dir, names, j)
      invariant stack' == Pushed(fs0, stack, dir, names, j) && count == CountNaming(r, fs0, dir, names, j)
    {
      var isRewritten: bool;
      io, stack', isRewritten := VisitEntry(disk, r, stack', dir, names, j, fs0, unvisited, stack);
      if io == Died {
        return Died, stack', count;
      }
      if isRewritten {
        count := count + 1;
      }
      j := j + 1;
    }
    WalkedTouches(r, fs0, disk.files, stack', dir, names, j);
    return Done, stack', count;
  }

  /** Every recorded path has been rewritten, and nothing else touched. */
  ghost predicate AllRewritten(r: Roots, fs0: Files, now: Files)
  {
    forall p :: At(now, p) == if InScope(r, p) then Rewritten(r, At(fs0, p)) else At(fs0, p)
  }

  lemma NothingInScope(r: Roots, fs: Files)
    requires Tree(fs) && !IsDirectory(fs, ScopeDir(r))
    ensures AllRewritten(r, fs, fs) && Naming(r, fs) == {}
  {
    forall p | InScope(r, p) ensures p !in fs {
      if p in fs {
        AncestorsAreDirs(fs, ScopeDir(r), p);
      }
    }
  }

  lemma WalkBegins(r: Roots, fs: Files)
    requires IsDirectory(fs, ScopeDir(r))
    ensures Walked(r, fs, fs, [ScopeDir(r)], [], [], 0)
    ensures Frontier(r, fs, [ScopeDir(r)], set p | p in fs && IsDirectory(fs, p))
  {
    forall p | InScope(r, p) ensures Covered([ScopeDir(r)], p) {
      assert Strictly([ScopeDir(r)][0], p);
    }
  }

  lemma WalkEnds(r: Roots, fs0: Files, now: Files)
    requires Walked(r, fs0, now, [], [], [], 0)
    ensures AllRewritten(r, fs0, now)
  {
  }

  /** Rewrites every recorded path below the scope, or dies having rewritten some. */
  method RewriteRecordedPaths(disk: Disk, r: Roots) returns (io: Io, count: nat)
    requires disk.Valid()
    modifies disk
    ensures disk.Valid()
    ensures disk.crashAfter.None? <==> old(disk.crashAfter.None?)
    ensures io != Refused && (io == Died ==> disk.crashAfter.Some?)
    ensures Touched(r, old(disk.files), disk.files)
    ensures io == Done ==> AllRewritten(r, old(disk.files), disk.files)
    ensures io == Done ==> count == |Naming(r, old(disk.files))|
  {
    count := 0;
    var scopeDir := ScopeDir(r);
    ghost var fs0 := disk.files;
    if !IsDirectory(disk.files, scopeDir) {
      NothingInScope(r, disk.files);
      return Done, 0;
    }
    var stack := [scopeDir];
    ghost var unvisited := set p | p in fs0 && IsDirectory(fs0, p);
    WalkBegins(r, fs0);
    ReachedAtEnds(r, fs0, [], [], []);
    while stack != []
      invariant disk.Valid()
      invariant disk.crashAfter.None? <==> old(disk.crashAfter.None?)
      invariant Walked(r, fs0, disk.files, stack, [], [], 0)
      invariant Frontier(r, fs0, stack, unvisited)
      invariant count == Counted(r, fs0, stack, [], [], 0)
      decreases |unvisited|
    {
      var rewritten: nat;
      ghost var visited := stack[|stack| - 1];
      PopFrontier(r, fs0, stack, unvisited);
      io, stack, rewritten := VisitDirectory(disk, r, stack, fs0, unvisited);
      unvisited := unvisited - {visited};
      count := count + rewritten;
      if io == Died {
        return Died, count;
      }
    }
    WalkEnds(r, fs0, disk.files);
    return Done, count;
  }

  lemma PopFrontier(r: Roots, fs0: Files, stack: seq<Path>, unvisited: set<Path>)
    requires stack != [] && Frontier(r, fs0, stack, unvisited)
    ensures var top := |stack| - 1; var dir := stack[top];
      && dir in unvisited
      && Frontier(r, fs0, stack[..top], unvisited - {dir})
      && (forall p | Strictly(dir, p) && IsDirectory(fs0, p) :: p in unvisited - {dir})
      && (forall k | 0 <= k < top :: Apart(stack[..top][k], dir))
  {
    var top := |stack| - 1;
    assert stack[top] <= stack[top];
  }
}
