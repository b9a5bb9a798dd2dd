/** The one-shot move of a tier's files onto its canonical roots, and its
    recovery from being cut short anywhere
    (apps/minds/electron/migrate-data-dir.js:143-223). */
module Migration {
  import opened Options
  import opened FileSystem
  import opened MigrationPlan
  import opened MigrationStates
  import opened MigrationMoves
  import opened MigrationSteps
  import opened RecordedPaths
  import Decimal
  import Text

  datatype Outcome =
    | StateRootIsLegacyRoot
    | AlreadyMigrated
    | NoLegacyDir
    | Migrated(movedCount: nat, rewrittenCount: nat)
    | DestinationTaken(from: Path, to: Path)
    | OsError
    | Crashed

  function MovedPrefix(): string { "migrated " }

  function MovedMarker(r: Roots, movedCount: nat, rewrittenCount: nat): string
  {
    MovedPrefix() + (Decimal.Numeral(movedCount) + " entries from " + TextOf(r.legacy)
    + "\nrewrote " + Decimal.Numeral(rewrittenCount) + " recorded-path files\n")
  }

  function FreshMarker(r: Roots): string
  {
    "no legacy directory at " + TextOf(r.legacy) + "\n"
  }

  /** Whether the marker in `stateDir` is that of a migration that moved something. */
  predicate WasMoved(stateDir: Path, fs: Files)
  {
    var marker := stateDir + [MARKER];
    marker in fs && fs[marker].File? && MovedPrefix() <= fs[marker].text
  }

  // Moving

  /** Each unit still to move is still on the list. */
  ghost predicate StillPlanned(r: Roots, s0: Files, moved: set<Path>, moves: seq<Move>, i: nat)
  {
    forall u | u in Units(r, s0) && u !in moved :: exists k :: i <= k < |moves| && moves[k].from == u
  }

  ghost predicate Tracks(r: Roots, s0: Files, moved: set<Path>, s: Files)
  {
    Recoverable(r, s0) && Midway(r, s0, moved, s)
  }

  /** An entry of the plan that is there and is no socket is a unit still to move. */
  lemma MovableIsUnit(r: Roots, s0: Files, moved: set<Path>, s: Files, u: Path)
    requires Tracks(r, s0, moved, s) && IsUnit(r, u)
    ensures Exists(s, u) && s[u] != Socket <==> u in Units(r, s0) && u !in moved
  {
    LegacyPart(r, s0, moved, s, u);
    UnitOfMeaning(r, u, u);
  }

  ghost predicate Lists(s: Files, dir: Path, names: seq<string>)
  {
    forall n :: n in names <==> dir + [n] in s
  }

  lemma UnitIsListed(r: Roots, s: Files, u: Path, entryNames: seq<string>, logChildren: seq<string>)
    requires Tree(s) && u in s && IsUnit(r, u)
    requires Lists(s, r.legacy, entryNames)
    requires IsDirectory(s, r.legacy + [LOGS]) ==> Lists(s, r.legacy + [LOGS], logChildren)
    ensures Listed(r, u, entryNames, logChildren)
  {
    var n := |r.legacy|;
    var entry := r.legacy + [u[n]];
    assert entry == u[..n + 1];
    if |u| == n + 1 {
      assert u == entry;
    } else {
      assert u == entry + [u[n + 1]] && Parent(u) == entry;
      if n > 0 || entry != [] { AncestorsAreDirs(s, entry, u); }
    }
  }

  lemma UnitIsPlanned(r: Roots, s: Files, u: Path, entryNames: seq<string>, logChildren: seq<string>)
    requires Tree(s) && u in s && IsUnit(r, u)
    requires Lists(s, r.legacy, entryNames)
    requires IsDirectory(s, r.legacy + [LOGS]) ==> Lists(s, r.legacy + [LOGS], logChildren)
    ensures Move(u, To(r, u)) in PlanOf(r, entryNames, logChildren)
  {
    UnitIsListed(r, s, u, entryNames, logChildren);
    PlanIsListedUnits(r, entryNames, logChildren, Move(u, To(r, u)));
  }

  /** Reading the legacy root lists every unit still to move. */
  lemma PlanCoversUnits(r: Roots, s0: Files, moved: set<Path>, s: Files,
                        entryNames: seq<string>, logChildren: seq<string>)
    requires Tracks(r, s0, moved, s) && Tree(s)
    requires Lists(s, r.legacy, entryNames)
    requires IsDirectory(s, r.legacy + [LOGS]) ==> Lists(s, r.legacy + [LOGS], logChildren)
    ensures StillPlanned(r, s0, moved, PlanOf(r, entryNames, logChildren), 0)
  {
    var plan := PlanOf(r, entryNames, logChildren);
    forall u | u in Units(r, s0) && u !in moved ensures exists k :: 0 <= k < |plan| && plan[k].from == u {
      UnitStillThere(r, s0, moved, s, u);
      UnitIsPlanned(r, s, u, entryNames, logChildren);
      var k :| 0 <= k < |plan| && plan[k] == Move(u, To(r, u));
    }
  }

  /** Makes the directory a path goes into, then renames onto it. */
  method MovePath(disk: Disk, from: Path, to: Path) returns (io: Io, ghost made: Files)
    requires disk.Valid() && to != []
    modifies disk
    ensures disk.Valid()
    ensures disk.crashAfter.None? <==> old(disk.crashAfter.None?)
    ensures forall q :: At(made, q) == old(At(disk.files, q))
                        || (q !in old(disk.files) && q <= Parent(to) && At(made, q) == Some(Dir))
    ensures io == Done ==> forall q :: q <= Parent(to) ==> At(made, q) == Some(Dir)
    ensures io == Done ==> forall p :: At(disk.files, p) == RenamedAt(made, from, to, p)
    ensures io != Done ==> disk.files == made
    ensures io == Refused ==>
              || (exists q :: q <= Parent(to) && q in old(disk.files) && old(disk.files)[q] != Dir)
              || (!CanRename(made, from, to) && forall q :: q <= Parent(to) ==> At(made, q) == Some(Dir))
    ensures io == Died ==> disk.crashAfter.Some?
  {
    io := disk.MakeDirs(Parent(to));
    made := disk.files;
    if io == Done {
      io := disk.RenameTo(from, to);
    }
  }

  /** Moves one entry of the plan, when there is something to move. */
  method MoveOne(disk: Disk, r: Roots, m: Move, ghost s0: Files, ghost moved: set<Path>)
    returns (stop: Option<Outcome>, isMoved: bool)
    requires disk.Valid() && IsUnit(r, m.from) && m.to == To(r, m.from)
    modifies disk
    ensures disk.Valid()
    ensures disk.crashAfter.None? <==> old(disk.crashAfter.None?)
    ensures stop == Some(Crashed) ==> disk.crashAfter.Some?
    ensures stop.Some? ==> stop.value in {Crashed, OsError, DestinationTaken(m.from, m.to)}
    ensures stop == Some(DestinationTaken(m.from, m.to)) ==>
              Exists(disk.files, m.from) && Exists(disk.files, m.to) && disk.files == old(disk.files)
    ensures Tracks(r, s0, moved, old(disk.files)) ==>
              && stop in {None, Some(Crashed)}
              && (if isMoved then m.from in Units(r, s0) - moved && stop == None && Tracks(r, s0, moved + {m.from}, disk.files)
                  else Tracks(r, s0, moved, disk.files))
              && (stop == None && m.from in Units(r, s0) - moved ==> isMoved)
    ensures Separate(r) ==> MovedOne(r, m.from, old(disk.files), disk.files, stop == None)
    ensures Separate(r) && stop == Some(OsError) ==> Obstructed(r, m.from, disk.files)
  {
    if Recoverable(r, s0) && Midway(r, s0, moved, disk.files) {
      MovableIsUnit(r, s0, moved, disk.files, m.from);
    }
    if !Exists(disk.files, m.from) {
      return None, false;
    }
    if disk.files[m.from] == Socket {
      return None, false;
    }
    if Exists(disk.files, m.to) {
      if Recoverable(r, s0) && Midway(r, s0, moved, disk.files) {
        UnitStillThere(r, s0, moved, disk.files, m.from);
      }
      return Some(DestinationTaken(m.from, m.to)), false;
    }
    assert Parent(m.to) == HomeRoot(r, m.from);
    ghost var before := disk.files;
    ghost var made: Files;
    var io: Io;
    io, made := MovePath(disk, m.from, m.to);
    if Recoverable(r, s0) && Midway(r, s0, moved, before) {
      AfterMove(r, s0, moved, before, made, disk.files, m.from, io);
    }
    if Separate(r) {
      RenamedOne(r, before, made, disk.files, m.from, io);
      if io == Refused { RefusedOne(r, before, made, m.from); }
    }
    match io
    case Done => return None, true;
    case Died => return Some(Crashed), false;
    case Refused => return Some(OsError), false;
  }

  lemma AfterMove(r: Roots, s0: Files, moved: set<Path>, before: Files, made: Files, after: Files, u: Path, io: Io)
    requires Tracks(r, s0, moved, before) && u in Units(r, s0) && u !in moved
    requires forall q :: At(made, q) == At(before, q)
                         || (q !in before && q <= HomeRoot(r, u) && At(made, q) == Some(Dir))
    requires io == Done ==> forall q :: q <= HomeRoot(r, u) ==> At(made, q) == Some(Dir)
    requires io == Done ==> forall p :: At(after, p) == RenamedAt(made, u, To(r, u), p)
    requires io != Done ==> after == made
    requires io == Refused ==>
               || (exists q :: q <= HomeRoot(r, u) && q in before && before[q] != Dir)
               || (!CanRename(made, u, To(r, u)) && forall q :: q <= HomeRoot(r, u) ==> At(made, q) == Some(Dir))
    ensures io != Refused
    ensures if io == Done then Tracks(r, s0, moved + {u}, after) else Tracks(r, s0, moved, after)
  {
    DirsStep(r, s0, moved, before, made, HomeRoot(r, u));
    UnitStillThere(r, s0, moved, made, u);
    if io == Done {
      RenameStep(r, s0, moved, made, after, u);
    }
    forall q | q <= HomeRoot(r, u) && q in before ensures before[q] == Dir {
      RootsStayClear(r, s0, moved, before, q);
    }
    OutsideLegacy(r, HomeRoot(r, u), To(r, u));
    assert !(u <= To(r, u)) by {
      UnitOfMeaning(r, u, To(r, u));
    }
    assert Parent(To(r, u)) == HomeRoot(r, u);
  }

  /** Part of the way through the plan: `count` units moved since `before`. */
  ghost predicate OnCourse(r: Roots, s0: Files, before: set<Path>, moved: set<Path>, count: nat,
                           s: Files, moves: seq<Move>, i: nat)
  {
    && Tracks(r, s0, moved, s)
    && StillPlanned(r, s0, moved, moves, i)
    && before <= moved && count == |moved - before|
  }

  lemma CourseStep(r: Roots, s0: Files, before: set<Path>, moved: set<Path>, count: nat,
                   s: Files, moves: seq<Move>, i: nat, s': Files, isMoved: bool)
    requires i < |moves| && OnCourse(r, s0, before, moved, count, s, moves, i)
    requires if isMoved then moves[i].from in Units(r, s0) - moved && Tracks(r, s0, moved + {moves[i].from}, s')
             else moves[i].from !in Units(r, s0) - moved && Tracks(r, s0, moved, s')
    ensures if isMoved then OnCourse(r, s0, before, moved + {moves[i].from}, count + 1, s', moves, i + 1)
            else OnCourse(r, s0, before, moved, count, s', moves, i + 1)
  {
    var now := if isMoved then moved + {moves[i].from} else moved;
    assert now - before == if isMoved then (moved - before) + {moves[i].from} else moved - before;
    forall u | u in Units(r, s0) && u !in now ensures exists k :: i + 1 <= k < |moves| && moves[k].from == u {
      var k :| i <= k < |moves| && moves[k].from == u;
      assert k != i;
    }
  }

  lemma CourseDone(r: Roots, s0: Files, before: set<Path>, moved: set<Path>, count: nat, s: Files, moves: seq<Move>)
    requires OnCourse(r, s0, before, moved, count, s, moves, |moves|)
    ensures moved == Units(r, s0)
  {
    assert Units(r, s0) <= moved;
  }

  /** Moves everything on the plan, or stops. */
  method MoveAll(disk: Disk, r: Roots, moves: seq<Move>, ghost s0: Files, ghost before: set<Path>)
    returns (stop: Option<Outcome>, movedCount: nat, ghost moved: set<Path>)
    requires disk.Valid()
    requires forall m | m in moves :: IsUnit(r, m.from) && m.to == To(r, m.from)
    modifies disk
    ensures disk.Valid()
    ensures disk.crashAfter.None? <==> old(disk.crashAfter.None?)
    ensures stop == Some(Crashed) ==> disk.crashAfter.Some?
    ensures stop.Some? ==> stop.value.Crashed? || stop.value.OsError? || stop.value.DestinationTaken?
    ensures stop.Some? && stop.value.DestinationTaken? ==>
              Exists(disk.files, stop.value.from) && Exists(disk.files, stop.value.to)
    ensures OnCourse(r, s0, before, before, 0, old(disk.files), moves, 0) ==>
              && stop in {None, Some(Crashed)}
              && Tracks(r, s0, moved, disk.files)
              && (stop == None ==> moved == Units(r, s0) && movedCount == |moved - before|)
    ensures Separate(r) ==> MovedOn(r, old(disk.files), disk.files)
    ensures Separate(r) && PlannedFrom(r, old(disk.files), moves, 0) && stop == None ==>
              PlannedFrom(r, disk.files, moves, |moves|)
    ensures Separate(r) && stop == Some(OsError) ==> exists u :: Obstructed(r, u, disk.files)
  {
    ghost var planned := OnCourse(r, s0, before, before, 0, disk.files, moves, 0);
    movedCount, moved := 0, before;
    for i := 0 to |moves|
      invariant disk.Valid()
      invariant disk.crashAfter.None? <==> old(disk.crashAfter.None?)
      invariant planned ==> OnCourse(r, s0, before, moved, movedCount, disk.files, moves, i)
      invariant Separate(r) ==> MovedOn(r, old(disk.files), disk.files)
      invariant Separate(r) && PlannedFrom(r, old(disk.files), moves, 0) ==> PlannedFrom(r, disk.files, moves, i)
    {
      var isMoved: bool;
      ghost var was := disk.files;
      stop, isMoved := MoveOne(disk, r, moves[i], s0, moved);
      if Separate(r) {
        MovedOnStep(r, old(disk.files), was, disk.files, moves[i].from, stop == None);
      }
      if stop.Some? {
        return;
      }
      if Separate(r) && PlannedFrom(r, was, moves, i) {
        PlanStep(r, was, disk.files, moves, i);
      }
      if planned {
        CourseStep(r, s0, before, moved, movedCount, was, moves, i, disk.files, isMoved);
      }
      if isMoved {
        movedCount, moved := movedCount + 1, moved + {moves[i].from};
      }
    }
    stop := None;
    if planned {
      CourseDone(r, s0, before, moved, movedCount, disk.files, moves);
    }
  }

  // The whole migration

  /** What a launch may leave of a migration of `s0`. */
  ghost predicate Progress(r: Roots, s0: Files, s: Files, outcome: Outcome)
  {
    if outcome == Crashed then Recovering(r, s0, s)
    else (outcome.Migrated? || outcome == AlreadyMigrated) && Finished(r, s0, s)
  }

  /** Rewrites the recorded paths and drops the stale directory. */
  method CleanUp(disk: Disk, r: Roots, ghost s0: Files) returns (io: Io, rewrittenCount: nat)
    requires disk.Valid()
    modifies disk
    ensures disk.Valid()
    ensures disk.crashAfter.None? <==> old(disk.crashAfter.None?)
    ensures io != Refused && (io == Died ==> disk.crashAfter.Some?)
    ensures Tracks(r, s0, Units(r, s0), old(disk.files)) ==> Tracks(r, s0, Units(r, s0), disk.files)
    ensures Tracks(r, s0, Units(r, s0), old(disk.files)) && io == Done ==> Clean(r, disk.files)
    ensures forall p :: At(disk.files, p) == old(At(disk.files, p)) || InScope(r, p) || StaleDir(r) <= p
    ensures io == Done ==> rewrittenCount == |Naming(r, old(disk.files))|
  {
    ghost var moved := Units(r, s0);
    ghost var tracks := Recoverable(r, s0) && Midway(r, s0, moved, disk.files);
    io, rewrittenCount := RewriteRecordedPaths(disk, r);
    if tracks {
      RewriteStep(r, s0, moved, old(disk.files), disk.files);
      if io == Done {
        RewritingSettles(r, old(disk.files), disk.files);
      }
    }
    if io == Died {
      return;
    }
    ghost var rewritten := disk.files;
    if IsDirectory(disk.files, StaleDir(r)) {
      io := disk.RemoveTree(StaleDir(r));
      if tracks {
        RemoveStep(r, s0, moved, rewritten, disk.files);
        LateSteps(r, rewritten, disk.files);
      }
    }
  }

  /** Every recorded path is rewritten and the stale directory is gone. */
  ghost predicate Clean(r: Roots, s: Files)
  {
    (forall p :: InScope(r, p) ==> At(s, p) == Rewritten(r, At(s, p))) && At(s, StaleDir(r)) != Some(Dir)
  }

  /** Everything after the moves: clean up, and only then write the marker. */
  method FinishMigration(disk: Disk, r: Roots, movedCount: nat, ghost s0: Files) returns (outcome: Outcome)
    requires disk.Valid()
    modifies disk
    ensures disk.Valid()
    ensures disk.crashAfter.None? <==> old(disk.crashAfter.None?)
    ensures outcome == Crashed ==> disk.crashAfter.Some?
    ensures outcome in {Crashed, OsError, Migrated(movedCount, |Naming(r, old(disk.files))|)}
    ensures outcome.Migrated? ==> WasMoved(r.state, disk.files)
    ensures Tracks(r, s0, Units(r, s0), old(disk.files)) ==> Progress(r, s0, disk.files, outcome)
    ensures Separate(r) ==> LegacyAlike(r, old(disk.files), disk.files)
    ensures outcome == OsError ==> MarkerObstructed(r, disk.files)
  {
    ghost var tracks := Recoverable(r, s0) && Midway(r, s0, Units(r, s0), disk.files);
    var io, rewrittenCount := CleanUp(disk, r, s0);
    if io == Died {
      return Crashed;
    }
    ghost var cleaned := disk.files;
    outcome := MarkMigrated(disk, r, movedCount, rewrittenCount, s0);
    if Separate(r) {
      LegacySpared(r, old(disk.files), cleaned);
    }
  }

  /** Makes sure of the state root and writes the marker there. */
  method MarkMigrated(disk: Disk, r: Roots, movedCount: nat, rewrittenCount: nat, ghost s0: Files) returns (outcome: Outcome)
    requires disk.Valid()
    modifies disk
    ensures disk.Valid()
    ensures disk.crashAfter.None? <==> old(disk.crashAfter.None?)
    ensures outcome == Crashed ==> disk.crashAfter.Some?
    ensures outcome in {Crashed, OsError, Migrated(movedCount, rewrittenCount)}
    ensures outcome.Migrated? ==> WasMoved(r.state, disk.files)
    ensures Tracks(r, s0, Units(r, s0), old(disk.files)) && Clean(r, old(disk.files)) ==>
              Progress(r, s0, disk.files, outcome)
    ensures forall p | !(p <= MarkerPath(r)) :: At(disk.files, p) == old(At(disk.files, p))
    ensures outcome == OsError ==> MarkerObstructed(r, disk.files)
  {
    ghost var cleaned := disk.files;
    ghost var tracks := Recoverable(r, s0) && Midway(r, s0, Units(r, s0), cleaned) && Clean(r, cleaned);
    var io := disk.MakeDirs(r.state);
    assert r.state <= MarkerPath(r);
    if tracks {
      MadeState(r, s0, cleaned, disk.files);
    }
    if io != Done {
      assert io == Refused ==> StateObstructed(r, disk.files);
      return if io == Died then Crashed else OsError;
    }
    if tracks {
      MarkerFinishes(r, s0, disk.files, movedCount, rewrittenCount);
    }
    MarkerBegins(r, movedCount, rewrittenCount);
    outcome := WriteMarker(disk, r, movedCount, rewrittenCount);
  }

  /** Nothing in the legacy root differs. */
  ghost predicate LegacyAlike(r: Roots, before: Files, after: Files)
  {
    forall p | r.legacy <= p :: At(after, p) == At(before, p)
  }

  ghost predicate StateObstructed(r: Roots, fs: Files)
  {
    exists q :: q <= r.state && q in fs && fs[q] != Dir
  }

  lemma LegacySpared(r: Roots, before: Files, cleaned: Files)
    requires Separate(r)
    requires forall p :: At(cleaned, p) == At(before, p) || InScope(r, p) || StaleDir(r) <= p
    ensures forall p | r.legacy <= p :: At(cleaned, p) == At(before, p) && !(p <= MarkerPath(r))
  {
    forall p | r.legacy <= p ensures At(cleaned, p) == At(before, p) && !(p <= MarkerPath(r)) {
      if r.state <= p || p <= r.state { OutsideLegacy(r, r.state, p); }
      assert InScope(r, p) || StaleDir(r) <= p ==> r.state <= p;
      if p <= MarkerPath(r) { OutsideLegacy(r, r.state, MarkerPath(r)); }
    }
  }

  /** The last write of a migration. */
  method WriteMarker(disk: Disk, r: Roots, movedCount: nat, rewrittenCount: nat) returns (outcome: Outcome)
    requires disk.Valid()
    modifies disk
    ensures disk.Valid()
    ensures disk.crashAfter.None? <==> old(disk.crashAfter.None?)
    ensures outcome == Crashed ==> disk.crashAfter.Some?
    ensures outcome in {Crashed, OsError, Migrated(movedCount, rewrittenCount)}
    ensures outcome.Migrated? ==>
              disk.files == old(disk.files)[MarkerPath(r) := File(MovedMarker(r, movedCount, rewrittenCount))]
    ensures !outcome.Migrated? ==> disk.files == old(disk.files)
    ensures outcome == OsError ==> !CanWrite(disk.files, MarkerPath(r))
  {
    assert Parent(MarkerPath(r)) == r.state;
    var io := disk.WriteFile(MarkerPath(r), MovedMarker(r, movedCount, rewrittenCount));
    match io
    case Done => return Migrated(movedCount, rewrittenCount);
    case Died => return Crashed;
    case Refused => return OsError;
  }

  /** The marker on top of a clean, fully moved disk finishes the migration. */
  lemma MarkerFinishes(r: Roots, s0: Files, ready: Files, movedCount: nat, rewrittenCount: nat)
    requires Tracks(r, s0, Units(r, s0), ready) && Clean(r, ready) && Tree(ready)
    requires forall q :: q <= r.state ==> At(ready, q) == Some(Dir)
    ensures CanWrite(ready, MarkerPath(r))
    ensures var text := MovedMarker(r, movedCount, rewrittenCount);
      Finished(r, s0, ready[MarkerPath(r) := File(text)])
  {
    ReadyForMarker(r, s0, ready);
    assert Parent(MarkerPath(r)) == r.state;
    MarkerBegins(r, movedCount, rewrittenCount);
  }

  lemma MadeState(r: Roots, s0: Files, cleaned: Files, ready: Files)
    requires Tracks(r, s0, Units(r, s0), cleaned) && Clean(r, cleaned)
    requires forall q :: At(ready, q) == At(cleaned, q) || (q !in cleaned && q <= r.state && At(ready, q) == Some(Dir))
    ensures Tracks(r, s0, Units(r, s0), ready) && Clean(r, ready)
    ensures forall q | q <= r.state && q in cleaned :: cleaned[q] == Dir
  {
    DirsStep(r, s0, Units(r, s0), cleaned, ready, r.state);
    forall q | q <= r.state && q in cleaned ensures cleaned[q] == Dir {
      RootsStayClear(r, s0, Units(r, s0), cleaned, q);
    }
    forall p | InScope(r, p) ensures At(ready, p) == Rewritten(r, At(ready, p)) {
      if RootPath(r, p) { RootPathFacts(r, p); }
    }
    if RootPath(r, StaleDir(r)) { RootPathFacts(r, StaleDir(r)); }
  }

  lemma MarkerBegins(r: Roots, movedCount: nat, rewrittenCount: nat)
    ensures "migrated " <= MovedMarker(r, movedCount, rewrittenCount)
  {
  }

  lemma RewritingSettles(r: Roots, before: Files, after: Files)
    requires Text.Repeatable(TextOf(r.legacy), TextOf(r.state))
    requires AllRewritten(r, before, after)
    ensures forall p :: InScope(r, p) ==> At(after, p) == Rewritten(r, At(after, p))
  {
    forall p | InScope(r, p) ensures At(after, p) == Rewritten(r, At(after, p)) {
      RewrittenTwice(r, At(before, p));
    }
  }

  /** Cleaning up disturbs no recorded path. */
  lemma LateSteps(r: Roots, rewritten: Files, cleaned: Files)
    requires forall p :: At(cleaned, p) == At(rewritten, p) || (StaleDir(r) <= p && p !in cleaned)
    ensures forall p :: InScope(r, p) ==> At(cleaned, p) == At(rewritten, p)
  {
    forall p | InScope(r, p) ensures At(cleaned, p) == At(rewritten, p) {
      ScopeIsNotStale(r, p);
    }
  }

  /** Reads the legacy root and plans its moves. */
  method ListMoves(disk: Disk, r: Roots, ghost s0: Files, ghost before: set<Path>) returns (moves: seq<Move>)
    requires disk.Valid()
    ensures forall m | m in moves :: IsUnit(r, m.from) && m.to == To(r, m.from)
    ensures Tracks(r, s0, before, disk.files) ==> StillPlanned(r, s0, before, moves, 0)
    ensures PlannedFrom(r, disk.files, moves, 0)
  {
    var entryNames := disk.ReadDir(r.legacy);
    var logsDir := r.legacy + [LOGS];
    var logChildren: seq<string> := [];
    if IsDirectory(disk.files, logsDir) {
      logChildren := disk.ReadDir(logsDir);
    }
    moves := PlanMoves(r, entryNames, logChildren);
    forall m | m in moves ensures IsUnit(r, m.from) && m.to == To(r, m.from) {
      PlanIsListedUnits(r, entryNames, logChildren, m);
    }
    if Recoverable(r, s0) && Midway(r, s0, before, disk.files) {
      PlanCoversUnits(r, s0, before, disk.files, entryNames, logChildren);
    }
    PlanCoversDisk(r, disk.files, entryNames, logChildren);
  }

  /** It lists everything there is to move, whatever state the disk is in. */
  lemma PlanCoversDisk(r: Roots, s: Files, entryNames: seq<string>, logChildren: seq<string>)
    requires Tree(s) && Lists(s, r.legacy, entryNames)
    requires IsDirectory(s, r.legacy + [LOGS]) ==> Lists(s, r.legacy + [LOGS], logChildren)
    ensures PlannedFrom(r, s, PlanOf(r, entryNames, logChildren), 0)
  {
    var plan := PlanOf(r, entryNames, logChildren);
    forall u | IsUnit(r, u) && Movable(s, u) ensures exists k :: 0 <= k < |plan| && plan[k].from == u {
      UnitIsPlanned(r, s, u, entryNames, logChildren);
      var k :| 0 <= k < |plan| && plan[k] == Move(u, To(r, u));
    }
  }

  lemma NothingMovedYet(units: set<Path>, before: set<Path>)
    ensures before == {} ==> units - before == units
  {
  }

  /** Plans, moves and finishes. */
  method MoveLegacy(disk: Disk, r: Roots, ghost s0: Files, ghost before: set<Path>) returns (outcome: Outcome)
    requires disk.Valid()
    modifies disk
    ensures disk.Valid()
    ensures outcome == Crashed ==> old(disk.crashAfter.Some?)
    ensures outcome.Migrated? || outcome.DestinationTaken? || outcome in {Crashed, OsError}
    ensures outcome.DestinationTaken? ==> Exists(disk.files, outcome.from) && Exists(disk.files, outcome.to)
    ensures outcome.Migrated? ==> WasMoved(r.state, disk.files)
    ensures Tracks(r, s0, before, old(disk.files)) ==> Progress(r, s0, disk.files, outcome)
    ensures Tracks(r, s0, before, old(disk.files)) && outcome.Migrated? && before == {} ==>
              outcome.movedCount == |Units(r, s0)|
    ensures Separate(r) ==> MovesAnswered(r, old(disk.files), disk.files, outcome)
  {
    var moves := ListMoves(disk, r, s0, before);
    NothingMovedYet(Units(r, s0), before);
    var stop, movedCount;
    ghost var moved;
    assert Tracks(r, s0, before, disk.files) ==> OnCourse(r, s0, before, before, 0, disk.files, moves, 0);
    stop, movedCount, moved := MoveAll(disk, r, moves, s0, before);
    if stop.Some? {
      return stop.value;
    }
    ghost var done := disk.files;
    if Separate(r) {
      NothingLeft(r, old(disk.files), done, moves);
    }
    outcome := FinishMigration(disk, r, movedCount, s0);
    if Separate(r) {
      NoneLeftBehind(r, old(disk.files), done, disk.files);
    }
  }

  /** What the answer of a launch says of any disk with a legacy directory: a
      migration answered has left nothing behind; one that found a destination
      taken has not been finished, the marker and both copies being as they
      were; and an error names something that is in the way. */
  ghost predicate MovesAnswered(r: Roots, before: Files, after: Files, outcome: Outcome)
  {
    && (outcome.Migrated? ==> forall u | IsUnit(r, u) && Movable(before, u) :: u !in after)
    && (SomeBlocked(r, before) ==>
          (outcome.DestinationTaken? || outcome in {OsError, Crashed}) && BlockedKept(r, before, after))
    && (outcome == OsError ==> SomethingInTheWay(r, after))
  }

  lemma NoneLeftBehind(r: Roots, before: Files, done: Files, after: Files)
    requires LegacyAlike(r, done, after)
    requires forall u | IsUnit(r, u) && Movable(before, u) :: u !in done
    ensures forall u | IsUnit(r, u) && Movable(before, u) :: u !in after
  {
    forall u | IsUnit(r, u) && Movable(before, u) ensures u !in after {
      assert At(after, u) == At(done, u);
    }
  }

  /** A launch's migration, which may be cut short before any of its mutations. */
  method Migrate(disk: Disk, r: Roots, ghost s0: Files) returns (outcome: Outcome)
    requires disk.Valid()
    modifies disk
    ensures disk.Valid()
    ensures outcome == Crashed ==> old(disk.crashAfter.Some?)
    ensures outcome == StateRootIsLegacyRoot <==> r.legacy == r.state
    ensures outcome == AlreadyMigrated <==> r.legacy != r.state && Exists(old(disk.files), MarkerPath(r))
    ensures outcome in {StateRootIsLegacyRoot, AlreadyMigrated} ==> disk.files == old(disk.files)
    ensures outcome == NoLegacyDir ==> !IsDirectory(old(disk.files), r.legacy)
    ensures outcome == NoLegacyDir ==> OnlyMarked(r, old(disk.files), disk.files)
    ensures outcome.DestinationTaken? ==> Exists(disk.files, outcome.from) && Exists(disk.files, outcome.to)
    ensures outcome.Migrated? ==> WasMoved(r.state, disk.files) && IsDirectory(old(disk.files), r.legacy)
    ensures Recoverable(r, s0) && Recovering(r, s0, old(disk.files)) ==> Progress(r, s0, disk.files, outcome)
    ensures Recoverable(r, s0) && old(disk.files) == s0 && outcome.Migrated? ==> outcome.movedCount == |Units(r, s0)|
    ensures Separate(r) && outcome.Migrated? ==>
              forall u :: IsUnit(r, u) && Exists(old(disk.files), u) && old(disk.files)[u] != Socket ==> u !in disk.files
    ensures Separate(r) && !Exists(old(disk.files), MarkerPath(r)) && IsDirectory(old(disk.files), r.legacy)
            && SomeBlocked(r, old(disk.files)) ==>
              (outcome.DestinationTaken? || outcome in {OsError, Crashed}) && BlockedKept(r, old(disk.files), disk.files)
    ensures Separate(r) && outcome == OsError ==> SomethingInTheWay(r, disk.files)
  {
    ghost var before := Situation(r, s0, disk.files);
    if r.legacy == r.state {
      return StateRootIsLegacyRoot;
    }
    if Exists(disk.files, MarkerPath(r)) {
      return AlreadyMigrated;
    }
    if !IsDirectory(disk.files, r.legacy) {
      outcome := MarkFreshInstall(disk, r);
    } else {
      outcome := MoveLegacy(disk, r, s0, before);
    }
  }

  /** Where a disk in hand stands: finished, or with some units moved. */
  lemma Situation(r: Roots, s0: Files, s: Files) returns (moved: set<Path>)
    ensures Recoverable(r, s0) && (s == s0 || Recovering(r, s0, s)) ==>
              && r.legacy != r.state
              && (if Exists(s, MarkerPath(r)) then Finished(r, s0, s)
                  else Tracks(r, s0, moved, s) && IsDirectory(s, r.legacy) && (s == s0 ==> moved == {}))
  {
    moved := {};
    if Recoverable(r, s0) && s == s0 {
      Untouched(r, s0);
    }
    if Recoverable(r, s0) && Recovering(r, s0, s) && !Exists(s, MarkerPath(r)) {
      moved := MovedSoFar(r, s0, s);
    }
  }

  /** The units an unfinished migration has moved. */
  lemma MovedSoFar(r: Roots, s0: Files, s: Files) returns (moved: set<Path>)
    requires Recoverable(r, s0) && Recovering(r, s0, s) && !Exists(s, MarkerPath(r))
    ensures Tracks(r, s0, moved, s) && IsDirectory(s, r.legacy)
    ensures s == s0 ==> moved == {}
  {
    moved :| Midway(r, s0, moved, s);
    LegacyPart(r, s0, moved, s, r.legacy);
    if s == s0 {
      forall u | u in moved ensures false {
        UnitStillThere(r, s0, moved, s, u);
      }
    }
  }

  /** A marker that says nothing moved, and at most the directories above it. */
  ghost predicate OnlyMarked(r: Roots, before: Files, after: Files)
  {
    && (forall p | !(p <= MarkerPath(r)) :: At(after, p) == At(before, p))
    && At(after, MarkerPath(r)) == Some(File(FreshMarker(r)))
    && !WasMoved(r.state, after)
  }

  /** A fresh install: nothing to move, so only the marker. */
  method MarkFreshInstall(disk: Disk, r: Roots) returns (outcome: Outcome)
    requires disk.Valid()
    modifies disk
    ensures disk.Valid()
    ensures outcome == Crashed ==> old(disk.crashAfter.Some?)
    ensures outcome in {NoLegacyDir, OsError, Crashed}
    ensures forall p | !(p <= MarkerPath(r)) :: At(disk.files, p) == old(At(disk.files, p))
    ensures outcome == NoLegacyDir ==> OnlyMarked(r, old(disk.files), disk.files)
    ensures outcome == OsError ==> MarkerObstructed(r, disk.files)
  {
    var io := disk.MakeDirs(r.state);
    assert io == Refused ==> StateObstructed(r, disk.files);
    assert Parent(MarkerPath(r)) == r.state;
    assert r.state <= MarkerPath(r);
    if io == Done {
      io := disk.WriteFile(MarkerPath(r), FreshMarker(r));
    }
    FreshIsNotMoved(r);
    match io
    case Done => return NoLegacyDir;
    case Died => return Crashed;
    case Refused => return OsError;
  }

  lemma FreshIsNotMoved(r: Roots)
    ensures !(MovedPrefix() <= FreshMarker(r))
  {
    assert FreshMarker(r)[0] == 'n' && MovedPrefix()[0] == 'm';
  }

  /** Any number of launches that die part of the way, then one that does not. */
  method LaunchUntilFinished(disk: Disk, r: Roots, crashes: seq<nat>, ghost s0: Files) returns (outcome: Outcome)
    requires disk.Valid() && disk.files == s0 && Recoverable(r, s0)
    modifies disk
    ensures disk.Valid()
    ensures outcome.Migrated? || outcome == AlreadyMigrated
    ensures Finished(r, s0, disk.files)
  {
    Untouched(r, s0);
    for i := 0 to |crashes|
      invariant disk.Valid()
      invariant Recovering(r, s0, disk.files)
    {
      disk.crashAfter := Some(crashes[i]);
      outcome := Migrate(disk, r, s0);
    }
    disk.crashAfter := None;
    outcome := Migrate(disk, r, s0);
  }
}
