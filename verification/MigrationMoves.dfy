/** What the move loop does on any disk whose roots do not overlap the legacy
    one, whether or not anything stands in its way
    (apps/minds/electron/migrate-data-dir.js:176-199). */
module MigrationMoves {
  import opened Options
  import opened FileSystem
  import opened MigrationPlan
  import opened MigrationStates

  /** There is something at `u` to move: it resolves, and is no socket. */
  predicate Movable(fs: Files, u: Path)
  {
    Exists(fs, u) && fs[u] != Socket
  }

  /** A unit to move whose destination is taken. */
  predicate Blocked(r: Roots, fs: Files, u: Path)
  {
    IsUnit(r, u) && Movable(fs, u) && Exists(fs, To(r, u))
  }

  /** Both copies of a unit are as they were, with everything below them. */
  ghost predicate Kept(r: Roots, u: Path, before: Files, now: Files)
    requires IsUnit(r, u)
  {
    forall p :: u <= p || To(r, u) <= p ==> At(now, p) == At(before, p)
  }

  /** Every blocked unit is kept, and the marker is as it was. */
  ghost predicate BlockedKept(r: Roots, before: Files, now: Files)
  {
    && (forall u | Blocked(r, before, u) :: Kept(r, u, before, now))
    && At(now, MarkerPath(r)) == At(before, MarkerPath(r))
  }

  /** Units are as they were or gone, and the blocked ones are kept. */
  ghost predicate MovedOn(r: Roots, before: Files, now: Files)
  {
    (forall u | IsUnit(r, u) :: At(now, u) == At(before, u) || u !in now) && BlockedKept(r, before, now)
  }

  /** A path that was as it is, or a root directory made since. */
  predicate SameOrMade(r: Roots, before: Files, now: Files, p: Path)
  {
    At(now, p) == At(before, p) || (p !in before && RootPath(r, p) && At(now, p) == Some(Dir))
  }

  /** What moving `u` does at `p`: past it, anything at its own two places. */
  predicate OnlyItsOwn(r: Roots, u: Path, before: Files, after: Files, isPast: bool, p: Path)
    requires IsUnit(r, u)
  {
    SameOrMade(r, before, after, p) || (isPast && (u <= p || To(r, u) <= p))
  }

  /** What one entry of the plan does: at most its own two places change, and
      root directories appear. Past it, it is gone or was nothing to move; and
      one whose destination is taken is not got past. */
  ghost predicate MovedOne(r: Roots, u: Path, before: Files, after: Files, isPast: bool)
    requires IsUnit(r, u)
  {
    && (forall p :: OnlyItsOwn(r, u, before, after, isPast, p))
    && (isPast ==> !Movable(after, u) && (At(after, u) == At(before, u) || u !in after))
    && (Blocked(r, before, u) ==> !isPast)
  }

  /** What makes moving `u` fail: something at its destination that does not
      resolve, or something other than a directory above it. */
  ghost predicate Obstructed(r: Roots, u: Path, fs: Files)
  {
    && IsUnit(r, u) && Movable(fs, u)
    && (To(r, u) in fs || exists q :: q <= HomeRoot(r, u) && q in fs && fs[q] != Dir)
  }

  /** What makes writing the marker fail. */
  ghost predicate MarkerObstructed(r: Roots, fs: Files)
  {
    (exists q :: q <= r.state && q in fs && fs[q] != Dir) || (MarkerPath(r) in fs && !fs[MarkerPath(r)].File?)
  }

  ghost predicate SomethingInTheWay(r: Roots, fs: Files)
  {
    MarkerObstructed(r, fs) || exists u :: Obstructed(r, u, fs)
  }

  ghost predicate SomeBlocked(r: Roots, fs: Files)
  {
    exists u :: Blocked(r, fs, u)
  }

  /** Everything still to move is still on the list. */
  ghost predicate PlannedFrom(r: Roots, fs: Files, moves: seq<Move>, i: nat)
  {
    forall u | IsUnit(r, u) && Movable(fs, u) :: exists k :: i <= k < |moves| && moves[k].from == u
  }

  // One entry

  /** After the directories were made and, if it came to that, the rename. */
  lemma RenamedOne(r: Roots, before: Files, made: Files, after: Files, u: Path, io: Io)
    requires Separate(r) && IsUnit(r, u) && Movable(before, u) && !Exists(before, To(r, u))
    requires forall q :: At(made, q) == At(before, q)
                         || (q !in before && q <= HomeRoot(r, u) && At(made, q) == Some(Dir))
    requires io == Done ==> forall p :: At(after, p) == RenamedAt(made, u, To(r, u), p)
    requires io != Done ==> after == made
    ensures MovedOne(r, u, before, after, io == Done)
  {
    OutsideLegacy(r, HomeRoot(r, u), To(r, u));
    UnitOfMeaning(r, u, To(r, u));
    var isPast := io == Done;
    forall p ensures OnlyItsOwn(r, u, before, after, isPast, p) {
      assert SameOrMade(r, before, made, p);
    }
    if io == Done {
      OriginMeaning(r, u, u);
      InsideLegacy(r, u);
      assert At(after, u) == RenamedAt(made, u, To(r, u), u);
    }
  }

  lemma RefusedOne(r: Roots, before: Files, made: Files, u: Path)
    requires Separate(r) && IsUnit(r, u) && Movable(before, u)
    requires forall q :: At(made, q) == At(before, q)
                         || (q !in before && q <= HomeRoot(r, u) && At(made, q) == Some(Dir))
    requires
      || (exists q :: q <= HomeRoot(r, u) && q in before && before[q] != Dir)
      || (!CanRename(made, u, To(r, u)) && forall q :: q <= HomeRoot(r, u) ==> At(made, q) == Some(Dir))
    ensures Obstructed(r, u, made)
  {
    OutsideLegacy(r, HomeRoot(r, u), To(r, u));
    UnitOfMeaning(r, u, To(r, u));
    assert At(made, u) == At(before, u);
    if q :| q <= HomeRoot(r, u) && q in before && before[q] != Dir {
      assert At(made, q) == At(before, q);
    } else {
      assert Parent(To(r, u)) == HomeRoot(r, u);
    }
  }

  // The loop

  lemma BelowOthersPlace(r: Roots, u: Path, v: Path, p: Path)
    requires Separate(r) && IsUnit(r, u) && IsUnit(r, v) && u != v
    requires v <= p || To(r, v) <= p
    ensures !(u <= p) && !(To(r, u) <= p) && !RootPath(r, p)
  {
    if v <= p {
      UnitOfMeaning(r, u, p);
      UnitOfMeaning(r, v, p);
      InsideLegacy(r, p);
      OriginMeaning(r, u, p);
    } else {
      OriginMeaning(r, u, p);
      OriginMeaning(r, v, p);
      OutsideLegacy(r, HomeRoot(r, v), p);
      UnitOfMeaning(r, u, p);
    }
    BelowPlaceIsNoRoot(r, v, p);
  }

  lemma BelowPlaceIsNoRoot(r: Roots, u: Path, p: Path)
    requires Separate(r) && IsUnit(r, u) && (u <= p || To(r, u) <= p)
    ensures !RootPath(r, p)
  {
    if RootPath(r, p) {
      RootPathFacts(r, p);
      UnitOfMeaning(r, u, p);
      OriginMeaning(r, u, p);
    }
  }

  /** Other units, and what is at their places, are not touched. */
  lemma OthersSpared(r: Roots, u: Path, before: Files, after: Files, isPast: bool, v: Path)
    requires Separate(r) && IsUnit(r, u) && IsUnit(r, v) && MovedOne(r, u, before, after, isPast)
    requires u != v || !isPast
    ensures Kept(r, v, before, after)
  {
    forall p | v <= p || To(r, v) <= p ensures At(after, p) == At(before, p) {
      assert OnlyItsOwn(r, u, before, after, isPast, p);
      BelowPlaceIsNoRoot(r, v, p);
      if u != v { BelowOthersPlace(r, u, v, p); }
    }
  }

  lemma MarkerSpared(r: Roots, u: Path, before: Files, after: Files, isPast: bool)
    requires Separate(r) && IsUnit(r, u) && MovedOne(r, u, before, after, isPast)
    ensures At(after, MarkerPath(r)) == At(before, MarkerPath(r))
  {
    var p := MarkerPath(r);
    MarkerFacts(r);
    UnitOfMeaning(r, u, p);
    OriginMeaning(r, u, p);
    assert OnlyItsOwn(r, u, before, after, isPast, p);
  }

  lemma BlockedStays(r: Roots, s0: Files, s: Files, u: Path)
    requires BlockedKept(r, s0, s) && Blocked(r, s0, u)
    ensures Blocked(r, s, u)
  {
    assert Kept(r, u, s0, s);
    assert At(s, u) == At(s0, u) && At(s, To(r, u)) == At(s0, To(r, u));
  }

  lemma MovedOnStep(r: Roots, s0: Files, before: Files, after: Files, u: Path, isPast: bool)
    requires Separate(r) && IsUnit(r, u) && MovedOn(r, s0, before) && MovedOne(r, u, before, after, isPast)
    ensures MovedOn(r, s0, after)
  {
    MarkerSpared(r, u, before, after, isPast);
    forall v | Blocked(r, s0, v) ensures Kept(r, v, s0, after) {
      BlockedStays(r, s0, before, v);
      OthersSpared(r, u, before, after, isPast, v);
      assert Kept(r, v, s0, before);
    }
    forall v | IsUnit(r, v) ensures At(after, v) == At(s0, v) || v !in after {
      if v != u || !isPast {
        OthersSpared(r, u, before, after, isPast, v);
      }
    }
  }

  lemma PlanStep(r: Roots, before: Files, after: Files, moves: seq<Move>, i: nat)
    requires Separate(r) && i < |moves| && IsUnit(r, moves[i].from)
    requires MovedOne(r, moves[i].from, before, after, true) && PlannedFrom(r, before, moves, i)
    ensures PlannedFrom(r, after, moves, i + 1)
  {
    var u := moves[i].from;
    forall v | IsUnit(r, v) && Movable(after, v) ensures exists k :: i + 1 <= k < |moves| && moves[k].from == v {
      OthersSpared(r, u, before, after, true, v);
      assert At(after, v) == At(before, v);
      var k :| i <= k < |moves| && moves[k].from == v;
      assert k != i;
    }
  }

  /** Past the whole plan nothing is left to move; so nothing was blocked. */
  lemma NothingLeft(r: Roots, s0: Files, s: Files, moves: seq<Move>)
    requires Separate(r) && MovedOn(r, s0, s) && PlannedFrom(r, s, moves, |moves|)
    ensures !SomeBlocked(r, s0)
    ensures forall u | IsUnit(r, u) && Movable(s0, u) :: u !in s
  {
    forall u ensures !Blocked(r, s0, u) {
      if Blocked(r, s0, u) { BlockedStays(r, s0, s, u); }
    }
    forall u | IsUnit(r, u) && Movable(s0, u) ensures u !in s {
      assert u in s ==> At(s, u) == At(s0, u);
      assert u in s ==> Movable(s, u);
    }
  }
}
