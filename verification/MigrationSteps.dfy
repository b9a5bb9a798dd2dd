/** Each step of a migration leads from one recoverable state to another
    (apps/minds/electron/migrate-data-dir.js:106-218). */
module MigrationSteps {
  import opened Options
  import opened FileSystem
  import opened MigrationPlan
  import opened MigrationStates
  import Text

  lemma Untouched(r: Roots, s0: Files)
    requires MarkerPath(r) !in s0
    ensures Midway(r, s0, {}, s0)
  {
  }

  /** Before everything has moved, nothing but new root directories differs. */
  lemma LegacyPart(r: Roots, s0: Files, moved: set<Path>, s: Files, p: Path)
    requires Recoverable(r, s0) && Midway(r, s0, moved, s) && r.legacy <= p
    ensures At(s, p) == if UnitOf(r, p).Some? && UnitOf(r, p).value in moved then None else At(s0, p)
  {
    InsideLegacy(r, p);
    assert Fits(r, s0, moved, p, At(s, p));
    if RootPath(r, p) {
      RootPathFacts(r, p);
    }
    if StaleDir(r) <= p || ScopeDir(r) <= p {
      OutsideLegacy(r, r.state, p);
    }
  }

  /** A unit still to move is where it was, and its destination is still free. */
  lemma UnitStillThere(r: Roots, s0: Files, moved: set<Path>, s: Files, u: Path)
    requires Recoverable(r, s0) && Midway(r, s0, moved, s) && u in Units(r, s0)
    ensures (u in moved) <==> u !in s
    ensures u !in moved ==> At(s, u) == At(s0, u) && To(r, u) !in s
  {
    LegacyPart(r, s0, moved, s, u);
    UnitOfMeaning(r, u, u);
    if u !in moved {
      var p := To(r, u);
      OriginMeaning(r, u, p);
      OutsideLegacy(r, HomeRoot(r, u), p);
      if RootPath(r, p) { BelowDestinationIsNoRoot(r, u, p); }
      assert MovedAt(r, s0, moved, p) == At(s0, p) == None;
      assert Fits(r, s0, moved, p, At(s, p));
    }
  }

  /** The root directories are directories or missing throughout. */
  lemma RootsStayClear(r: Roots, s0: Files, moved: set<Path>, s: Files, q: Path)
    requires Recoverable(r, s0) && Midway(r, s0, moved, s) && RootPath(r, q)
    ensures q in s ==> s[q] == Dir
    ensures At(s0, q) == MovedAt(r, s0, moved, q)
  {
    RootPathFacts(r, q);
    assert Fits(r, s0, moved, q, At(s, q));
  }

  /** Creating a root that is needed. */
  lemma DirsStep(r: Roots, s0: Files, moved: set<Path>, s: Files, s': Files, root: Path)
    requires Recoverable(r, s0) && Midway(r, s0, moved, s)
    requires root == r.state || exists u :: u in Units(r, s0) && HomeRoot(r, u) == root
    requires forall q :: At(s', q) == At(s, q) || (q !in s && q <= root && At(s', q) == Some(Dir))
    ensures Midway(r, s0, moved, s')
  {
    MarkerFacts(r);
    assert At(s', MarkerPath(r)) == At(s, MarkerPath(r));
    forall u, q | u in moved && q <= HomeRoot(r, u) ensures At(s', q) == Some(Dir) {
      assert At(s, q) == Some(Dir);
    }
    forall p ensures Fits(r, s0, moved, p, At(s', p)) {
      assert Fits(r, s0, moved, p, At(s, p));
      if At(s', p) != At(s, p) {
        RootPathFacts(r, p);
        RootsStayClear(r, s0, moved, s, p);
      }
    }
  }

  /** Moving one more unit. */
  lemma RenameStep(r: Roots, s0: Files, moved: set<Path>, s: Files, s': Files, u: Path)
    requires Recoverable(r, s0) && Midway(r, s0, moved, s)
    requires u in Units(r, s0) && u !in moved
    requires forall q :: q <= HomeRoot(r, u) ==> At(s, q) == Some(Dir)
    requires forall p :: At(s', p) == RenamedAt(s, u, To(r, u), p)
    ensures Midway(r, s0, moved + {u}, s')
  {
    forall p ensures Fits(r, s0, moved + {u}, p, At(s', p)) {
      RenameOnePath(r, s0, moved, s, s', u, p);
    }
    RenameKeepsRoots(r, s0, moved, s, s', u);
  }

  lemma RenameKeepsRoots(r: Roots, s0: Files, moved: set<Path>, s: Files, s': Files, u: Path)
    requires Separate(r) && moved <= Units(r, s0) && u in Units(r, s0)
    requires MarkerPath(r) !in s
    requires forall v, q | v in moved && q <= HomeRoot(r, v) :: At(s, q) == Some(Dir)
    requires forall q :: q <= HomeRoot(r, u) ==> At(s, q) == Some(Dir)
    requires forall p :: At(s', p) == RenamedAt(s, u, To(r, u), p)
    ensures MarkerPath(r) !in s'
    ensures forall v, q | v in moved + {u} && q <= HomeRoot(r, v) :: At(s', q) == Some(Dir)
  {
    MarkerFacts(r);
    RenameSpares(r, s, s', u, MarkerPath(r));
    forall v, q | v in moved + {u} && q <= HomeRoot(r, v) ensures At(s', q) == Some(Dir) {
      RootPathFacts(r, q);
      RenameSpares(r, s, s', u, q);
    }
  }

  lemma RenameSpares(r: Roots, s: Files, s': Files, u: Path, p: Path)
    requires Separate(r) && IsUnit(r, u)
    requires forall p :: At(s', p) == RenamedAt(s, u, To(r, u), p)
    requires Origin(r, p) != Some(u) && UnitOf(r, p) != Some(u)
    ensures At(s', p) == At(s, p)
  {
    OriginMeaning(r, u, p);
    UnitOfMeaning(r, u, p);
    assert At(s', p) == RenamedAt(s, u, To(r, u), p);
  }

  lemma RenameOnePath(r: Roots, s0: Files, moved: set<Path>, s: Files, s': Files, u: Path, p: Path)
    requires Recoverable(r, s0) && Midway(r, s0, moved, s)
    requires u in Units(r, s0) && u !in moved
    requires forall p :: At(s', p) == RenamedAt(s, u, To(r, u), p)
    ensures Fits(r, s0, moved + {u}, p, At(s', p))
  {
    assert At(s', p) == RenamedAt(s, u, To(r, u), p);
    if To(r, u) <= p {
      LandedFits(r, s0, moved, s, u, p);
    } else if u <= p {
      UnitOfMeaning(r, u, p);
      InsideLegacy(r, p);
    } else {
      SparedFits(r, s0, moved, s, u, p);
    }
  }

  lemma LandedFits(r: Roots, s0: Files, moved: set<Path>, s: Files, u: Path, p: Path)
    requires Recoverable(r, s0) && Midway(r, s0, moved, s)
    requires u in Units(r, s0) && u !in moved && To(r, u) <= p
    ensures Fits(r, s0, moved + {u}, p, At(s, u + p[|To(r, u)|..]))
  {
    OriginMeaning(r, u, p);
    var q := u + p[|To(r, u)|..];
    UnitOfMeaning(r, u, q);
    LegacyPart(r, s0, moved, s, q);
  }

  lemma SparedFits(r: Roots, s0: Files, moved: set<Path>, s: Files, u: Path, p: Path)
    requires Recoverable(r, s0) && Midway(r, s0, moved, s)
    requires u in Units(r, s0) && u !in moved && !(To(r, u) <= p) && !(u <= p)
    ensures Fits(r, s0, moved + {u}, p, At(s, p))
  {
    OriginMeaning(r, u, p);
    UnitOfMeaning(r, u, p);
    assert moved != Units(r, s0);
    assert Fits(r, s0, moved, p, At(s, p));
    assert MovedAt(r, s0, moved + {u}, p) == MovedAt(r, s0, moved, p);
  }

  lemma RewrittenTwice(r: Roots, node: Option<Node>)
    requires Text.Repeatable(TextOf(r.legacy), TextOf(r.state))
    ensures Rewritten(r, Rewritten(r, node)) == Rewritten(r, node)
  {
    if node.Some? && node.value.File? {
      Text.ReplaceAllIdempotent(node.value.text, TextOf(r.legacy), TextOf(r.state));
    }
  }

  /** Rewriting any of the recorded paths. */
  lemma RewriteStep(r: Roots, s0: Files, moved: set<Path>, s: Files, s': Files)
    requires Recoverable(r, s0) && Midway(r, s0, moved, s) && moved == Units(r, s0)
    requires forall p :: At(s', p) == At(s, p) || (InScope(r, p) && At(s', p) == Rewritten(r, At(s, p)))
    ensures Midway(r, s0, moved, s')
  {
    MarkerFacts(r);
    assert At(s', MarkerPath(r)) == At(s, MarkerPath(r));
    forall u, q | u in moved && q <= HomeRoot(r, u) ensures At(s', q) == Some(Dir) {
      RootPathFacts(r, q);
      assert At(s', q) == At(s, q);
    }
    forall p ensures Fits(r, s0, moved, p, At(s', p)) {
      assert Fits(r, s0, moved, p, At(s, p));
      RewrittenTwice(r, MovedAt(r, s0, moved, p));
      ScopeIsNotStale(r, p);
      if RootPath(r, p) {
        RootPathFacts(r, p);
      }
    }
  }

  lemma ScopeIsNotStale(r: Roots, p: Path)
    ensures !(ScopeDir(r) <= p && StaleDir(r) <= p)
  {
    var n := |r.state| + 1;
    assert ScopeDir(r)[n] == "profiles" && StaleDir(r)[n] == "completions";
    assert |ScopeDir(r)[n]| != |StaleDir(r)[n]|;
    assert ScopeDir(r) <= p ==> p[n] == ScopeDir(r)[n];
  }

  /** Removing any of the stale directory's tree. */
  lemma RemoveStep(r: Roots, s0: Files, moved: set<Path>, s: Files, s': Files)
    requires Recoverable(r, s0) && Midway(r, s0, moved, s) && moved == Units(r, s0)
    requires At(s, StaleDir(r)) == Some(Dir)
    requires forall p :: At(s', p) == At(s, p) || (StaleDir(r) <= p && p !in s')
    ensures Midway(r, s0, moved, s')
  {
    MarkerFacts(r);
    assert At(s', MarkerPath(r)) == At(s, MarkerPath(r));
    forall u, q | u in moved && q <= HomeRoot(r, u) ensures At(s', q) == Some(Dir) {
      RootPathFacts(r, q);
      assert At(s', q) == At(s, q);
    }
    StaleIsBase(r, s0, moved, s);
    forall p ensures Fits(r, s0, moved, p, At(s', p)) {
      assert Fits(r, s0, moved, p, At(s, p));
      ScopeIsNotStale(r, p);
    }
  }

  lemma StaleIsBase(r: Roots, s0: Files, moved: set<Path>, s: Files)
    requires Recoverable(r, s0) && Midway(r, s0, moved, s)
    ensures At(s, StaleDir(r)).Some? ==> At(s, StaleDir(r)) == MovedAt(r, s0, moved, StaleDir(r))
  {
    var p := StaleDir(r);
    assert Fits(r, s0, moved, p, At(s, p));
    ScopeIsNotStale(r, p);
    if RootPath(r, p) {
      RootPathFacts(r, p);
    }
  }

  /** Everything done but the marker: the state is already the final one. */
  lemma ReadyForMarker(r: Roots, s0: Files, s: Files)
    requires Recoverable(r, s0) && Midway(r, s0, Units(r, s0), s)
    requires forall p :: InScope(r, p) ==> At(s, p) == Rewritten(r, At(s, p))
    requires At(s, StaleDir(r)) != Some(Dir)
    requires Tree(s)
    requires forall q :: q <= r.state ==> At(s, q) == Some(Dir)
    ensures forall p :: p != MarkerPath(r) ==> At(s, p) == FinalAt(r, s0, p)
  {
    forall p | p != MarkerPath(r) ensures At(s, p) == FinalAt(r, s0, p) {
      FinalPath(r, s0, s, p);
    }
  }

  lemma FinalPath(r: Roots, s0: Files, s: Files, p: Path)
    requires Recoverable(r, s0) && Midway(r, s0, Units(r, s0), s)
    requires InScope(r, p) ==> At(s, p) == Rewritten(r, At(s, p))
    requires At(s, StaleDir(r)) != Some(Dir)
    requires Tree(s)
    requires forall q :: q <= r.state ==> At(s, q) == Some(Dir)
    ensures At(s, p) == FinalAt(r, s0, p)
  {
    var moved := Units(r, s0);
    assert Fits(r, s0, moved, p, At(s, p));
    ScopeIsNotStale(r, p);
    RewrittenTwice(r, MovedAt(r, s0, moved, p));
    StaleIsBase(r, s0, moved, s);
    if RootPath(r, p) {
      RootPathFacts(r, p);
    } else if StaleDir(r) <= p && p in s && p != StaleDir(r) {
      AncestorsAreDirs(s, StaleDir(r), p);
    }
  }
}
