/** What a migration promises in every state a crash can leave it in, and once
    it has finished (apps/minds/electron/migrate-data-dir.js:143-218). */
module MigrationRecovery {
  import opened Options
  import opened FileSystem
  import opened MigrationPlan
  import opened MigrationStates
  import opened MigrationSteps
  import Text

  /** However often they were cut short, two finished migrations of one disk
      leave the same files, except for the counts in their markers. */
  lemma FinishedAlike(r: Roots, s0: Files, s1: Files, s2: Files)
    requires Finished(r, s0, s1) && Finished(r, s0, s2)
    ensures s1 - {MarkerPath(r)} == s2 - {MarkerPath(r)}
  {
    var m := MarkerPath(r);
    forall p | p != m ensures At(s1, p) == At(s2, p) {
      assert At(s1, p) == FinalAt(r, s0, p) == At(s2, p);
    }
    assert forall p :: p in s1 - {m} <==> p != m && At(s1, p).Some?;
    assert forall p :: p in s2 - {m} <==> p != m && At(s2, p).Some?;
    forall p | p in s1 - {m} ensures p in s2 - {m} && (s1 - {m})[p] == (s2 - {m})[p] {
      assert At(s1, p) == At(s2, p);
    }
    forall p | p in s2 - {m} ensures p in s1 - {m} {
      assert At(s1, p) == At(s2, p);
    }
  }

  lemma FinalPlaceOf(r: Roots, s0: Files, u: Path, rest: Path)
    requires Recoverable(r, s0) && u in Units(r, s0)
    ensures MovedAt(r, s0, Units(r, s0), To(r, u) + rest) == At(s0, u + rest)
    ensures !RootPath(r, To(r, u) + rest)
    ensures !RootPath(r, u + rest)
    ensures UnitOf(r, u + rest) == Some(u) && !(StaleDir(r) <= u + rest) && !InScope(r, u + rest)
  {
    var p := To(r, u) + rest;
    OriginMeaning(r, u, p);
    assert p[|To(r, u)|..] == rest;
    if RootPath(r, p) { BelowDestinationIsNoRoot(r, u, p); }
    UnitOfMeaning(r, u, u + rest);
    if RootPath(r, u + rest) { RootPathFacts(r, u + rest); }
    if StaleDir(r) <= u + rest || InScope(r, u + rest) { OutsideLegacy(r, r.state, u + rest); }
  }

  lemma DestinationIsNoScope(r: Roots, u: Path)
    requires Separate(r) && IsUnit(r, u)
    ensures !InScope(r, To(r, u)) && !(StaleDir(r) <= To(r, u))
  {
    var p := To(r, u);
    var n := |r.state|;
    assert LOGS[0] != "mngr"[0];
    assert ScopeDir(r)[n] == StaleDir(r)[n] == "mngr";
    if r.state <= p {
      Comparable(r.state, HomeRoot(r, u), p);
    }
  }

  lemma BeforeItMoves(r: Roots, s0: Files, moved: set<Path>, s: Files, u: Path, rest: Path)
    requires Recoverable(r, s0) && Midway(r, s0, moved, s) && u in Units(r, s0) && u !in moved
    ensures At(s, u + rest) == At(s0, u + rest) && To(r, u) + rest !in s
  {
    FinalPlaceOf(r, s0, u, rest);
    LegacyPart(r, s0, moved, s, u + rest);
    StillFree(r, s0, moved, s, u, To(r, u) + rest);
  }

  lemma StillFree(r: Roots, s0: Files, moved: set<Path>, s: Files, u: Path, p: Path)
    requires Recoverable(r, s0) && Midway(r, s0, moved, s) && u in Units(r, s0) && u !in moved
    requires To(r, u) <= p && !RootPath(r, p)
    ensures p !in s
  {
    OriginMeaning(r, u, p);
    OutsideLegacy(r, HomeRoot(r, u), p);
    NothingBelowFree(r, s0, u, p);
    assert MovedAt(r, s0, moved, p) == None;
    assert Fits(r, s0, moved, p, At(s, p));
  }

  lemma NothingBelowFree(r: Roots, s0: Files, u: Path, p: Path)
    requires Recoverable(r, s0) && u in Units(r, s0) && To(r, u) <= p
    ensures p !in s0
  {
    assert To(r, u) !in s0;
    if p in s0 && p != To(r, u) {
      AncestorsAreDirs(s0, To(r, u), p);
    }
  }

  lemma OnceItHasMoved(r: Roots, s0: Files, moved: set<Path>, s: Files, u: Path, rest: Path)
    requires Recoverable(r, s0) && Midway(r, s0, moved, s) && u in moved
    ensures u + rest !in s
    ensures !InScope(r, To(r, u) + rest) && !(StaleDir(r) <= To(r, u) + rest) ==>
              At(s, To(r, u) + rest) == At(s0, u + rest)
  {
    FinalPlaceOf(r, s0, u, rest);
    LegacyPart(r, s0, moved, s, u + rest);
    var p := To(r, u) + rest;
    OriginMeaning(r, u, p);
    assert p[|To(r, u)|..] == rest;
    assert Fits(r, s0, moved, p, At(s, p));
  }

  lemma OnceFinished(r: Roots, s0: Files, s: Files, u: Path, rest: Path)
    requires Recoverable(r, s0) && Finished(r, s0, s) && u in Units(r, s0)
    ensures u + rest !in s
    ensures !InScope(r, To(r, u) + rest) && !(StaleDir(r) <= To(r, u) + rest) ==>
              At(s, To(r, u) + rest) == At(s0, u + rest)
  {
    FinalPlaceOf(r, s0, u, rest);
    NotNeeded(r, s0, u + rest);
    NotNeeded(r, s0, To(r, u) + rest);
    NotMarker(r, u, rest);
    InsideLegacy(r, u + rest);
    assert At(s, u + rest) == FinalAt(r, s0, u + rest) == None;
    assert At(s, To(r, u) + rest) == FinalAt(r, s0, To(r, u) + rest);
  }

  lemma NotNeeded(r: Roots, s0: Files, p: Path)
    ensures Needed(r, s0, p) ==> RootPath(r, p)
  {
  }

  lemma NotMarker(r: Roots, u: Path, rest: Path)
    requires Separate(r) && IsUnit(r, u)
    ensures u + rest != MarkerPath(r) && To(r, u) + rest != MarkerPath(r)
  {
    MarkerFacts(r);
    UnitOfMeaning(r, u, u + rest);
    OriginMeaning(r, u, To(r, u) + rest);
  }

  /** In every state a crash can leave, each entry that moves is at exactly one
      of its two places, and there in whole: everything of it is at the same
      place, as it was unless rewriting or cleaning up is there to change it. */
  lemma EntryInOnePlace(r: Roots, s0: Files, s: Files, u: Path, rest: Path)
    requires Recoverable(r, s0) && Recovering(r, s0, s) && u in Units(r, s0)
    ensures (u in s) != (To(r, u) in s)
    ensures u in s ==> At(s, u + rest) == At(s0, u + rest) && To(r, u) + rest !in s
    ensures To(r, u) in s ==> u + rest !in s
    ensures To(r, u) in s && !InScope(r, To(r, u) + rest) && !(StaleDir(r) <= To(r, u) + rest) ==>
              At(s, To(r, u) + rest) == At(s0, u + rest)
  {
    DestinationIsNoScope(r, u);
    assert u + [] == u && To(r, u) + [] == To(r, u);
    if Finished(r, s0, s) {
      OnceFinished(r, s0, s, u, []);
      OnceFinished(r, s0, s, u, rest);
    } else {
      var moved :| Midway(r, s0, moved, s);
      if u in moved {
        OnceItHasMoved(r, s0, moved, s, u, []);
        OnceItHasMoved(r, s0, moved, s, u, rest);
      } else {
        BeforeItMoves(r, s0, moved, s, u, []);
        BeforeItMoves(r, s0, moved, s, u, rest);
      }
    }
  }

  /** A legacy root with one entry, and roots of its own length. */
  function SmallRoots(): Roots { Roots(["l"], ["s"], ["c"], ["g"]) }

  function SmallDisk(name: string): Files
  {
    map[[] := Dir, ["l"] := Dir, ["l", name] := Dir]
  }

  lemma SmallTree(name: string)
    ensures Tree(SmallDisk(name)) && IsDirectory(SmallDisk(name), ["l"])
  {
    assert Parent(["l", name]) == ["l"] && Parent(["l"]) == [];
  }

  lemma SmallTexts()
    ensures Text.Repeatable(TextOf(["l"]), TextOf(["s"]))
  {
    assert ["l"][1..] == [] && ["s"][1..] == [];
    assert "/" + "l" + "" == "/l" && "/" + "s" + "" == "/s";
    assert TextOf(["l"]) == "/l" && TextOf(["s"]) == "/s";
    assert "/l"[1] == 'l' && "/s"[1] == 's';
    ShortTextsApart("/l", "/s");
  }

  lemma SmallRootsAreClear(name: string)
    ensures Separate(SmallRoots()) && RootsClear(SmallRoots(), SmallDisk(name))
  {
    assert "l"[0] == 'l' && "s"[0] == 's' && "c"[0] == 'c' && "g"[0] == 'g';
    forall a: string, b: string | a != b ensures Apart([a], [b]) {
      assert [a][0] != [b][0];
    }
  }

  lemma SmallUnits(name: string)
    requires name != MARKER && name != LOGS
    ensures Units(SmallRoots(), SmallDisk(name)) == {["l", name]}
  {
    assert ["l"] <= ["l", name] && ["l", name][1] == name;
    assert forall p :: p in SmallDisk(name) <==> p == [] || p == ["l"] || p == ["l", name];
  }

  /** Disks that can be migrated exist. */
  lemma SomeDiskIsRecoverable(name: string)
    requires name != MARKER && name != LOGS
    ensures Recoverable(SmallRoots(), SmallDisk(name)) && Units(SmallRoots(), SmallDisk(name)) == {["l", name]}
  {
    SmallTree(name);
    SmallTexts();
    SmallRootsAreClear(name);
    SmallUnits(name);
    assert MarkerPath(SmallRoots())[0] == "s" && "s" != "l";
    assert To(SmallRoots(), ["l", name])[0] in {"s", "c"};
    assert forall p :: p in SmallDisk(name) && p != [] ==> p[0] == "l";
  }

  lemma ShortTextsApart(a: string, b: string)
    requires |a| == |b| == 2 && a[0] == b[0] == '/' && a[1] != '/' && b[1] != '/' && a[1] != b[1]
    ensures Text.Repeatable(a, b)
  {
    assert a[1..] == [a[1]] && b[1..] == [b[1]] && a[..1] == ['/'] && b[..1] == ['/'];
    forall i ensures !Text.OccursAt(a, b, i) && !Text.OccursAt(b, a, i) {
      assert i == 0 ==> a[0..2][1] == a[1] && b[0..2][1] == b[1];
    }
  }

  /** Whatever the roots, if an occurrence of the one can appear at the edge of
      a replacement, there is a file that the rewrite of a launch after a crash
      changes again. */
  lemma OverlapBreaksRewriting(r: Roots) returns (file: Node)
    requires !Text.Repeatable(TextOf(r.legacy), TextOf(r.state))
    ensures Rewritten(r, Rewritten(r, Some(file))) != Rewritten(r, Some(file))
  {
    var text := Text.SomeTextKeepsOne(TextOf(r.legacy), TextOf(r.state));
    Text.ReplaceAllChanges(Text.ReplaceAll(text, TextOf(r.legacy), TextOf(r.state)), TextOf(r.legacy), TextOf(r.state));
    file := File(text);
  }

  /** So for given roots the rewrite can be interrupted and repeated, whatever
      the files hold, exactly when their texts meet that condition. */
  lemma RewritingRepeatsExactly(r: Roots)
    ensures (forall node :: Rewritten(r, Rewritten(r, node)) == Rewritten(r, node))
      <==> Text.Repeatable(TextOf(r.legacy), TextOf(r.state))
  {
    if Text.Repeatable(TextOf(r.legacy), TextOf(r.state)) {
      forall node ensures Rewritten(r, Rewritten(r, node)) == Rewritten(r, node) {
        RewrittenTwice(r, node);
      }
    } else {
      var file := OverlapBreaksRewriting(r);
    }
  }
}
