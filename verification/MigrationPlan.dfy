/** Which entry of a legacy root goes where
    (apps/minds/electron/platform-roots.js:152-210). */
module MigrationPlan {
  import opened Options
  import opened FileSystem

  datatype Roots = Roots(legacy: Path, state: Path, cache: Path, logs: Path)

  const MARKER := ".migrated-from-dotfolder"
  const LOGS := "logs"

  predicate IsCacheName(name: string)
  {
    name == ".uv-cache" || name == "template-cache"
  }

  datatype Role = LogsRole | CacheRole | StateRole

  datatype Destination = Destination(role: Role, relativePath: Path)

  function DestinationFor(entryName: string): Destination
  {
    if entryName == LOGS then Destination(LogsRole, [])
    else if IsCacheName(entryName) then Destination(CacheRole, [entryName])
    else Destination(StateRole, [entryName])
  }

  function RootFor(r: Roots, role: Role): Path
  {
    match role
    case LogsRole => r.logs
    case CacheRole => r.cache
    case StateRole => r.state
  }

  datatype Move = Move(from: Path, to: Path)

  function LogMoves(r: Roots, children: seq<string>): seq<Move>
  {
    if children == [] then []
    else
      var last := children[|children| - 1];
      LogMoves(r, children[..|children| - 1]) + [Move(r.legacy + [LOGS, last], r.logs + [last])]
  }

  function MovesFor(r: Roots, entryName: string, logChildren: seq<string>): seq<Move>
  {
    var d := DestinationFor(entryName);
    if entryName == MARKER then []
    else if d.role == LogsRole then LogMoves(r, logChildren)
    else [Move(r.legacy + [entryName], RootFor(r, d.role) + d.relativePath)]
  }

  function PlanOf(r: Roots, entryNames: seq<string>, logChildren: seq<string>): seq<Move>
  {
    if entryNames == [] then []
    else
      var last := |entryNames| - 1;
      PlanOf(r, entryNames[..last], logChildren) + MovesFor(r, entryNames[last], logChildren)
  }

  method PlanMoves(r: Roots, entryNames: seq<string>, logChildren: seq<string>) returns (moves: seq<Move>)
    ensures moves == PlanOf(r, entryNames, logChildren)
  {
    moves := [];
    for i := 0 to |entryNames|
      invariant moves == PlanOf(r, entryNames[..i], logChildren)
    {
      assert entryNames[..i + 1][..i] == entryNames[..i];
      var entryName := entryNames[i];
      if entryName == MARKER {
        continue;
      }
      var d := DestinationFor(entryName);
      if d.role == LogsRole {
        ghost var before := moves;
        for j := 0 to |logChildren|
          invariant moves == before + LogMoves(r, logChildren[..j])
        {
          assert logChildren[..j + 1][..j] == logChildren[..j];
          moves := moves + [Move(r.legacy + [entryName, logChildren[j]], r.logs + [logChildren[j]])];
        }
        assert logChildren[..|logChildren|] == logChildren;
        continue;
      }
      moves := moves + [Move(r.legacy + [entryName], RootFor(r, d.role) + d.relativePath)];
    }
    assert entryNames[..|entryNames|] == entryNames;
  }

  // The things that move, and their places

  /** A path of the legacy root that moves as one: an entry of it, or a child of its logs. */
  predicate IsUnit(r: Roots, u: Path)
  {
    && r.legacy <= u
    && ((|u| == |r.legacy| + 1 && u[|r.legacy|] != MARKER && u[|r.legacy|] != LOGS)
        || (|u| == |r.legacy| + 2 && u[|r.legacy|] == LOGS))
  }

  /** The root a unit moves to. */
  function HomeRoot(r: Roots, u: Path): Path
    requires IsUnit(r, u)
  {
    if |u| == |r.legacy| + 2 then r.logs
    else if IsCacheName(u[|r.legacy|]) then r.cache
    else r.state
  }

  function To(r: Roots, u: Path): Path
    requires IsUnit(r, u)
  {
    HomeRoot(r, u) + [u[|u| - 1]]
  }

  /** Whether `u` is listed: its name in the legacy root, and in its logs if it is one of those. */
  predicate Listed(r: Roots, u: Path, entryNames: seq<string>, logChildren: seq<string>)
  {
    && IsUnit(r, u)
    && u[|r.legacy|] in entryNames
    && (|u| == |r.legacy| + 2 ==> u[|r.legacy| + 1] in logChildren)
  }

  lemma {:induction false} LogMovesMembers(r: Roots, children: seq<string>, m: Move)
    ensures m in LogMoves(r, children) <==>
      exists c :: c in children && m == Move(r.legacy + [LOGS, c], r.logs + [c])
  {
    if children != [] {
      var last := children[|children| - 1];
      LogMovesMembers(r, children[..|children| - 1], m);
    }
  }

  lemma MovesForMembers(r: Roots, name: string, children: seq<string>, m: Move)
    ensures m in MovesFor(r, name, children) <==>
      && Listed(r, m.from, [name], children) && m.to == To(r, m.from)
  {
    var at := |r.legacy|;
    LogMovesMembers(r, children, m);
    if name == LOGS {
      if Listed(r, m.from, [name], children) && m.to == To(r, m.from) {
        assert m.from == r.legacy + [LOGS, m.from[at + 1]];
      }
      forall c | m == Move(r.legacy + [LOGS, c], r.logs + [c]) && c in children
        ensures Listed(r, m.from, [name], children) && m.to == To(r, m.from)
      {
        assert m.from[at] == LOGS && m.from[at + 1] == c;
      }
    } else if Listed(r, m.from, [name], children) {
      assert m.from == r.legacy + [name];
    }
  }

  /** The plan is exactly the listed units, each with its own destination. */
  lemma {:induction false} PlanIsListedUnits(r: Roots, entryNames: seq<string>, children: seq<string>, m: Move)
    ensures m in PlanOf(r, entryNames, children) <==>
      Listed(r, m.from, entryNames, children) && m.to == To(r, m.from)
  {
    if entryNames != [] {
      var n := |entryNames| - 1;
      PlanIsListedUnits(r, entryNames[..n], children, m);
      MovesForMembers(r, entryNames[n], children, m);
      assert forall x :: x in entryNames <==> x in entryNames[..n] || x in [entryNames[n]];
    }
  }

  // Layouts

  predicate Apart(a: Path, b: Path)
  {
    !(a <= b) && !(b <= a)
  }

  /** The logs root is `root`'s own logs directory, or away from it. */
  predicate LogsClearOf(r: Roots, root: Path)
  {
    r.logs == root + [LOGS] || Apart(r.logs, root)
  }

  /** No root overlaps the legacy root; state and cache are one directory or
      apart; and logs lies in neither except as their `logs` directory. */
  predicate Separate(r: Roots)
  {
    && Apart(r.legacy, r.state) && Apart(r.legacy, r.cache) && Apart(r.legacy, r.logs)
    && (r.state == r.cache || Apart(r.state, r.cache))
    && LogsClearOf(r, r.state) && LogsClearOf(r, r.cache)
  }

  /** The unit whose destination `p` is at or below. */
  function Origin(r: Roots, p: Path): Option<Path>
  {
    if r.logs <= p && |p| > |r.logs| then Some(r.legacy + [LOGS, p[|r.logs|]])
    else if r.cache <= p && |p| > |r.cache| && IsCacheName(p[|r.cache|]) then Some(r.legacy + [p[|r.cache|]])
    else if r.state <= p && |p| > |r.state| && !IsCacheName(p[|r.state|])
         && p[|r.state|] != LOGS && p[|r.state|] != MARKER
    then Some(r.legacy + [p[|r.state|]])
    else None
  }

  /** The unit that `p` is at or below in the legacy root. */
  function UnitOf(r: Roots, p: Path): Option<Path>
  {
    var n := |r.legacy|;
    if !(r.legacy <= p) || |p| == n || p[n] == MARKER then None
    else if p[n] != LOGS then Some(p[..n + 1])
    else if |p| == n + 1 then None
    else Some(p[..n + 2])
  }

  lemma UnitOfMeaning(r: Roots, u: Path, p: Path)
    requires IsUnit(r, u)
    ensures u <= p <==> UnitOf(r, p) == Some(u)
  {
    var n := |r.legacy|;
    if u <= p {
      assert p[n] == u[n];
      assert p[..|u|] == u;
      assert r.legacy <= p;
    }
  }

  lemma PrefixOfExtension(root: Path, name: string, p: Path)
    ensures root + [name] <= p <==> root <= p && |p| > |root| && p[|root|] == name
  {
    if root <= p && |p| > |root| && p[|root|] == name {
      assert root + [name] == p[..|root| + 1];
    }
    if root + [name] <= p {
      assert (root + [name])[|root|] == p[|root|];
      assert root <= root + [name];
    }
  }

  lemma LogsName()
    ensures !IsCacheName(LOGS) && !IsCacheName(MARKER) && LOGS != MARKER
  {
    assert |LOGS| == 4 && |MARKER| == 24;
  }

  /** Prefixes of one path are comparable. */
  lemma Comparable(a: Path, b: Path, p: Path)
    requires a <= p && b <= p
    ensures !Apart(a, b)
  {
    if |a| <= |b| {
      assert a == p[..|a|] && b == p[..|b|];
      assert a == b[..|a|];
    } else {
      assert b == a[..|b|];
    }
  }

  lemma LogsElsewhere(r: Roots, root: Path, p: Path)
    requires LogsClearOf(r, root)
    requires root <= p && |p| > |root| && p[|root|] != LOGS
    ensures !(r.logs <= p)
  {
    if r.logs <= p {
      Comparable(root, r.logs, p);
      PrefixOfExtension(root, LOGS, p);
    }
  }

  /** Two different units never land on, or inside, one another: what is at or
      below a unit's destination has that unit as its origin, and no other. */
  lemma OriginMeaning(r: Roots, u: Path, p: Path)
    requires Separate(r) && IsUnit(r, u)
    ensures To(r, u) <= p <==> Origin(r, p) == Some(u)
  {
    var name := u[|u| - 1];
    var root := HomeRoot(r, u);
    LogsName();
    PrefixOfExtension(root, name, p);
    if |u| == |r.legacy| + 2 {
      assert u == r.legacy + [LOGS, name];
      if Origin(r, p) == Some(u) {
        assert Origin(r, p).value[|r.legacy|] == LOGS;
      }
    } else {
      assert u == r.legacy + [name];
      if To(r, u) <= p {
        LogsElsewhere(r, root, p);
        StateIsNotCache(r, root, p);
      }
      if Origin(r, p) == Some(u) {
        assert Origin(r, p).value[|r.legacy|] == name;
      }
    }
  }

  lemma StateIsNotCache(r: Roots, root: Path, p: Path)
    requires Separate(r) && (root == r.state || root == r.cache)
    requires root <= p && |p| > |root|
    ensures r.cache <= p ==> r.cache == root || r.cache == r.state
  {
    if r.cache <= p {
      Comparable(root, r.cache, p);
    }
  }

  lemma OriginIsUnit(r: Roots, p: Path)
    requires Separate(r)
    ensures Origin(r, p).Some? ==> IsUnit(r, Origin(r, p).value) && To(r, Origin(r, p).value) <= p
  {
    LogsName();
    if Origin(r, p).Some? {
      OriginMeaning(r, Origin(r, p).value, p);
    }
  }

  /** Destinations are injective, and none is inside another. */
  lemma DestinationsApart(r: Roots, u: Path, v: Path)
    requires Separate(r) && IsUnit(r, u) && IsUnit(r, v) && u != v
    ensures Apart(To(r, u), To(r, v))
  {
    OriginMeaning(r, u, To(r, u));
    OriginMeaning(r, v, To(r, u));
    OriginMeaning(r, u, To(r, v));
    OriginMeaning(r, v, To(r, v));
  }

  /** A path under one of the new roots is not under the legacy one. */
  lemma OutsideLegacy(r: Roots, root: Path, p: Path)
    requires Separate(r) && root in {r.state, r.cache, r.logs}
    requires root <= p || p <= root
    ensures !(r.legacy <= p) && UnitOf(r, p) == None
  {
    if r.legacy <= p {
      if root <= p {
        Comparable(root, r.legacy, p);
      }
    }
  }

  /** Nothing of the legacy root is under a destination. */
  lemma InsideLegacy(r: Roots, p: Path)
    requires Separate(r) && r.legacy <= p
    ensures Origin(r, p) == None
  {
    OriginIsUnit(r, p);
    if Origin(r, p).Some? {
      var u := Origin(r, p).value;
      OutsideLegacy(r, HomeRoot(r, u), p);
    }
  }

  /** Entries of the legacy root move by name: the two caches to the cache root,
      each child of `logs` to the logs root, and everything else, other than the
      marker and `logs` itself, to the state root, under the same name. */
  lemma WhereEntriesGo(r: Roots, name: string, child: string)
    ensures var entry := r.legacy + [name];
      && (IsUnit(r, entry) <==> name != ".migrated-from-dotfolder" && name != "logs")
      && (IsUnit(r, entry) ==>
            To(r, entry) == (if name == ".uv-cache" || name == "template-cache" then r.cache else r.state) + [name])
    ensures var log := r.legacy + ["logs", child];
      IsUnit(r, log) && To(r, log) == r.logs + [child]
  {
    assert (r.legacy + [name])[|r.legacy|] == name;
    assert (r.legacy + ["logs", child])[|r.legacy|] == "logs";
  }
}
