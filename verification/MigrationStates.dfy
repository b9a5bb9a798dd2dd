/** Every state a migration can leave behind, however often it is cut short, and
    what each of its steps does to one
    (apps/minds/electron/migrate-data-dir.js:22-42, 106-218). */
module MigrationStates {
  import opened Options
  import opened FileSystem
  import opened MigrationPlan
  import Text

  // Names and scopes

  function TextBelow(p: Path): string
  {
    if p == [] then "" else "/" + p[0] + TextBelow(p[1..])
  }

  function TextOf(p: Path): (text: string)
    ensures text != ""
  {
    if p == [] then "/" else TextBelow(p)
  }

  function MarkerPath(r: Roots): Path { r.state + [MARKER] }

  /** The subtree whose JSON files point at the legacy root. */
  function ScopeDir(r: Roots): Path { r.state + ["mngr", "profiles"] }

  /** The subtree of generated files that are dropped instead. */
  function StaleDir(r: Roots): Path { r.state + ["mngr", "completions"] }

  predicate EndsWith(s: string, suffix: string)
  {
    |s| >= |suffix| && s[|s| - |suffix|..] == suffix
  }

  predicate InScope(r: Roots, p: Path)
  {
    ScopeDir(r) <= p && |p| > |ScopeDir(r)| && EndsWith(p[|p| - 1], ".json")
  }

  function Rewritten(r: Roots, node: Option<Node>): Option<Node>
  {
    match node
    case Some(File(text)) => Some(File(Text.ReplaceAll(text, TextOf(r.legacy), TextOf(r.state))))
    case other => other
  }

  /** The units that a migration of `s0` moves: not the sockets, nor what does not resolve. */
  function Units(r: Roots, s0: Files): set<Path>
  {
    set u | u in s0 && IsUnit(r, u) && Exists(s0, u) && s0[u] != Socket
  }

  // What the migration is promised

  predicate RootsClear(r: Roots, s0: Files)
  {
    forall q | q in s0 :: q <= r.state || q <= r.cache || q <= r.logs ==> s0[q] == Dir
  }

  /** A legacy directory not migrated yet, roots that do not overlap it on disk
      and whose texts let a rewrite be repeated, and nothing in the way of what moves. */
  ghost predicate Recoverable(r: Roots, s0: Files)
  {
    && Tree(s0)
    && Separate(r)
    && IsDirectory(s0, r.legacy)
    && MarkerPath(r) !in s0
    && RootsClear(r, s0)
    && (forall u | u in Units(r, s0) :: To(r, u) !in s0)
    && Text.Repeatable(TextOf(r.legacy), TextOf(r.state))
  }

  // States

  /** What is at `p` once exactly the units of `moved` have been renamed. */
  function MovedAt(r: Roots, s0: Files, moved: set<Path>, p: Path): Option<Node>
    requires forall u | u in moved :: IsUnit(r, u)
  {
    if Origin(r, p).Some? && Origin(r, p).value in moved then
      var u := Origin(r, p).value;
      At(s0, u + if |p| >= |To(r, u)| then p[|To(r, u)|..] else [])
    else if UnitOf(r, p).Some? && UnitOf(r, p).value in moved then None
    else At(s0, p)
  }

  predicate RootPath(r: Roots, p: Path)
  {
    p <= r.state || p <= r.cache || p <= r.logs
  }

  /** The directories a whole migration makes sure of. */
  predicate Needed(r: Roots, s0: Files, p: Path)
  {
    p <= r.state || exists u :: u in Units(r, s0) && p <= HomeRoot(r, u)
  }

  /** What `now` may be at `p`, once `moved` have been renamed. */
  predicate Fits(r: Roots, s0: Files, moved: set<Path>, p: Path, now: Option<Node>)
    requires forall u | u in moved :: IsUnit(r, u)
  {
    var base := MovedAt(r, s0, moved, p);
    || now == base
    || (base == None && now == Some(Dir) && Needed(r, s0, p) && RootPath(r, p))
    || (moved == Units(r, s0) && InScope(r, p) && now == Rewritten(r, base))
    || (moved == Units(r, s0) && StaleDir(r) <= p && now == None
        && MovedAt(r, s0, moved, StaleDir(r)) == Some(Dir))
  }

  /** A migration of `s0` that has renamed `moved` and has not finished. */
  ghost predicate Midway(r: Roots, s0: Files, moved: set<Path>, s: Files)
  {
    && moved <= Units(r, s0)
    && MarkerPath(r) !in s
    && (forall u, q | u in moved && q <= HomeRoot(r, u) :: At(s, q) == Some(Dir))
    && (forall p :: Fits(r, s0, moved, p, At(s, p)))
  }

  /** What a whole migration of `s0` leaves at `p`. */
  function FinalAt(r: Roots, s0: Files, p: Path): Option<Node>
  {
    var base := MovedAt(r, s0, Units(r, s0), p);
    if StaleDir(r) <= p && MovedAt(r, s0, Units(r, s0), StaleDir(r)) == Some(Dir) then None
    else if InScope(r, p) then Rewritten(r, base)
    else if Needed(r, s0, p) then Some(Dir)
    else base
  }

  ghost predicate Finished(r: Roots, s0: Files, s: Files)
  {
    && (forall p | p != MarkerPath(r) :: At(s, p) == FinalAt(r, s0, p))
    && MarkerPath(r) in s && s[MarkerPath(r)].File?
    && "migrated " <= s[MarkerPath(r)].text
  }

  ghost predicate Recovering(r: Roots, s0: Files, s: Files)
  {
    Finished(r, s0, s) || exists moved :: Midway(r, s0, moved, s)
  }

  // Places that do not move

  lemma RootPathFacts(r: Roots, p: Path)
    requires Separate(r) && RootPath(r, p)
    ensures Origin(r, p) == None && UnitOf(r, p) == None
    ensures !InScope(r, p) && !(StaleDir(r) <= p) && p != MarkerPath(r)
  {
    LogsName();
    var root := if p <= r.state then r.state else if p <= r.cache then r.cache else r.logs;
    OutsideLegacy(r, root, p);
    OriginIsUnit(r, p);
    BelowStateIsNoRoot(r, p);
    if Origin(r, p).Some? {
      BelowDestinationIsNoRoot(r, Origin(r, p).value, p);
    }
  }

  /** No root is inside the state root except as its logs directory. */
  lemma BelowStateIsNoRoot(r: Roots, p: Path)
    requires Separate(r) && RootPath(r, p)
    ensures r.state <= p && |p| > |r.state| ==> p[|r.state|] == LOGS
    ensures r.cache <= p && |p| > |r.cache| ==> p[|r.cache|] == LOGS
    ensures r.logs <= p ==> |p| == |r.logs|
  {
  }

  lemma BelowDestinationIsNoRoot(r: Roots, u: Path, p: Path)
    requires Separate(r) && IsUnit(r, u) && RootPath(r, p)
    ensures !(To(r, u) <= p)
  {
    LogsName();
    BelowStateIsNoRoot(r, p);
    PrefixOfExtension(HomeRoot(r, u), u[|u| - 1], p);
  }

  lemma MarkerFacts(r: Roots)
    requires Separate(r)
    ensures Origin(r, MarkerPath(r)) == None && UnitOf(r, MarkerPath(r)) == None
    ensures !InScope(r, MarkerPath(r)) && !(StaleDir(r) <= MarkerPath(r)) && !RootPath(r, MarkerPath(r))
  {
    var p := MarkerPath(r);
    LogsName();
    OutsideLegacy(r, r.state, p);
    OriginIsUnit(r, p);
    if Origin(r, p).Some? {
      var u := Origin(r, p).value;
      PrefixOfExtension(HomeRoot(r, u), u[|u| - 1], p);
      MarkerIsOnlyOwn(r, HomeRoot(r, u));
    }
    if RootPath(r, p) {
      BelowStateIsNoRoot(r, p);
    }
  }

  lemma MarkerIsOnlyOwn(r: Roots, root: Path)
    requires Separate(r) && root in {r.state, r.cache, r.logs}
    requires root <= MarkerPath(r) && |root| < |MarkerPath(r)|
    ensures MarkerPath(r)[|root|] == MARKER
  {
    LogsName();
    assert root == MarkerPath(r)[..|root|];
    assert root <= r.state;
  }

  /** The text of a path spells its segments, each after a slash. */
  lemma {:induction false} TextOfSegments(p: Path, name: string)
    ensures TextBelow(p + [name]) == TextBelow(p) + "/" + name && TextOf(p + [name]) == TextBelow(p + [name])
    ensures p != [] ==> TextOf(p + [name]) == TextOf(p) + "/" + name
  {
    if p == [] {
      assert [] + [name] == [name] && [name][1..] == [];
      assert "/" + name + "" == "/" + name;
    } else {
      TextOfSegments(p[1..], name);
      assert (p + [name])[1..] == p[1..] + [name];
    }
  }

  /** What is rewritten: files named as JSON, at any depth, under the state
      root's `mngr/profiles`, and nothing anywhere else. */
  lemma ScopeIsProfiles(r: Roots, dirs: Path, name: string, p: Path)
    ensures InScope(r, r.state + ["mngr", "profiles"] + dirs + [name]) <==>
      |name| >= 5 && name[|name| - 5..] == ".json"
    ensures InScope(r, p) ==> r.state + ["mngr", "profiles"] <= p && |p| > |r.state| + 2
  {
    var q := r.state + ["mngr", "profiles"] + dirs + [name];
    assert q[|q| - 1] == name && ScopeDir(r) <= q;
  }
}
