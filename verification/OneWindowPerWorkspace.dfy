/** What every run of window events keeps: at most one main window per
    workspace, never the last main window closed by a detach, and a retreat
    that settles at once (apps/minds/electron/main.js:422-436, 602-623,
    933-992; apps/minds/electron/window-policy.js:50-88). */
module OneWindowPerWorkspace {
  import opened Options
  import opened WorkspaceAliases
  import opened Windows

  /** The focus order lists exactly the live windows. */
  ghost predicate WellFormed(s: State)
  {
    forall w :: w in s.mru <==> w in s.windows
  }

  /** No two main windows hold one workspace, under either of its ids. */
  ghost predicate Unique(al: Aliases, s: State)
  {
    forall v, w :: v in Mains(s) && w in Mains(s) && v != w
      && s.windows[v].Held().Some? && s.windows[w].Held().Some?
      ==> !al.Same(s.windows[v].Held().value, s.windows[w].Held().value)
  }

  /** Some main window other than `w` holds `id`. */
  ghost predicate HeldElsewhere(al: Aliases, s: State, w: WinId, id: Id)
  {
    exists v :: v in Mains(s) && v != w && Holds(al, s.windows[v], id)
  }

  lemma MostRecentFinds(al: Aliases, s: State, w: WinId, id: Id)
    requires WellFormed(s)
    ensures MostRecent(al, s.windows, s.mru, id, Some(w)).Some? <==> HeldElsewhere(al, s, w, id)
  {
    var found := MostRecent(al, s.windows, s.mru, id, Some(w));
    if found.Some? {
      assert found.value in Mains(s);
    }
    forall v | v in Mains(s) && v != w && Holds(al, s.windows[v], id) ensures found.Some? {
      assert v in s.mru;
    }
  }

  /** Recording a workspace for one main window keeps the rule exactly when no other main window holds it. */
  lemma RecordKeepsUnique(al: Aliases, s: State, w: WinId, win: Win)
    requires al.IsPairing() && Unique(al, s) && w in s.windows && win.kind == s.windows[w].kind
    ensures Unique(al, s.(windows := s.windows[w := win])) <==>
      (win.kind.Popout? || win.Held().None? || !HeldElsewhere(al, s, w, win.Held().value))
  {
    var t := s.(windows := s.windows[w := win]);
    assert Mains(t) == Mains(s);
    if win.kind.Main? && win.Held().Some? {
      var id := win.Held().value;
      forall v | v in Mains(s) && v != w
        ensures Holds(al, s.windows[v], id) <==>
          t.windows[v].Held().Some? && al.Same(id, t.windows[v].Held().value)
      {
        if t.windows[v].Held().Some? {
          SameIsEqualHosts(al, id, t.windows[v].Held().value);
          SameIsEqualHosts(al, t.windows[v].Held().value, id);
        }
      }
    }
  }

  /** What the events promise: fresh ids for new windows, frames that name
      their own window's workspace, popout pages only in popouts. */
  predicate CanHappen(al: Aliases, s: State, e: Event)
  {
    match e
    case Open(w, _) => w !in s.windows
    case Focus(w) => w in s.windows
    case Commit(w, page, _) => w in s.windows && (s.windows[w].kind.Main? ==> !page.PopoutPage?)
    case FrameCommit(w, id) => w in s.windows && Holds(al, s.windows[w], id)
    case _ => true
  }

  lemma ClaimKeeps(al: Aliases, s: State, w: WinId, id: Id)
    requires al.IsPairing() && WellFormed(s) && Unique(al, s)
    ensures Unique(al, Step(al, s, Claim(w, id)))
  {
    var t := Step(al, s, Claim(w, id));
    if t != s {
      var win := s.windows[w].(current := Some(al.Host(id)));
      var existing := MostRecent(al, s.windows, s.mru, id, None);
      if HeldElsewhere(al, s, w, al.Host(id)) {
        var v :| v in Mains(s) && v != w && Holds(al, s.windows[v], al.Host(id));
        var held := s.windows[v].Held().value;
        SameIsEqualHosts(al, held, al.Host(id));
        SameIsEqualHosts(al, held, id);
        SameIsEqualHosts(al, id, id);
        assert v in s.mru && Holds(al, s.windows[v], id);
        assert existing == Some(w);
        var own := s.windows[w].Held().value;
        SameIsEqualHosts(al, own, id);
        SameIsEqualHosts(al, own, held);
      }
      RecordKeepsUnique(al, s, w, win);
    }
  }

  lemma CommitKeeps(al: Aliases, s: State, w: WinId, page: Page, index: nat)
    requires al.IsPairing() && WellFormed(s) && Unique(al, s) && CanHappen(al, s, Commit(w, page, index))
    ensures Unique(al, Step(al, s, Commit(w, page, index)))
  {
    if HolderFor(al, s, w, page).None? {
      var win := Committed(al, s.windows[w], page, index);
      if win.kind.Main? && win.Held().Some? {
        assert win.Held() == Landed(al, page);
        MostRecentFinds(al, s, w, win.Held().value);
      }
      RecordKeepsUnique(al, s, w, win);
    }
  }

  lemma FrameKeeps(al: Aliases, s: State, w: WinId, id: Id)
    requires al.IsPairing() && Unique(al, s) && CanHappen(al, s, FrameCommit(w, id))
    ensures Unique(al, Step(al, s, FrameCommit(w, id)))
  {
    if s.windows[w].kind.Main? {
      assert w in Mains(s);
      if HeldElsewhere(al, s, w, id) {
        var v :| v in Mains(s) && v != w && Holds(al, s.windows[v], id);
        SameIsEqualHosts(al, s.windows[v].Held().value, id);
        SameIsEqualHosts(al, s.windows[w].Held().value, id);
        SameIsEqualHosts(al, s.windows[v].Held().value, s.windows[w].Held().value);
      }
      RecordKeepsUnique(al, s, w, s.windows[w].(current := Some(id)));
    }
  }

  /** Every event keeps the one-main-window rule. */
  lemma StepKeepsUnique(al: Aliases, s: State, e: Event)
    requires al.IsPairing() && WellFormed(s) && Unique(al, s) && CanHappen(al, s, e)
    ensures WellFormed(Step(al, s, e)) && Unique(al, Step(al, s, e))
  {
    match e
    case Open(w, kind) =>
    case Focus(w) =>
    case Claim(w, id) => ClaimKeeps(al, s, w, id);
    case Commit(w, page, index) => CommitKeeps(al, s, w, page, index);
    case FrameCommit(w, id) => FrameKeeps(al, s, w, id);
    case Close(w) =>
    case Detach(id) =>
  }

  // Whole runs

  function Run(al: Aliases, s: State, events: seq<Event>): State
  {
    if events == [] then s else Step(al, Run(al, s, events[..|events| - 1]), events[|events| - 1])
  }

  predicate IsRun(al: Aliases, s: State, events: seq<Event>)
  {
    events != [] ==>
      IsRun(al, s, events[..|events| - 1]) &&
      CanHappen(al, Run(al, s, events[..|events| - 1]), events[|events| - 1])
  }

  /** In every reachable state no two main windows hold the same workspace. */
  lemma {:induction false} AlwaysUnique(al: Aliases, s: State, events: seq<Event>)
    requires al.IsPairing() && WellFormed(s) && Unique(al, s) && IsRun(al, s, events)
    ensures WellFormed(Run(al, s, events)) && Unique(al, Run(al, s, events))
  {
    if events != [] {
      AlwaysUnique(al, s, events[..|events| - 1]);
      StepKeepsUnique(al, Run(al, s, events[..|events| - 1]), events[|events| - 1]);
    }
  }

  /** The promise about popout pages is needed: a main window that committed
      one would share a workspace exactly when another main window holds it. */
  lemma PopoutPageInMainWindow(al: Aliases, s: State, w: WinId, id: Id, index: nat)
    requires al.IsPairing() && WellFormed(s) && Unique(al, s) && w in Mains(s)
    ensures Unique(al, Step(al, s, Commit(w, PopoutPage(id), index))) <==> !HeldElsewhere(al, s, w, al.Host(id))
  {
    RecordKeepsUnique(al, s, w, Committed(al, s.windows[w], PopoutPage(id), index));
  }

  // Detaching

  /** A detach never closes the last main window, and closes only windows of the workspace. */
  lemma DetachSparesLastMain(al: Aliases, s: State, id: Id)
    ensures var t := Step(al, s, Detach(id));
      && (Mains(s) != {} ==> Mains(t) != {})
      && (forall w :: w in t.windows ==> w in s.windows && t.windows[w] == s.windows[w])
      && (forall w :: w in s.windows && w !in t.windows ==> Holds(al, s.windows[w], id))
  {
    DetachLeavesMains(al, s, id);
  }

  lemma DetachLeavesMains(al: Aliases, s: State, id: Id)
    ensures Mains(s) != {} ==> Mains(Step(al, s, Detach(id))) != {}
  {
    SomeMainLeft(Mains(s), Affected(al, s, id));
    assert Mains(Step(al, s, Detach(id))) == Mains(s) - ClosedByDetach(al, s, id);
  }

  lemma SomeMainLeft(mains: set<WinId>, affected: set<WinId>)
    ensures mains != {} ==>
      mains - (if |mains| - |affected * mains| >= 1 then affected else affected - mains) != {}
  {
    SizeMinus(mains, affected);
    assert mains - (affected - mains) == mains;
    assert |mains - affected| >= 1 ==> mains - affected != {};
  }

  /** It leaves no popout of the workspace, and no window of it at all when
      some main window shows something else. */
  lemma DetachClearsWorkspace(al: Aliases, s: State, id: Id)
    ensures var t := Step(al, s, Detach(id));
      && (forall w :: w in t.windows && t.windows[w].kind.Popout? ==> !Holds(al, t.windows[w], id))
      && ((exists w :: w in Mains(s) && !Holds(al, s.windows[w], id)) ==>
            forall w :: w in t.windows ==> !Holds(al, t.windows[w], id))
  {
    var affected := Affected(al, s, id);
    SizeMinus(Mains(s), affected);
    if w :| w in Mains(s) && !Holds(al, s.windows[w], id) {
      assert w in Mains(s) - affected;
    }
  }

  lemma SizeMinus(a: set<WinId>, b: set<WinId>)
    ensures |a - b| == |a| - |b * a|
  {
    assert a == (a - b) + (b * a);
  }

  // Retreating

  datatype Retreat = Back | Forward | Home

  /** `resolveDuplicateWorkspaceLanding`: back the way the window came, else home. */
  function ResolveLanding(isArrivedByGoingBack: bool, canGoBack: bool, canGoForward: bool): Retreat
  {
    if isArrivedByGoingBack then (if canGoForward then Forward else Home)
    else if canGoBack then Back
    else Home
  }

  /** Where in a history of `length` pages a retreat from `index` leads; None is the home page. */
  function RetreatIndex(retreat: Retreat, index: nat, length: nat): Option<nat>
  {
    match retreat
    case Back => if index > 0 then Some(index - 1) else None
    case Forward => if index + 1 < length then Some(index + 1) else None
    case Home => None
  }

  /** The retreat of a window that recorded `from` and landed on `to`. */
  function RetreatOf(from: Option<nat>, to: nat, length: nat): Retreat
  {
    ResolveLanding(from.Some? && to < from.value, to > 0, to + 1 < length)
  }

  /** A window that moved one history step retreats to the page it left. */
  lemma OneStepRetreatReturns(from: nat, to: nat, length: nat)
    requires from < length && to < length && (to == from + 1 || from == to + 1)
    ensures RetreatIndex(RetreatOf(Some(from), to, length), to, length) == Some(from)
  {
  }

  /** Any retreat leaves the page landed on: one step forward when the window
      came from further on, one step back otherwise, and home only where there
      is no such step. */
  lemma RetreatLeavesPage(from: Option<nat>, to: nat, length: nat)
    requires to < length
    ensures RetreatIndex(RetreatOf(from, to, length), to, length) ==
      if from.Some? && to < from.value then (if to + 1 < length then Some(to + 1) else None)
      else if to > 0 then Some(to - 1)
      else None
  {
  }

  predicate Touches(e: Event, w: WinId)
  {
    match e
    case Open(v, _) => v == w
    case Claim(v, _) => v == w
    case Commit(v, _, _) => v == w
    case FrameCommit(v, _) => v == w
    case Close(v) => v == w
    case _ => false
  }

  predicate ByOthers(events: seq<Event>, w: WinId)
  {
    forall e <- events :: !Touches(e, w)
  }

  lemma {:induction false} OthersLeaveRecord(al: Aliases, s: State, events: seq<Event>, w: WinId)
    requires ByOthers(events, w) && w in Run(al, s, events).windows
    ensures w in s.windows && Run(al, s, events).windows[w] == s.windows[w]
  {
    if events != [] {
      assert !Touches(events[|events| - 1], w);
      OthersLeaveRecord(al, s, events[..|events| - 1], w);
    }
  }

  /** The retreating window `w` settles on `page` whatever the other windows do meanwhile. */
  ghost predicate AlwaysSettles(al: Aliases, s: State, w: WinId, page: Page)
  {
    forall events :: IsRun(al, s, events) && ByOthers(events, w) && w in Run(al, s, events).windows ==>
      HolderFor(al, Run(al, s, events), w, page).None?
  }

  /** The record of `w` names what `page` shows, or `page` shows no workspace. */
  predicate StillNames(al: Aliases, s: State, w: WinId, page: Page)
    requires w in s.windows
  {
    Landed(al, page).None? || Holds(al, s.windows[w], Landed(al, page).value)
  }

  lemma NamedPageIsSafe(al: Aliases, s: State, events: seq<Event>, w: WinId, page: Page)
    requires al.IsPairing() && WellFormed(s) && Unique(al, s) && w in Mains(s) && StillNames(al, s, w, page)
    requires IsRun(al, s, events) && ByOthers(events, w) && w in Run(al, s, events).windows
    ensures HolderFor(al, Run(al, s, events), w, page).None?
  {
    var t := Run(al, s, events);
    AlwaysUnique(al, s, events);
    OthersLeaveRecord(al, s, events, w);
    assert w in Mains(t);
    var landed := Landed(al, page);
    if landed.Some? {
      MostRecentFinds(al, t, w, landed.value);
      if HeldElsewhere(al, t, w, landed.value) {
        var v :| v in Mains(t) && v != w && Holds(al, t.windows[v], landed.value);
        var held, own := t.windows[v].Held().value, t.windows[w].Held().value;
        SameIsEqualHosts(al, held, landed.value);
        SameIsEqualHosts(al, own, landed.value);
        SameIsEqualHosts(al, held, own);
      }
    }
  }

  lemma FreshWinId(windows: map<WinId, Win>) returns (v: WinId)
    ensures v !in windows
  {
    v := 0;
    var rest := windows.Keys;
    while rest != {}
      invariant rest <= windows.Keys && forall w :: w in windows && w !in rest ==> w < v
      decreases |rest|
    {
      var w :| w in rest;
      rest := rest - {w};
      v := if w < v then v else w + 1;
    }
  }

  /** When the record names something else, a new window can claim the page first. */
  lemma UnnamedPageCanBeTaken(al: Aliases, s: State, w: WinId, page: Page) returns (events: seq<Event>)
    requires al.IsPairing() && WellFormed(s) && w in Mains(s) && !StillNames(al, s, w, page)
    ensures IsRun(al, s, events) && ByOthers(events, w) && w in Run(al, s, events).windows
    ensures HolderFor(al, Run(al, s, events), w, page).Some?
  {
    var id := Landed(al, page).value;
    MostRecentFinds(al, s, w, id);
    if HeldElsewhere(al, s, w, id) {
      events := [];
    } else {
      var v := FreshWinId(s.windows);
      var open, claim := Open(v, Main), Claim(v, id);
      events := [open, claim];
      assert events[..1] == [open] && [open][..0] == [];
      var o := Step(al, s, open);
      assert Run(al, s, [open]) == o;
      assert Run(al, s, events) == Step(al, o, claim);
      assert IsRun(al, s, [open]);
      forall u | u in o.windows && o.windows[u].kind.Main? ensures !Holds(al, o.windows[u], id) {
        assert u == v || u in Mains(s);
      }
      var t := Run(al, s, events);
      SameIsEqualHosts(al, id, id);
      assert Holds(al, t.windows[v], id) by {
        assert al.Host(al.Host(id)) == al.Host(id) by { SameIsEqualHosts(al, id, id); }
        SameIsEqualHosts(al, al.Host(id), id);
      }
      assert v in t.mru;
      assert HolderFor(al, t, w, page).Some?;
    }
  }

  /** The retreat's own commit of `page` leaves `w` holding what it shows, and the rule kept. */
  ghost predicate SettlesOn(al: Aliases, t: State, w: WinId, page: Page, index: nat)
  {
    var u := Step(al, t, Commit(w, page, index));
    && w in u.windows && u.windows[w].Held() == Landed(al, page) && u.windows[w].historyIndex == Some(index)
    && Unique(al, u)
  }

  lemma SafePageSettles(al: Aliases, s: State, events: seq<Event>, w: WinId, page: Page, index: nat)
    requires al.IsPairing() && WellFormed(s) && Unique(al, s) && w in Mains(s) && StillNames(al, s, w, page)
    requires IsRun(al, s, events) && ByOthers(events, w) && w in Run(al, s, events).windows
    requires !page.PopoutPage?
    ensures SettlesOn(al, Run(al, s, events), w, page, index)
  {
    NamedPageIsSafe(al, s, events, w, page);
    AlwaysUnique(al, s, events);
    CommitKeeps(al, Run(al, s, events), w, page, index);
  }

  /** A window that took one history step onto a page another main window
      holds retreats exactly once: the step back leads to the page it left, the
      yield leaves its record as it was, and that page is certain to be free
      when it gets there exactly when the record still named it. The commit it
      makes there then settles it: it holds what the page shows, as no other
      main window does. */
  lemma RetreatsExactlyOnce(al: Aliases, s: State, w: WinId, pages: seq<Page>, from: nat, to: nat)
    requires al.IsPairing() && WellFormed(s) && Unique(al, s) && w in Mains(s)
    requires from < |pages| && to < |pages| && (to == from + 1 || from == to + 1)
    requires s.windows[w].historyIndex == Some(from)
    requires HolderFor(al, s, w, pages[to]).Some?
    ensures var yielded := Step(al, s, Commit(w, pages[to], to));
      && yielded.windows[w].Held() == s.windows[w].Held()
      && RetreatIndex(RetreatOf(Some(from), to, |pages|), to, |pages|) == Some(from)
      && (AlwaysSettles(al, yielded, w, pages[from]) <==> StillNames(al, s, w, pages[from]))
    ensures var yielded := Step(al, s, Commit(w, pages[to], to));
      StillNames(al, s, w, pages[from]) && !pages[from].PopoutPage? ==>
        forall events | IsRun(al, yielded, events) && ByOthers(events, w) && w in Run(al, yielded, events).windows ::
          SettlesOn(al, Run(al, yielded, events), w, pages[from], from)
  {
    OneStepRetreatReturns(from, to, |pages|);
    var yielded := Step(al, s, Commit(w, pages[to], to));
    YieldKeepsUnique(al, s, w, to);
    assert w in Mains(yielded);
    if StillNames(al, s, w, pages[from]) {
      forall events | IsRun(al, yielded, events) && ByOthers(events, w) && w in Run(al, yielded, events).windows
        ensures HolderFor(al, Run(al, yielded, events), w, pages[from]).None?
        ensures !pages[from].PopoutPage? ==> SettlesOn(al, Run(al, yielded, events), w, pages[from], from)
      {
        NamedPageIsSafe(al, yielded, events, w, pages[from]);
        if !pages[from].PopoutPage? {
          SafePageSettles(al, yielded, events, w, pages[from], from);
        }
      }
    } else {
      var events := UnnamedPageCanBeTaken(al, yielded, w, pages[from]);
    }
  }

  lemma YieldKeepsUnique(al: Aliases, s: State, w: WinId, index: nat)
    requires Unique(al, s) && w in s.windows
    ensures Unique(al, s.(windows := s.windows[w := s.windows[w].(historyIndex := Some(index))]))
  {
    var t := s.(windows := s.windows[w := s.windows[w].(historyIndex := Some(index))]);
    assert Mains(t) == Mains(s);
    assert forall v :: v in s.windows ==> t.windows[v].Held() == s.windows[v].Held();
  }
}
