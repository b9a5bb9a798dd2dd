/** All drag watches of the app and the popouts they open, over any run
    (apps/minds/electron/main.js:873-887, 2741-2752, 3303-3310, 3463-3595). */
module DragWatches {
  import opened Options
  import opened WorkspaceAliases
  import opened TearOut

  type Source = nat

  /** `finished`: what was reported of each drag that is over. */
  datatype State = State(desk: Desk, watches: map<Source, Watch>, finished: set<seq<Phase>>)

  const INITIAL := State(Desk(map[], 0), map[], {})

  datatype Event =
    | Begin(source: Source, request: Request)
    | Tick(source: Source, isOut: bool, canOpen: bool)
    | MouseUp(source: Source)
    | ShellEnds(source: Source, window: string, isDetached: bool, isCancelled: Option<bool>)
    | SourceCloses(source: Source)
    | PopoutCloses(id: PopoutId)
    | PopoutAskedBack(id: PopoutId)
    | OpenAsked(request: Request, canOpen: bool)
    | Restored(request: Request)

  // Handlers

  function Holding(watches: map<Source, Watch>, gone: set<PopoutId>): set<Source>
  {
    set s | s in watches && watches[s].popout.Some? && watches[s].popout.value in gone
  }

  function Traces(watches: map<Source, Watch>, ended: set<Source>): set<seq<Phase>>
  {
    set s | s in watches && s in ended :: watches[s].trace
  }

  /** The desk moves on to `desk`; a drag ends with the popout it opened. */
  function AfterClosing(s: State, desk: Desk): State
  {
    var ended := Holding(s.watches, s.desk.popouts.Keys - desk.popouts.Keys);
    State(desk, s.watches - ended, s.finished + Traces(s.watches, ended))
  }

  /** The watch of `source` is over, having reported `trace`. */
  function Stopped(s: State, source: Source, trace: seq<Phase>): State
  {
    s.(watches := s.watches - {source}, finished := s.finished + {trace})
  }

  function AbandonAt(s: State, source: Source): State
  {
    if source !in s.watches then s
    else
      var w := s.watches[source];
      Stopped(s, source, w.trace).(desk := Abandoned(w, s.desk))
  }

  predicate IsSameDrag(w: Watch, request: Request)
  {
    w.current.window == request.window && w.current.workspace == request.workspace
  }

  function Step(al: Aliases, s: State, e: Event): State
  {
    match e
    case Begin(source, request) =>
      if source in s.watches && IsSameDrag(s.watches[source], request) then
        s.(watches := s.watches[source := s.watches[source].(current := request)])
      else
        var t := AbandonAt(s, source);
        t.(watches := t.watches[source := Watch(request, None, [])])
    case Tick(source, isOut, canOpen) =>
      if source !in s.watches then s
      else
        var (w, desk) := Sampled(al, s.watches[source], s.desk, isOut, canOpen);
        AfterClosing(s.(watches := s.watches[source := w]), desk)
    case MouseUp(source) =>
      if source !in s.watches then s
      else
        var (w, desk) := Release(s.watches[source], s.desk);
        Stopped(s, source, w.trace).(desk := desk)
    case ShellEnds(source, window, isDetached, isCancelled) =>
      if source !in s.watches || s.watches[source].current.window != window then s
      else
        var (w, desk) := End(s.watches[source], s.desk, isDetached, isCancelled);
        AfterClosing(Stopped(s, source, w.trace), desk)
    case SourceCloses(source) => AbandonAt(s, source)
    case PopoutCloses(id) => AfterClosing(s, Without(s.desk, Some(id)))
    case PopoutAskedBack(id) =>
      if id !in s.desk.popouts then s
      else s.(desk := s.desk.(popouts := s.desk.popouts[id := s.desk.popouts[id].(isLeaving := true)]))
    case OpenAsked(request, canOpen) =>
      var existing := Find(al, s.desk, request);
      if existing.Some? && !s.desk.popouts[existing.value].isLeaving then s
      else
        var t := AfterClosing(s, Without(s.desk, existing));
        if canOpen then t.(desk := Opened(t.desk, request, false)) else t
    case Restored(request) =>
      if Find(al, s.desk, request).Some? then s else s.(desk := Opened(s.desk, request, false))
  }

  function Run(al: Aliases, s: State, events: seq<Event>): State
  {
    if events == [] then s
    else Step(al, Run(al, s, events[..|events| - 1]), events[|events| - 1])
  }

  /** The watches still there when those in `left` have not been looked at yet. */
  function Remaining(all: map<Source, Watch>, gone: set<PopoutId>, left: set<Source>): map<Source, Watch>
  {
    all - (Holding(all, gone) - left)
  }

  function Reported(all: map<Source, Watch>, gone: set<PopoutId>, left: set<Source>): set<seq<Phase>>
  {
    Traces(all, Holding(all, gone) - left)
  }

  lemma NoneSeen(all: map<Source, Watch>, gone: set<PopoutId>)
    ensures Remaining(all, gone, all.Keys) == all && Reported(all, gone, all.Keys) == {}
  {
    assert Holding(all, gone) - all.Keys == {};
  }

  lemma AllSeen(all: map<Source, Watch>, gone: set<PopoutId>)
    ensures Remaining(all, gone, {}) == all - Holding(all, gone)
    ensures Reported(all, gone, {}) == Traces(all, Holding(all, gone))
  {
    assert Holding(all, gone) - {} == Holding(all, gone);
  }

  /** One watch looked at: stopped if it holds a popout that is gone. */
  lemma CloseOne(all: map<Source, Watch>, gone: set<PopoutId>, left: set<Source>, other: Source)
    requires other in left && left <= all.Keys
    ensures other in Remaining(all, gone, left) && Remaining(all, gone, left)[other] == all[other]
    ensures var next := left - {other}; var isHeld := all[other].popout.Some? && all[other].popout.value in gone;
      && Remaining(all, gone, next) ==
           (if isHeld then Remaining(all, gone, left) - {other} else Remaining(all, gone, left))
      && Reported(all, gone, next) == Reported(all, gone, left) + (if isHeld then {all[other].trace} else {})
  {
    var done, next := Holding(all, gone) - left, Holding(all, gone) - (left - {other});
    assert next == if other in Holding(all, gone) then done + {other} else done;
  }

  /** Stops every watch that holds a popout that is gone. */
  method StopHolding(all: map<Source, Watch>, gone: set<PopoutId>, before: set<seq<Phase>>)
    returns (watches: map<Source, Watch>, finished: set<seq<Phase>>)
    ensures watches == all - Holding(all, gone)
    ensures finished == before + Traces(all, Holding(all, gone))
  {
    var left := all.Keys;
    watches, finished := all, before;
    NoneSeen(all, gone);
    while left != {}
      invariant left <= all.Keys
      invariant watches == Remaining(all, gone, left)
      invariant finished == before + Reported(all, gone, left)
      decreases |left|
    {
      var other :| other in left;
      CloseOne(all, gone, left, other);
      left := left - {other};
      var popout := all[other].popout;
      if popout.Some? && popout.value in gone {
        watches := watches - {other};
        finished := finished + {all[other].trace};
      }
    }
    AllSeen(all, gone);
  }

  // The handlers

  /** The app's windows, as far as drags go: the open popouts and, per source
      window, the watch of the drag under way there. */
  class Shell {
    const al: Aliases
    var desk: Desk
    var watches: map<Source, Watch>
    var finished: set<seq<Phase>>

    function View(): State
      reads this
    {
      State(desk, watches, finished)
    }

    constructor (al: Aliases)
      ensures View() == INITIAL && this.al == al
    {
      this.al, desk, watches, finished := al, Desk(map[], 0), map[], {};
    }

    method StopDragWatch(source: Source)
      requires source in watches
      modifies `watches, `finished
      ensures watches == old(watches) - {source} && finished == old(finished) + {old(watches)[source].trace}
    {
      finished := finished + {watches[source].trace};
      watches := watches - {source};
    }

    method AbandonDragWatch(source: Source)
      modifies this
      ensures View() == AbandonAt(old(View()), source)
    {
      if source in watches {
        var w := watches[source];
        StopDragWatch(source);
        desk := Abandoned(w, desk);
      }
    }

    /** The `closed` handlers of the popouts that `after` lacks: each stops the watch that holds it. */
    method OnClosed(after: Desk)
      modifies this
      ensures View() == AfterClosing(old(View()), after)
    {
      var gone := desk.popouts.Keys - after.popouts.Keys;
      desk := after;
      watches, finished := StopHolding(watches, gone, finished);
    }

    method OnBegin(source: Source, request: Request)
      modifies this
      ensures View() == Step(al, old(View()), Begin(source, request))
    {
      if source in watches && IsSameDrag(watches[source], request) {
        watches := watches[source := watches[source].(current := request)];
        return;
      }
      AbandonDragWatch(source);
      watches := watches[source := Watch(request, None, [])];
    }

    method OnTick(source: Source, isOut: bool, canOpen: bool)
      requires source in watches
      modifies this
      ensures View() == Step(al, old(View()), Tick(source, isOut, canOpen))
    {
      var (w, after) := Sampled(al, watches[source], desk, isOut, canOpen);
      watches := watches[source := w];
      OnClosed(after);
    }

    method OnMouseUp(source: Source)
      requires source in watches
      modifies this
      ensures View() == Step(al, old(View()), MouseUp(source))
    {
      var (w, after) := Release(watches[source], desk);
      watches := watches - {source};
      finished := finished + {w.trace};
      desk := after;
    }

    method OnShellEnds(source: Source, window: string, isDetached: bool, isCancelled: Option<bool>)
      modifies this
      ensures View() == Step(al, old(View()), ShellEnds(source, window, isDetached, isCancelled))
    {
      if source !in watches || watches[source].current.window != window { return; }
      var (w, after) := End(watches[source], desk, isDetached, isCancelled);
      watches := watches - {source};
      finished := finished + {w.trace};
      OnClosed(after);
    }

    method OnOpenAsked(request: Request, canOpen: bool)
      modifies this
      ensures View() == Step(al, old(View()), OpenAsked(request, canOpen))
    {
      var existing := Find(al, desk, request);
      if existing.Some? && !desk.popouts[existing.value].isLeaving { return; }
      OnClosed(Without(desk, existing));
      if canOpen { desk := Opened(desk, request, false); }
    }
  }

  // What a drag reports

  datatype Stage = Inside | Outside | Over | Wrong

  /** The automaton of `(out in)* (out | out released)?`. */
  function StageAfter(trace: seq<Phase>): Stage
  {
    if trace == [] then Inside
    else
      match (StageAfter(trace[..|trace| - 1]), trace[|trace| - 1])
      case (Inside, Out) => Outside
      case (Outside, In) => Inside
      case (Outside, Released) => Over
      case _ => Wrong
  }

  lemma StageSnoc(trace: seq<Phase>, phase: Phase)
    ensures StageAfter(trace + [phase]) ==
      match (StageAfter(trace), phase)
      case (Inside, Out) => Outside
      case (Outside, In) => Inside
      case (Outside, Released) => Over
      case _ => Wrong
  {
    assert (trace + [phase])[..|trace|] == trace;
  }

  // Invariants

  predicate SameWindow(al: Aliases, p: Popout, q: Popout)
  {
    p.window == q.window && al.Host(p.workspace) == al.Host(q.workspace)
  }

  /** A window is out in at most one popout. */
  predicate OutOnce(al: Aliases, d: Desk)
  {
    && (forall i <- d.popouts :: i < d.next)
    && (forall i <- d.popouts, j <- d.popouts ::
          SameWindow(al, d.popouts[i], d.popouts[j]) ==> i == j)
  }

  /** A running watch holds an open popout of its own window, or none, as its last report says. */
  predicate WatchFits(d: Desk, w: Watch)
  {
    match w.popout
    case None => StageAfter(w.trace) == Inside
    case Some(id) =>
      && StageAfter(w.trace) == Outside
      && id in d.popouts && d.popouts[id].window == w.current.window && d.popouts[id].workspace == w.current.workspace
  }

  predicate HeldSomewhere(watches: map<Source, Watch>, id: PopoutId)
  {
    exists s <- watches :: watches[s].popout == Some(id)
  }

  predicate HeldOnce(watches: map<Source, Watch>)
  {
    forall a <- watches, b <- watches :: watches[a].popout.Some? && watches[a].popout == watches[b].popout ==> a == b
  }

  predicate Consistent(al: Aliases, s: State)
  {
    && OutOnce(al, s.desk)
    && (forall x <- s.watches :: WatchFits(s.desk, s.watches[x]))
    && HeldOnce(s.watches)
    && (forall id <- s.desk.popouts :: s.desk.popouts[id].isFollowing <==> HeldSomewhere(s.watches, id))
    && (forall trace <- s.finished :: StageAfter(trace) != Wrong)
  }

  /** A watch of a drag that has reported nothing wrong, holding nothing the desk lacks. */
  lemma StopKeeps(al: Aliases, s: State, source: Source)
    requires Consistent(al, s) && source in s.watches
    ensures Consistent(al, Stopped(s, source, s.watches[source].trace).(desk := Abandoned(s.watches[source], s.desk)))
  {
    var w := s.watches[source];
    var t := Stopped(s, source, w.trace).(desk := Abandoned(w, s.desk));
    forall id | id in t.desk.popouts
      ensures t.desk.popouts[id].isFollowing <==> HeldSomewhere(t.watches, id)
    {
      if w.popout != Some(id) && HeldSomewhere(s.watches, id) {
        var x :| x in s.watches && s.watches[x].popout == Some(id);
        assert x in t.watches && t.watches[x].popout == Some(id);
      }
    }
  }

  /** Closing one popout, from which the watch that holds it goes too. */
  lemma CloseKeeps(al: Aliases, s: State, id: Option<PopoutId>)
    requires Consistent(al, s)
    ensures Consistent(al, AfterClosing(s, Without(s.desk, id)))
  {
    var desk := Without(s.desk, id);
    var t := AfterClosing(s, desk);
    assert forall x <- t.watches :: x in s.watches && t.watches[x] == s.watches[x];
    forall other | other in desk.popouts
      ensures desk.popouts[other].isFollowing <==> HeldSomewhere(t.watches, other)
    {
      if HeldSomewhere(s.watches, other) {
        var x :| x in s.watches && s.watches[x].popout == Some(other);
        assert x in t.watches && t.watches[x].popout == Some(other);
      }
    }
  }

  lemma OpenKeeps(al: Aliases, s: State, request: Request)
    requires al.IsPairing() && Consistent(al, s) && Find(al, s.desk, request).None?
    ensures Consistent(al, s.(desk := Opened(s.desk, request, false)))
  {
    var t := s.(desk := Opened(s.desk, request, false));
    NoneShows(al, s.desk, request);
    assert !HeldSomewhere(s.watches, s.desk.next);
  }

  lemma NoneShows(al: Aliases, d: Desk, request: Request)
    requires al.IsPairing() && OutOnce(al, d) && Find(al, d, request).None?
    ensures forall i <- d.popouts ::
              d.popouts[i].window != request.window || al.Host(d.popouts[i].workspace) != al.Host(request.workspace)
    ensures OutOnce(al, Opened(d, request, false)) && OutOnce(al, Opened(d, request, true))
  {
    forall i | i in d.popouts
      ensures d.popouts[i].window != request.window || al.Host(d.popouts[i].workspace) != al.Host(request.workspace)
    {
      SameIsEqualHosts(al, d.popouts[i].workspace, request.workspace);
      assert !Shows(al, d.popouts[i], request);
    }
  }

  /** Once what was found is closed, nothing of the window is left open. */
  lemma FindOnce(al: Aliases, d: Desk, request: Request)
    requires al.IsPairing() && OutOnce(al, d)
    ensures Find(al, Without(d, Find(al, d, request)), request).None?
    ensures OutOnce(al, Without(d, Find(al, d, request)))
  {
    var found := Find(al, d, request);
    var left := Without(d, found);
    if found.Some? && Find(al, left, request).Some? {
      var other := Find(al, left, request).value;
      SameIsEqualHosts(al, d.popouts[found.value].workspace, request.workspace);
      SameIsEqualHosts(al, d.popouts[other].workspace, request.workspace);
      assert false;
    }
  }

  /** Clearing away what still showed the window, before a drag opens its own. */
  function Cleared(al: Aliases, s: State, request: Request): State
  {
    AfterClosing(s, Without(s.desk, Find(al, s.desk, request)))
  }

  lemma OutIsClearThenHold(al: Aliases, s: State, source: Source)
    requires Consistent(al, s) && source in s.watches && s.watches[source].popout.None?
    ensures var w := s.watches[source]; var t := Cleared(al, s, w.current);
      && source in t.watches && t.watches[source] == w
      && Step(al, s, Tick(source, true, true)) ==
           t.(watches := t.watches[source := w.(popout := Some(t.desk.next), trace := w.trace + [Out])],
              desk := Opened(t.desk, w.current, true))
  {
    var w := s.watches[source];
    var cleared := Without(s.desk, Find(al, s.desk, w.current));
    var desk := Opened(cleared, w.current, true);
    var held := s.watches[source := w.(popout := Some(cleared.next), trace := w.trace + [Out])];
    assert s.desk.popouts.Keys - desk.popouts.Keys == s.desk.popouts.Keys - cleared.popouts.Keys;
    assert Holding(held, s.desk.popouts.Keys - desk.popouts.Keys)
        == Holding(s.watches, s.desk.popouts.Keys - cleared.popouts.Keys);
  }

  lemma TickCannotOpen(al: Aliases, s: State, source: Source)
    requires Consistent(al, s) && source in s.watches && s.watches[source].popout.None?
    ensures Step(al, s, Tick(source, true, false)) == Cleared(al, s, s.watches[source].current)
  {
    assert s.watches[source := s.watches[source]] == s.watches;
  }

  /** A sample that goes out. */
  lemma OutKeeps(al: Aliases, s: State, source: Source)
    requires al.IsPairing() && Consistent(al, s) && source in s.watches && s.watches[source].popout.None?
    ensures Consistent(al, Step(al, s, Tick(source, true, true)))
  {
    var w := s.watches[source];
    var t := Cleared(al, s, w.current);
    CloseKeeps(al, s, Find(al, s.desk, w.current));
    FindOnce(al, s.desk, w.current);
    NoneShows(al, t.desk, w.current);
    StageSnoc(w.trace, Out);
    OutIsClearThenHold(al, s, source);
    HoldsNew(al, t, source, w.(popout := Some(t.desk.next), trace := w.trace + [Out]));
  }

  /** A running watch takes hold of the popout just opened for it. */
  lemma HoldsNew(al: Aliases, t: State, source: Source, w: Watch)
    requires Consistent(al, t) && source in t.watches && t.watches[source].popout.None?
    requires w.popout == Some(t.desk.next) && w.current == t.watches[source].current && StageAfter(w.trace) == Outside
    requires OutOnce(al, Opened(t.desk, w.current, true))
    ensures Consistent(al, t.(watches := t.watches[source := w], desk := Opened(t.desk, w.current, true)))
  {
    var u := t.(watches := t.watches[source := w], desk := Opened(t.desk, w.current, true));
    NewFollows(al, t, source, w);
    forall x | x in u.watches ensures WatchFits(u.desk, u.watches[x]) {
      assert x != source ==> WatchFits(t.desk, t.watches[x]);
    }
    NewIsHeldOnce(al, t, source, w);
  }

  lemma NewIsHeldOnce(al: Aliases, t: State, source: Source, w: Watch)
    requires Consistent(al, t) && source in t.watches && t.watches[source].popout.None?
    requires w.popout == Some(t.desk.next)
    ensures HeldOnce(t.watches[source := w])
  {
    forall x | x in t.watches ensures t.watches[x].popout != Some(t.desk.next) {
      assert WatchFits(t.desk, t.watches[x]);
    }
  }

  lemma NewFollows(al: Aliases, t: State, source: Source, w: Watch)
    requires Consistent(al, t) && source in t.watches && t.watches[source].popout.None?
    requires w.popout == Some(t.desk.next)
    ensures var desk := Opened(t.desk, w.current, true);
      forall id <- desk.popouts :: desk.popouts[id].isFollowing <==> HeldSomewhere(t.watches[source := w], id)
  {
    var desk, watches := Opened(t.desk, w.current, true), t.watches[source := w];
    assert watches[source].popout == Some(t.desk.next);
    forall id | id in desk.popouts
      ensures desk.popouts[id].isFollowing <==> HeldSomewhere(watches, id)
    {
      if id in t.desk.popouts && HeldSomewhere(t.watches, id) {
        var x :| x in t.watches && t.watches[x].popout == Some(id);
        assert x != source && watches[x].popout == Some(id);
      }
    }
  }

  /** A sample that comes back inside drops the popout and nothing else. */
  lemma InKeeps(al: Aliases, s: State, source: Source)
    requires Consistent(al, s) && source in s.watches && s.watches[source].popout.Some?
    ensures Consistent(al, Step(al, s, Tick(source, false, true)))
  {
    var w := s.watches[source];
    var w' := w.(popout := None, trace := w.trace + [In]);
    StageSnoc(w.trace, In);
    var t := Step(al, s, Tick(source, false, true));
    assert t.watches == s.watches[source := w'];
    forall id | id in t.desk.popouts
      ensures t.desk.popouts[id].isFollowing <==> HeldSomewhere(t.watches, id)
    {
      if HeldSomewhere(s.watches, id) {
        var x :| x in s.watches && s.watches[x].popout == Some(id);
        assert x in t.watches && t.watches[x].popout == Some(id);
      }
    }
  }

  lemma TickKeeps(al: Aliases, s: State, source: Source, isOut: bool, canOpen: bool)
    requires al.IsPairing() && Consistent(al, s) && source in s.watches
    ensures Consistent(al, Step(al, s, Tick(source, isOut, canOpen)))
  {
    if isOut && s.watches[source].popout.None? {
      if canOpen {
        OutKeeps(al, s, source);
      } else {
        TickCannotOpen(al, s, source);
        CloseKeeps(al, s, Find(al, s.desk, s.watches[source].current));
      }
    } else if !isOut && s.watches[source].popout.Some? {
      InKeeps(al, s, source);
    } else {
      assert s.watches[source := s.watches[source]] == s.watches;
      assert AfterClosing(s, s.desk) == s;
    }
  }

  lemma ReleaseKeeps(al: Aliases, s: State, source: Source)
    requires Consistent(al, s) && source in s.watches
    ensures Consistent(al, Step(al, s, MouseUp(source)))
  {
    StopKeeps(al, s, source);
    StageSnoc(s.watches[source].trace, Released);
  }

  lemma NothingClosed(s: State, desk: Desk)
    requires desk.popouts.Keys == s.desk.popouts.Keys
    ensures AfterClosing(s, desk) == s.(desk := desk)
  {
    assert Holding(s.watches, {}) == {};
  }

  /** A cancelled drag is over together with the popout it held. */
  lemma CancelIsClose(al: Aliases, s: State, source: Source)
    requires Consistent(al, s) && source in s.watches && s.watches[source].popout.Some?
    ensures var w := s.watches[source]; var desk := Without(s.desk, w.popout);
      AfterClosing(Stopped(s, source, w.trace), desk) == AfterClosing(s, desk)
  {
    var w := s.watches[source];
    var desk := Without(s.desk, w.popout);
    var closed := s.desk.popouts.Keys - desk.popouts.Keys;
    assert WatchFits(s.desk, w);
    assert closed == {w.popout.value};
    assert Holding(s.watches, closed) == {source};
    assert Holding(s.watches - {source}, closed) == {};
  }

  /** Whether the shell's end of a gesture counts as cancelling it. */
  predicate IsCancelling(isDetached: bool, isCancelled: Option<bool>)
  {
    if isCancelled.None? then !isDetached else isCancelled.value
  }

  lemma CancelledEnd(al: Aliases, s: State, source: Source, window: string, isDetached: bool, isCancelled: Option<bool>)
    requires Consistent(al, s) && source in s.watches && s.watches[source].current.window == window
    requires s.watches[source].popout.Some? && IsCancelling(isDetached, isCancelled)
    ensures Step(al, s, ShellEnds(source, window, isDetached, isCancelled)) ==
      AfterClosing(s, Without(s.desk, s.watches[source].popout))
  {
    CancelIsClose(al, s, source);
  }

  lemma LetGoEnd(al: Aliases, s: State, source: Source, window: string, isDetached: bool, isCancelled: Option<bool>)
    requires source in s.watches && s.watches[source].current.window == window
    requires s.watches[source].popout.None? || !IsCancelling(isDetached, isCancelled)
    ensures Step(al, s, ShellEnds(source, window, isDetached, isCancelled)) == Step(al, s, MouseUp(source))
  {
    var (w', desk) := Release(s.watches[source], s.desk);
    NothingClosed(Stopped(s, source, w'.trace), desk);
  }

  lemma EndKeeps(al: Aliases, s: State, source: Source, window: string, isDetached: bool, isCancelled: Option<bool>)
    requires Consistent(al, s) && source in s.watches && s.watches[source].current.window == window
    ensures Consistent(al, Step(al, s, ShellEnds(source, window, isDetached, isCancelled)))
  {
    var popout := s.watches[source].popout;
    if popout.Some? && IsCancelling(isDetached, isCancelled) {
      CancelledEnd(al, s, source, window, isDetached, isCancelled);
      CloseKeeps(al, s, popout);
    } else {
      LetGoEnd(al, s, source, window, isDetached, isCancelled);
      ReleaseKeeps(al, s, source);
    }
  }

  /** Giving a watch another state that holds what it held changes nothing of who holds what. */
  lemma HeldAlike(watches: map<Source, Watch>, others: map<Source, Watch>)
    requires forall x <- watches :: watches[x].popout.Some? ==> x in others && others[x].popout == watches[x].popout
    requires forall x <- others :: others[x].popout.Some? ==> x in watches && others[x].popout == watches[x].popout
    ensures forall id: PopoutId :: HeldSomewhere(watches, id) <==> HeldSomewhere(others, id)
  {
    forall id: PopoutId ensures HeldSomewhere(watches, id) <==> HeldSomewhere(others, id) {
      if HeldSomewhere(watches, id) {
        var x :| x in watches && watches[x].popout == Some(id);
        assert x in others && others[x].popout == Some(id);
      }
      if HeldSomewhere(others, id) {
        var x :| x in others && others[x].popout == Some(id);
        assert x in watches && watches[x].popout == Some(id);
      }
    }
  }

  lemma UpdateKeeps(al: Aliases, s: State, source: Source, request: Request)
    requires Consistent(al, s) && source in s.watches && IsSameDrag(s.watches[source], request)
    ensures Consistent(al, s.(watches := s.watches[source := s.watches[source].(current := request)]))
  {
    HeldAlike(s.watches, s.watches[source := s.watches[source].(current := request)]);
  }

  lemma NewDragKeeps(al: Aliases, s: State, source: Source, request: Request)
    requires Consistent(al, s) && source !in s.watches
    ensures Consistent(al, s.(watches := s.watches[source := Watch(request, None, [])]))
  {
    HeldAlike(s.watches, s.watches[source := Watch(request, None, [])]);
  }

  lemma BeginKeeps(al: Aliases, s: State, source: Source, request: Request)
    requires Consistent(al, s)
    ensures Consistent(al, Step(al, s, Begin(source, request)))
  {
    if source in s.watches && IsSameDrag(s.watches[source], request) {
      UpdateKeeps(al, s, source, request);
    } else {
      if source in s.watches {
        StopKeeps(al, s, source);
      }
      NewDragKeeps(al, AbandonAt(s, source), source, request);
    }
  }

  /** Every handler keeps the invariant. */
  lemma StepKeeps(al: Aliases, s: State, e: Event)
    requires al.IsPairing() && Consistent(al, s)
    ensures Consistent(al, Step(al, s, e))
  {
    match e
    case Begin(source, request) => BeginKeeps(al, s, source, request);
    case Tick(source, isOut, canOpen) =>
      if source in s.watches { TickKeeps(al, s, source, isOut, canOpen); }
    case MouseUp(source) =>
      if source in s.watches { ReleaseKeeps(al, s, source); }
    case ShellEnds(source, window, isDetached, isCancelled) =>
      if source in s.watches && s.watches[source].current.window == window {
        EndKeeps(al, s, source, window, isDetached, isCancelled);
      }
    case SourceCloses(source) =>
      if source in s.watches { StopKeeps(al, s, source); }
    case PopoutCloses(id) => CloseKeeps(al, s, Some(id));
    case PopoutAskedBack(id) =>
    case OpenAsked(request, canOpen) =>
      var existing := Find(al, s.desk, request);
      var t := AfterClosing(s, Without(s.desk, existing));
      CloseKeeps(al, s, existing);
      FindOnce(al, s.desk, request);
      OpenKeeps(al, t, request);
    case Restored(request) =>
      if Find(al, s.desk, request).None? { OpenKeeps(al, s, request); }
  }

  // Whole runs

  /** Over any run whatever: no window is out twice, a running watch holds an
      open popout of its own window exactly when its last report was "out", and
      what each drag reported is in `(out in)* (out | out released)?`. */
  lemma {:induction false} AlwaysConsistent(al: Aliases, events: seq<Event>)
    requires al.IsPairing()
    ensures Consistent(al, Run(al, INITIAL, events))
  {
    if events != [] {
      AlwaysConsistent(al, events[..|events| - 1]);
      StepKeeps(al, Run(al, INITIAL, events[..|events| - 1]), events[|events| - 1]);
    }
  }

  /** Coming back inside ends no watch, this one or another: only this one's
      hold and the popout it held are gone. */
  lemma ComingBackEndsNothing(al: Aliases, s: State, source: Source, canOpen: bool)
    requires Consistent(al, s) && source in s.watches
    ensures var t := Step(al, s, Tick(source, false, canOpen));
      && t.watches.Keys == s.watches.Keys && t.finished == s.finished
      && t.watches[source].popout.None? && t.watches[source].current == s.watches[source].current
      && (forall other <- s.watches :: other != source ==> t.watches[other] == s.watches[other])
      && t.desk == Without(s.desk, s.watches[source].popout)
  {
    var t := Step(al, s, Tick(source, false, canOpen));
    assert s.watches[source := s.watches[source]] == s.watches;
    assert Holding(t.watches, s.desk.popouts.Keys - t.desk.popouts.Keys) == {};
    assert forall other <- s.watches :: other != source ==> WatchFits(s.desk, s.watches[other]);
    if s.watches[source].popout.Some? {
      var w' := s.watches[source].(popout := None, trace := s.watches[source].trace + [In]);
      var held := s.watches[source := w'];
      assert Holding(held, s.desk.popouts.Keys - t.desk.popouts.Keys) == {};
    }
  }

  /** The events that end a drag without cancelling it. */
  predicate EndsUncancelled(e: Event)
  {
    match e
    case Begin(_, _) => true
    case MouseUp(_) => true
    case SourceCloses(_) => true
    case ShellEnds(_, _, isDetached, isCancelled) => !IsCancelling(isDetached, isCancelled)
    case _ => false
  }

  lemma ReleaseKeepsPopouts(al: Aliases, s: State, source: Source)
    ensures Step(al, s, MouseUp(source)).desk.popouts.Keys == s.desk.popouts.Keys
  {
  }

  lemma AbandonKeepsPopouts(s: State, source: Source)
    ensures AbandonAt(s, source).desk.popouts.Keys == s.desk.popouts.Keys
  {
  }

  /** However a drag ends, other than cancelled, what it pulled out stays: no
      event that ends one closes a popout. */
  lemma EndingKeepsPopouts(al: Aliases, s: State, e: Event)
    requires EndsUncancelled(e)
    ensures Step(al, s, e).desk.popouts.Keys == s.desk.popouts.Keys
  {
    match e
    case Begin(source, request) => AbandonKeepsPopouts(s, source);
    case MouseUp(source) => ReleaseKeepsPopouts(al, s, source);
    case SourceCloses(source) => AbandonKeepsPopouts(s, source);
    case ShellEnds(source, window, isDetached, isCancelled) =>
      if source in s.watches && s.watches[source].current.window == window {
        LetGoEnd(al, s, source, window, isDetached, isCancelled);
        ReleaseKeepsPopouts(al, s, source);
      }
  }

  /** A cancelled one, said to be or ended inside, takes the popout it held with it, and no other. */
  lemma CancellingClosesItsOwn(al: Aliases, s: State, source: Source, isDetached: bool, isCancelled: Option<bool>)
    requires Consistent(al, s) && source in s.watches && s.watches[source].popout.Some?
    requires IsCancelling(isDetached, isCancelled)
    ensures var e := ShellEnds(source, s.watches[source].current.window, isDetached, isCancelled);
      Step(al, s, e).desk.popouts.Keys == s.desk.popouts.Keys - {s.watches[source].popout.value}
  {
    CancelledEnd(al, s, source, s.watches[source].current.window, isDetached, isCancelled);
  }
}
