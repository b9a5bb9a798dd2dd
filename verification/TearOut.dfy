/** One watch over a title-bar drag: the popout it holds, and what samples, the
    release and the end of the gesture do to it
    (apps/minds/electron/tear-out-watch.js:21-85, apps/minds/electron/main.js:394-401, 3209-3238). */
module TearOut {
  import opened Options
  import opened WorkspaceAliases

  type PopoutId = nat

  /** What the shell tells a watch to report to the page. */
  datatype Phase = Out | In | Released

  /** The dragged window; `size` stands for its size and where it is grabbed. */
  datatype Request = Request(workspace: Id, window: string, size: int)

  /** `isLeaving`: its window is on its way back to the desktop. */
  datatype Popout = Popout(workspace: Id, window: string, isLeaving: bool, isFollowing: bool)

  /** The open popouts; they are numbered in the order they open. */
  datatype Desk = Desk(popouts: map<PopoutId, Popout>, next: PopoutId)

  datatype Watch = Watch(current: Request, popout: Option<PopoutId>, trace: seq<Phase>)

  predicate Shows(al: Aliases, p: Popout, request: Request)
  {
    p.window == request.window && al.Same(p.workspace, request.workspace)
  }

  /** The first open popout, from number `i` on, that shows the request's window. */
  function FindFrom(al: Aliases, d: Desk, request: Request, i: nat): (found: Option<PopoutId>)
    ensures found.Some? ==> found.value in d.popouts && Shows(al, d.popouts[found.value], request)
    ensures found.None? ==> forall k :: i <= k < d.next && k in d.popouts ==> !Shows(al, d.popouts[k], request)
    decreases d.next - i
  {
    if i >= d.next then None
    else if i in d.popouts && Shows(al, d.popouts[i], request) then Some(i)
    else FindFrom(al, d, request, i + 1)
  }

  function Find(al: Aliases, d: Desk, request: Request): Option<PopoutId>
  {
    FindFrom(al, d, request, 0)
  }

  function Without(d: Desk, id: Option<PopoutId>): Desk
  {
    if id.Some? then d.(popouts := d.popouts - {id.value}) else d
  }

  function Opened(d: Desk, request: Request, isFollowing: bool): Desk
  {
    Desk(d.popouts[d.next := Popout(request.workspace, request.window, false, isFollowing)], d.next + 1)
  }

  /** It stays where the drag left it. */
  function Kept(d: Desk, id: PopoutId): Desk
  {
    if id in d.popouts then d.(popouts := d.popouts[id := d.popouts[id].(isFollowing := false)]) else d
  }

  function Sampled(al: Aliases, w: Watch, d: Desk, isOut: bool, canOpen: bool): (Watch, Desk)
  {
    if isOut && w.popout.None? then
      var cleared := Without(d, Find(al, d, w.current));
      if canOpen then (w.(popout := Some(cleared.next), trace := w.trace + [Out]), Opened(cleared, w.current, true))
      else (w, cleared)
    else if !isOut && w.popout.Some? then (w.(popout := None, trace := w.trace + [In]), Without(d, w.popout))
    else (w, d)
  }

  function Release(w: Watch, d: Desk): (Watch, Desk)
  {
    if w.popout.None? then (w, d) else (w.(trace := w.trace + [Released]), Kept(d, w.popout.value))
  }

  function End(w: Watch, d: Desk, isDetached: bool, isCancelled: Option<bool>): (Watch, Desk)
  {
    if w.popout.Some? && (if isCancelled.None? then !isDetached else isCancelled.value) then (w, Without(d, w.popout))
    else Release(w, d)
  }

  function Abandoned(w: Watch, d: Desk): Desk
  {
    if w.popout.Some? then Kept(d, w.popout.value) else d
  }

  /** What the watch acts on: the app's popouts. */
  class PopoutDesk {
    const al: Aliases
    var popouts: map<PopoutId, Popout>
    var next: PopoutId

    function View(): Desk
      reads this
    {
      Desk(popouts, next)
    }

    constructor (al: Aliases)
      ensures View() == Desk(map[], 0) && this.al == al
    {
      this.al, popouts, next := al, map[], 0;
    }

    method FindPopout(request: Request) returns (found: Option<PopoutId>)
      ensures found == Find(al, View(), request)
    {
      for i := 0 to next
        invariant FindFrom(al, View(), request, i) == Find(al, View(), request)
      {
        if i in popouts && Shows(al, popouts[i], request) {
          return Some(i);
        }
      }
      found := None;
    }

    method ClosePopout(id: PopoutId)
      modifies `popouts
      ensures View() == Without(old(View()), Some(id))
    {
      popouts := popouts - {id};
    }

    /** Opens one under the cursor, following it, unless there is no address for it yet. */
    method OpenPopout(request: Request, canOpen: bool) returns (shown: Option<PopoutId>)
      modifies this
      ensures shown == if canOpen then Some(old(next)) else None
      ensures View() == if canOpen then Opened(old(View()), request, true) else old(View())
    {
      if !canOpen { return None; }
      shown := Some(next);
      popouts := popouts[next := Popout(request.workspace, request.window, false, true)];
      next := next + 1;
    }

    method KeepPopout(id: PopoutId)
      modifies `popouts
      ensures View() == Kept(old(View()), id)
    {
      if id !in popouts { return; }
      popouts := popouts[id := popouts[id].(isFollowing := false)];
    }
  }

  class TearOutWatch {
    const desk: PopoutDesk
    var current: Request
    var popout: Option<PopoutId>
    /** Everything reported of this drag. */
    var trace: seq<Phase>

    function View(): Watch
      reads this
    {
      Watch(current, popout, trace)
    }

    constructor (desk: PopoutDesk, request: Request)
      ensures View() == Watch(request, None, []) && this.desk == desk
    {
      this.desk, current, popout, trace := desk, request, None, [];
    }

    method UpdateRequest(next: Request)
      modifies `current
      ensures View() == old(View()).(current := next)
    {
      current := next;
    }

    method SendTearOut(phase: Phase)
      modifies `trace
      ensures trace == old(trace) + [phase]
    {
      trace := trace + [phase];
    }

    method Sample(isOut: bool, canOpen: bool)
      modifies this, desk
      ensures (View(), desk.View()) == Sampled(desk.al, old(View()), old(desk.View()), isOut, canOpen)
    {
      if isOut && popout == None {
        var lingering := desk.FindPopout(current);
        if lingering.Some? {
          desk.ClosePopout(lingering.value);
        }
        popout := desk.OpenPopout(current, canOpen);
        if popout.Some? {
          SendTearOut(Out);
        }
      } else if !isOut && popout.Some? {
        var dropped := popout.value;
        popout := None;
        desk.ClosePopout(dropped);
        SendTearOut(In);
      }
    }

    method OnRelease()
      modifies this, desk
      ensures (View(), desk.View()) == Release(old(View()), old(desk.View()))
    {
      if popout == None { return; }
      desk.KeepPopout(popout.value);
      SendTearOut(Released);
    }

    method OnEnd(isDetached: bool, isCancelled: Option<bool>)
      modifies this, desk
      ensures (View(), desk.View()) == End(old(View()), old(desk.View()), isDetached, isCancelled)
    {
      if popout == None { return; }
      if (if isCancelled.None? then !isDetached else isCancelled.value) {
        desk.ClosePopout(popout.value);
        return;
      }
      desk.KeepPopout(popout.value);
      SendTearOut(Released);
    }

    method Abandon()
      modifies desk
      ensures desk.View() == Abandoned(View(), old(desk.View()))
    {
      if popout.Some? {
        desk.KeepPopout(popout.value);
      }
    }
  }
}
