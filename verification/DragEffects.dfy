/** What each event of a title-bar drag leaves behind: the popouts open, the
    watches running, and what was reported of the drags that are over
    (apps/minds/electron/tear-out-watch.js:40-85,
    apps/minds/electron/main.js:873-887, 3303-3310, 3463-3595). */
module DragEffects {
  import opened Options
  import opened WorkspaceAliases
  import opened TearOut
  import opened DragWatches

  /** The popouts that do not show the request's window are the same on both desks. */
  predicate OthersAlike(al: Aliases, before: Desk, after: Desk, request: Request)
  {
    && (forall id <- before.popouts :: !Shows(al, before.popouts[id], request) ==>
          id in after.popouts && after.popouts[id] == before.popouts[id])
    && (forall id <- after.popouts :: !Shows(al, after.popouts[id], request) ==> id in before.popouts)
  }

  /** The one popout that shows the window is `id`, as given. */
  predicate OnlyShownBy(al: Aliases, d: Desk, request: Request, id: PopoutId, p: Popout)
  {
    && id in d.popouts && d.popouts[id] == p
    && forall k <- d.popouts :: Shows(al, d.popouts[k], request) ==> k == id
  }

  predicate ShownByNone(al: Aliases, d: Desk, request: Request)
  {
    forall k <- d.popouts :: !Shows(al, d.popouts[k], request)
  }

  /** Out, and not on its way back to the desktop. */
  ghost predicate StaysOut(al: Aliases, d: Desk, request: Request)
  {
    exists k :: k in d.popouts && Shows(al, d.popouts[k], request) && !d.popouts[k].isLeaving
  }

  function NewPopout(request: Request, isFollowing: bool): Popout
  {
    Popout(request.workspace, request.window, false, isFollowing)
  }

  lemma ShowsItself(al: Aliases, request: Request, isFollowing: bool)
    ensures Shows(al, NewPopout(request, isFollowing), request)
  {
  }

  lemma ShownOnce(al: Aliases, d: Desk, request: Request, i: PopoutId, j: PopoutId)
    requires al.IsPairing() && OutOnce(al, d) && i in d.popouts && j in d.popouts
    requires Shows(al, d.popouts[i], request) && Shows(al, d.popouts[j], request)
    ensures i == j
  {
    SameIsEqualHosts(al, d.popouts[i].workspace, request.workspace);
    SameIsEqualHosts(al, d.popouts[j].workspace, request.workspace);
    assert SameWindow(al, d.popouts[i], d.popouts[j]);
  }

  /** Taking away what shows the window leaves the others, and nothing that shows it. */
  lemma ClearedOfWindow(al: Aliases, d: Desk, request: Request)
    requires al.IsPairing() && OutOnce(al, d)
    ensures var t := Without(d, Find(al, d, request));
      OthersAlike(al, d, t, request) && ShownByNone(al, t, request) && t.next == d.next
  {
    var t := Without(d, Find(al, d, request));
    forall k | k in t.popouts ensures !Shows(al, t.popouts[k], request) {
      if Shows(al, d.popouts[k], request) && Find(al, d, request).Some? {
        ShownOnce(al, d, request, k, Find(al, d, request).value);
      }
    }
  }

  /** And opening one then shows the window there alone. */
  lemma OpenedForWindow(al: Aliases, d: Desk, cleared: Desk, request: Request, isFollowing: bool)
    requires OutOnce(al, d) && OthersAlike(al, d, cleared, request) && ShownByNone(al, cleared, request)
    requires cleared.next == d.next
    requires forall k <- cleared.popouts :: k < cleared.next
    ensures var t := Opened(cleared, request, isFollowing);
      OthersAlike(al, d, t, request) && OnlyShownBy(al, t, request, d.next, NewPopout(request, isFollowing))
  {
    ShowsItself(al, request, isFollowing);
    var t := Opened(cleared, request, isFollowing);
    assert forall k <- cleared.popouts :: k in t.popouts && t.popouts[k] == cleared.popouts[k];
  }

  // Popouts asked for without a drag

  /** Asking for a window that is out and stays out changes nothing. Any other
      time it ends with the window out in one popout, newly opened, or, with no
      address for it yet, in none; every other popout is as it was. */
  lemma OpenAskedOpens(al: Aliases, s: State, request: Request, canOpen: bool)
    requires al.IsPairing() && Consistent(al, s)
    ensures var t := Step(al, s, OpenAsked(request, canOpen));
      if StaysOut(al, s.desk, request) then t == s
      else
        && OthersAlike(al, s.desk, t.desk, request)
        && (if canOpen then OnlyShownBy(al, t.desk, request, s.desk.next, NewPopout(request, false))
            else ShownByNone(al, t.desk, request))
  {
    var existing := Find(al, s.desk, request);
    if k :| k in s.desk.popouts && Shows(al, s.desk.popouts[k], request) && !s.desk.popouts[k].isLeaving {
      assert k < s.desk.next;
      ShownOnce(al, s.desk, request, existing.value, k);
    } else {
      ClearedOfWindow(al, s.desk, request);
      OpenedForWindow(al, s.desk, Without(s.desk, existing), request, false);
    }
  }

  /** A session restore reopens the popout of a window that is in none, once. */
  lemma RestoredShows(al: Aliases, s: State, request: Request)
    requires al.IsPairing() && Consistent(al, s)
    ensures var t := Step(al, s, Restored(request));
      if ShownByNone(al, s.desk, request) then
        OthersAlike(al, s.desk, t.desk, request) && t.watches == s.watches && t.finished == s.finished
        && OnlyShownBy(al, t.desk, request, s.desk.next, NewPopout(request, false))
      else t == s
  {
    if ShownByNone(al, s.desk, request) {
      OpenedForWindow(al, s.desk, s.desk, request, false);
    } else {
      var k :| k in s.desk.popouts && Shows(al, s.desk.popouts[k], request);
      assert k < s.desk.next;
    }
  }

  // Samples

  /** Crossing out opens the window's own popout under the cursor, the drag
      holding it from then on and saying so; one still lingering for the window
      is gone. With no address for it yet nothing is held and nothing said. */
  lemma GoingOutOpens(al: Aliases, s: State, source: Source, canOpen: bool)
    requires al.IsPairing() && Consistent(al, s) && source in s.watches && s.watches[source].popout.None?
    ensures var w := s.watches[source]; var t := Step(al, s, Tick(source, true, canOpen));
      && source in t.watches && OthersAlike(al, s.desk, t.desk, w.current)
      && (if canOpen then
            t.watches[source] == Watch(w.current, Some(s.desk.next), w.trace + [Out])
            && OnlyShownBy(al, t.desk, w.current, s.desk.next, NewPopout(w.current, true))
          else t.watches[source] == w && ShownByNone(al, t.desk, w.current))
  {
    var w := s.watches[source];
    ClearedOfWindow(al, s.desk, w.current);
    OpenedForWindow(al, s.desk, Without(s.desk, Find(al, s.desk, w.current)), w.current, true);
    if canOpen { OutIsClearThenHold(al, s, source); } else { TickCannotOpen(al, s, source); }
  }

  /** Coming back in says so, and the drag holds nothing any more. */
  lemma ComingBackSaysSo(al: Aliases, s: State, source: Source, canOpen: bool)
    requires Consistent(al, s) && source in s.watches && s.watches[source].popout.Some?
    ensures var w := s.watches[source]; var t := Step(al, s, Tick(source, false, canOpen));
      && source in t.watches && t.watches[source] == Watch(w.current, None, w.trace + [In])
      && t.desk.popouts == s.desk.popouts - {w.popout.value}
  {
    ComingBackEndsNothing(al, s, source, canOpen);
    var w := s.watches[source];
    var held := s.watches[source := w.(popout := None, trace := w.trace + [In])];
    assert Holding(held, s.desk.popouts.Keys - Without(s.desk, w.popout).popouts.Keys) == {} by {
      assert forall other <- s.watches :: other != source ==> WatchFits(s.desk, s.watches[other]);
    }
  }

  /** A sample on the side the drag is on already changes nothing. */
  lemma SameSideChangesNothing(al: Aliases, s: State, source: Source, isOut: bool, canOpen: bool)
    requires source in s.watches && (s.watches[source].popout.Some? <==> isOut)
    ensures Step(al, s, Tick(source, isOut, canOpen)) == s
  {
    assert s.watches[source := s.watches[source]] == s.watches;
    NothingClosed(s, s.desk);
  }

  // Ends

  /** The popouts, with the one a drag held left where it is. */
  predicate LeftInPlace(s: State, t: State, held: Option<PopoutId>)
  {
    && t.desk.next == s.desk.next && t.desk.popouts.Keys == s.desk.popouts.Keys
    && forall id <- s.desk.popouts ::
         t.desk.popouts[id] == if held == Some(id) then s.desk.popouts[id].(isFollowing := false) else s.desk.popouts[id]
  }

  /** A release in a drag that is out says so and leaves the popout in place; inside, nothing is said. */
  lemma ReleaseSaysSo(al: Aliases, s: State, source: Source)
    requires Consistent(al, s) && source in s.watches
    ensures var w := s.watches[source]; var t := Step(al, s, MouseUp(source));
      && t.watches == s.watches - {source} && LeftInPlace(s, t, w.popout)
      && t.finished == s.finished + {w.trace + if w.popout.Some? then [Released] else []}
  {
    assert WatchFits(s.desk, s.watches[source]);
    assert s.watches[source].trace + [] == s.watches[source].trace;
  }

  /** The shell's end of a gesture counts only for the window being dragged. It
      closes the popout, saying nothing, when the shell says it cancelled, or,
      not saying, that the window is not detached; otherwise it is a release. */
  lemma ShellEndDecides(al: Aliases, s: State, source: Source, window: string, isDetached: bool, isCancelled: Option<bool>)
    requires Consistent(al, s) && source in s.watches
    ensures var w := s.watches[source]; var t := Step(al, s, ShellEnds(source, window, isDetached, isCancelled));
      if w.current.window != window then t == s
      else if w.popout.Some? && (isCancelled == Some(true) || (isCancelled == None && !isDetached)) then
        && t.watches == s.watches - {source} && t.finished == s.finished + {w.trace}
        && t.desk.popouts == s.desk.popouts - {w.popout.value}
      else t == Step(al, s, MouseUp(source))
  {
    var w := s.watches[source];
    if w.current.window == window {
      if w.popout.Some? && IsCancelling(isDetached, isCancelled) {
        CancelledEnd(al, s, source, window, isDetached, isCancelled);
        CloseEndsHolder(al, s, source);
      } else {
        LetGoEnd(al, s, source, window, isDetached, isCancelled);
      }
    }
  }

  /** Closing the popout a drag holds ends that drag and no other. */
  lemma CloseEndsHolder(al: Aliases, s: State, source: Source)
    requires Consistent(al, s) && source in s.watches && s.watches[source].popout.Some?
    ensures var w := s.watches[source]; var t := AfterClosing(s, Without(s.desk, w.popout));
      && t.watches == s.watches - {source} && t.finished == s.finished + {w.trace}
      && t.desk.popouts == s.desk.popouts - {w.popout.value}
  {
    var w := s.watches[source];
    assert WatchFits(s.desk, w);
    var gone := s.desk.popouts.Keys - Without(s.desk, w.popout).popouts.Keys;
    assert gone == {w.popout.value};
    assert Holding(s.watches, gone) == {source};
    assert Traces(s.watches, {source}) == {w.trace};
  }

  /** A popout that closes takes the drag that holds it, if one does, and nothing else. */
  lemma PopoutCloseEndsItsDrag(al: Aliases, s: State, id: PopoutId)
    requires Consistent(al, s)
    ensures var t := Step(al, s, PopoutCloses(id));
      && t.desk.popouts == s.desk.popouts - {id}
      && (forall x <- s.watches :: s.watches[x].popout != Some(id) ==> x in t.watches && t.watches[x] == s.watches[x])
      && (forall x <- t.watches :: x in s.watches && t.watches[x].popout != Some(id))
      && (forall x <- s.watches :: s.watches[x].popout == Some(id) ==>
            t.finished == s.finished + {s.watches[x].trace})
      && (!HeldSomewhere(s.watches, id) ==> t.watches == s.watches && t.finished == s.finished)
  {
    if HeldSomewhere(s.watches, id) {
      var x :| x in s.watches && s.watches[x].popout == Some(id);
      CloseEndsHolder(al, s, x);
    } else {
      assert Holding(s.watches, s.desk.popouts.Keys - Without(s.desk, Some(id)).popouts.Keys) == {};
    }
  }

  /** A drag that is begun again keeps what it holds and said, and takes the new
      size; any other begins with nothing, and what was dragged before there is
      over, its popout left in place and nothing more said of it. */
  lemma BeginStarts(al: Aliases, s: State, source: Source, request: Request)
    requires Consistent(al, s)
    ensures var t := Step(al, s, Begin(source, request));
      && source in t.watches && t.watches[source].current == request
      && (if source in s.watches && s.watches[source].current.window == request.window
             && s.watches[source].current.workspace == request.workspace then
            t.desk == s.desk && t.finished == s.finished
            && t.watches == s.watches[source := Watch(request, s.watches[source].popout, s.watches[source].trace)]
          else
            && t.watches == s.watches[source := Watch(request, None, [])]
            && (source in s.watches ==>
                  LeftInPlace(s, t, s.watches[source].popout) && t.finished == s.finished + {s.watches[source].trace})
            && (source !in s.watches ==> t.desk == s.desk && t.finished == s.finished))
  {
    if source in s.watches {
      assert WatchFits(s.desk, s.watches[source]);
      assert (s.watches - {source})[source := Watch(request, None, [])] == s.watches[source := Watch(request, None, [])];
    }
  }

  /** So it is when the window dragged in goes away. */
  lemma SourceCloseAbandons(al: Aliases, s: State, source: Source)
    requires Consistent(al, s)
    ensures var t := Step(al, s, SourceCloses(source));
      && t.watches == s.watches - {source}
      && (source in s.watches ==>
            LeftInPlace(s, t, s.watches[source].popout) && t.finished == s.finished + {s.watches[source].trace})
      && (source !in s.watches ==> t == s)
  {
    if source in s.watches {
      assert WatchFits(s.desk, s.watches[source]);
    } else {
      assert s.watches - {source} == s.watches;
    }
  }

  /** Asking a popout back only marks it as leaving. */
  lemma AskedBackLeaves(al: Aliases, s: State, id: PopoutId)
    ensures var t := Step(al, s, PopoutAskedBack(id));
      && t.watches == s.watches && t.finished == s.finished
      && t.desk.next == s.desk.next && t.desk.popouts.Keys == s.desk.popouts.Keys
      && forall k <- s.desk.popouts ::
           t.desk.popouts[k] == if k == id then s.desk.popouts[k].(isLeaving := true) else s.desk.popouts[k]
  {
  }

  /** The window that began, moved or ended a drag. */
  predicate IsOf(e: Event, source: Source)
  {
    match e
    case Begin(x, _) => x == source
    case Tick(x, _, _) => x == source
    case MouseUp(x) => x == source
    case ShellEnds(x, _, _, _) => x == source
    case SourceCloses(x) => x == source
    case _ => false
  }

  predicate KeptOrEnded(s: State, t: State, source: Source)
    requires source in s.watches
  {
    var w := s.watches[source];
    if w.popout.None? || w.popout.value in t.desk.popouts then source in t.watches && t.watches[source] == w
    else source !in t.watches && w.trace in t.finished
  }

  /** Whatever else happens, a drag goes on as it was as long as what it holds
      is open, and is over, having said nothing more, when that is not. */
  lemma OthersEndOnlyWithTheirPopout(al: Aliases, s: State, e: Event, source: Source)
    requires Consistent(al, s) && source in s.watches && !IsOf(e, source)
    ensures KeptOrEnded(s, Step(al, s, e), source)
  {
    assert WatchFits(s.desk, s.watches[source]);
    match e
    case Begin(x, request) => BeginStarts(al, s, x, request);
    case Tick(x, isOut, canOpen) =>
      if x in s.watches { TickSparesOthers(al, s, x, isOut, canOpen, source); }
    case MouseUp(x) => ReleaseSparesOthers(al, s, x, source);
    case ShellEnds(x, window, isDetached, isCancelled) =>
      if x in s.watches {
        ShellEndDecides(al, s, x, window, isDetached, isCancelled);
        ReleaseSparesOthers(al, s, x, source);
      }
    case SourceCloses(x) => SourceCloseAbandons(al, s, x);
    case PopoutCloses(id) => ClosingSpares(s, s, Without(s.desk, Some(id)), source);
    case PopoutAskedBack(id) =>
    case OpenAsked(request, canOpen) =>
      ClosingSpares(s, s, Without(s.desk, Find(al, s.desk, request)), source);
    case Restored(request) =>
  }

  lemma ReleaseSparesOthers(al: Aliases, s: State, x: Source, source: Source)
    requires Consistent(al, s) && source in s.watches && x != source
    ensures KeptOrEnded(s, Step(al, s, MouseUp(x)), source)
  {
    assert WatchFits(s.desk, s.watches[source]);
    if x in s.watches { ReleaseSaysSo(al, s, x); }
  }

  lemma ClosingSpares(s: State, moved: State, desk: Desk, source: Source)
    requires source in s.watches && source in moved.watches && moved.watches[source] == s.watches[source]
    requires moved.desk == s.desk && WatchFits(s.desk, s.watches[source])
    ensures KeptOrEnded(s, AfterClosing(moved, desk), source)
  {
  }

  lemma TickSparesOthers(al: Aliases, s: State, x: Source, isOut: bool, canOpen: bool, source: Source)
    requires Consistent(al, s) && x in s.watches && source in s.watches && x != source
    ensures KeptOrEnded(s, Step(al, s, Tick(x, isOut, canOpen)), source)
  {
    var (w, desk) := Sampled(al, s.watches[x], s.desk, isOut, canOpen);
    ClosingSpares(s, s.(watches := s.watches[x := w]), desk, source);
  }
}
