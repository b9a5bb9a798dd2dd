/** One main window per workspace: claims, top-level commits, retreats,
    closes and detaches (apps/minds/electron/main.js:405-451, 602-623,
    903-1026, 3665-3678). */
module Windows {
  import opened Options
  import opened WorkspaceAliases

  type WinId = nat

  datatype Kind = Main | Popout

  /** A window's record: the workspace it shows, the one an overlay on it
      floats over, and its place in its history. */
  datatype Win = Win(kind: Kind, current: Option<Id>, overlay: Option<Id>, historyIndex: Option<nat>)
  {
    /** The workspace the window holds. */
    function Held(): Option<Id>
    {
      if current.Some? then current else overlay
    }
  }

  /** What a committed top-level page is. */
  datatype Page = Workspace(id: Id) | Overlay(behind: Id) | PopoutPage(id: Id) | Elsewhere

  datatype State = State(windows: map<WinId, Win>, mru: seq<WinId>)

  datatype Event =
    | Open(win: WinId, kind: Kind)
    | Focus(win: WinId)
    | Claim(win: WinId, id: Id)
    | Commit(win: WinId, page: Page, index: nat)
    | FrameCommit(win: WinId, id: Id)
    | Close(win: WinId)
    | Detach(id: Id)

  predicate Holds(al: Aliases, win: Win, id: Id)
  {
    win.Held().Some? && al.Same(win.Held().value, id)
  }

  /** The first main window in focus order that holds `id`, other than `excluded`. */
  function MostRecent(al: Aliases, windows: map<WinId, Win>, mru: seq<WinId>, id: Id, excluded: Option<WinId>):
      (found: Option<WinId>)
    ensures found.Some? ==>
      && found.value in mru && found != excluded
      && found.value in windows && windows[found.value].kind.Main? && Holds(al, windows[found.value], id)
    ensures found.None? ==> forall w <- mru ::
      w in windows && windows[w].kind.Main? && Some(w) != excluded ==> !Holds(al, windows[w], id)
  {
    if mru == [] then None
    else
      var w := mru[0];
      if Some(w) != excluded && w in windows && windows[w].kind.Main? && Holds(al, windows[w], id) then Some(w)
      else MostRecent(al, windows, mru[1..], id, excluded)
  }

  /** The workspace a page puts a window on, by its host id. */
  function Landed(al: Aliases, page: Page): Option<Id>
  {
    match page
    case Workspace(id) => Some(al.Host(id))
    case Overlay(id) => Some(al.Host(id))
    case _ => None
  }

  /** The main window a landing window has to yield to. */
  function HolderFor(al: Aliases, s: State, w: WinId, page: Page): Option<WinId>
  {
    var landed := Landed(al, page);
    if landed.None? then None else MostRecent(al, s.windows, s.mru, landed.value, Some(w))
  }

  /** The record after a commit no other window stands in the way of. */
  function Committed(al: Aliases, win: Win, page: Page, index: nat): Win
  {
    var landed := Landed(al, page);
    win.(
      historyIndex := Some(index),
      overlay := if page.Overlay? then landed else None,
      current :=
        match page
        case Workspace(_) => landed
        case PopoutPage(id) => Some(al.Host(id))
        case _ => None)
  }

  predicate IsAffected(al: Aliases, s: State, id: Id, w: WinId)
  {
    w in s.windows && Holds(al, s.windows[w], id)
  }

  function Affected(al: Aliases, s: State, id: Id): set<WinId>
  {
    set w | w in s.windows && IsAffected(al, s, id, w)
  }

  function Mains(s: State): set<WinId>
  {
    set w | w in s.windows && s.windows[w].kind.Main?
  }

  /** The windows a detach closes: the popouts, and the main windows too when one showing something else survives. */
  function ClosedByDetach(al: Aliases, s: State, id: Id): set<WinId>
  {
    var affected := Affected(al, s, id);
    if |Mains(s)| - |affected * Mains(s)| >= 1 then affected else affected - Mains(s)
  }

  function Without(mru: seq<WinId>, gone: set<WinId>): (rest: seq<WinId>)
    ensures forall w :: w in rest <==> w in mru && w !in gone
  {
    if mru == [] then [] else (if mru[0] in gone then [] else [mru[0]]) + Without(mru[1..], gone)
  }

  datatype Target = NavigateSource | FocusExisting | OpenNew

  /** `decideWorkspaceWindowTarget`: where a workspace that `existing` may already show is to appear. */
  function DecideTarget(existing: Option<WinId>, source: Option<WinId>, mayNavigateSource: bool): Target
  {
    if existing.Some? then (if existing == source then NavigateSource else FocusExisting)
    else if source.Some? && mayNavigateSource then NavigateSource
    else OpenNew
  }

  function Step(al: Aliases, s: State, e: Event): State
  {
    match e
    case Open(w, kind) => State(s.windows[w := Win(kind, None, None, None)], [w] + s.mru)
    case Focus(w) => s.(mru := [w] + Without(s.mru, {w}))
    case Claim(w, id) =>
      if w !in s.windows || s.windows[w].kind.Popout? then s
      else
        var existing := MostRecent(al, s.windows, s.mru, id, None);
        if DecideTarget(existing, Some(w), true) == FocusExisting then s
        else s.(windows := s.windows[w := s.windows[w].(current := Some(al.Host(id)))])
    case Commit(w, page, index) =>
      if w !in s.windows then s
      else if HolderFor(al, s, w, page).Some? then
        s.(windows := s.windows[w := s.windows[w].(historyIndex := Some(index))])
      else s.(windows := s.windows[w := Committed(al, s.windows[w], page, index)])
    case FrameCommit(w, id) =>
      if w !in s.windows || s.windows[w].kind.Popout? then s
      else s.(windows := s.windows[w := s.windows[w].(current := Some(id))])
    case Close(w) => State(s.windows - {w}, Without(s.mru, {w}))
    case Detach(id) =>
      var closed := ClosedByDetach(al, s, id);
      State(s.windows - closed, Without(s.mru, closed))
  }

  // The app's window set

  class WindowSet {
    const al: Aliases
    var windows: map<WinId, Win>
    var mru: seq<WinId>

    function View(): State
      reads this
    {
      State(windows, mru)
    }

    constructor (al: Aliases)
      ensures View() == State(map[], []) && this.al == al
    {
      this.al, windows, mru := al, map[], [];
    }

    method MostRecentFor(id: Id, excluded: Option<WinId>) returns (found: Option<WinId>)
      ensures found == MostRecent(al, windows, mru, id, excluded)
    {
      for i := 0 to |mru|
        invariant MostRecent(al, windows, mru[i..], id, excluded) == MostRecent(al, windows, mru, id, excluded)
      {
        var w := mru[i];
        if Some(w) != excluded && w in windows && windows[w].kind.Main? && Holds(al, windows[w], id) {
          return Some(w);
        }
      }
      found := None;
    }

    /** `claim-workspace-window`: answers whether another window was raised instead. */
    method ClaimWindow(w: WinId, id: Id) returns (openedElsewhere: bool)
      requires w in windows
      modifies this
      ensures View() == Step(al, old(View()), Claim(w, id))
      ensures openedElsewhere ==> View() == old(View())
      ensures !openedElsewhere && windows[w].kind.Main? ==> windows[w].Held() == Some(al.Host(id))
    {
      if windows[w].kind.Popout? { return false; }
      var existing := MostRecentFor(id, None);
      if DecideTarget(existing, Some(w), true) == FocusExisting { return true; }
      windows := windows[w := windows[w].(current := Some(al.Host(id)))];
      openedElsewhere := false;
    }

    /** A committed top-level navigation: answers the window it yields to, if any. */
    method OnTopLevelNavigate(w: WinId, page: Page, index: nat) returns (holder: Option<WinId>)
      requires w in windows
      modifies this
      ensures View() == Step(al, old(View()), Commit(w, page, index))
      ensures holder == HolderFor(al, old(View()), w, page)
    {
      var landed := Landed(al, page);
      holder := None;
      if landed.Some? { holder := MostRecentFor(landed.value, Some(w)); }
      if holder.Some? {
        windows := windows[w := windows[w].(historyIndex := Some(index))];
        return;
      }
      windows := windows[w := Committed(al, windows[w], page, index)];
    }

    /** The workspace is going: its windows close, or go home when no other main window would be left. */
    method DetachWindowsFor(id: Id)
      modifies this
      ensures View() == Step(al, old(View()), Detach(id))
    {
      var affected := Affected(al, View(), id);
      var mains := Mains(View());
      var isMainLeft := |mains| - |affected * mains| >= 1;
      var remaining := affected;
      var closed: set<WinId> := {};
      while remaining != {}
        invariant remaining <= affected
        invariant closed == if isMainLeft then affected - remaining else (affected - remaining) - mains
        decreases |remaining|
      {
        var w :| w in remaining;
        remaining := remaining - {w};
        if w !in mains || isMainLeft { closed := closed + {w}; }
      }
      assert affected - {} == affected;
      windows, mru := windows - closed, Without(mru, closed);
    }
  }
}
