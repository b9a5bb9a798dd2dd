/** What each window event leaves behind: which workspace its window holds,
    which window is the most recent for a workspace, and which windows a
    detach closes (apps/minds/electron/main.js:405-451, 602-623, 933-1026,
    3665-3678). */
module WindowEffects {
  import opened Options
  import opened WorkspaceAliases
  import opened Windows
  import opened OneWindowPerWorkspace

  // Commits

  lemma HostIsHeld(al: Aliases, id: Id)
    requires al.IsPairing()
    ensures al.Same(al.Host(id), id)
  {
    SameIsEqualHosts(al, al.Host(id), id);
    SameIsEqualHosts(al, id, id);
  }

  lemma ElsewhereByHost(al: Aliases, s: State, w: WinId, id: Id)
    requires al.IsPairing()
    ensures HeldElsewhere(al, s, w, al.Host(id)) <==> HeldElsewhere(al, s, w, id)
  {
    forall v | v in Mains(s) ensures Holds(al, s.windows[v], al.Host(id)) <==> Holds(al, s.windows[v], id) {
      if s.windows[v].Held().Some? {
        var held := s.windows[v].Held().value;
        SameIsEqualHosts(al, held, id);
        SameIsEqualHosts(al, held, al.Host(id));
        SameIsEqualHosts(al, id, id);
      }
    }
  }

  /** The workspace a page is about, whatever its kind. */
  function AboutId(page: Page): Option<Id>
  {
    match page
    case Workspace(id) => Some(id)
    case Overlay(id) => Some(id)
    case PopoutPage(id) => Some(id)
    case Elsewhere => None
  }

  /** What the window `w` holds once it committed `page`. */
  ghost predicate Shows(al: Aliases, win: Win, page: Page)
  {
    && (page.Elsewhere? ==> win.Held() == None)
    && (!page.Elsewhere? ==> Holds(al, win, AboutId(page).value))
    && (page.Overlay? ==> win.current == None)
  }

  /** Every commit, by a window of either kind and whatever it held before: it
      notes the history index; a landing on a workspace some other main window
      holds changes nothing else; any other commit leaves the window holding
      what the page is about, or nothing. No other window is touched. */
  lemma CommitShows(al: Aliases, s: State, w: WinId, page: Page, index: nat)
    requires al.IsPairing() && WellFormed(s) && w in s.windows
    ensures var t := Step(al, s, Commit(w, page, index));
      && t.mru == s.mru && w in t.windows && t.windows == s.windows[w := t.windows[w]]
      && t.windows[w].kind == s.windows[w].kind && t.windows[w].historyIndex == Some(index)
      && (if (page.Workspace? || page.Overlay?) && HeldElsewhere(al, s, w, AboutId(page).value) then
            t.windows[w].current == s.windows[w].current && t.windows[w].overlay == s.windows[w].overlay
          else Shows(al, t.windows[w], page))
  {
    if !page.Elsewhere? {
      var id := AboutId(page).value;
      HostIsHeld(al, id);
      ElsewhereByHost(al, s, w, id);
      MostRecentFinds(al, s, w, al.Host(id));
    }
  }

  /** A window that committed a popout's route holds that popout's workspace;
      so whatever other windows do meanwhile, detaching the workspace leaves no
      such popout open. */
  lemma PopoutGoesWithItsWorkspace(al: Aliases, s: State, w: WinId, id: Id, index: nat, events: seq<Event>)
    requires al.IsPairing() && WellFormed(s) && w in s.windows
    ensures var t := Step(al, s, Commit(w, PopoutPage(id), index));
      && Holds(al, t.windows[w], id)
      && (s.windows[w].kind.Popout? && ByOthers(events, w) && w in Run(al, t, events).windows ==>
            w !in Step(al, Run(al, t, events), Detach(id)).windows)
  {
    CommitShows(al, s, w, PopoutPage(id), index);
    var t := Step(al, s, Commit(w, PopoutPage(id), index));
    if ByOthers(events, w) && w in Run(al, t, events).windows {
      OthersLeaveRecord(al, t, events, w);
      DetachClearsWorkspace(al, Run(al, t, events), id);
      DetachSparesLastMain(al, Run(al, t, events), id);
    }
  }

  /** A frame's commit is the record of a main window, and nothing to a popout. */
  lemma FrameCommitShows(al: Aliases, s: State, w: WinId, id: Id)
    requires w in s.windows
    ensures var t := Step(al, s, FrameCommit(w, id));
      && t.mru == s.mru && w in t.windows && t.windows == s.windows[w := t.windows[w]]
      && (if s.windows[w].kind.Main? then t.windows[w] == s.windows[w].(current := Some(id)) else t == s)
  {
    assert s.windows[w := s.windows[w]] == s.windows;
  }

  // Claims

  /** A claim by a main window ends with one main window holding the workspace:
      another that held it, and then nothing changes, or else the asker itself,
      and then no other window changes. */
  lemma ClaimGivesOneHolder(al: Aliases, s: State, w: WinId, id: Id)
    requires al.IsPairing() && WellFormed(s) && Unique(al, s) && w in Mains(s)
    ensures var t := Step(al, s, Claim(w, id));
      if HeldElsewhere(al, s, w, id) then t == s
      else t.mru == s.mru && w in t.windows && t.windows == s.windows[w := t.windows[w]]
           && t.windows[w].kind.Main? && t.windows[w].historyIndex == s.windows[w].historyIndex
           && Holds(al, t.windows[w], id)
  {
    HostIsHeld(al, id);
    var first := MostRecent(al, s.windows, s.mru, id, None);
    assert first.Some? ==> first.value in Mains(s);
    if HeldElsewhere(al, s, w, id) {
      var v :| v in Mains(s) && v != w && Holds(al, s.windows[v], id);
      assert v in s.mru;
      OnlyHolder(al, s, v, first.value, id);
    }
  }

  lemma OnlyHolder(al: Aliases, s: State, v: WinId, w: WinId, id: Id)
    requires al.IsPairing() && Unique(al, s) && v in Mains(s) && w in Mains(s)
    requires Holds(al, s.windows[v], id) && Holds(al, s.windows[w], id)
    ensures v == w
  {
    var a, b := s.windows[v].Held().value, s.windows[w].Held().value;
    SameIsEqualHosts(al, a, id);
    SameIsEqualHosts(al, b, id);
    SameIsEqualHosts(al, a, b);
  }

  /** A popout, or a window that is gone, claims nothing. */
  lemma OthersClaimNothing(al: Aliases, s: State, w: WinId, id: Id)
    requires w !in Mains(s)
    ensures Step(al, s, Claim(w, id)) == s
  {
  }

  // Focus order

  /** Taking windows that do not count out of the order changes no answer. */
  lemma {:induction false} WithoutAnswersAlike(al: Aliases, before: map<WinId, Win>, after: map<WinId, Win>,
                                               mru: seq<WinId>, gone: set<WinId>, id: Id, excluded: Option<WinId>)
    requires forall w <- mru :: w !in gone ==> (w in before <==> w in after) && (w in before ==> before[w] == after[w])
    requires forall w <- gone :: w in before && before[w].kind.Main? && Some(w) != excluded ==> !Holds(al, before[w], id)
    ensures MostRecent(al, after, Without(mru, gone), id, excluded) == MostRecent(al, before, mru, id, excluded)
  {
    if mru != [] {
      WithoutAnswersAlike(al, before, after, mru[1..], gone, id, excluded);
      var rest := Without(mru[1..], gone);
      if mru[0] in gone {
        assert [] + rest == rest;
      } else {
        assert ([mru[0]] + rest)[1..] == rest;
      }
    }
  }

  /** The window focused last is the answer for what it holds, and the answers
      for everything else are as they were. */
  lemma FocusedIsMostRecent(al: Aliases, s: State, w: WinId, id: Id)
    requires WellFormed(s) && w in Mains(s)
    ensures var t := Step(al, s, Focus(w));
      && t.windows == s.windows && WellFormed(t)
      && MostRecent(al, t.windows, t.mru, id, None) ==
           if Holds(al, s.windows[w], id) then Some(w) else MostRecent(al, s.windows, s.mru, id, None)
  {
    var t := Step(al, s, Focus(w));
    assert t.mru[1..] == Without(s.mru, {w});
    if !Holds(al, s.windows[w], id) {
      WithoutAnswersAlike(al, s.windows, s.windows, s.mru, {w}, id, None);
    }
  }

  /** A popout's focus changes no answer. */
  lemma PopoutFocusAnswersAlike(al: Aliases, s: State, w: WinId, id: Id)
    requires WellFormed(s) && w in s.windows && s.windows[w].kind.Popout?
    ensures var t := Step(al, s, Focus(w));
      t.windows == s.windows && WellFormed(t)
      && MostRecent(al, t.windows, t.mru, id, None) == MostRecent(al, s.windows, s.mru, id, None)
  {
    assert Step(al, s, Focus(w)).mru[1..] == Without(s.mru, {w});
    WithoutAnswersAlike(al, s.windows, s.windows, s.mru, {w}, id, None);
  }

  /** A new window holds nothing and changes no answer. */
  lemma OpenAnswersAlike(al: Aliases, s: State, w: WinId, kind: Kind, id: Id)
    requires WellFormed(s) && w !in s.windows
    ensures var t := Step(al, s, Open(w, kind));
      && w in t.windows && t.windows == s.windows[w := t.windows[w]] && WellFormed(t)
      && t.windows[w].kind == kind && t.windows[w].Held() == None && t.windows[w].historyIndex == None
      && MostRecent(al, t.windows, t.mru, id, None) == MostRecent(al, s.windows, s.mru, id, None)
  {
    var t := Step(al, s, Open(w, kind));
    assert t.mru[1..] == s.mru && w !in s.mru;
    NothingGone(s.mru);
    WithoutAnswersAlike(al, s.windows, t.windows, s.mru, {}, id, None);
  }

  lemma {:induction false} NothingGone(mru: seq<WinId>)
    ensures Without(mru, {}) == mru
  {
    if mru != [] {
      NothingGone(mru[1..]);
      assert mru == [mru[0]] + mru[1..];
    }
  }

  /** Closing a window takes it and no other away; the answers that did not
      name it stay. */
  lemma CloseAnswersAlike(al: Aliases, s: State, w: WinId, id: Id)
    requires WellFormed(s)
    ensures var t := Step(al, s, Close(w));
      && WellFormed(t) && t.windows == s.windows - {w}
      && ((w in Mains(s) ==> !Holds(al, s.windows[w], id)) ==>
            MostRecent(al, t.windows, t.mru, id, None) == MostRecent(al, s.windows, s.mru, id, None))
  {
    if w in Mains(s) ==> !Holds(al, s.windows[w], id) {
      WithoutAnswersAlike(al, s.windows, s.windows - {w}, s.mru, {w}, id, None);
    }
  }

  // Detaching

  /** A detach closes exactly the windows that hold the workspace and are
      popouts, or are main windows while some main window shows something else;
      answers for other workspaces stay. */
  lemma DetachCloses(al: Aliases, s: State, id: Id, w: WinId)
    requires WellFormed(s) && w in s.windows
    ensures var t := Step(al, s, Detach(id));
      && WellFormed(t) && (w in t.windows ==> t.windows[w] == s.windows[w])
      && (w !in t.windows <==>
            Holds(al, s.windows[w], id)
            && (s.windows[w].kind.Popout? || exists v :: v in Mains(s) && !Holds(al, s.windows[v], id)))
  {
    var affected := Affected(al, s, id);
    SizeMinus(Mains(s), affected);
    if v :| v in Mains(s) && !Holds(al, s.windows[v], id) {
      assert v in Mains(s) - affected;
    } else {
      assert Mains(s) - affected == {};
    }
  }

  lemma DetachAnswersAlike(al: Aliases, s: State, id: Id, other: Id)
    requires al.IsPairing() && WellFormed(s) && !al.Same(id, other)
    ensures var t := Step(al, s, Detach(id));
      MostRecent(al, t.windows, t.mru, other, None) == MostRecent(al, s.windows, s.mru, other, None)
  {
    ClosedHold(al, s, id);
    GoneAnswersAlike(al, s, ClosedByDetach(al, s, id), id, other);
  }

  lemma ClosedHold(al: Aliases, s: State, id: Id)
    ensures forall w <- ClosedByDetach(al, s, id) :: IsAffected(al, s, id, w)
  {
  }

  lemma GoneAnswersAlike(al: Aliases, s: State, gone: set<WinId>, id: Id, other: Id)
    requires al.IsPairing() && !al.Same(id, other)
    requires forall w <- gone :: IsAffected(al, s, id, w)
    ensures MostRecent(al, s.windows - gone, Without(s.mru, gone), other, None) ==
      MostRecent(al, s.windows, s.mru, other, None)
  {
    forall w | w in gone ensures w in s.windows && !Holds(al, s.windows[w], other) {
      HoldsOneWorkspace(al, s.windows[w], id, other);
    }
    WithoutAnswersAlike(al, s.windows, s.windows - gone, s.mru, gone, other, None);
  }

  lemma HoldsOneWorkspace(al: Aliases, win: Win, id: Id, other: Id)
    requires al.IsPairing() && !al.Same(id, other)
    ensures Holds(al, win, id) ==> !Holds(al, win, other)
  {
    if Holds(al, win, id) {
      SameIsEqualHosts(al, win.Held().value, id);
      SameIsEqualHosts(al, win.Held().value, other);
      SameIsEqualHosts(al, id, other);
    }
  }
}
