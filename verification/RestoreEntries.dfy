/** Which saved windows a session restore reopens
    (apps/minds/electron/window-policy.js:50-62). */
module RestoreEntries {
  import opened Options
  import opened WorkspaceAliases
  import opened Windows

  /** A saved window: the workspace a main-window entry shows, or None for a
      pulled-out window or a page that shows none. */
  datatype Entry = Entry(workspace: Option<Id>, savedAs: string)

  predicate SameWorkspace(al: Aliases, a: Entry, b: Entry)
  {
    a.workspace.Some? && b.workspace.Some? && al.Same(a.workspace.value, b.workspace.value)
  }

  /** No earlier entry shows the workspace of the i-th. */
  predicate IsFirstOfItsWorkspace(al: Aliases, entries: seq<Entry>, i: nat)
    requires i < |entries|
  {
    forall j :: 0 <= j < i ==> !SameWorkspace(al, entries[j], entries[i])
  }

  /** The entries that are the first for their workspace, in save order. */
  function FirstOfEach(al: Aliases, entries: seq<Entry>): seq<Entry>
  {
    if entries == [] then []
    else
      var last := |entries| - 1;
      FirstOfEach(al, entries[..last]) + if IsFirstOfItsWorkspace(al, entries, last) then [entries[last]] else []
  }

  lemma FirstOfEachStep(al: Aliases, entries: seq<Entry>, i: nat)
    requires i < |entries|
    ensures FirstOfEach(al, entries[..i + 1]) ==
      FirstOfEach(al, entries[..i]) + if IsFirstOfItsWorkspace(al, entries, i) then [entries[i]] else []
  {
    var upTo := entries[..i + 1];
    assert upTo[..i] == entries[..i];
    assert IsFirstOfItsWorkspace(al, upTo, i) <==> IsFirstOfItsWorkspace(al, entries, i);
  }

  function Hosts(al: Aliases, ids: seq<Id>): set<Id>
  {
    set id | id in ids :: al.Host(id)
  }

  /** The host ids of the workspaces the first `i` entries show. */
  function ShownHosts(al: Aliases, entries: seq<Entry>, i: nat): set<Id>
    requires i <= |entries|
  {
    set j | 0 <= j < i && entries[j].workspace.Some? :: al.Host(entries[j].workspace.value)
  }

  lemma FirstMeansUnshown(al: Aliases, entries: seq<Entry>, i: nat)
    requires al.IsPairing() && i < |entries| && entries[i].workspace.Some?
    ensures IsFirstOfItsWorkspace(al, entries, i) <==>
      al.Host(entries[i].workspace.value) !in ShownHosts(al, entries, i)
  {
    forall j | 0 <= j < i
      ensures SameWorkspace(al, entries[j], entries[i]) <==>
        entries[j].workspace.Some? && al.Host(entries[j].workspace.value) == al.Host(entries[i].workspace.value)
    {
      if entries[j].workspace.Some? { SameIsEqualHosts(al, entries[j].workspace.value, entries[i].workspace.value); }
    }
  }

  lemma ShownHostsStep(al: Aliases, entries: seq<Entry>, i: nat)
    requires i < |entries|
    ensures ShownHosts(al, entries, i + 1) == ShownHosts(al, entries, i) +
      if entries[i].workspace.Some? then {al.Host(entries[i].workspace.value)} else {}
  {
  }

  lemma SeenMeansHost(al: Aliases, seen: seq<Id>, id: Id)
    requires al.IsPairing()
    ensures (exists s <- seen :: al.Same(s, id)) <==> al.Host(id) in Hosts(al, seen)
    ensures Hosts(al, seen + [id]) == Hosts(al, seen) + {al.Host(id)}
  {
    forall s ensures al.Same(s, id) <==> al.Host(s) == al.Host(id) { SameIsEqualHosts(al, s, id); }
  }

  /** Keeping an entry unless one kept before shows its workspace keeps
      exactly the first entry of each workspace. */
  method DedupeRestoreEntries(al: Aliases, entries: seq<Entry>) returns (kept: seq<Entry>)
    requires al.IsPairing()
    ensures kept == FirstOfEach(al, entries)
  {
    kept := [];
    var seen: seq<Id> := [];
    for i := 0 to |entries|
      invariant kept == FirstOfEach(al, entries[..i])
      invariant Hosts(al, seen) == ShownHosts(al, entries, i)
    {
      FirstOfEachStep(al, entries, i);
      ShownHostsStep(al, entries, i);
      var workspace := entries[i].workspace;
      if workspace.Some? {
        FirstMeansUnshown(al, entries, i);
        SeenMeansHost(al, seen, workspace.value);
        if exists s <- seen :: al.Same(s, workspace.value) { continue; }
        seen := seen + [workspace.value];
      }
      kept := kept + [entries[i]];
    }
    assert entries[..|entries|] == entries;
  }

  /** What is restored obeys the one-main-window rule: kept entries are
      saved ones and show distinct workspaces. */
  lemma {:induction false} RestoredAreDistinct(al: Aliases, entries: seq<Entry>)
    ensures forall e <- FirstOfEach(al, entries) :: e in entries
    ensures AllDistinct(al, FirstOfEach(al, entries))
  {
    if entries != [] {
      var last := |entries| - 1;
      RestoredAreDistinct(al, entries[..last]);
      if IsFirstOfItsWorkspace(al, entries, last) {
        FirstIsDistinct(al, entries, FirstOfEach(al, entries[..last]));
      }
    }
  }

  predicate AllDistinct(al: Aliases, kept: seq<Entry>)
  {
    forall i, j :: 0 <= i < j < |kept| ==> !SameWorkspace(al, kept[i], kept[j])
  }

  lemma FirstIsDistinct(al: Aliases, entries: seq<Entry>, before: seq<Entry>)
    requires entries != [] && AllDistinct(al, before)
    requires forall e <- before :: e in entries[..|entries| - 1]
    requires IsFirstOfItsWorkspace(al, entries, |entries| - 1)
    ensures AllDistinct(al, before + [entries[|entries| - 1]])
  {
    var last := |entries| - 1;
    forall i | 0 <= i < |before| ensures !SameWorkspace(al, before[i], entries[last]) {
      assert before[i] in before;
      assert before[i] in entries[..last];
      var j :| 0 <= j < last && entries[..last][j] == before[i];
      assert entries[j] == before[i];
    }
  }

  /** And no workspace is lost: every saved entry is kept, or one showing its workspace is. */
  lemma {:induction false} NoWorkspaceLost(al: Aliases, entries: seq<Entry>, e: Entry)
    requires al.IsPairing() && e in entries
    ensures e in FirstOfEach(al, entries) || exists k <- FirstOfEach(al, entries) :: SameWorkspace(al, k, e)
  {
    var last := |entries| - 1;
    var init := entries[..last];
    var before := FirstOfEach(al, init);
    assert entries == init + [entries[last]];
    if e in init {
      NoWorkspaceLost(al, init, e);
    } else if !IsFirstOfItsWorkspace(al, entries, last) {
      var j :| 0 <= j < last && SameWorkspace(al, entries[j], e);
      assert entries[j] == init[j];
      NoWorkspaceLost(al, init, entries[j]);
      assert forall k <- before :: k in FirstOfEach(al, entries);
      if entries[j] !in before {
        var k :| k in before && SameWorkspace(al, k, entries[j]);
        SameIsEqualHosts(al, k.workspace.value, entries[j].workspace.value);
        SameIsEqualHosts(al, entries[j].workspace.value, e.workspace.value);
        SameIsEqualHosts(al, k.workspace.value, e.workspace.value);
      }
    }
  }

  /** Entry `k` shows no workspace, or one that no entry before it shows under either id. */
  predicate ShowsAnew(al: Aliases, entries: seq<Entry>, k: nat)
    requires k < |entries|
  {
    entries[k].workspace.Some? ==>
      forall j :: 0 <= j < k && entries[j].workspace.Some? ==> !al.Same(entries[j].workspace.value, entries[k].workspace.value)
  }

  /** Exactly the entries that show something anew are kept, each once and in save order. */
  lemma {:induction false} KeptInOrder(al: Aliases, entries: seq<Entry>) returns (ks: seq<nat>)
    ensures |FirstOfEach(al, entries)| == |ks|
    ensures forall i :: 0 <= i < |ks| ==> ks[i] < |entries| && FirstOfEach(al, entries)[i] == entries[ks[i]]
    ensures forall i, j :: 0 <= i < j < |ks| ==> ks[i] < ks[j]
    ensures forall k :: 0 <= k < |entries| ==> (k in ks <==> ShowsAnew(al, entries, k))
  {
    if entries == [] {
      ks := [];
    } else {
      var last := |entries| - 1;
      ks := KeptInOrder(al, entries[..last]);
      assert forall k :: 0 <= k < last ==> (ShowsAnew(al, entries, k) <==> ShowsAnew(al, entries[..last], k));
      if ShowsAnew(al, entries, last) { ks := ks + [last]; }
    }
  }
}
