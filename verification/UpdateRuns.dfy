/** What every interleaving of updater tasks keeps
    (apps/minds/electron/updater.js:170-341, 407-486,
    apps/minds/electron/update-channel.js:100-130, 190-200). */
module UpdateRuns {
  import opened Options
  import opened UpdateChannel
  import opened UpdateService

  function Run(s: State, events: seq<Event>): State
    requires IsRun(s, events)
    decreases |events|, 1
  {
    if events == [] then s else Step(Run(s, events[..|events| - 1]), events[|events| - 1])
  }

  predicate IsRun(s: State, events: seq<Event>)
    decreases |events|, 0
  {
    events != [] ==>
      IsRun(s, events[..|events| - 1]) && CanHappen(Run(s, events[..|events| - 1]), events[|events| - 1])
  }

  // Invariants

  /** At most one task is between its first and last await: those before it have settled, those after have not begun. */
  predicate OneAtATime(tasks: seq<Task>)
  {
    forall i, j :: 0 <= i < j < |tasks| ==> tasks[i].phase == Settled || tasks[j].phase == Waiting
  }

  /** A request made by task `i` for `channel`, with downgrades refused. */
  predicate IsOwn(s: State, request: nat, i: nat, channel: Channel)
  {
    request < |s.updater.requests| && s.updater.requests[request] == Request(i, FeedFor(s.config, channel), false)
  }

  /** What a task awaits is its own, and for the channel stored. */
  predicate TaskFits(s: State, i: nat, task: Task)
  {
    match task.phase
    case Checking(request, channel, left) =>
      && s.updater.promise == Some(request) && IsOwn(s, request, i, channel)
      && !task.kind.Switch?
      && (task.kind.Check? ==> channel == Stored(s))
      && (task.kind.Download? ==> channel == Stored(s) == task.kind.channel)
    case Downloading(version, served) =>
      && task.kind.Download? && task.kind.channel == Stored(s)
      && IsServed(s, i, task.kind.channel, version, served)
      && s.downloadedVersion != Some(version)
    case Discarding => task.kind.Switch? && task.kind.channel in AvailableChannels(s.config)
    case Waiting => task.kind.Switch? ==> task.kind.channel in AvailableChannels(s.config)
    case Settled => true
  }

  /** The bytes are those of the newer version that task `i` itself found for `channel`. */
  predicate IsServed(s: State, i: nat, channel: Channel, version: Version, served: Option<Found>)
  {
    && served.Some? && served.value.version == version && IsOwn(s, served.value.request, i, channel)
    && version > s.config.current
  }

  predicate EntryFits(s: State, e: Entry)
  {
    match e
    case Downloaded(i, channel, version, served) => IsServed(s, i, channel, version, served)
    case Switched(channel, _) => channel in AvailableChannels(s.config)
  }

  /** The staged version is that of the last download since the last switch, and of the channel stored now. */
  predicate StagedFits(s: State)
  {
    if s.log == [] then s.downloadedVersion == None
    else
      match s.log[|s.log| - 1]
      case Downloaded(_, channel, version, _) => s.downloadedVersion == Some(version) && channel == Stored(s)
      case Switched(channel, isWritten) => s.downloadedVersion == None && (isWritten ==> channel == Stored(s))
  }

  /** Two consecutive downloads, with no switch between them, fetch different versions. */
  predicate NoRefetch(log: seq<Entry>)
  {
    forall k :: 0 <= k < |log| - 1 && log[k].Downloaded? && log[k + 1].Downloaded? ==> log[k].version != log[k + 1].version
  }

  predicate Consistent(s: State)
  {
    && OneAtATime(s.tasks)
    && (forall i :: 0 <= i < |s.tasks| ==> TaskFits(s, i, s.tasks[i]))
    && (s.updater.promise.Some? ==> exists i :: 0 <= i < |s.tasks| && s.tasks[i].phase.Checking?)
    && (forall e <- s.log :: EntryFits(s, e))
    && StagedFits(s)
    && NoRefetch(s.log)
  }

  // Steps

  /** Task `i` is the one that may move: those before it have settled, those after wait. */
  predicate Active(s: State, i: nat)
  {
    && i < |s.tasks|
    && (forall j :: 0 <= j < i ==> s.tasks[j].phase == Settled)
    && (forall j :: i < j < |s.tasks| ==> s.tasks[j].phase == Waiting)
  }

  lemma MovingIsActive(s: State, i: nat)
    requires OneAtATime(s.tasks) && i < |s.tasks| && s.tasks[i].phase != Settled
    requires s.tasks[i].phase == Waiting ==> i == 0 || s.tasks[i - 1].phase == Settled
    ensures Active(s, i)
  {
  }

  /** Only the task that moved has anything to show for it. */
  lemma MoveKeeps(s: State, t: State, i: nat)
    requires Consistent(s) && Active(s, i) && t.config == s.config
    requires |t.tasks| >= |s.tasks| && t.tasks[i].kind == s.tasks[i].kind
    requires forall j :: 0 <= j < |s.tasks| && j != i ==> t.tasks[j] == s.tasks[j]
    requires forall j :: |s.tasks| <= j < |t.tasks| ==> t.tasks[j].kind.Download? && t.tasks[j].phase == Waiting
    requires TaskFits(t, i, t.tasks[i])
    ensures OneAtATime(t.tasks)
    ensures forall j :: 0 <= j < |t.tasks| ==> TaskFits(t, j, t.tasks[j])
  {
    forall j | 0 <= j < |t.tasks| ensures TaskFits(t, j, t.tasks[j]) {
      if j < |s.tasks| && j != i {
        assert TaskFits(s, j, s.tasks[j]);
      }
    }
  }

  /** What the log records stays true as requests are added. */
  lemma LogKeeps(s: State, t: State)
    requires Consistent(s) && t.config == s.config && s.updater.requests <= t.updater.requests
    ensures forall e <- s.log :: EntryFits(t, e)
  {
    forall e | e in s.log ensures EntryFits(t, e) {
      assert EntryFits(s, e);
    }
  }

  /** A task asks only when nothing is in flight, so the request is its own. */
  lemma BeginKeeps(s: State, i: nat, channel: Channel, left: seq<Channel>)
    requires Consistent(s) && Active(s, i) && s.updater.promise.None? && !s.tasks[i].kind.Switch?
    requires s.tasks[i].kind.Peek? || channel == Stored(s)
    requires s.tasks[i].kind.Download? ==> channel == s.tasks[i].kind.channel
    ensures Consistent(BeginCheck(s, i, channel, left))
  {
    var t := BeginCheck(s, i, channel, left);
    assert IsOwn(t, |s.updater.requests|, i, channel);
    MoveKeeps(s, t, i);
    LogKeeps(s, t);
    assert t.tasks[i].phase.Checking?;
  }

  lemma NothingInFlight(s: State, i: nat)
    requires Consistent(s) && Active(s, i) && !s.tasks[i].phase.Checking?
    ensures s.updater.promise.None?
  {
  }

  lemma SettleKeeps(s: State, i: nat)
    requires Consistent(s) && Active(s, i) && s.updater.promise.None?
    ensures Consistent(At(s, i, Settled))
  {
    MoveKeeps(s, At(s, i, Settled), i);
    LogKeeps(s, At(s, i, Settled));
  }

  lemma StartKeeps(s: State, i: nat)
    requires Consistent(s) && CanHappen(s, Start(i))
    ensures Consistent(Started(s, i))
  {
    MovingIsActive(s, i);
    NothingInFlight(s, i);
    match s.tasks[i].kind
    case Check => BeginKeeps(s, i, Stored(s), []);
    case Download(channel) =>
      if Stored(s) != channel {
        SettleKeeps(s, i);
      } else {
        BeginKeeps(s, i, channel, []);
      }
    case Peek => BeginKeeps(s, i, AvailableChannels(s.config)[0], AvailableChannels(s.config)[1..]);
    case Switch(_) =>
      assert TaskFits(s, i, s.tasks[i]);
      MoveKeeps(s, Started(s, i), i);
      LogKeeps(s, Started(s, i));
  }

  /** The state between the answer and what the task does with it. */
  function Released(s: State, i: nat, answer: Answer): State
    requires i < |s.tasks| && s.tasks[i].phase.Checking?
  {
    At(s.(updater := Answered(s.updater, s.tasks[i].phase.request, answer)), i, Waiting)
  }

  lemma ReleasedKeeps(s: State, i: nat, answer: Answer)
    requires Consistent(s) && Active(s, i) && s.tasks[i].phase.Checking?
    ensures var r := Released(s, i, answer); Consistent(r) && Active(r, i) && r.updater.promise.None?
  {
    var r := Released(s, i, answer);
    assert TaskFits(s, i, s.tasks[i]);
    MoveKeeps(s, r, i);
    LogKeeps(s, r);
  }

  lemma CheckFoundKeeps(s: State, i: nat, answer: Answer)
    requires Consistent(s) && CanHappen(s, CheckEnds(i, answer)) && Active(s, i) && s.tasks[i].kind.Check?
    ensures Consistent(CheckEnded(s, i, answer))
  {
    var r := Released(s, i, answer);
    var t := CheckEnded(s, i, answer);
    ReleasedKeeps(s, i, answer);
    LogKeeps(s, t);
    MoveKeeps(r, t, i);
  }

  lemma DownloadFoundKeeps(s: State, i: nat, answer: Answer)
    requires Consistent(s) && CanHappen(s, CheckEnds(i, answer)) && Active(s, i) && s.tasks[i].kind.Download?
    ensures Consistent(CheckEnded(s, i, answer))
  {
    var r := Released(s, i, answer);
    var t := CheckEnded(s, i, answer);
    assert TaskFits(s, i, s.tasks[i]);
    ReleasedKeeps(s, i, answer);
    LogKeeps(s, t);
    DownloadFits(s, i, answer);
    MoveKeeps(r, t, i);
  }

  /** What is about to be fetched is what this task's own check just found. */
  lemma DownloadFits(s: State, i: nat, answer: Answer)
    requires Consistent(s) && CanHappen(s, CheckEnds(i, answer)) && s.tasks[i].kind.Download?
    ensures TaskFits(CheckEnded(s, i, answer), i, CheckEnded(s, i, answer).tasks[i])
  {
    assert TaskFits(s, i, s.tasks[i]);
  }

  lemma PeekedKeeps(s: State, i: nat, answer: Answer)
    requires Consistent(s) && CanHappen(s, CheckEnds(i, answer)) && Active(s, i) && s.tasks[i].kind.Peek?
    ensures Consistent(CheckEnded(s, i, answer))
  {
    var r := Released(s, i, answer);
    var t := CheckEnded(s, i, answer);
    var p := s.tasks[i].phase;
    ReleasedKeeps(s, i, answer);
    if p.left != [] {
      BeginKeeps(r, i, p.left[0], p.left[1..]);
      assert BeginCheck(r, i, p.left[0], p.left[1..]).tasks == t.tasks;
    } else {
      LogKeeps(s, t);
      MoveKeeps(r, t, i);
    }
  }

  lemma CheckEndKeeps(s: State, i: nat, answer: Answer)
    requires Consistent(s) && CanHappen(s, CheckEnds(i, answer))
    ensures Consistent(CheckEnded(s, i, answer))
  {
    MovingIsActive(s, i);
    assert TaskFits(s, i, s.tasks[i]);
    match s.tasks[i].kind
    case Check => CheckFoundKeeps(s, i, answer);
    case Download(_) => DownloadFoundKeeps(s, i, answer);
    case Peek => PeekedKeeps(s, i, answer);
  }

  lemma NoRefetchSnoc(log: seq<Entry>, e: Entry)
    requires NoRefetch(log)
    requires e.Downloaded? && log != [] && log[|log| - 1].Downloaded? ==> log[|log| - 1].version != e.version
    ensures NoRefetch(log + [e])
  {
  }

  lemma DownloadEndKeeps(s: State, i: nat, isComplete: bool)
    requires Consistent(s) && CanHappen(s, DownloadEnds(i, isComplete))
    ensures Consistent(DownloadEnded(s, i, isComplete))
  {
    MovingIsActive(s, i);
    NothingInFlight(s, i);
    var t := DownloadEnded(s, i, isComplete);
    assert TaskFits(s, i, s.tasks[i]);
    MoveKeeps(s, t, i);
    LogKeeps(s, t);
    if isComplete {
      NoRefetchSnoc(s.log, t.log[|s.log|]);
    }
  }

  lemma DiscardEndKeeps(s: State, i: nat, isWritten: bool)
    requires Consistent(s) && CanHappen(s, DiscardEnds(i, isWritten))
    ensures Consistent(DiscardEnded(s, i, isWritten))
  {
    MovingIsActive(s, i);
    NothingInFlight(s, i);
    var t := DiscardEnded(s, i, isWritten);
    assert TaskFits(s, i, s.tasks[i]);
    MoveKeeps(s, t, i);
    LogKeeps(s, t);
    NoRefetchSnoc(s.log, t.log[|s.log|]);
  }

  lemma StepKeeps(s: State, e: Event)
    requires Consistent(s) && CanHappen(s, e)
    ensures Consistent(Step(s, e))
  {
    match e
    case Enqueue(kind) =>
      LogKeeps(s, Step(s, e));
      forall j | 0 <= j < |s.tasks| ensures TaskFits(Step(s, e), j, s.tasks[j]) {
        assert TaskFits(s, j, s.tasks[j]);
      }
      if s.updater.promise.Some? {
        var k :| 0 <= k < |s.tasks| && s.tasks[k].phase.Checking?;
        assert Step(s, e).tasks[k].phase.Checking?;
      }
    case Start(i) => StartKeeps(s, i);
    case CheckEnds(i, answer) => CheckEndKeeps(s, i, answer);
    case DownloadEnds(i, isComplete) => DownloadEndKeeps(s, i, isComplete);
    case DiscardEnds(i, isWritten) => DiscardEndKeeps(s, i, isWritten);
  }

  // Whole runs

  lemma {:induction false} AlwaysConsistent(config: Config, preference: Option<Channel>, events: seq<Event>)
    requires IsRun(Initial(config, preference), events)
    ensures Consistent(Run(Initial(config, preference), events))
    ensures Run(Initial(config, preference), events).config == config
  {
    if events != [] {
      AlwaysConsistent(config, preference, events[..|events| - 1]);
      StepKeeps(Run(Initial(config, preference), events[..|events| - 1]), events[|events| - 1]);
    }
  }

  /** Over every interleaving, only one task is ever under way, and the check
      it awaits is a request it started itself, never one joined. */
  lemma NeverShared(config: Config, preference: Option<Channel>, events: seq<Event>, i: nat, j: nat)
    requires IsRun(Initial(config, preference), events)
    requires i < |Run(Initial(config, preference), events).tasks| && j < |Run(Initial(config, preference), events).tasks|
    ensures var s := Run(Initial(config, preference), events);
      && (i != j ==> s.tasks[i].phase in {Waiting, Settled} || s.tasks[j].phase in {Waiting, Settled})
      && (s.tasks[i].phase.Checking? ==> IsOwn(s, s.tasks[i].phase.request, i, s.tasks[i].phase.channel))
  {
    AlwaysConsistent(config, preference, events);
    var s := Run(Initial(config, preference), events);
    assert TaskFits(s, i, s.tasks[i]);
  }

  /** While a download task runs, its channel is the stored one; and every
      completed download, whatever was queued around it, fetched the version its
      own task's check of that channel found: one newer than the running build. */
  lemma DownloadsAreOwn(config: Config, preference: Option<Channel>, events: seq<Event>)
    requires IsRun(Initial(config, preference), events)
    ensures var s := Run(Initial(config, preference), events);
      && (forall i :: 0 <= i < |s.tasks| && s.tasks[i].kind.Download? && s.tasks[i].phase !in {Waiting, Settled} ==>
            s.tasks[i].kind.channel == Stored(s))
      && (forall e <- s.log :: e.Downloaded? ==>
            && IsServed(s, e.task, e.channel, e.version, e.served) && e.version > config.current)
  {
    AlwaysConsistent(config, preference, events);
    var s := Run(Initial(config, preference), events);
    forall i | 0 <= i < |s.tasks| && s.tasks[i].kind.Download? && s.tasks[i].phase !in {Waiting, Settled}
      ensures s.tasks[i].kind.channel == Stored(s)
    {
      assert TaskFits(s, i, s.tasks[i]);
    }
    forall e | e in s.log && e.Downloaded?
      ensures IsServed(s, e.task, e.channel, e.version, e.served) && e.version > config.current
    {
      assert EntryFits(s, e);
    }
  }

  /** Something other than a download of `version`. */
  predicate IsChange(e: Entry, version: Version)
  {
    e.Downloaded? ==> e.version != version
  }

  /** A version is fetched again only after a switch or the download of another version. */
  lemma RefetchNeedsChange(log: seq<Entry>, i: nat, j: nat)
    requires NoRefetch(log) && i < j < |log|
    requires log[i].Downloaded? && log[j].Downloaded? && log[i].version == log[j].version
    ensures exists k :: i < k < j && IsChange(log[k], log[i].version)
  {
    assert i + 1 < j && IsChange(log[i + 1], log[i].version);
  }

  /** What is staged came from the channel stored now, in the last download
      since the last switch; and a version is downloaded again only after a
      switch or the download of another version. */
  lemma StagedIsStored(config: Config, preference: Option<Channel>, events: seq<Event>)
    requires IsRun(Initial(config, preference), events)
    ensures var s := Run(Initial(config, preference), events);
      && NoRefetch(s.log)
      && (forall i, j :: 0 <= i < j < |s.log| && s.log[i].Downloaded? && s.log[j].Downloaded?
                         && s.log[i].version == s.log[j].version ==>
            exists k :: i < k < j && IsChange(s.log[k], s.log[i].version))
      && (s.downloadedVersion.Some? ==>
            s.log != [] && var last := s.log[|s.log| - 1];
            last.Downloaded? && last.version == s.downloadedVersion.value && last.channel == Stored(s))
  {
    AlwaysConsistent(config, preference, events);
    var log := Run(Initial(config, preference), events).log;
    forall i, j | 0 <= i < j < |log| && log[i].Downloaded? && log[j].Downloaded? && log[i].version == log[j].version
      ensures exists k :: i < k < j && IsChange(log[k], log[i].version)
    {
      RefetchNeedsChange(log, i, j);
    }
  }

  // Progress

  /** How many more times a task can move, counting what it may queue. */
  function Rank(t: Task): nat
  {
    match t.phase
    case Waiting => (match t.kind case Check => 5 case Download(_) => 3 case Peek => 4 case Switch(_) => 2)
    case Checking(_, _, left) => (match t.kind case Check => 4 case Peek => 1 + |left| case _ => 2)
    case Downloading(_, _) => 1
    case Discarding => 1
    case Settled => 0
  }

  function TotalRank(tasks: seq<Task>): nat
  {
    if tasks == [] then 0 else TotalRank(tasks[..|tasks| - 1]) + Rank(tasks[|tasks| - 1])
  }

  lemma {:induction false} TotalRankAfter(tasks: seq<Task>, i: nat, t: Task)
    requires i < |tasks|
    ensures TotalRank(tasks[i := t]) == TotalRank(tasks) - Rank(tasks[i]) + Rank(t)
  {
    var last := |tasks| - 1;
    var after := tasks[i := t];
    if i == last {
      assert after[..last] == tasks[..last];
    } else {
      TotalRankAfter(tasks[..last], i, t);
      assert after[..last] == tasks[..last][i := t];
    }
  }

  /** Task `i` came nearer its end, by more than what it queued behind itself. */
  predicate Nearer(before: seq<Task>, after: seq<Task>, i: nat)
  {
    && |before| <= |after| <= |before| + 1 && i < |before|
    && after[..|before|] == before[i := after[i]]
    && Rank(after[i]) + (if |after| > |before| then Rank(after[|before|]) else 0) < Rank(before[i])
  }

  lemma CheckDescends(s: State, i: nat, answer: Answer)
    requires Consistent(s) && CanHappen(s, CheckEnds(i, answer))
    ensures Nearer(s.tasks, CheckEnded(s, i, answer).tasks, i)
  {
    assert TaskFits(s, i, s.tasks[i]);
  }

  lemma TaskDescends(s: State, e: Event)
    requires Consistent(s) && CanHappen(s, e) && !e.Enqueue?
    ensures Nearer(s.tasks, Step(s, e).tasks, e.task)
  {
    match e
    case Start(i) => assert TaskFits(s, i, s.tasks[i]);
    case CheckEnds(i, answer) => CheckDescends(s, i, answer);
    case DownloadEnds(i, _) =>
    case DiscardEnds(i, _) =>
  }

  /** Whatever happens, other than a new request, brings the queue nearer its end. */
  lemma StepDescends(s: State, e: Event)
    requires Consistent(s) && CanHappen(s, e) && !e.Enqueue?
    ensures TotalRank(Step(s, e).tasks) < TotalRank(s.tasks)
  {
    var t := Step(s, e);
    TaskDescends(s, e);
    TotalRankAfter(s.tasks, e.task, t.tasks[e.task]);
    if |t.tasks| == |s.tasks| {
      assert t.tasks[..|s.tasks|] == t.tasks;
    }
  }

  /** And something always can, however a feed stalls: as long as a task has not
      settled, one can start, or can end what it awaits, a check by its deadline
      alone. So a stalled check never holds up what is queued behind it. */
  lemma {:induction false} NeverStuck(s: State, k: nat)
    requires Consistent(s) && k < |s.tasks| && s.tasks[k].phase != Settled
    ensures exists e: Event :: !e.Enqueue? && CanHappen(s, e) && (e.CheckEnds? ==> e.answer == TimesOut)
    decreases k
  {
    if k > 0 && s.tasks[k - 1].phase != Settled {
      NeverStuck(s, k - 1);
    } else {
      assert TaskFits(s, k, s.tasks[k]);
      var e := match s.tasks[k].phase
        case Waiting => Start(k)
        case Checking(_, _, _) => CheckEnds(k, TimesOut)
        case Downloading(_, _) => DownloadEnds(k, false)
        case _ => DiscardEnds(k, false);
      assert CanHappen(s, e);
    }
  }
}
