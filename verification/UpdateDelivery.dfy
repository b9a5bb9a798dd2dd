/** What the updater's queue brings about: which updates are fetched, what a
    peek asks, what a switch changes, and how the shared updater is set
    meanwhile (apps/minds/electron/updater.js:181-222, 242-341, 407-486). */
module UpdateDelivery {
  import opened Options
  import opened UpdateChannel
  import opened UpdateService
  import opened UpdateRuns

  // One step

  /** A check that ends queues a download exactly when it found an update that
      is not staged already: one, last in the queue, for the channel stored. */
  lemma CheckQueuesDownload(s: State, i: nat, answer: Answer)
    requires Consistent(s) && CanHappen(s, CheckEnds(i, answer)) && s.tasks[i].kind.Check?
    ensures var t := Step(s, CheckEnds(i, answer)); var done := s.tasks[i := Task(Check, Settled)];
      && t.tasks == (if answer.Offers? && s.downloadedVersion != Some(answer.version)
                     then done + [Task(Download(Stored(s)), Waiting)] else done)
      && Stored(t) == Stored(s) && t.downloadedVersion == s.downloadedVersion && t.log == s.log
  {
    assert TaskFits(s, i, s.tasks[i]);
  }

  /** Whose turn it is asks its own question, of the feed meant, downgrades refused. */
  predicate Asks(s: State, t: State, i: nat, channel: Channel, left: seq<Channel>)
    requires i < |t.tasks|
  {
    && t.tasks[i].phase == Checking(|s.updater.requests|, channel, left)
    && t.updater.requests == s.updater.requests +
         [Request(i, if s.config.hasHost then Feed(true, Named(channel)) else Feed(false, Latest), false)]
  }

  /** Only task `i` moved, and nothing is queued, staged, stored or recorded yet. */
  predicate OnlyMoves(s: State, t: State, i: nat)
    requires i < |s.tasks|
  {
    && |t.tasks| == |s.tasks| && t.tasks[i].kind == s.tasks[i].kind
    && t.tasks == s.tasks[i := t.tasks[i]]
    && t.config == s.config && t.preference == s.preference
    && t.downloadedVersion == s.downloadedVersion && t.log == s.log
  }

  /** How each kind of task begins: a check asks the stored channel; a download
      asks its own if that is still stored and is dropped otherwise, without
      asking; a peek asks the first channel of all; a switch turns off
      installing at quit and clears what is staged. */
  lemma StartsAsMeant(s: State, i: nat)
    requires Consistent(s) && CanHappen(s, Start(i))
    ensures var t := Step(s, Start(i));
      && OnlyMoves(s, t, i)
      && (match s.tasks[i].kind
          case Check => Asks(s, t, i, Stored(s), [])
          case Download(channel) =>
            if channel == Stored(s) then Asks(s, t, i, channel, [])
            else t.tasks[i].phase == Settled && t.updater == s.updater
          case Peek =>
            Asks(s, t, i, Stable, if s.config.hasHost then [Beta, Alpha] else [])
          case Switch(_) =>
            t.tasks[i].phase == Discarding && t.updater == s.updater.(isAutoInstall := false))
  {
    MovingIsActive(s, i);
    NothingInFlight(s, i);
  }

  /** A download's own check decides: an update not staged already is fetched,
      with installing at quit set by the build; anything else ends the task. */
  lemma DownloadFetches(s: State, i: nat, answer: Answer)
    requires Consistent(s) && CanHappen(s, CheckEnds(i, answer)) && s.tasks[i].kind.Download?
    ensures var t := Step(s, CheckEnds(i, answer));
      && OnlyMoves(s, t, i) && t.updater.requests == s.updater.requests
      && (if answer.Offers? && s.downloadedVersion != Some(answer.version) then
            t.tasks[i].phase == Downloading(answer.version, Some(Found(answer.version, s.tasks[i].phase.request)))
            && t.updater.isAutoInstall == s.config.isInstalledOnQuit
          else t.tasks[i].phase == Settled)
  {
  }

  /** A peek that has channels left asks the next; after the last it points the
      updater back at the stored channel. */
  lemma PeekGoesOn(s: State, i: nat, answer: Answer)
    requires Consistent(s) && CanHappen(s, CheckEnds(i, answer)) && s.tasks[i].kind.Peek?
    ensures var t := Step(s, CheckEnds(i, answer)); var left := s.tasks[i].phase.left;
      && OnlyMoves(s, t, i)
      && (if left != [] then Asks(s, t, i, left[0], left[1..])
          else t.tasks[i].phase == Settled && t.updater.requests == s.updater.requests
               && FeedOf(t.updater) == FeedFor(s.config, Stored(s)) && !t.updater.allowDowngrade)
  {
  }

  /** A download that ends stages what it fetched, or, cut short, changes nothing. */
  lemma DownloadStages(s: State, i: nat, isComplete: bool)
    requires Consistent(s) && CanHappen(s, DownloadEnds(i, isComplete))
    ensures var t := Step(s, DownloadEnds(i, isComplete)); var p := s.tasks[i].phase;
      && t.tasks == s.tasks[i := Task(s.tasks[i].kind, Settled)]
      && t.preference == s.preference && t.updater == s.updater
      && t.downloadedVersion == (if isComplete then Some(p.version) else s.downloadedVersion)
      && t.log == s.log + if isComplete then [Downloaded(i, Stored(s), p.version, p.served)] else []
  {
    assert TaskFits(s, i, s.tasks[i]);
    assert s.log + [] == s.log;
  }

  /** A switch unstages whatever was staged, and from then on the channel asked
      for is the stored one, unless writing it failed. */
  lemma SwitchTakesEffect(s: State, i: nat, isWritten: bool)
    requires Consistent(s) && CanHappen(s, DiscardEnds(i, isWritten))
    ensures var t := Step(s, DiscardEnds(i, isWritten));
      && t.tasks == s.tasks[i := Task(s.tasks[i].kind, Settled)] && t.updater == s.updater
      && t.downloadedVersion == None
      && Stored(t) == (if isWritten then s.tasks[i].kind.channel else Stored(s))
  {
    assert TaskFits(s, i, s.tasks[i]);
  }

  /** A build without a manifest host serves stable alone, whatever is stored;
      one with a host serves what is stored, and stable when nothing is. */
  lemma StoredIsServed(s: State)
    ensures Stored(s) == if s.config.hasHost && s.preference.Some? then s.preference.value else Stable
  {
  }

  // Runs

  /** Not an event of task `k`. */
  predicate IsOthers(e: Event, k: nat)
  {
    e.Enqueue? || e.task != k
  }

  ghost predicate AllOthers(events: seq<Event>, k: nat)
  {
    forall e <- events :: IsOthers(e, k)
  }

  predicate IsAwaiting(s: State, k: nat)
  {
    k < |s.tasks| && s.tasks[k].phase != Waiting && s.tasks[k].phase != Settled
  }

  /** The same, but for requests queued behind. */
  predicate SameButQueued(s: State, t: State)
  {
    s.tasks <= t.tasks && t == s.(tasks := t.tasks)
  }

  /** While a task awaits something, nothing but new requests happens to the others. */
  lemma {:induction false} OthersOnlyQueue(s: State, k: nat, events: seq<Event>)
    requires Consistent(s) && IsAwaiting(s, k) && IsRun(s, events) && AllOthers(events, k)
    ensures Consistent(Run(s, events)) && SameButQueued(s, Run(s, events))
  {
    if events != [] {
      var init, e := events[..|events| - 1], events[|events| - 1];
      OthersOnlyQueue(s, k, init);
      var t := Run(s, init);
      assert IsOthers(e, k);
      StepKeeps(t, e);
      assert t.tasks[k] == s.tasks[k];
      OthersCannotMove(t, k, e);
    }
  }

  lemma OthersCannotMove(s: State, k: nat, e: Event)
    requires Consistent(s) && IsAwaiting(s, k) && CanHappen(s, e) && IsOthers(e, k)
    ensures e.Enqueue?
  {
  }

  predicate IsNoSwitch(e: Event)
  {
    !e.DiscardEnds?
  }

  ghost predicate NoSwitch(events: seq<Event>)
  {
    forall e <- events :: IsNoSwitch(e)
  }

  lemma OthersLeave(s: State, k: nat, e: Event)
    requires Consistent(s) && CanHappen(s, e) && k < |s.tasks| && IsOthers(e, k)
    ensures var t := Step(s, e); k < |t.tasks| && t.tasks[k] == s.tasks[k] && t.config == s.config
    ensures !e.DiscardEnds? ==> Step(s, e).preference == s.preference
  {
    if !e.DiscardEnds? { PreferenceKept(s, e); }
    if !e.Enqueue? { OnlyOneMoves(s, e); }
  }

  lemma PreferenceKept(s: State, e: Event)
    requires CanHappen(s, e) && !e.DiscardEnds?
    ensures Step(s, e).preference == s.preference
  {
  }

  /** Until its turn a task stays queued; and without a switch the stored channel stays. */
  lemma {:induction false} StaysQueued(s: State, k: nat, events: seq<Event>)
    requires Consistent(s) && k < |s.tasks| && IsRun(s, events) && AllOthers(events, k)
    ensures var t := Run(s, events);
      && Consistent(t) && k < |t.tasks| && t.tasks[k] == s.tasks[k]
      && (NoSwitch(events) ==> Stored(t) == Stored(s))
      && t.config == s.config
  {
    if events != [] {
      var init, e := events[..|events| - 1], events[|events| - 1];
      StaysQueued(s, k, init);
      assert IsOthers(e, k);
      StepKeeps(Run(s, init), e);
      OthersLeave(Run(s, init), k, e);
      assert NoSwitch(events) ==> IsNoSwitch(e);
    }
  }

  /** What a check found is delivered. From when a check ends with an update
      that is not staged: however long other tasks take meanwhile, if no switch
      comes between, the download it queued asks the same channel when its turn
      comes; and if that answer offers an update, either that very version is
      staged by then or it is fetched, and staged once the download completes. */
  lemma FoundIsDelivered(s: State, i: nat, found: Version, after: State, before: seq<Event>,
                         asked: seq<Event>, version: Version, fetching: seq<Event>)
    requires Consistent(s) && CanHappen(s, CheckEnds(i, Offers(found))) && s.tasks[i].kind.Check?
    requires s.downloadedVersion != Some(found) && after == Step(s, CheckEnds(i, Offers(found)))
    requires IsRun(after, before) && AllOthers(before, |s.tasks|) && NoSwitch(before)
    requires var t := Run(after, before); |t.tasks| > |s.tasks| && t.tasks[|s.tasks| - 1].phase == Settled
    ensures var t := Run(after, before);
      CanHappen(t, Start(|s.tasks|)) && Delivers(t, |s.tasks|, Stored(s), asked, version, fetching)
  {
    QueuedAndKept(s, i, found, after, before);
    DownloadDelivers(Run(after, before), |s.tasks|, asked, version, fetching);
  }

  lemma QueuedAndKept(s: State, i: nat, found: Version, after: State, before: seq<Event>)
    requires Consistent(s) && CanHappen(s, CheckEnds(i, Offers(found))) && s.tasks[i].kind.Check?
    requires s.downloadedVersion != Some(found) && after == Step(s, CheckEnds(i, Offers(found)))
    requires IsRun(after, before) && AllOthers(before, |s.tasks|) && NoSwitch(before)
    ensures var t := Run(after, before);
      && Consistent(t) && Stored(t) == Stored(s)
      && |t.tasks| > |s.tasks| && t.tasks[|s.tasks|] == Task(Download(Stored(s)), Waiting)
  {
    StepKeeps(s, CheckEnds(i, Offers(found)));
    CheckQueuesDownload(s, i, Offers(found));
    StaysQueued(after, |s.tasks|, before);
  }

  /** From the turn of download `k` on: it asks; after whatever is queued
      meanwhile (`asked`) its answer, offering `version`, finds that staged or
      starts fetching it; and after whatever is queued meanwhile (`fetching`)
      the completed download stages it. */
  ghost predicate Delivers(t: State, k: nat, channel: Channel, asked: seq<Event>, version: Version, fetching: seq<Event>)
    requires CanHappen(t, Start(k))
  {
    var begun := Step(t, Start(k));
    && Asks(t, begun, k, channel, [])
    && (IsRun(begun, asked) && AllOthers(asked, k) && version > t.config.current ==>
          var awaiting := Run(begun, asked);
          && CanHappen(awaiting, CheckEnds(k, Offers(version)))
          && Fetches(Step(awaiting, CheckEnds(k, Offers(version))), k, version, fetching))
  }

  ghost predicate Fetches(t: State, k: nat, version: Version, fetching: seq<Event>)
  {
    || t.downloadedVersion == Some(version)
    || (IsRun(t, fetching) && AllOthers(fetching, k) ==>
          var ready := Run(t, fetching);
          && CanHappen(ready, DownloadEnds(k, true))
          && Step(ready, DownloadEnds(k, true)).downloadedVersion == Some(version))
  }

  lemma FetchingStages(t: State, k: nat, version: Version, fetching: seq<Event>)
    requires Consistent(t) && k < |t.tasks| && t.tasks[k].kind.Download?
    requires t.tasks[k].phase.Downloading? && t.tasks[k].phase.version == version
    ensures Fetches(t, k, version, fetching)
  {
    if IsRun(t, fetching) && AllOthers(fetching, k) {
      OthersOnlyQueue(t, k, fetching);
      DownloadStages(Run(t, fetching), k, true);
    }
  }

  lemma DownloadDelivers(t: State, k: nat, asked: seq<Event>, version: Version, fetching: seq<Event>)
    requires Consistent(t) && k < |t.tasks| && t.tasks[k] == Task(Download(Stored(t)), Waiting)
    requires k > 0 ==> t.tasks[k - 1].phase == Settled
    ensures CanHappen(t, Start(k)) && Delivers(t, k, Stored(t), asked, version, fetching)
  {
    var begun := Step(t, Start(k));
    StartsAsMeant(t, k);
    StepKeeps(t, Start(k));
    if IsRun(begun, asked) && AllOthers(asked, k) && version > t.config.current {
      OthersOnlyQueue(begun, k, asked);
      var awaiting := Run(begun, asked);
      assert TaskFits(awaiting, k, awaiting.tasks[k]);
      var answered := Step(awaiting, CheckEnds(k, Offers(version)));
      StepKeeps(awaiting, CheckEnds(k, Offers(version)));
      DownloadFetches(awaiting, k, Offers(version));
      if answered.tasks[k].phase.Downloading? { FetchingStages(answered, k, version, fetching); }
    }
  }

  // What the shared updater is told

  /** While task `i` is under way, the shared updater is set for it: pointed at
      what it asks, never downloading by itself, and installing at quit only
      while a download runs in a build that does so. */
  predicate IsSetFor(s: State, task: Task)
  {
    var u := s.updater;
    match task.phase
    case Checking(_, channel, _) =>
      FeedOf(u) == FeedFor(s.config, channel) && !u.allowDowngrade && !u.isAutoDownload && !u.isAutoInstall
    case Downloading(_, _) => !u.isAutoDownload && u.isAutoInstall == s.config.isInstalledOnQuit
    case Discarding => !u.isAutoInstall
    case _ => true
  }

  ghost predicate AllSet(s: State)
  {
    forall i :: 0 <= i < |s.tasks| ==> IsSetFor(s, s.tasks[i])
  }

  lemma StepSets(s: State, e: Event)
    requires Consistent(s) && AllSet(s) && CanHappen(s, e)
    ensures AllSet(Step(s, e))
  {
    if e.Enqueue? {
      EnqueueSets(s, e);
    } else {
      MovingIsActive(s, e.task);
      assert IsSetFor(s, s.tasks[e.task]);
      StepSetsOwn(s, e);
      OnlyOneMoves(s, e);
      OthersSet(s, Step(s, e), e.task);
    }
  }

  lemma EnqueueSets(s: State, e: Event)
    requires AllSet(s) && CanHappen(s, e) && e.Enqueue?
    ensures AllSet(Step(s, e))
  {
    var t := Step(s, e);
    forall j | 0 <= j < |t.tasks| ensures IsSetFor(t, t.tasks[j]) {
      if j < |s.tasks| { assert IsSetFor(s, s.tasks[j]); }
    }
  }

  lemma OthersSet(s: State, t: State, i: nat)
    requires Active(s, i) && OneMoved(s, t, i) && IsSetFor(t, t.tasks[i])
    ensures AllSet(t)
  {
  }

  /** Nothing but task `i` changed, and at most one task was queued. */
  predicate OneMoved(s: State, t: State, i: nat)
  {
    && t.config == s.config && |s.tasks| <= |t.tasks| <= |s.tasks| + 1
    && (forall j :: 0 <= j < |s.tasks| && j != i ==> t.tasks[j] == s.tasks[j])
    && (|t.tasks| > |s.tasks| ==> t.tasks[|s.tasks|].phase == Waiting)
  }

  lemma OnlyOneMoves(s: State, e: Event)
    requires Consistent(s) && CanHappen(s, e) && !e.Enqueue?
    ensures OneMoved(s, Step(s, e), e.task)
  {
    TaskDescends(s, e);
    var t := Step(s, e);
    assert forall j :: 0 <= j < |s.tasks| ==> t.tasks[j] == t.tasks[..|s.tasks|][j];
  }

  lemma BeginSets(s: State, i: nat, channel: Channel, left: seq<Channel>)
    requires i < |s.tasks|
    ensures var t := BeginCheck(s, i, channel, left); IsSetFor(t, t.tasks[i])
  {
  }

  lemma StartSets(s: State, i: nat)
    requires CanHappen(s, Start(i))
    ensures var t := Started(s, i); IsSetFor(t, t.tasks[i])
  {
    match s.tasks[i].kind
    case Check => BeginSets(s, i, Stored(s), []);
    case Download(channel) => BeginSets(s, i, channel, []);
    case Peek => BeginSets(s, i, AvailableChannels(s.config)[0], AvailableChannels(s.config)[1..]);
    case Switch(_) =>
  }

  lemma AnswerSets(s: State, i: nat, answer: Answer)
    requires Consistent(s) && CanHappen(s, CheckEnds(i, answer)) && IsSetFor(s, s.tasks[i])
    ensures var t := CheckEnded(s, i, answer); IsSetFor(t, t.tasks[i])
  {
    assert TaskFits(s, i, s.tasks[i]);
    match s.tasks[i].kind
    case Check => CheckQueuesDownload(s, i, answer);
    case Download(_) => FetchSets(s, i, answer);
    case Peek => PeekSets(s, i, answer);
  }

  lemma FetchSets(s: State, i: nat, answer: Answer)
    requires CanHappen(s, CheckEnds(i, answer)) && s.tasks[i].kind.Download? && !s.updater.isAutoDownload
    ensures var t := CheckEnded(s, i, answer); IsSetFor(t, t.tasks[i])
  {
  }

  lemma PeekSets(s: State, i: nat, answer: Answer)
    requires CanHappen(s, CheckEnds(i, answer)) && s.tasks[i].kind.Peek?
    ensures var t := CheckEnded(s, i, answer); IsSetFor(t, t.tasks[i])
  {
    var p := s.tasks[i].phase;
    var t := s.(updater := Answered(s.updater, p.request, answer));
    if p.left != [] { BeginSets(t, i, p.left[0], p.left[1..]); }
  }

  lemma StepSetsOwn(s: State, e: Event)
    requires Consistent(s) && CanHappen(s, e) && !e.Enqueue? && IsSetFor(s, s.tasks[e.task])
    ensures IsSetFor(Step(s, e), Step(s, e).tasks[e.task])
  {
    match e
    case Start(i) => StartSets(s, i);
    case CheckEnds(i, answer) => AnswerSets(s, i, answer);
    case _ =>
  }

  /** Over every interleaving. */
  lemma {:induction false} AlwaysSet(config: Config, preference: Option<Channel>, events: seq<Event>, i: nat)
    requires IsRun(Initial(config, preference), events)
    ensures AllSet(Run(Initial(config, preference), events))
    ensures var s := Run(Initial(config, preference), events);
      i < |s.tasks| && s.tasks[i].phase.Checking? ==>
        FeedOf(s.updater) == FeedFor(config, s.tasks[i].phase.channel) && !s.updater.isAutoDownload
  {
    if events != [] {
      var init := events[..|events| - 1];
      AlwaysSet(config, preference, init, i);
      AlwaysConsistent(config, preference, init);
      StepSets(Run(Initial(config, preference), init), events[|events| - 1]);
    }
    AlwaysConsistent(config, preference, events);
    var s := Run(Initial(config, preference), events);
    if i < |s.tasks| { assert IsSetFor(s, s.tasks[i]); }
  }

  // What a task has asked

  /** The feeds task `i` has asked, in order. */
  function AskedBy(requests: seq<Request>, i: nat): seq<Feed>
  {
    if requests == [] then []
    else
      var last := requests[|requests| - 1];
      AskedBy(requests[..|requests| - 1], i) + if last.owner == i then [last.feed] else []
  }

  function FeedsOf(c: Config, channels: seq<Channel>): seq<Feed>
  {
    seq(|channels|, k requires 0 <= k < |channels| => FeedFor(c, channels[k]))
  }

  lemma AskedOnce(requests: seq<Request>, r: Request, i: nat)
    ensures AskedBy(requests + [r], i) == AskedBy(requests, i) + if r.owner == i then [r.feed] else []
  {
    assert (requests + [r])[..|requests|] == requests;
  }

  /** A peek has asked every channel but those left to ask, in their order; a
      task that waits has asked nothing. */
  predicate AskedInOrder(s: State, i: nat)
    requires i < |s.tasks|
  {
    var asked := AskedBy(s.updater.requests, i);
    match s.tasks[i].phase
    case Waiting => asked == []
    case Checking(_, _, left) =>
      s.tasks[i].kind.Peek? ==> asked + FeedsOf(s.config, left) == FeedsOf(s.config, AvailableChannels(s.config))
    case Settled =>
      s.tasks[i].kind.Peek? ==> asked == FeedsOf(s.config, AvailableChannels(s.config))
    case _ => true
  }

  ghost predicate OwnersKnown(s: State)
  {
    forall r <- s.updater.requests :: r.owner < |s.tasks|
  }

  ghost predicate AllInOrder(s: State)
  {
    OwnersKnown(s) && forall i :: 0 <= i < |s.tasks| ==> AskedInOrder(s, i)
  }

  lemma {:induction false} NeverAsked(requests: seq<Request>, i: nat)
    requires forall r <- requests :: r.owner < i
    ensures AskedBy(requests, i) == []
  {
    if requests != [] { NeverAsked(requests[..|requests| - 1], i); }
  }

  /** No request but one of task `i`. */
  predicate AsksFor(before: seq<Request>, after: seq<Request>, i: nat)
  {
    after == before || (|after| == |before| + 1 && after[..|before|] == before && after[|before|].owner == i)
  }

  lemma BeginAsks(s: State, i: nat, channel: Channel, left: seq<Channel>)
    requires i < |s.tasks|
    ensures AsksFor(s.updater.requests, BeginCheck(s, i, channel, left).updater.requests, i)
  {
  }

  lemma AnswerAsks(s: State, i: nat, answer: Answer)
    requires CanHappen(s, CheckEnds(i, answer))
    ensures AsksFor(s.updater.requests, CheckEnded(s, i, answer).updater.requests, i)
  {
    var p := s.tasks[i].phase;
    var t := s.(updater := Answered(s.updater, p.request, answer));
    if s.tasks[i].kind.Peek? && p.left != [] { BeginAsks(t, i, p.left[0], p.left[1..]); }
  }

  /** A step makes at most one request, for the task that moved. */
  lemma AsksAtMostOnce(s: State, e: Event)
    requires CanHappen(s, e) && !e.Enqueue?
    ensures AsksFor(s.updater.requests, Step(s, e).updater.requests, e.task)
  {
    match e
    case Start(i) =>
      match s.tasks[i].kind {
        case Check => BeginAsks(s, i, Stored(s), []);
        case Download(channel) => BeginAsks(s, i, channel, []);
        case Peek => BeginAsks(s, i, AvailableChannels(s.config)[0], AvailableChannels(s.config)[1..]);
        case Switch(_) =>
      }
    case CheckEnds(i, answer) => AnswerAsks(s, i, answer);
    case _ =>
  }

  lemma PeekOrder(s: State, e: Event)
    requires Consistent(s) && CanHappen(s, e) && !e.Enqueue? && AskedInOrder(s, e.task)
    ensures AskedInOrder(Step(s, e), e.task)
  {
    MovesOn(s, e);
    if s.tasks[e.task].kind.Peek? {
      assert TaskFits(s, e.task, s.tasks[e.task]);
      assert e.Start? || e.CheckEnds?;
      if e.Start? { FirstInOrder(s, e.task); } else { NextInOrder(s, e.task, e.answer); }
    } else {
      OnlyPeeksCount(Step(s, e), e.task);
    }
  }

  lemma MovesOn(s: State, e: Event)
    requires CanHappen(s, e) && !e.Enqueue?
    ensures var t := Step(s, e);
      e.task < |t.tasks| && t.tasks[e.task].kind == s.tasks[e.task].kind
      && t.tasks[e.task].phase != Waiting
  {
  }

  lemma OnlyPeeksCount(s: State, i: nat)
    requires i < |s.tasks| && !s.tasks[i].kind.Peek? && s.tasks[i].phase != Waiting
    ensures AskedInOrder(s, i)
  {
  }

  lemma FirstInOrder(s: State, i: nat)
    requires Consistent(s) && CanHappen(s, Start(i)) && s.tasks[i].kind.Peek? && AskedInOrder(s, i)
    ensures AskedInOrder(Step(s, Start(i)), i)
  {
    StartsAsMeant(s, i);
    var requests := Step(s, Start(i)).updater.requests;
    AskedOnce(s.updater.requests, requests[|s.updater.requests|], i);
    FirstFeed(s.config, AvailableChannels(s.config));
    assert AskedBy(requests, i) == [FeedFor(s.config, Stable)];
  }

  lemma NextInOrder(s: State, i: nat, answer: Answer)
    requires Consistent(s) && CanHappen(s, CheckEnds(i, answer)) && s.tasks[i].kind.Peek? && AskedInOrder(s, i)
    ensures AskedInOrder(Step(s, CheckEnds(i, answer)), i)
  {
    PeekGoesOn(s, i, answer);
    var asked, left := AskedBy(s.updater.requests, i), s.tasks[i].phase.left;
    if left != [] {
      var requests := Step(s, CheckEnds(i, answer)).updater.requests;
      AskedOnce(s.updater.requests, requests[|s.updater.requests|], i);
      FirstFeed(s.config, left);
      AssocFeeds(asked, FeedFor(s.config, left[0]), FeedsOf(s.config, left[1..]));
    } else {
      assert asked + FeedsOf(s.config, left) == asked;
    }
  }

  lemma FirstFeed(c: Config, channels: seq<Channel>)
    requires channels != []
    ensures FeedsOf(c, channels) == [FeedFor(c, channels[0])] + FeedsOf(c, channels[1..])
  {
  }

  lemma AssocFeeds(a: seq<Feed>, f: Feed, b: seq<Feed>)
    ensures a + ([f] + b) == a + [f] + b
  {
  }

  lemma OthersAskNothing(before: seq<Request>, after: seq<Request>, i: nat, j: nat)
    requires AsksFor(before, after, i) && i != j
    ensures AskedBy(after, j) == AskedBy(before, j)
  {
    if after != before {
      AskedOnce(before, after[|before|], j);
      assert after == before + [after[|before|]];
    }
  }

  lemma StepInOrder(s: State, e: Event)
    requires Consistent(s) && AllInOrder(s) && CanHappen(s, e)
    ensures AllInOrder(Step(s, e))
  {
    var t := Step(s, e);
    NeverAsked(s.updater.requests, |s.tasks|);
    if e.Enqueue? {
      forall j | 0 <= j < |t.tasks| ensures AskedInOrder(t, j) {
        if j < |s.tasks| { assert AskedInOrder(s, j); }
      }
    } else {
      MovingIsActive(s, e.task);
      assert AskedInOrder(s, e.task);
      PeekOrder(s, e);
      AsksAtMostOnce(s, e);
      OnlyOneMoves(s, e);
      OthersInOrder(s, t, e.task);
    }
  }

  lemma OthersInOrder(s: State, t: State, i: nat)
    requires AllInOrder(s) && OneMoved(s, t, i) && i < |s.tasks|
    requires AsksFor(s.updater.requests, t.updater.requests, i)
    requires AskedBy(s.updater.requests, |s.tasks|) == [] && AskedInOrder(t, i)
    ensures AllInOrder(t)
  {
    forall j | 0 <= j < |t.tasks| ensures AskedInOrder(t, j) {
      if j != i {
        OthersAskNothing(s.updater.requests, t.updater.requests, i, j);
        if j < |s.tasks| { assert AskedInOrder(s, j); }
      }
    }
    forall r | r in t.updater.requests ensures r.owner < |t.tasks| {
      var k :| 0 <= k < |t.updater.requests| && t.updater.requests[k] == r;
      if k < |s.updater.requests| { assert r == t.updater.requests[..|s.updater.requests|][k]; }
    }
  }

  lemma {:induction false} AlwaysInOrder(config: Config, preference: Option<Channel>, events: seq<Event>)
    requires IsRun(Initial(config, preference), events)
    ensures AllInOrder(Run(Initial(config, preference), events))
  {
    if events != [] {
      var init := events[..|events| - 1];
      AlwaysInOrder(config, preference, init);
      AlwaysConsistent(config, preference, init);
      StepInOrder(Run(Initial(config, preference), init), events[|events| - 1]);
    }
  }

  /** Over every interleaving a peek, once done, has asked every channel the
      build serves, each once and in order, whatever the answers were. */
  lemma PeekAsksEveryChannel(config: Config, preference: Option<Channel>, events: seq<Event>, i: nat)
    requires IsRun(Initial(config, preference), events)
    requires var s := Run(Initial(config, preference), events);
      i < |s.tasks| && s.tasks[i] == Task(Peek, Settled)
    ensures AskedBy(Run(Initial(config, preference), events).updater.requests, i) ==
      if config.hasHost then [Feed(true, Named(Stable)), Feed(true, Named(Beta)), Feed(true, Named(Alpha))]
      else [Feed(false, Latest)]
  {
    AlwaysInOrder(config, preference, events);
    AlwaysConsistent(config, preference, events);
    var s := Run(Initial(config, preference), events);
    assert AskedInOrder(s, i);
  }
}
