/** Checks, downloads, peeks and channel switches, each run after the one before
    (apps/minds/electron/updater.js:181-222, 242-341, 407-486). */
module UpdateService {
  import opened Options
  import opened UpdateChannel

  datatype Kind = Check | Download(channel: Channel) | Peek | Switch(channel: Channel)

  /** Where a task is: at an `await`, or before its first or after its last. */
  datatype Phase =
    | Waiting
    | Checking(request: nat, channel: Channel, left: seq<Channel>)
    | Downloading(version: Version, served: Option<Found>)
    | Discarding
    | Settled

  datatype Task = Task(kind: Kind, phase: Phase)

  /** What happened to the staged artifact. */
  datatype Entry =
    | Downloaded(task: nat, channel: Channel, version: Version, served: Option<Found>)
    | Switched(channel: Channel, isWritten: bool)

  datatype State = State(
    config: Config,
    preference: Option<Channel>,
    updater: Updater,
    downloadedVersion: Option<Version>,
    tasks: seq<Task>,
    log: seq<Entry>)

  datatype Event =
    | Enqueue(kind: Kind)
    | Start(task: nat)
    | CheckEnds(task: nat, answer: Answer)
    | DownloadEnds(task: nat, isComplete: bool)
    | DiscardEnds(task: nat, isWritten: bool)

  function Stored(s: State): Channel
  {
    ReadChannel(s.config, s.preference)
  }

  function Initial(config: Config, preference: Option<Channel>): State
  {
    State(config, preference, Updater(Latest, false, false, true, true, None, None, []), None, [], [])
  }

  // The tasks, from one await to the next

  function At(s: State, i: nat, phase: Phase): State
    requires i < |s.tasks|
  {
    s.(tasks := s.tasks[i := s.tasks[i].(phase := phase)])
  }

  /** `checkChannel`, up to its await. */
  function BeginCheck(s: State, i: nat, channel: Channel, left: seq<Channel>): State
    requires i < |s.tasks|
  {
    var u := Asked(Pointed(s.updater, FeedFor(s.config, channel)), i);
    At(s.(updater := u), i, Checking(InFlight(u), channel, left))
  }

  function Started(s: State, i: nat): State
    requires i < |s.tasks|
  {
    match s.tasks[i].kind
    case Check => BeginCheck(s, i, Stored(s), [])
    case Download(channel) => if Stored(s) != channel then At(s, i, Settled) else BeginCheck(s, i, channel, [])
    case Peek => BeginCheck(s, i, AvailableChannels(s.config)[0], AvailableChannels(s.config)[1..])
    case Switch(_) => At(s.(updater := s.updater.(isAutoInstall := false)), i, Discarding)
  }

  function CheckEnded(s: State, i: nat, answer: Answer): State
    requires i < |s.tasks| && s.tasks[i].phase.Checking?
  {
    var p := s.tasks[i].phase;
    var t := s.(updater := Answered(s.updater, p.request, answer));
    var isWanted := answer.Offers? && !IsAlreadyStaged(answer, s.downloadedVersion);
    match s.tasks[i].kind
    case Check =>
      var u := At(t, i, Settled);
      if isWanted then u.(tasks := u.tasks + [Task(Download(p.channel), Waiting)]) else u
    case Download(_) =>
      if isWanted then
        At(t.(updater := t.updater.(isAutoInstall := t.config.isInstalledOnQuit)), i,
           Downloading(answer.version, t.updater.found))
      else At(t, i, Settled)
    case Peek =>
      if p.left != [] then BeginCheck(t, i, p.left[0], p.left[1..])
      else At(t.(updater := Pointed(t.updater, FeedFor(t.config, Stored(t)))), i, Settled)
    case Switch(_) => s
  }

  function DownloadEnded(s: State, i: nat, isComplete: bool): State
    requires i < |s.tasks| && s.tasks[i].phase.Downloading? && s.tasks[i].kind.Download?
  {
    var p := s.tasks[i].phase;
    var t := At(s, i, Settled);
    if isComplete then
      t.(downloadedVersion := Some(p.version),
         log := t.log + [Downloaded(i, s.tasks[i].kind.channel, p.version, p.served)])
    else t
  }

  function DiscardEnded(s: State, i: nat, isWritten: bool): State
    requires i < |s.tasks| && s.tasks[i].kind.Switch?
  {
    var channel := s.tasks[i].kind.channel;
    At(s, i, Settled).(downloadedVersion := None,
                       preference := if isWritten then Some(channel) else s.preference,
                       log := s.log + [Switched(channel, isWritten)])
  }

  /** What may happen next. A task starts once the one queued before it has
      settled, however that went. electron-updater offers an older version only
      where a request allowed it. */
  predicate CanHappen(s: State, e: Event)
  {
    match e
    case Enqueue(kind) => !kind.Download? && (kind.Switch? ==> kind.channel in AvailableChannels(s.config))
    case Start(i) => i < |s.tasks| && s.tasks[i].phase == Waiting && (i == 0 || s.tasks[i - 1].phase == Settled)
    case CheckEnds(i, answer) =>
      && i < |s.tasks| && s.tasks[i].phase.Checking?
      && (answer.Offers? ==>
            && s.tasks[i].phase.request < |s.updater.requests|
            && (answer.version > s.config.current || s.updater.requests[s.tasks[i].phase.request].allowDowngrade))
    case DownloadEnds(i, _) => i < |s.tasks| && s.tasks[i].phase.Downloading? && s.tasks[i].kind.Download?
    case DiscardEnds(i, _) => i < |s.tasks| && s.tasks[i].phase == Discarding && s.tasks[i].kind.Switch?
  }

  function Step(s: State, e: Event): State
    requires CanHappen(s, e)
  {
    match e
    case Enqueue(kind) => s.(tasks := s.tasks + [Task(kind, Waiting)])
    case Start(i) => Started(s, i)
    case CheckEnds(i, answer) => CheckEnded(s, i, answer)
    case DownloadEnds(i, isComplete) => DownloadEnded(s, i, isComplete)
    case DiscardEnds(i, isWritten) => DiscardEnded(s, i, isWritten)
  }

  /** The updater of one app, its methods being what runs between two awaits. */
  class Service {
    const config: Config
    const auto: AutoUpdater
    var preference: Option<Channel>
    var downloadedVersion: Option<Version>
    var tasks: seq<Task>
    var log: seq<Entry>

    function View(): State
      reads this, auto
    {
      State(config, preference, auto.View(), downloadedVersion, tasks, log)
    }

    constructor (config: Config, preference: Option<Channel>)
      ensures View() == Initial(config, preference) && fresh(auto)
    {
      var updater := new AutoUpdater();
      this.config, this.preference, auto := config, preference, updater;
      downloadedVersion, tasks, log := None, [], [];
    }

    /** Runs after every task queued before it. */
    method Serialize(kind: Kind)
      requires CanHappen(View(), Enqueue(kind))
      modifies `tasks
      ensures View() == Step(old(View()), Enqueue(kind))
    {
      tasks := tasks + [Task(kind, Waiting)];
    }

    method Settle(i: nat)
      requires i < |tasks|
      modifies `tasks
      ensures tasks == old(tasks)[i := old(tasks)[i].(phase := Settled)]
    {
      tasks := tasks[i := tasks[i].(phase := Settled)];
    }

    method CheckChannel(i: nat, channel: Channel, left: seq<Channel>)
      requires i < |tasks|
      modifies `tasks, auto
      ensures View() == BeginCheck(old(View()), i, channel, left)
    {
      auto.ApplyFeed(FeedFor(config, channel));
      var request := auto.CheckForUpdates(i);
      tasks := tasks[i := tasks[i].(phase := Checking(request, channel, left))];
    }

    method Begin(i: nat)
      requires CanHappen(View(), Start(i))
      modifies this, auto
      ensures View() == Step(old(View()), Start(i))
    {
      match tasks[i].kind
      case Check => CheckChannel(i, ReadChannel(config, preference), []);
      case Download(channel) =>
        if ReadChannel(config, preference) != channel {
          Settle(i);
        } else {
          CheckChannel(i, channel, []);
        }
      case Peek =>
        var channels := AvailableChannels(config);
        CheckChannel(i, channels[0], channels[1..]);
      case Switch(_) =>
        auto.isAutoInstall := false;
        tasks := tasks[i := tasks[i].(phase := Discarding)];
    }

    method OnCheckEnds(i: nat, answer: Answer)
      requires CanHappen(View(), CheckEnds(i, answer)) && !tasks[i].kind.Switch?
      modifies this, auto
      ensures View() == Step(old(View()), CheckEnds(i, answer))
    {
      var p := tasks[i].phase;
      auto.Settle(p.request, answer);
      var isWanted := answer.Offers? && !IsAlreadyStaged(answer, downloadedVersion);
      match tasks[i].kind
      case Check =>
        Settle(i);
        if isWanted {
          tasks := tasks + [Task(Download(p.channel), Waiting)];
        }
      case Download(_) =>
        if isWanted {
          auto.isAutoInstall := config.isInstalledOnQuit;
          tasks := tasks[i := tasks[i].(phase := Downloading(answer.version, auto.found))];
        } else {
          Settle(i);
        }
      case Peek =>
        if p.left != [] {
          CheckChannel(i, p.left[0], p.left[1..]);
        } else {
          auto.ApplyFeed(FeedFor(config, ReadChannel(config, preference)));
          Settle(i);
        }
    }

    method OnDownloadEnds(i: nat, isComplete: bool)
      requires CanHappen(View(), DownloadEnds(i, isComplete))
      modifies this
      ensures View() == Step(old(View()), DownloadEnds(i, isComplete))
    {
      var p := tasks[i].phase;
      if isComplete {
        downloadedVersion := Some(p.version);
        log := log + [Downloaded(i, tasks[i].kind.channel, p.version, p.served)];
      }
      Settle(i);
    }

    method OnDiscardEnds(i: nat, isWritten: bool)
      requires CanHappen(View(), DiscardEnds(i, isWritten))
      modifies this
      ensures View() == Step(old(View()), DiscardEnds(i, isWritten))
    {
      var channel := tasks[i].kind.channel;
      downloadedVersion := None;
      if isWritten { preference := Some(channel); }
      log := log + [Switched(channel, isWritten)];
      Settle(i);
    }
  }
}
