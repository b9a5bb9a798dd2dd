/** How a backend launch settles: the handlers of the child's stdout, stderr,
    error, exit and close events and of the drain timer
    (apps/minds/electron/backend.js:504-659). */
module BackendStartup {
  import opened Options
  import opened LineSplitter
  import opened StderrTail

  /** What a complete stdout line is: blank, not JSON, an event, or the login event with its URL. */
  datatype LineKind = Blank | NotJson | Event | Login(url: string)

  /** How lines are read, redacted for the log, and kept for the error. */
  datatype Env = Env(classify: string -> LineKind, redact: string -> string, rules: Rules)

  /** The call that settles the launch. */
  datatype Outcome =
    | ReachedLogin(url: string)
    | SpawnFailure(message: string)
    | ExitedEarly(code: int, eventCount: nat, stderrLines: seq<string>)

  datatype ChildEvent =
    | Stdout(chunk: string) | Stderr(chunk: string)
    | SpawnError(message: string) | Exit(code: int) | Close | TimerFires

  /** `kept` is every stderr line handed to the tail; `log` every line written before the log was closed. */
  datatype State = State(
    stdoutHeld: string, stderrHeld: string, kept: seq<string>, eventCount: nat,
    isResolved: bool, earlyExit: Option<int>, isReported: bool, isTimerArmed: bool,
    isLogFinalized: bool, log: seq<string>, timesLogClosed: nat, outcomes: seq<Outcome>)

  const INITIAL := State("", "", [], 0, false, None, false, false, false, [], 0, [])

  predicate IsCollecting(s: State)
  {
    !s.isResolved || (s.earlyExit.Some? && !s.isReported)
  }

  function Logged(s: State, line: string): State
  {
    if s.isLogFinalized then s else s.(log := s.log + [line])
  }

  /** What a line already in the log amounts to. */
  function Judged(s: State, kind: LineKind): State
  {
    if kind.Blank? || kind.NotJson? then s
    else
      var counted := if IsCollecting(s) then s.(eventCount := s.eventCount + 1) else s;
      if kind.Login? && !s.isResolved then
        counted.(isResolved := true, outcomes := s.outcomes + [ReachedLogin(kind.url)])
      else counted
  }

  function StdoutLine(env: Env, s: State, line: string): State
  {
    Judged(Logged(s, env.redact(line)), env.classify(line))
  }

  function StdoutLines(env: Env, s: State, lines: seq<string>): State
  {
    if lines == [] then s else StdoutLine(env, StdoutLines(env, s, lines[..|lines| - 1]), lines[|lines| - 1])
  }

  function StderrLine(s0: State, line: string): State
  {
    var s := Logged(s0, line);
    if IsCollecting(s) then s.(kept := s.kept + [line]) else s
  }

  function StderrLines(s: State, lines: seq<string>): State
  {
    if lines == [] then s else StderrLine(StderrLines(s, lines[..|lines| - 1]), lines[|lines| - 1])
  }

  function StdoutFlushed(env: Env, s: State): State
  {
    if s.stdoutHeld == "" then s else Logged(s.(stdoutHeld := ""), env.redact(s.stdoutHeld))
  }

  function StderrFlushed(s: State): State
  {
    if s.stderrHeld == "" then s else StderrLine(s.(stderrHeld := ""), s.stderrHeld)
  }

  /** Both trailing partial lines go to the log, the stderr one to the tail too, and the log closes; once. */
  function Finalized(env: Env, s: State): State
  {
    if s.isLogFinalized then s
    else
      var a := StdoutFlushed(env, s);
      var b := StderrFlushed(a);
      b.(isLogFinalized := true, timesLogClosed := s.timesLogClosed + 1)
  }

  /** The error for an early exit: how it went, the events seen, and the tail of the lines kept. */
  function ErrorFor(env: Env, code: int, eventCount: nat, kept: seq<string>): Outcome
  {
    ExitedEarly(code, eventCount, TailOf(StoredAll(env.rules, kept)))
  }

  function Reported(env: Env, s: State): State
  {
    if s.earlyExit.None? || s.isReported then s
    else
      s.(isReported := true, isTimerArmed := false,
         outcomes := s.outcomes + [ErrorFor(env, s.earlyExit.value, s.eventCount, s.kept)])
  }

  function Step(env: Env, s: State, e: ChildEvent): State
  {
    match e
    case Stdout(chunk) =>
      StdoutLines(env, s.(stdoutHeld := Rest(s.stdoutHeld + chunk)), Lines(s.stdoutHeld + chunk))
    case Stderr(chunk) =>
      StderrLines(s.(stderrHeld := Rest(s.stderrHeld + chunk)), Lines(s.stderrHeld + chunk))
    case SpawnError(message) =>
      var f := Finalized(env, s);
      if f.isResolved then f else f.(isResolved := true, outcomes := f.outcomes + [SpawnFailure(message)])
    case Exit(code) =>
      if s.isResolved then s else s.(isResolved := true, earlyExit := Some(code), isTimerArmed := true)
    case Close => Reported(env, Finalized(env, s))
    case TimerFires => Reported(env, s.(isTimerArmed := false))
  }

  class Startup {
    const env: Env
    const stdoutSplitter: Splitter
    const stderrSplitter: Splitter
    const stderrTail: Tail
    var eventCount: nat
    var isResolved: bool
    var earlyExit: Option<int>
    var isReported: bool
    var isTimerArmed: bool
    var isLogFinalized: bool
    var log: seq<string>
    var timesLogClosed: nat
    var outcomes: seq<Outcome>

    ghost predicate Valid()
      reads this, stderrTail
    {
      stdoutSplitter != stderrSplitter && stderrTail.Valid() && stderrTail.rules == env.rules
    }

    ghost function View(): State
      reads this, stdoutSplitter, stderrSplitter, stderrTail
    {
      State(stdoutSplitter.buffer, stderrSplitter.buffer, stderrTail.pushed, eventCount,
            isResolved, earlyExit, isReported, isTimerArmed, isLogFinalized, log, timesLogClosed, outcomes)
    }

    constructor (env: Env)
      ensures Valid() && View() == INITIAL && this.env == env
      ensures fresh(stdoutSplitter) && fresh(stderrSplitter) && fresh(stderrTail)
    {
      var out := new Splitter();
      var err := new Splitter();
      var tail := new Tail(env.rules);
      this.env, stdoutSplitter, stderrSplitter, stderrTail := env, out, err, tail;
      eventCount, isResolved, earlyExit, isReported, isTimerArmed := 0, false, None, false, false;
      isLogFinalized, log, timesLogClosed, outcomes := false, [], 0, [];
    }

    predicate Collecting()
      reads this
    {
      !isResolved || (earlyExit.Some? && !isReported)
    }

    method WriteLog(line: string)
      modifies `log
      ensures log == if isLogFinalized then old(log) else old(log) + [line]
    {
      if !isLogFinalized { log := log + [line]; }
    }

    method Judge(kind: LineKind)
      requires Valid()
      modifies `eventCount, `isResolved, `outcomes
      ensures Valid() && View() == Judged(old(View()), kind)
    {
      if kind.Blank? || kind.NotJson? { return; }
      if Collecting() { eventCount := eventCount + 1; }
      if kind.Login? && !isResolved {
        isResolved := true;
        outcomes := outcomes + [ReachedLogin(kind.url)];
      }
    }

    method OnStdoutLine(line: string)
      requires Valid()
      modifies this
      ensures Valid() && View() == StdoutLine(env, old(View()), line)
    {
      WriteLog(env.redact(line));
      Judge(env.classify(line));
    }

    method OnStdout(chunk: string)
      requires Valid()
      modifies this, stdoutSplitter
      ensures Valid() && View() == Step(env, old(View()), Stdout(chunk))
    {
      var lines := stdoutSplitter.Push(chunk);
      ghost var start := View();
      for i := 0 to |lines|
        invariant Valid() && View() == StdoutLines(env, start, lines[..i])
      {
        OnStdoutLine(lines[i]);
        assert lines[..i + 1][..i] == lines[..i];
      }
      assert lines[..|lines|] == lines;
    }

    method OnStderrLine(line: string)
      requires Valid()
      modifies this, stderrTail
      ensures Valid() && View() == StderrLine(old(View()), line)
    {
      WriteLog(line);
      if Collecting() { stderrTail.Push(line); }
    }

    method OnStderr(chunk: string)
      requires Valid()
      modifies this, stderrSplitter, stderrTail
      ensures Valid() && View() == Step(env, old(View()), Stderr(chunk))
    {
      var lines := stderrSplitter.Push(chunk);
      ghost var start := View();
      for i := 0 to |lines|
        invariant Valid() && View() == StderrLines(start, lines[..i])
      {
        OnStderrLine(lines[i]);
        assert lines[..i + 1][..i] == lines[..i];
      }
      assert lines[..|lines|] == lines;
    }

    method FinalizeLog()
      requires Valid()
      modifies this, stdoutSplitter, stderrSplitter, stderrTail
      ensures Valid() && View() == Finalized(env, old(View()))
    {
      if isLogFinalized { return; }
      FlushStdout();
      FlushStderr();
      isLogFinalized := true;
      timesLogClosed := timesLogClosed + 1;
    }

    method FlushStdout()
      requires Valid()
      modifies `log, stdoutSplitter
      ensures Valid() && View() == StdoutFlushed(env, old(View()))
    {
      var out := stdoutSplitter.Flush();
      if out.Some? { WriteLog(env.redact(out.value)); }
    }

    method FlushStderr()
      requires Valid()
      modifies this, stderrSplitter, stderrTail
      ensures Valid() && View() == StderrFlushed(old(View()))
    {
      var err := stderrSplitter.Flush();
      if err.Some? { OnStderrLine(err.value); }
    }

    method RejectEarlyExit()
      requires Valid()
      modifies `isReported, `isTimerArmed, `outcomes
      ensures Valid() && View() == Reported(env, old(View()))
    {
      if earlyExit.None? || isReported { return; }
      isReported := true;
      isTimerArmed := false;
      var lines := stderrTail.Lines();
      assert ExitedEarly(earlyExit.value, eventCount, lines) ==
        ErrorFor(env, earlyExit.value, eventCount, stderrTail.pushed);
      outcomes := outcomes + [ExitedEarly(earlyExit.value, eventCount, lines)];
    }

    method OnError(message: string)
      requires Valid()
      modifies this, stdoutSplitter, stderrSplitter, stderrTail
      ensures Valid() && View() == Step(env, old(View()), SpawnError(message))
    {
      FinalizeLog();
      if !isResolved {
        isResolved := true;
        outcomes := outcomes + [SpawnFailure(message)];
      }
    }

    method OnClose()
      requires Valid()
      modifies this, stdoutSplitter, stderrSplitter, stderrTail
      ensures Valid()
      ensures View() == Step(env, old(View()), Close)
    {
      assert Step(env, View(), Close) == Reported(env, Finalized(env, View()));
      FinalizeLog();
      RejectEarlyExit();
    }

    method OnExit(code: int)
      requires Valid()
      modifies this
      ensures Valid() && View() == Step(env, old(View()), Exit(code))
    {
      if !isResolved {
        isResolved := true;
        earlyExit := Some(code);
        isTimerArmed := true;
      }
    }

    method OnTimer()
      requires Valid()
      modifies this
      ensures Valid() && View() == Step(env, old(View()), TimerFires)
    {
      isTimerArmed := false;
      RejectEarlyExit();
    }
  }

  // Whole runs

  function Run(env: Env, s: State, events: seq<ChildEvent>): State
  {
    if events == [] then s else Step(env, Run(env, s, events[..|events| - 1]), events[|events| - 1])
  }

  /** A timer fires only while armed; every other event may come at any time, in any order. */
  predicate IsRun(env: Env, s: State, events: seq<ChildEvent>)
  {
    events != [] ==>
      && IsRun(env, s, events[..|events| - 1])
      && (events[|events| - 1].TimerFires? ==> Run(env, s, events[..|events| - 1]).isTimerArmed)
  }

  /** Which path the launch is on. */
  datatype Path = Undecided | ToLogin | ToSpawnFailure | ToEarlyExit

  /** The path a state is on, read off what is recorded. */
  function PathOf(s: State): Path
  {
    if !s.isResolved then Undecided
    else if s.earlyExit.Some? then ToEarlyExit
    else if s.outcomes != [] && s.outcomes[0].ReachedLogin? then ToLogin
    else ToSpawnFailure
  }

  /** At most one settling call; a decided launch has made it, or is an early
      exit whose timer is still armed to make it; the log closed at most once. */
  predicate Consistent(s: State)
  {
    && |s.outcomes| <= 1
    && (!s.isResolved ==> s.outcomes == [] && s.earlyExit.None?)
    && (s.earlyExit.Some? ==>
          (s.isReported <==> s.outcomes != []) && (s.isTimerArmed <==> !s.isReported) &&
          forall o <- s.outcomes :: o.ExitedEarly? && o.code == s.earlyExit.value)
    && (s.earlyExit.None? ==> !s.isTimerArmed && !s.isReported)
    && (s.isResolved && s.earlyExit.None? ==> |s.outcomes| == 1 && !s.outcomes[0].ExitedEarly?)
    && s.timesLogClosed == if s.isLogFinalized then 1 else 0
  }

  /** What a decided launch never changes. */
  predicate StaysOnPath(s: State, t: State)
  {
    && (s.isResolved ==> t.isResolved && t.earlyExit == s.earlyExit && PathOf(t) == PathOf(s))
    && s.outcomes <= t.outcomes
  }

  lemma {:induction false} StdoutLinesKeep(env: Env, s: State, lines: seq<string>)
    requires Consistent(s)
    ensures Consistent(StdoutLines(env, s, lines)) && StaysOnPath(s, StdoutLines(env, s, lines))
    ensures StdoutLines(env, s, lines).earlyExit == s.earlyExit
    ensures s.isResolved || (StdoutLines(env, s, lines).isResolved <==> exists line <- lines :: env.classify(line).Login?)
    ensures StdoutLines(env, s, lines).isResolved && !s.isResolved ==> PathOf(StdoutLines(env, s, lines)) == ToLogin
  {
    if lines != [] {
      StdoutLinesKeep(env, s, lines[..|lines| - 1]);
      assert lines == lines[..|lines| - 1] + [lines[|lines| - 1]];
    }
  }

  lemma {:induction false} StderrLinesKeep(s: State, lines: seq<string>)
    requires Consistent(s)
    ensures var t := StderrLines(s, lines);
      Consistent(t) && StaysOnPath(s, t) && t.isResolved == s.isResolved
  {
    if lines != [] { StderrLinesKeep(s, lines[..|lines| - 1]); }
  }

  lemma FinalizedKeeps(env: Env, s: State)
    requires Consistent(s)
    ensures var t := Finalized(env, s);
      && Consistent(t) && t.isLogFinalized
      && t.isResolved == s.isResolved && t.earlyExit == s.earlyExit && t.isReported == s.isReported
      && t.isTimerArmed == s.isTimerArmed && t.outcomes == s.outcomes
  {
  }

  lemma ReportedKeeps(env: Env, s: State)
    requires Consistent(s.(isTimerArmed := s.earlyExit.Some? && !s.isReported))
    requires s.earlyExit.None? ==> !s.isTimerArmed
    requires s.isReported ==> !s.isTimerArmed
    ensures Consistent(Reported(env, s)) && StaysOnPath(s, Reported(env, s))
  {
  }

  lemma StepKeeps(env: Env, s: State, e: ChildEvent)
    requires Consistent(s) && (e.TimerFires? ==> s.isTimerArmed)
    ensures Consistent(Step(env, s, e)) && StaysOnPath(s, Step(env, s, e))
  {
    match e
    case Stdout(chunk) =>
      StdoutLinesKeep(env, s.(stdoutHeld := Rest(s.stdoutHeld + chunk)), Lines(s.stdoutHeld + chunk));
    case Stderr(chunk) =>
      StderrLinesKeep(s.(stderrHeld := Rest(s.stderrHeld + chunk)), Lines(s.stderrHeld + chunk));
    case SpawnError(message) =>
      FinalizedKeeps(env, s);
    case Exit(code) =>
    case Close =>
      FinalizedKeeps(env, s);
      ReportedKeeps(env, Finalized(env, s));
    case TimerFires =>
      ReportedKeeps(env, s.(isTimerArmed := false));
  }

  /** Whatever the order of events, the launch settles at most once and closes its log at most once. */
  lemma {:induction false} SettlesOnce(env: Env, events: seq<ChildEvent>)
    requires IsRun(env, INITIAL, events)
    ensures Consistent(Run(env, INITIAL, events))
  {
    if events != [] {
      SettlesOnce(env, events[..|events| - 1]);
      StepKeeps(env, Run(env, INITIAL, events[..|events| - 1]), events[|events| - 1]);
    }
  }

  /** What decides an undecided launch, and which way. */
  lemma Decides(env: Env, s: State, e: ChildEvent)
    requires Consistent(s) && !s.isResolved && !e.TimerFires?
    ensures PathOf(Step(env, s, e)) ==
      match e
      case Exit(_) => ToEarlyExit
      case SpawnError(_) => ToSpawnFailure
      case Stdout(chunk) =>
        if exists line <- Lines(s.stdoutHeld + chunk) :: env.classify(line).Login? then ToLogin else Undecided
      case _ => Undecided
  {
    StepKeeps(env, s, e);
    match e
    case Stdout(chunk) =>
      StdoutLinesKeep(env, s.(stdoutHeld := Rest(s.stdoutHeld + chunk)), Lines(s.stdoutHeld + chunk));
    case Stderr(chunk) =>
      StderrLinesKeep(s.(stderrHeld := Rest(s.stderrHeld + chunk)), Lines(s.stderrHeld + chunk));
    case SpawnError(message) =>
    case Exit(code) =>
    case Close =>
    case TimerFires =>
  }

  /** The first thing to decide a launch decides it for good: no later event
      moves it to another path. In particular a login URL read after an exit
      resolves nothing. */
  lemma {:induction false} FirstDecisionStands(env: Env, s: State, events: seq<ChildEvent>)
    requires Consistent(s) && s.isResolved && IsRun(env, s, events)
    ensures Consistent(Run(env, s, events)) && PathOf(Run(env, s, events)) == PathOf(s)
    ensures s.earlyExit.Some? ==> forall o <- Run(env, s, events).outcomes :: o.ExitedEarly?
  {
    if events != [] {
      var init := events[..|events| - 1];
      FirstDecisionStands(env, s, init);
      StepKeeps(env, Run(env, s, init), events[|events| - 1]);
    }
  }

  /** An early exit is always reported in the end: the close of the pipes
      reports it, and so does the timer, which is armed until then. */
  lemma EarlyExitIsReported(env: Env, s: State)
    requires Consistent(s) && s.earlyExit.Some?
    ensures !s.isReported ==> s.isTimerArmed
    ensures |Step(env, s, Close).outcomes| == 1
    ensures s.isTimerArmed ==> |Step(env, s, TimerFires).outcomes| == 1
  {
  }

  // What the early-exit error says

  function StderrText(events: seq<ChildEvent>): string
  {
    if events == [] then ""
    else
      var last := events[|events| - 1];
      if last.Stderr? then StderrText(events[..|events| - 1]) + last.chunk else StderrText(events[..|events| - 1])
  }

  function StdoutText(events: seq<ChildEvent>): string
  {
    if events == [] then ""
    else
      var last := events[|events| - 1];
      if last.Stdout? then StdoutText(events[..|events| - 1]) + last.chunk else StdoutText(events[..|events| - 1])
  }

  function CountEvents(env: Env, lines: seq<string>): nat
  {
    if lines == [] then 0
    else
      var kind := env.classify(lines[|lines| - 1]);
      CountEvents(env, lines[..|lines| - 1]) + if kind.Event? || kind.Login? then 1 else 0
  }

  /** Lines of a text, its unfinished last line included. */
  function AllLines(text: string): seq<string>
  {
    Lines(text) + if Rest(text) == "" then [] else [Rest(text)]
  }

  predicate IsBeforeClose(events: seq<ChildEvent>)
  {
    forall e <- events :: !e.Close? && !e.SpawnError?
  }

  lemma LinesOfMore(text: string, chunk: string)
    ensures Lines(text + chunk) == Lines(text) + Lines(Rest(text) + chunk)
    ensures Rest(text + chunk) == Rest(Rest(text) + chunk)
  {
    LinesRejoin(text + chunk);
    LinesRejoin(text);
    LinesRejoin(Rest(text) + chunk);
    var more, rest := Lines(Rest(text) + chunk), Rest(Rest(text) + chunk);
    UnlinesSplits(Lines(text), more);
    assert "" + text == text && "" + (text + chunk) == text + chunk;
    Carry("", text, chunk, Unlines(Lines(text)), Rest(text), Unlines(more), rest);
    OneDivision(Lines(text + chunk), Rest(text + chunk), Lines(text) + more, rest);
  }

  lemma {:induction false} StdoutLinesCount(env: Env, s: State, lines: seq<string>)
    requires Consistent(s)
    ensures var t := StdoutLines(env, s, lines);
      && t.kept == s.kept && t.stdoutHeld == s.stdoutHeld && t.stderrHeld == s.stderrHeld
      && t.isLogFinalized == s.isLogFinalized && t.isReported == s.isReported
      && (IsCollecting(t) ==> IsCollecting(s) && t.eventCount == s.eventCount + CountEvents(env, lines))
  {
    if lines != [] {
      StdoutLinesCount(env, s, lines[..|lines| - 1]);
      StdoutLinesKeep(env, s, lines[..|lines| - 1]);
    }
  }

  lemma {:induction false} StderrLinesKept(s: State, lines: seq<string>)
    ensures var t := StderrLines(s, lines);
      && t.(kept := s.kept, log := s.log) == s
      && (IsCollecting(s) ==> t.kept == s.kept + lines)
  {
    if lines == [] {
      assert s.kept + lines == s.kept;
    } else {
      StderrLinesKept(s, lines[..|lines| - 1]);
      assert s.kept + lines[..|lines| - 1] + [lines[|lines| - 1]] == s.kept + lines;
    }
  }

  lemma {:induction false} CountSplits(env: Env, a: seq<string>, b: seq<string>)
    ensures CountEvents(env, a + b) == CountEvents(env, a) + CountEvents(env, b)
  {
    if b == [] {
      assert a + b == a;
    } else {
      CountSplits(env, a, b[..|b| - 1]);
      assert (a + b)[..|a + b| - 1] == a + b[..|b| - 1];
    }
  }

  /** Until the pipes close, the splitters hold the unfinished lines, and while
      diagnostics are collected the tail has been given every stderr line and
      the counter every event. */
  predicate InStep(env: Env, s: State, events: seq<ChildEvent>)
  {
    && !s.isLogFinalized
    && s.stdoutHeld == Rest(StdoutText(events)) && s.stderrHeld == Rest(StderrText(events))
    && (IsCollecting(s) ==>
          s.kept == Lines(StderrText(events)) && s.eventCount == CountEvents(env, Lines(StdoutText(events))))
  }

  lemma EmptyText()
    ensures Lines("") == [] && Rest("") == ""
  {
    LinesRejoin("");
    OneDivision(Lines(""), Rest(""), [], "");
  }

  lemma {:induction false} RunInStep(env: Env, events: seq<ChildEvent>)
    requires IsRun(env, INITIAL, events) && IsBeforeClose(events)
    ensures InStep(env, Run(env, INITIAL, events), events)
  {
    if events == [] {
      EmptyText();
    } else {
      var init, e := events[..|events| - 1], events[|events| - 1];
      RunInStep(env, init);
      SettlesOnce(env, init);
      var s := Run(env, INITIAL, init);
      match e
      case Stdout(chunk) =>
        LinesOfMore(StdoutText(init), chunk);
        var lines := Lines(s.stdoutHeld + chunk);
        StdoutLinesCount(env, s.(stdoutHeld := Rest(s.stdoutHeld + chunk)), lines);
        CountSplits(env, Lines(StdoutText(init)), lines);
      case Stderr(chunk) =>
        LinesOfMore(StderrText(init), chunk);
        StderrLinesKept(s.(stderrHeld := Rest(s.stderrHeld + chunk)), Lines(s.stderrHeld + chunk));
      case _ =>
    }
  }

  /** Closing the log hands the tail the unfinished last line as well. */
  lemma AtClose(env: Env, s: State, events: seq<ChildEvent>)
    requires InStep(env, s, events) && s.earlyExit.Some? && !s.isReported
    ensures var f := Finalized(env, s);
      && f.kept == AllLines(StderrText(events)) && f.eventCount == s.eventCount
      && f.earlyExit == s.earlyExit && !f.isReported && f.outcomes == s.outcomes
  {
    assert Lines(StderrText(events)) + [] == Lines(StderrText(events));
  }

  lemma ReportSays(env: Env, s: State, code: int, eventCount: nat, kept: seq<string>)
    requires s.earlyExit == Some(code) && !s.isReported && s.outcomes == []
    requires s.eventCount == eventCount && s.kept == kept
    ensures Reported(env, s).outcomes == [ErrorFor(env, code, eventCount, kept)]
  {
  }

  lemma ReportCarriesTail(env: Env, s: State, events: seq<ChildEvent>)
    requires InStep(env, s, events) && s.earlyExit.Some? && !s.isReported && s.outcomes == []
    ensures var count := CountEvents(env, Lines(StdoutText(events)));
      && Reported(env, Finalized(env, s)).outcomes ==
           [ErrorFor(env, s.earlyExit.value, count, AllLines(StderrText(events)))]
      && Reported(env, s.(isTimerArmed := false)).outcomes ==
           [ErrorFor(env, s.earlyExit.value, count, Lines(StderrText(events)))]
  {
    AtClose(env, s, events);
    ReportSays(env, Finalized(env, s), s.earlyExit.value, s.eventCount, AllLines(StderrText(events)));
    ReportSays(env, s.(isTimerArmed := false), s.earlyExit.value, s.eventCount, s.kept);
  }

  lemma ReportingSteps(env: Env, s: State)
    ensures Step(env, s, Close) == Reported(env, Finalized(env, s))
    ensures Step(env, s, TimerFires) == Reported(env, s.(isTimerArmed := false))
  {
  }

  lemma NothingReported(s: State)
    requires Consistent(s) && s.earlyExit.Some? && !s.isReported
    ensures s.outcomes == []
  {
  }

  /** The error for an early exit carries the tail of everything the backend
      wrote to stderr and the number of events it got out: at the close of the
      pipes, its unfinished last line included; at the timer, all complete lines. */
  lemma EarlyExitCarriesTail(env: Env, events: seq<ChildEvent>)
    requires IsRun(env, INITIAL, events) && IsBeforeClose(events)
    requires var s := Run(env, INITIAL, events); s.earlyExit.Some? && !s.isReported
    ensures var s := Run(env, INITIAL, events); var count := CountEvents(env, Lines(StdoutText(events)));
      && Step(env, s, Close).outcomes ==
           [ExitedEarly(s.earlyExit.value, count, TailOf(StoredAll(env.rules, AllLines(StderrText(events)))))]
      && Step(env, s, TimerFires).outcomes ==
           [ExitedEarly(s.earlyExit.value, count, TailOf(StoredAll(env.rules, Lines(StderrText(events)))))]
  {
    RunInStep(env, events);
    SettlesOnce(env, events);
    var s := Run(env, INITIAL, events);
    NothingReported(s);
    ReportCarriesTail(env, s, events);
    ReportingSteps(env, s);
  }

  // What the log says

  function Redacted(env: Env, lines: seq<string>): seq<string>
  {
    seq(|lines|, i requires 0 <= i < |lines| => env.redact(lines[i]))
  }

  /** The unfinished last line of a text, when there is one. */
  function Unfinished(text: string): seq<string>
  {
    if Rest(text) == "" then [] else [Rest(text)]
  }

  /** `all` is made up of exactly the entries of `a` and of `b`, each in its own order. */
  ghost predicate IsMerge(all: seq<string>, a: seq<string>, b: seq<string>)
    decreases |all|
  {
    if all == [] then a == [] && b == []
    else
      || (a != [] && a[|a| - 1] == all[|all| - 1] && IsMerge(all[..|all| - 1], a[..|a| - 1], b))
      || (b != [] && b[|b| - 1] == all[|all| - 1] && IsMerge(all[..|all| - 1], a, b[..|b| - 1]))
  }

  lemma {:induction false} MergeFirst(all: seq<string>, a: seq<string>, b: seq<string>, more: seq<string>)
    requires IsMerge(all, a, b)
    ensures IsMerge(all + more, a + more, b)
  {
    if more == [] {
      assert all + more == all && a + more == a;
    } else {
      var init := more[..|more| - 1];
      MergeFirst(all, a, b, init);
      assert (all + more)[..|all + more| - 1] == all + init && (a + more)[..|a + more| - 1] == a + init;
    }
  }

  lemma {:induction false} MergeSecond(all: seq<string>, a: seq<string>, b: seq<string>, more: seq<string>)
    requires IsMerge(all, a, b)
    ensures IsMerge(all + more, a, b + more)
  {
    if more == [] {
      assert all + more == all && b + more == b;
    } else {
      var init := more[..|more| - 1];
      MergeSecond(all, a, b, init);
      assert (all + more)[..|all + more| - 1] == all + init && (b + more)[..|b + more| - 1] == b + init;
    }
  }

  lemma {:induction false} StdoutLinesLogged(env: Env, s: State, lines: seq<string>)
    requires !s.isLogFinalized
    ensures var t := StdoutLines(env, s, lines);
      !t.isLogFinalized && t.log == s.log + Redacted(env, lines) && t.stderrHeld == s.stderrHeld
      && t.stdoutHeld == s.stdoutHeld
  {
    if lines == [] {
      assert s.log + Redacted(env, lines) == s.log;
    } else {
      var init, last := lines[..|lines| - 1], lines[|lines| - 1];
      StdoutLinesLogged(env, s, init);
      assert Redacted(env, lines) == Redacted(env, init) + [env.redact(last)];
      assert s.log + Redacted(env, lines) == s.log + Redacted(env, init) + [env.redact(last)];
    }
  }

  lemma {:induction false} StderrLinesLogged(s: State, lines: seq<string>)
    requires !s.isLogFinalized
    ensures StderrLines(s, lines).log == s.log + lines
  {
    if lines == [] {
      assert s.log + lines == s.log;
    } else {
      var init, last := lines[..|lines| - 1], lines[|lines| - 1];
      StderrLinesLogged(s, init);
      StderrLinesKept(s, init);
      assert s.log + lines == s.log + init + [last];
    }
  }

  lemma RedactedMore(env: Env, a: seq<string>, b: seq<string>)
    ensures Redacted(env, a + b) == Redacted(env, a) + Redacted(env, b)
  {
  }

  /** Until the pipes close, the log holds every complete stdout line, redacted,
      and every complete stderr line as it is, once each and each stream in its
      own order, and nothing else: no raw stdout line ever gets in. */
  lemma {:induction false} LogIsEveryLine(env: Env, events: seq<ChildEvent>)
    requires IsRun(env, INITIAL, events) && IsBeforeClose(events)
    ensures IsMerge(Run(env, INITIAL, events).log,
                    Redacted(env, Lines(StdoutText(events))), Lines(StderrText(events)))
  {
    if events == [] {
      EmptyText();
    } else {
      var init, e := events[..|events| - 1], events[|events| - 1];
      var s := Run(env, INITIAL, init);
      LogIsEveryLine(env, init);
      RunInStep(env, init);
      var a, b := Lines(StdoutText(init)), Lines(StderrText(init));
      match e
      case Stdout(chunk) =>
        var lines := Lines(s.stdoutHeld + chunk);
        LinesOfMore(StdoutText(init), chunk);
        StdoutLinesLogged(env, s.(stdoutHeld := Rest(s.stdoutHeld + chunk)), lines);
        RedactedMore(env, a, lines);
        MergeFirst(s.log, Redacted(env, a), b, Redacted(env, lines));
      case Stderr(chunk) =>
        var lines := Lines(s.stderrHeld + chunk);
        LinesOfMore(StderrText(init), chunk);
        StderrLinesLogged(s.(stderrHeld := Rest(s.stderrHeld + chunk)), lines);
        MergeSecond(s.log, Redacted(env, a), b, lines);
      case _ =>
    }
  }

  lemma {:induction false} ClosedLogStays(env: Env, s: State, events: seq<ChildEvent>)
    requires s.isLogFinalized
    ensures Run(env, s, events).log == s.log && Run(env, s, events).isLogFinalized
    ensures Run(env, s, events).timesLogClosed == s.timesLogClosed
  {
    if events != [] {
      var init := events[..|events| - 1];
      ClosedLogStays(env, s, init);
      StepOnClosedLog(env, Run(env, s, init), events[|events| - 1]);
    }
  }

  lemma StepOnClosedLog(env: Env, s: State, e: ChildEvent)
    requires s.isLogFinalized
    ensures Step(env, s, e).log == s.log && Step(env, s, e).isLogFinalized
    ensures Step(env, s, e).timesLogClosed == s.timesLogClosed
  {
    match e
    case Stdout(chunk) =>
      StdoutOnClosedLog(env, s.(stdoutHeld := Rest(s.stdoutHeld + chunk)), Lines(s.stdoutHeld + chunk));
    case Stderr(chunk) =>
      StderrLinesKept(s.(stderrHeld := Rest(s.stderrHeld + chunk)), Lines(s.stderrHeld + chunk));
      StderrOnClosedLog(s.(stderrHeld := Rest(s.stderrHeld + chunk)), Lines(s.stderrHeld + chunk));
    case _ =>
  }

  lemma {:induction false} StdoutOnClosedLog(env: Env, s: State, lines: seq<string>)
    requires s.isLogFinalized
    ensures var t := StdoutLines(env, s, lines);
      t.log == s.log && t.isLogFinalized && t.timesLogClosed == s.timesLogClosed
  {
    if lines != [] { StdoutOnClosedLog(env, s, lines[..|lines| - 1]); }
  }

  lemma {:induction false} StderrOnClosedLog(s: State, lines: seq<string>)
    requires s.isLogFinalized
    ensures StderrLines(s, lines).log == s.log
  {
    if lines != [] {
      StderrOnClosedLog(s, lines[..|lines| - 1]);
      StderrLinesKept(s, lines[..|lines| - 1]);
    }
  }

  /** The pipes closing, or a failed spawn, adds the two unfinished last lines,
      the stdout one redacted, and closes the log once; whatever comes later
      adds nothing. */
  lemma LogEndsAtClose(env: Env, events: seq<ChildEvent>, e: ChildEvent, later: seq<ChildEvent>)
    requires IsRun(env, INITIAL, events) && IsBeforeClose(events) && (e.Close? || e.SpawnError?)
    ensures var s := Run(env, INITIAL, events); var t := Run(env, Step(env, s, e), later);
      && t.log == s.log + Redacted(env, Unfinished(StdoutText(events))) + Unfinished(StderrText(events))
      && t.isLogFinalized && t.timesLogClosed == 1
  {
    var s := Run(env, INITIAL, events);
    RunInStep(env, events);
    SettlesOnce(env, events);
    var out, err := Redacted(env, Unfinished(StdoutText(events))), Unfinished(StderrText(events));
    assert StdoutFlushed(env, s).log == s.log + out;
    assert StderrFlushed(StdoutFlushed(env, s)).log == s.log + out + err;
    ClosedLogStays(env, Step(env, s, e), later);
  }

  // What is settled

  /** The URL of the first login line. */
  function FirstLogin(env: Env, lines: seq<string>): Option<string>
  {
    if lines == [] then None
    else if env.classify(lines[0]).Login? then Some(env.classify(lines[0]).url)
    else FirstLogin(env, lines[1..])
  }

  lemma {:induction false} FirstLoginMore(env: Env, a: seq<string>, b: seq<string>)
    ensures FirstLogin(env, a + b) == if FirstLogin(env, a).Some? then FirstLogin(env, a) else FirstLogin(env, b)
  {
    if a == [] {
      assert a + b == b;
    } else {
      FirstLoginMore(env, a[1..], b);
      assert (a + b)[1..] == a[1..] + b;
    }
  }

  lemma {:induction false} StdoutLinesSettle(env: Env, s: State, lines: seq<string>)
    ensures var t := StdoutLines(env, s, lines);
      && (s.isResolved || FirstLogin(env, lines).None? ==> t.outcomes == s.outcomes && t.isResolved == s.isResolved)
      && (!s.isResolved && FirstLogin(env, lines).Some? ==>
            t.outcomes == s.outcomes + [ReachedLogin(FirstLogin(env, lines).value)] && t.isResolved)
  {
    if lines != [] {
      var init, last := lines[..|lines| - 1], lines[|lines| - 1];
      StdoutLinesSettle(env, s, init);
      assert lines == init + [last];
      assert FirstLogin(env, [last][1..]).None?;
      FirstLoginMore(env, init, [last]);
    }
  }

  predicate IsBeforeExit(events: seq<ChildEvent>)
  {
    forall e <- events :: !e.Close? && !e.SpawnError? && !e.Exit?
  }

  /** While the child runs, the launch is settled exactly by the first login
      line it has written, with that line's URL. */
  lemma {:induction false} FirstLoginSettles(env: Env, events: seq<ChildEvent>)
    requires IsRun(env, INITIAL, events) && IsBeforeExit(events)
    ensures var s := Run(env, INITIAL, events); var url := FirstLogin(env, Lines(StdoutText(events)));
      && s.outcomes == (if url.Some? then [ReachedLogin(url.value)] else [])
      && s.isResolved == url.Some? && s.earlyExit.None?
  {
    if events == [] {
      EmptyText();
    } else {
      var init, e := events[..|events| - 1], events[|events| - 1];
      FirstLoginSettles(env, init);
      RunInStep(env, init);
      SettlesOnce(env, init);
      var s := Run(env, INITIAL, init);
      match e
      case Stdout(chunk) =>
        var lines := Lines(s.stdoutHeld + chunk);
        var start := s.(stdoutHeld := Rest(s.stdoutHeld + chunk));
        LinesOfMore(StdoutText(init), chunk);
        FirstLoginMore(env, Lines(StdoutText(init)), lines);
        StdoutLinesSettle(env, start, lines);
        StdoutLinesKeep(env, start, lines);
      case Stderr(chunk) =>
        StderrLinesKept(s.(stderrHeld := Rest(s.stderrHeld + chunk)), Lines(s.stderrHeld + chunk));
      case _ =>
    }
  }

  /** Before that, a failed spawn settles it with its own message, and an exit
      decides on an early exit with its own code. */
  lemma FailureSettles(env: Env, events: seq<ChildEvent>, message: string, code: int)
    requires IsRun(env, INITIAL, events) && IsBeforeExit(events)
    requires FirstLogin(env, Lines(StdoutText(events))).None?
    ensures var s := Run(env, INITIAL, events);
      && Step(env, s, SpawnError(message)).outcomes == [SpawnFailure(message)]
      && Step(env, s, Exit(code)).earlyExit == Some(code) && Step(env, s, Exit(code)).outcomes == []
  {
    FirstLoginSettles(env, events);
    SettlesOnce(env, events);
    FinalizedKeeps(env, Run(env, INITIAL, events));
  }

  predicate IsSettled(s: State)
  {
    s.isResolved && (s.earlyExit.None? || s.isReported)
  }

  lemma {:induction false} StdoutFeedsNothing(env: Env, s: State, lines: seq<string>)
    requires IsSettled(s)
    ensures var t := StdoutLines(env, s, lines); IsSettled(t) && t.kept == s.kept && t.eventCount == s.eventCount
  {
    if lines != [] { StdoutFeedsNothing(env, s, lines[..|lines| - 1]); }
  }

  lemma {:induction false} StderrFeedsNothing(s: State, lines: seq<string>)
    requires IsSettled(s)
    ensures var t := StderrLines(s, lines); IsSettled(t) && t.kept == s.kept && t.eventCount == s.eventCount
  {
    if lines != [] { StderrFeedsNothing(s, lines[..|lines| - 1]); }
  }

  predicate SameFed(s: State, t: State)
  {
    IsSettled(t) && t.kept == s.kept && t.eventCount == s.eventCount
  }

  lemma ClosingFeedsNothing(env: Env, s: State)
    requires IsSettled(s)
    ensures SameFed(s, Finalized(env, s)) && SameFed(s, Reported(env, Finalized(env, s)))
  {
    assert SameFed(s, Finalized(env, s));
  }

  lemma StepFeedsNothing(env: Env, s: State, e: ChildEvent)
    requires IsSettled(s)
    ensures SameFed(s, Step(env, s, e))
  {
    match e
    case Stdout(chunk) =>
      StdoutFeedsNothing(env, s.(stdoutHeld := Rest(s.stdoutHeld + chunk)), Lines(s.stdoutHeld + chunk));
    case Stderr(chunk) =>
      StderrFeedsNothing(s.(stderrHeld := Rest(s.stderrHeld + chunk)), Lines(s.stderrHeld + chunk));
    case SpawnError(_) => ClosingFeedsNothing(env, s);
    case Close => ClosingFeedsNothing(env, s);
    case _ =>
  }

  /** Once startup has settled and any early exit is reported, nothing is fed
      to the tail or the counter again, however long the backend runs. */
  lemma {:induction false} SettledCollectsNothing(env: Env, s: State, events: seq<ChildEvent>)
    requires IsSettled(s)
    ensures var t := Run(env, s, events);
      (t.isResolved && (t.earlyExit.None? || t.isReported)) && t.kept == s.kept && t.eventCount == s.eventCount
  {
    if events != [] {
      var init := events[..|events| - 1];
      SettledCollectsNothing(env, s, init);
      StepFeedsNothing(env, Run(env, s, init), events[|events| - 1]);
    }
  }
}
