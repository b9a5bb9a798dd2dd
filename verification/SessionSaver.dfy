/** The session saver: a trailing throttle over the host's timers
    (apps/minds/electron/session-persistence.js:102-157). */
module SessionSaver {
  import opened Options

  type TimerId = nat

  /** The host calls back no earlier than asked and at most `latency` late. */
  datatype Timing = Timing(delay: nat, latency: nat)

  datatype SaveRecord = SaveRecord(at: nat, isByTimer: bool)

  /** `armed`: the host's timers and when each is due. `wanted`: when the oldest
      schedule not yet saved or cancelled was made. */
  datatype State = State(
    now: nat,
    timer: Option<TimerId>,
    armed: map<TimerId, nat>,
    next: TimerId,
    saves: seq<SaveRecord>,
    wanted: Option<nat>)

  datatype Event = Schedule | Cancel | Flush | Fire(timer: TimerId) | Pass(ticks: nat)

  const INITIAL := State(0, None, map[], 0, [], None)

  function Disarmed(s: State): State
  {
    if s.timer.Some? then s.(armed := s.armed - {s.timer.value}, timer := None, wanted := None) else s
  }

  /** Time does not pass a timer that is `latency` overdue; a timer fires once due. */
  predicate CanHappen(c: Timing, s: State, e: Event)
  {
    match e
    case Pass(ticks) => forall id <- s.armed :: s.now + ticks <= s.armed[id] + c.latency
    case Fire(id) => id in s.armed && s.armed[id] <= s.now
    case _ => true
  }

  function Step(c: Timing, s: State, e: Event): State
  {
    match e
    case Pass(ticks) => s.(now := s.now + ticks)
    case Schedule =>
      var asked := if s.wanted.Some? then s.wanted else Some(s.now);
      if s.timer.Some? then s.(wanted := asked)
      else s.(timer := Some(s.next), armed := s.armed[s.next := s.now + c.delay], next := s.next + 1, wanted := asked)
    case Cancel => Disarmed(s)
    case Flush => if s.timer.Some? then Disarmed(s).(saves := s.saves + [SaveRecord(s.now, false)]) else s
    case Fire(id) => s.(armed := s.armed - {id}, timer := None, saves := s.saves + [SaveRecord(s.now, true)], wanted := None)
  }

  function Run(c: Timing, events: seq<Event>): State
  {
    if events == [] then INITIAL else Step(c, Run(c, events[..|events| - 1]), events[|events| - 1])
  }

  predicate IsRun(c: Timing, events: seq<Event>)
  {
    events != [] ==>
      IsRun(c, events[..|events| - 1]) && CanHappen(c, Run(c, events[..|events| - 1]), events[|events| - 1])
  }

  class Saver {
    const timing: Timing
    var now: nat
    var timerId: Option<TimerId>
    var armed: map<TimerId, nat>
    var next: TimerId
    var saves: seq<SaveRecord>
    ghost var wanted: Option<nat>

    ghost function View(): State
      reads this
    {
      State(now, timerId, armed, next, saves, wanted)
    }

    constructor (timing: Timing)
      ensures View() == INITIAL && this.timing == timing
    {
      this.timing, now, timerId, armed, next, saves, wanted := timing, 0, None, map[], 0, [], None;
    }

    method Arm() returns (id: TimerId)
      modifies `armed, `next
      ensures id == old(next) && next == id + 1 && armed == old(armed)[id := now + timing.delay]
    {
      id := next;
      armed := armed[id := now + timing.delay];
      next := next + 1;
    }

    method Save(isByTimer: bool)
      modifies `saves, `wanted
      ensures saves == old(saves) + [SaveRecord(now, isByTimer)] && wanted == None
    {
      saves := saves + [SaveRecord(now, isByTimer)];
      wanted := None;
    }

    method OnSchedule()
      modifies this
      ensures View() == Step(timing, old(View()), Schedule)
    {
      if wanted.None? { wanted := Some(now); }
      if timerId.Some? { return; }
      var id := Arm();
      timerId := Some(id);
    }

    method OnCancel()
      modifies this
      ensures View() == Step(timing, old(View()), Cancel)
    {
      if timerId.Some? {
        armed := armed - {timerId.value};
        timerId := None;
        wanted := None;
      }
    }

    method OnFlush()
      modifies this
      ensures View() == Step(timing, old(View()), Flush)
    {
      var wasPending := timerId.Some?;
      OnCancel();
      if wasPending { Save(false); }
    }

    /** The timer's callback. */
    method OnFire(id: TimerId)
      requires CanHappen(timing, View(), Fire(id))
      modifies this
      ensures View() == Step(timing, old(View()), Fire(id))
    {
      armed := armed - {id};
      timerId := None;
      Save(true);
    }
  }

  // Over whole runs

  function TimerSaves(saves: seq<SaveRecord>): seq<nat>
  {
    if saves == [] then []
    else
      var last := saves[|saves| - 1];
      TimerSaves(saves[..|saves| - 1]) + if last.isByTimer then [last.at] else []
  }

  predicate Apart(times: seq<nat>, gap: nat)
  {
    forall i, j :: 0 <= i < j < |times| ==> times[i] + gap <= times[j]
  }

  predicate Consistent(c: Timing, s: State)
  {
    var fired := TimerSaves(s.saves);
    && (forall id <- s.armed :: s.timer == Some(id) && id < s.next)
    && (s.timer.Some? ==>
          && s.timer.value in s.armed && s.wanted.Some?
          && s.armed[s.timer.value] == s.wanted.value + c.delay
          && s.wanted.value <= s.now <= s.wanted.value + c.delay + c.latency)
    && (s.timer.None? ==> s.wanted.None? && s.armed == map[])
    && Apart(fired, c.delay)
    && (forall t <- fired :: t <= s.now && (s.timer.Some? ==> t <= s.wanted.value))
  }

  lemma TimerSavesSnoc(saves: seq<SaveRecord>, save: SaveRecord)
    ensures TimerSaves(saves + [save]) == TimerSaves(saves) + if save.isByTimer then [save.at] else []
  {
    assert (saves + [save])[..|saves|] == saves;
  }

  lemma ScheduleKeeps(c: Timing, s: State)
    requires Consistent(c, s)
    ensures Consistent(c, Step(c, s, Schedule))
  {
  }

  lemma DisarmedKeeps(c: Timing, s: State)
    requires Consistent(c, s)
    ensures Consistent(c, Disarmed(s)) && Disarmed(s).saves == s.saves
  {
  }

  lemma FlushKeeps(c: Timing, s: State)
    requires Consistent(c, s)
    ensures Consistent(c, Step(c, s, Flush))
  {
    DisarmedKeeps(c, s);
    TimerSavesSnoc(s.saves, SaveRecord(s.now, false));
  }

  lemma ApartSnoc(times: seq<nat>, gap: nat, time: nat)
    requires Apart(times, gap) && forall t <- times :: t + gap <= time
    ensures Apart(times + [time], gap)
  {
    assert forall i :: 0 <= i < |times| ==> times[i] in times;
  }

  lemma FireKeeps(c: Timing, s: State, id: TimerId)
    requires Consistent(c, s) && CanHappen(c, s, Fire(id))
    ensures Consistent(c, Step(c, s, Fire(id)))
  {
    var fired := TimerSaves(s.saves);
    assert s.timer == Some(id) && forall t <- fired :: t + c.delay <= s.now;
    TimerSavesSnoc(s.saves, SaveRecord(s.now, true));
    ApartSnoc(fired, c.delay, s.now);
    assert forall other <- s.armed :: other == id;
  }

  lemma PassKeeps(c: Timing, s: State, ticks: nat)
    requires Consistent(c, s) && CanHappen(c, s, Pass(ticks))
    ensures Consistent(c, Step(c, s, Pass(ticks)))
  {
  }

  lemma StepKeeps(c: Timing, s: State, e: Event)
    requires Consistent(c, s) && CanHappen(c, s, e)
    ensures Consistent(c, Step(c, s, e))
  {
    match e
    case Pass(ticks) => PassKeeps(c, s, ticks);
    case Schedule => ScheduleKeeps(c, s);
    case Cancel => DisarmedKeeps(c, s);
    case Flush => FlushKeeps(c, s);
    case Fire(id) => FireKeeps(c, s, id);
  }

  lemma {:induction false} AlwaysConsistent(c: Timing, events: seq<Event>)
    requires IsRun(c, events)
    ensures Consistent(c, Run(c, events))
  {
    if events != [] {
      AlwaysConsistent(c, events[..|events| - 1]);
      StepKeeps(c, Run(c, events[..|events| - 1]), events[|events| - 1]);
    }
  }

  /** At most one timer is armed, and saves by timer are at least the delay apart. */
  lemma ThrottlesSaves(c: Timing, events: seq<Event>)
    requires IsRun(c, events)
    ensures |Run(c, events).armed| <= 1
    ensures Apart(TimerSaves(Run(c, events).saves), c.delay)
  {
    AlwaysConsistent(c, events);
    var s := Run(c, events);
    if s.timer.Some? {
      assert s.armed.Keys == {s.timer.value};
    }
    assert |s.armed| == |s.armed.Keys|;
  }

  /** Event `j` cancels what is pending, or saves. */
  predicate Settles(c: Timing, events: seq<Event>, j: nat)
    requires j < |events|
  {
    events[j] == Cancel || |Run(c, events[..j + 1]).saves| > |Run(c, events[..j]).saves|
  }

  /** A later event settled the schedule made at time `t`, in time. */
  predicate SettledInTime(c: Timing, events: seq<Event>, k: nat, t: nat)
  {
    exists j :: k < j < |events| && Settles(c, events, j) && Run(c, events[..j]).now <= t + c.delay + c.latency
  }

  /** A timer is armed for a schedule made at `t`, and its time is not over. */
  predicate StillDue(c: Timing, s: State, t: nat)
  {
    s.timer.Some? && s.wanted.Some? && s.wanted.value <= t && s.now <= t + c.delay + c.latency
  }

  lemma StaysDue(c: Timing, s: State, e: Event, t: nat)
    requires Consistent(c, s) && CanHappen(c, s, e)
    requires StillDue(c, s, t) || (e == Schedule && t == s.now)
    ensures var u := Step(c, s, e); StillDue(c, u, t) || e == Cancel || |u.saves| > |s.saves|
  {
    StepKeeps(c, s, e);
  }

  lemma SettledEarlier(c: Timing, events: seq<Event>, k: nat, t: nat)
    requires events != [] && SettledInTime(c, events[..|events| - 1], k, t)
    ensures SettledInTime(c, events, k, t)
  {
    var init := events[..|events| - 1];
    var j :| k < j < |init| && Settles(c, init, j) && Run(c, init[..j]).now <= t + c.delay + c.latency;
    assert init[..j] == events[..j] && init[..j + 1] == events[..j + 1];
    assert Settles(c, events, j);
  }

  lemma SettledNow(c: Timing, events: seq<Event>, k: nat, t: nat)
    requires events != [] && k < |events| - 1
    requires Run(c, events[..|events| - 1]).now <= t + c.delay + c.latency
    requires events[|events| - 1] == Cancel || |Run(c, events).saves| > |Run(c, events[..|events| - 1]).saves|
    ensures SettledInTime(c, events, k, t)
  {
    var last := |events| - 1;
    assert events[..last + 1] == events;
    assert Settles(c, events, last);
  }

  /** Every schedule is cancelled or saved within the delay (and the host's own
      latency), or that time is not over yet and a timer is armed for it. */
  lemma {:induction false} ScheduleIsServed(c: Timing, events: seq<Event>, k: nat)
    requires IsRun(c, events) && k < |events| && events[k] == Schedule
    ensures var t := Run(c, events[..k]).now;
      SettledInTime(c, events, k, t) || StillDue(c, Run(c, events), t)
    decreases |events|
  {
    var last := |events| - 1;
    var init := events[..last];
    var t := Run(c, events[..k]).now;
    AlwaysConsistent(c, init);
    if k == last {
      StaysDue(c, Run(c, init), events[last], t);
    } else {
      assert init[..k] == events[..k];
      ScheduleIsServed(c, init, k);
      if SettledInTime(c, init, k, t) {
        SettledEarlier(c, events, k, t);
      } else {
        StaysDue(c, Run(c, init), events[last], t);
        if !StillDue(c, Run(c, events), t) {
          SettledNow(c, events, k, t);
        }
      }
    }
  }

  // What each call leaves

  /** A cancel leaves no timer armed and saves nothing. */
  lemma CancelDisarms(c: Timing, s: State)
    requires Consistent(c, s)
    ensures var t := Step(c, s, Cancel); t.armed == map[] && t.saves == s.saves && t.now == s.now
  {
    assert forall id <- s.armed :: s.timer == Some(id);
  }

  /** A flush leaves none armed either, and saves at once if one was. */
  lemma FlushSavesPending(c: Timing, s: State)
    requires Consistent(c, s)
    ensures var t := Step(c, s, Flush);
      && t.armed == map[] && t.now == s.now
      && t.saves == s.saves + if s.armed != map[] then [SaveRecord(s.now, false)] else []
  {
    assert forall id <- s.armed :: s.timer == Some(id);
    assert s.saves + [] == s.saves;
  }

  /** A schedule with a timer armed changes nothing of it; else it arms one, due after the delay. */
  lemma ScheduleArmsOne(c: Timing, s: State)
    requires Consistent(c, s)
    ensures var t := Step(c, s, Schedule);
      && t.saves == s.saves && t.now == s.now
      && (if s.armed != map[] then t.armed == s.armed else t.armed == map[s.next := s.now + c.delay])
  {
  }

  /** A timer that fires saves once and is gone. */
  lemma FiringSavesOnce(c: Timing, s: State, id: TimerId)
    requires Consistent(c, s) && CanHappen(c, s, Fire(id))
    ensures var t := Step(c, s, Fire(id)); t.armed == map[] && t.saves == s.saves + [SaveRecord(s.now, true)]
  {
    assert forall other <- s.armed :: other == id;
  }

  predicate IsSchedule(e: Event) { e == Schedule }

  /** So once cancelled or flushed nothing is ever saved until the next schedule. */
  lemma {:induction false} NothingSavedUnscheduled(c: Timing, events: seq<Event>, k: nat)
    requires IsRun(c, events) && k < |events| && (events[k] == Cancel || events[k] == Flush)
    requires forall j :: k < j < |events| ==> !IsSchedule(events[j])
    ensures Run(c, events).saves == Run(c, events[..k + 1]).saves && Run(c, events).armed == map[]
    decreases |events|
  {
    var last := |events| - 1;
    var init := events[..last];
    AlwaysConsistent(c, init);
    AlwaysConsistent(c, events);
    if k == last {
      assert events[..k + 1] == events;
      CancelDisarms(c, Run(c, init));
      FlushSavesPending(c, Run(c, init));
    } else {
      NothingSavedUnscheduled(c, init, k);
      assert init[..k + 1] == events[..k + 1];
      assert !IsSchedule(events[last]);
      FlushSavesPending(c, Run(c, init));
      CancelDisarms(c, Run(c, init));
    }
  }

  function Schedules(events: seq<Event>): nat
  {
    if events == [] then 0
    else Schedules(events[..|events| - 1]) + if events[|events| - 1] == Schedule then 1 else 0
  }

  /** Each save, with the timer still armed if there is one, has a schedule of its own. */
  lemma {:induction false} SavesWereScheduled(c: Timing, events: seq<Event>)
    requires IsRun(c, events)
    ensures |Run(c, events).saves| + |Run(c, events).armed| <= Schedules(events)
  {
    if events != [] {
      var init := events[..|events| - 1];
      SavesWereScheduled(c, init);
      AlwaysConsistent(c, init);
      OneMoreSchedule(c, Run(c, init), events[|events| - 1]);
    }
  }

  lemma OneMoreSchedule(c: Timing, s: State, e: Event)
    requires Consistent(c, s) && CanHappen(c, s, e)
    ensures var t := Step(c, s, e);
      |t.saves| + |t.armed| <= |s.saves| + |s.armed| + if e == Schedule then 1 else 0
  {
    match e
    case Schedule =>
      ScheduleArmsOne(c, s);
      assert |map[s.next := s.now + c.delay]| == 1;
    case Cancel => CancelDisarms(c, s);
    case Flush => FlushSavesPending(c, s);
    case Fire(id) =>
      FiringSavesOnce(c, s, id);
      assert id in s.armed;
    case Pass(_) =>
  }
}
