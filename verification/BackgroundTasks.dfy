/**
 Background work and shutdown (internal/scheduler/scheduler.go): one reserved
 task per year, a wait group over admitted work, and `Wait`, which stops
 admission and returns once the group has drained.
 */
module BackgroundTasks {
  import opened Basics

  datatype Schedule = Rejected | Scheduled | AlreadyScheduled

  /** What `bgMu` and the wait group protect. */
  datatype Admission = Admission(bgClosed: bool, yearTasks: set<int>, wg: int)

  function FetchAdmitted(a: Admission): Admission {
    if a.bgClosed then a else a.(wg := a.wg + 1)
  }

  function YearVerdict(a: Admission, appDone: bool, year: int): Schedule {
    if a.bgClosed || appDone then Rejected
    else if year in a.yearTasks then AlreadyScheduled
    else Scheduled
  }

  function YearAdmitted(a: Admission, appDone: bool, year: int): Admission {
    if YearVerdict(a, appDone, year).Scheduled? then a.(yearTasks := a.yearTasks + {year}, wg := a.wg + 1) else a
  }

  class Scheduler {
    var bgClosed: bool
    var yearTasks: set<int>
    var wg: int

    function View(): Admission
      reads this
    {
      Admission(bgClosed, yearTasks, wg)
    }

    constructor ()
      ensures View() == Admission(false, {}, 0)
    {
      bgClosed, yearTasks, wg := false, {}, 0;
    }

    /** The two halves of a start: admission reopens under the lock, the workers are added after it. */
    method Reopen()
      modifies this
      ensures View() == old(View()).(bgClosed := false)
    {
      bgClosed := false;
    }

    method AddWorkers()
      modifies this
      ensures View() == old(View()).(wg := old(wg) + 2)
    {
      wg := wg + 2;
    }

    method StartBackgroundFetch() returns (admitted: bool)
      modifies this
      ensures admitted <==> !old(bgClosed)
      ensures View() == FetchAdmitted(old(View()))
    {
      if bgClosed {
        return false;
      }
      wg := wg + 1;
      return true;
    }

    method ScheduleYearFetch(year: int, appDone: bool) returns (r: Schedule)
      modifies this
      ensures r == YearVerdict(old(View()), appDone, year)
      ensures View() == YearAdmitted(old(View()), appDone, year)
    {
      if bgClosed || appDone {
        return Rejected;
      }
      if year in yearTasks {
        return AlreadyScheduled;
      }
      yearTasks := yearTasks + {year};
      wg := wg + 1;
      return Scheduled;
    }

    method DropReservation(year: int)
      modifies this
      ensures View() == old(View()).(yearTasks := old(yearTasks) - {year})
    {
      yearTasks := yearTasks - {year};
    }

    method Done()
      modifies this
      ensures View() == old(View()).(wg := old(wg) - 1)
    {
      wg := wg - 1;
    }

    method CloseBackgroundFetches()
      modifies this
      ensures View() == old(View()).(bgClosed := true)
    {
      bgClosed := true;
    }
  }

  // ------------------------------------------------------------------ all interleavings

  /** A task's goroutine: its body, then (for a year) its reservation, then the wait group. */
  datatype Task =
    | Worker
    | Plain
    | Reserved(year: int)
    | Unreserved(year: int)
    | Finished

  datatype WaitCall = Called | ReturnedNil | TimedOut

  /** `starting`: the calls of `StartBackground` that have reopened admission and not yet added their workers. */
  datatype State = State(
    a: Admission,
    starting: set<int>,
    tasks: map<int, Task>,
    waiting: bool,
    waitDone: bool,
    waits: map<int, WaitCall>)

  datatype Step =
    | Reopen(k: int)
    | AddWorkers(k: int, t: int, u: int)
    | StartFetch(t: int)
    | ScheduleYear(t: int, year: int, appDone: bool)
    | DropReservation(t: int)
    | FinishTask(t: int)
    | CallWait(w: int)
    | GroupDrained
    | WaitReturns(w: int)
    | WaitTimesOut(w: int)

  predicate Enabled(s: State, step: Step) {
    match step
    case Reopen(k) => k !in s.starting
    case AddWorkers(k, t, u) => k in s.starting && t !in s.tasks && u !in s.tasks && t != u
    case StartFetch(t) => t !in s.tasks
    case ScheduleYear(t, _, _) => t !in s.tasks
    case DropReservation(t) => t in s.tasks && s.tasks[t].Reserved?
    case FinishTask(t) => t in s.tasks && !s.tasks[t].Reserved? && !s.tasks[t].Finished?
    case CallWait(w) => w !in s.waits
    case GroupDrained => s.waiting && s.a.wg == 0
    case WaitReturns(w) => w in s.waits && s.waits[w].Called? && s.waitDone
    case WaitTimesOut(w) => w in s.waits && s.waits[w].Called?
  }

  function Next(s: State, step: Step): State
    requires Enabled(s, step)
  {
    match step
    case Reopen(k) => s.(a := s.a.(bgClosed := false), starting := s.starting + {k})
    case AddWorkers(k, t, u) =>
      s.(a := s.a.(wg := s.a.wg + 2), starting := s.starting - {k}, tasks := s.tasks[t := Worker][u := Worker])
    case StartFetch(t) =>
      s.(a := FetchAdmitted(s.a), tasks := if s.a.bgClosed then s.tasks else s.tasks[t := Plain])
    case ScheduleYear(t, year, appDone) =>
      s.(a := YearAdmitted(s.a, appDone, year),
         tasks := if YearVerdict(s.a, appDone, year).Scheduled? then s.tasks[t := Reserved(year)] else s.tasks)
    case DropReservation(t) =>
      s.(a := s.a.(yearTasks := s.a.yearTasks - {s.tasks[t].year}), tasks := s.tasks[t := Unreserved(s.tasks[t].year)])
    case FinishTask(t) => s.(a := s.a.(wg := s.a.wg - 1), tasks := s.tasks[t := Finished])
    case CallWait(w) => s.(a := s.a.(bgClosed := true), waiting := true, waits := s.waits[w := Called])
    case GroupDrained => s.(waitDone := true)
    case WaitReturns(w) => s.(waits := s.waits[w := ReturnedNil])
    case WaitTimesOut(w) => s.(waits := s.waits[w := TimedOut])
  }

  function Initial(): State {
    State(Admission(false, {}, 0), {}, map[], false, false, map[])
  }

  predicate Runs(s: State, steps: seq<Step>)
    decreases |steps|
  {
    steps == [] || (Enabled(s, steps[0]) && Runs(Next(s, steps[0]), steps[1..]))
  }

  function After(s: State, steps: seq<Step>): State
    requires Runs(s, steps)
    decreases |steps|
  {
    if steps == [] then s else After(Next(s, steps[0]), steps[1..])
  }

  function Unfinished(tasks: map<int, Task>): set<int> {
    set t | t in tasks && !tasks[t].Finished?
  }

  predicate OneReservation(tasks: map<int, Task>) {
    forall t, u | t in tasks && u in tasks && tasks[t].Reserved? && tasks[u].Reserved? ::
      tasks[t].year == tasks[u].year ==> t == u
  }

  predicate ReservedYear(tasks: map<int, Task>, year: int) {
    exists t :: t in tasks && tasks[t] == Reserved(year)
  }

  /** The count is the admitted, unfinished work; a year is reserved by exactly one unfinished task. */
  ghost predicate Accounted(s: State) {
    && s.a.wg == |Unfinished(s.tasks)|
    && OneReservation(s.tasks)
    && (forall y :: y in s.a.yearTasks <==> ReservedYear(s.tasks, y))
  }

  lemma UnfinishedAfter(tasks: map<int, Task>, t: int, task: Task)
    ensures |Unfinished(tasks[t := task])| ==
            |Unfinished(tasks)| + (if task.Finished? then 0 else 1) - (if t in tasks && !tasks[t].Finished? then 1 else 0)
  {
    var before, after := Unfinished(tasks), Unfinished(tasks[t := task]);
    assert after == if task.Finished? then before - {t} else before + {t};
  }

  lemma CountKept(s: State, step: Step)
    requires Accounted(s) && Enabled(s, step)
    ensures Next(s, step).a.wg == |Unfinished(Next(s, step).tasks)|
  {
    match step
    case AddWorkers(_, t, u) =>
      UnfinishedAfter(s.tasks, t, Worker);
      UnfinishedAfter(s.tasks[t := Worker], u, Worker);
    case StartFetch(t) => UnfinishedAfter(s.tasks, t, Plain);
    case ScheduleYear(t, year, _) => UnfinishedAfter(s.tasks, t, Reserved(year));
    case DropReservation(t) => UnfinishedAfter(s.tasks, t, Unreserved(s.tasks[t].year));
    case FinishTask(t) => UnfinishedAfter(s.tasks, t, Finished);
    case _ =>
  }

  lemma ReservationsKept(s: State, step: Step)
    requires Accounted(s) && Enabled(s, step)
    ensures OneReservation(Next(s, step).tasks)
    ensures forall y :: y in Next(s, step).a.yearTasks <==> ReservedYear(Next(s, step).tasks, y)
  {
    var s' := Next(s, step);
    forall y ensures y in s'.a.yearTasks <==> ReservedYear(s'.tasks, y) {
      assert y in s.a.yearTasks <==> ReservedYear(s.tasks, y);
      if ReservedYear(s.tasks, y) {
        var t :| t in s.tasks && s.tasks[t] == Reserved(y);
        assert step != DropReservation(t) ==> s'.tasks[t] == Reserved(y);
      }
      if step.ScheduleYear? && s'.tasks != s.tasks {
        assert s'.tasks[step.t] == Reserved(step.year);
      }
      if ReservedYear(s'.tasks, y) {
        var t :| t in s'.tasks && s'.tasks[t] == Reserved(y);
        assert t in s.tasks ==> s.tasks[t] == Reserved(y);
      }
    }
  }

  lemma {:induction false} AccountedRun(s: State, steps: seq<Step>)
    requires Accounted(s) && Runs(s, steps)
    ensures Accounted(After(s, steps))
    decreases |steps|
  {
    if steps != [] {
      CountKept(s, steps[0]);
      ReservationsKept(s, steps[0]);
      AccountedRun(Next(s, steps[0]), steps[1..]);
    }
  }

  /** In every run: at most one reserved task a year, and the wait group counts admitted unfinished work. */
  lemma OneTaskPerYear(steps: seq<Step>, t: int, u: int)
    requires Runs(Initial(), steps)
    requires t in After(Initial(), steps).tasks && u in After(Initial(), steps).tasks
    requires After(Initial(), steps).tasks[t].Reserved? && After(Initial(), steps).tasks[u].Reserved?
    requires After(Initial(), steps).tasks[t].year == After(Initial(), steps).tasks[u].year
    ensures t == u
    ensures After(Initial(), steps).tasks[t].year in After(Initial(), steps).a.yearTasks
  {
    AccountedRun(Initial(), steps);
    assert ReservedYear(After(Initial(), steps).tasks, After(Initial(), steps).tasks[t].year);
  }

  lemma ReservedOnlyWhileUnfinished(steps: seq<Step>, year: int)
    requires Runs(Initial(), steps) && year in After(Initial(), steps).a.yearTasks
    ensures var s := After(Initial(), steps);
            exists t :: t in s.tasks && s.tasks[t] == Reserved(year) && t in Unfinished(s.tasks)
    ensures After(Initial(), steps).a.wg == |Unfinished(After(Initial(), steps).tasks)| > 0
  {
    AccountedRun(Initial(), steps);
    var s := After(Initial(), steps);
    assert ReservedYear(s.tasks, year);
    var t :| t in s.tasks && s.tasks[t] == Reserved(year);
    assert t in Unfinished(s.tasks);
    assert {t} <= Unfinished(s.tasks);
    SubsetSize({t}, Unfinished(s.tasks));
  }

  // ------------------------------------------------------------------ shutdown

  /** No work is unfinished and none is admitted. */
  predicate Quiet(s: State) {
    Unfinished(s.tasks) == {} && s.a.bgClosed
  }

  /** Part of a start of background work. */
  predicate Starts(step: Step) {
    step.Reopen? || step.AddWorkers?
  }

  /** No start is under way or begins once a shutdown has begun. */
  predicate NoRestart(steps: seq<Step>) {
    forall i, j :: 0 <= i < j < |steps| && steps[i].CallWait? ==> !Starts(steps[j])
  }

  predicate NoStart(steps: seq<Step>) {
    forall i :: 0 <= i < |steps| ==> !Starts(steps[i])
  }

  ghost predicate ShuttingDown(s: State) {
    && Accounted(s)
    && (s.waiting ==> s.a.bgClosed)
    && (s.waitDone ==> s.waiting && Quiet(s))
    && (forall w :: w in s.waits && s.waits[w].ReturnedNil? ==> s.waitDone)
  }

  lemma ShuttingDownStep(s: State, step: Step)
    requires ShuttingDown(s) && Enabled(s, step) && (s.waiting ==> !Starts(step))
    ensures ShuttingDown(Next(s, step))
    ensures s.waitDone ==> Next(s, step).waitDone
  {
    CountKept(s, step);
    ReservationsKept(s, step);
    var s' := Next(s, step);
    if s.waitDone {
      QuietStep(s, step);
    }
  }

  lemma {:induction false} ShuttingDownRun(s: State, steps: seq<Step>)
    requires ShuttingDown(s) && Runs(s, steps) && NoRestart(steps) && (s.waiting ==> NoStart(steps))
    ensures ShuttingDown(After(s, steps))
    ensures s.waitDone ==> After(s, steps).waitDone
    decreases |steps|
  {
    if steps != [] {
      ShuttingDownStep(s, steps[0]);
      var rest := steps[1..];
      assert forall i :: 0 <= i < |rest| ==> rest[i] == steps[i + 1];
      ShuttingDownRun(Next(s, steps[0]), rest);
    }
  }

  /** Once a `Wait` has returned nil nothing runs and nothing is admitted, if no start overlaps or follows a shutdown. */
  lemma WaitMeansQuiet(steps: seq<Step>, w: int)
    requires Runs(Initial(), steps) && NoRestart(steps)
    requires w in After(Initial(), steps).waits && After(Initial(), steps).waits[w].ReturnedNil?
    ensures Quiet(After(Initial(), steps))
  {
    ShuttingDownRun(Initial(), steps);
  }

  lemma StepThen(s: State, step: Step, rest: seq<Step>)
    requires Enabled(s, step) && Runs(Next(s, step), rest)
    ensures Runs(s, [step] + rest) && After(s, [step] + rest) == After(Next(s, step), rest)
  {
    assert ([step] + rest)[1..] == rest;
  }

  /** The premise is needed even for a start that began earlier: its workers appear after Wait has returned nil. */
  lemma StartInProgressOutlivesWait() returns (steps: seq<Step>)
    ensures Runs(Initial(), steps) && forall i, j :: 0 <= i < j < |steps| && steps[i].CallWait? ==> !steps[j].Reopen?
    ensures 0 in After(Initial(), steps).waits && After(Initial(), steps).waits[0].ReturnedNil?
    ensures !Quiet(After(Initial(), steps))
  {
    var s1 := Next(Initial(), Reopen(0));
    var s2 := Next(s1, CallWait(0));
    var s3 := Next(s2, GroupDrained);
    var s4 := Next(s3, WaitReturns(0));
    var s5 := Next(s4, AddWorkers(0, 0, 1));
    assert 0 in Unfinished(s5.tasks);
    StepThen(s4, AddWorkers(0, 0, 1), []);
    StepThen(s3, WaitReturns(0), [AddWorkers(0, 0, 1)]);
    StepThen(s2, GroupDrained, [WaitReturns(0), AddWorkers(0, 0, 1)]);
    StepThen(s1, CallWait(0), [GroupDrained, WaitReturns(0), AddWorkers(0, 0, 1)]);
    StepThen(Initial(), Reopen(0), [CallWait(0), GroupDrained, WaitReturns(0), AddWorkers(0, 0, 1)]);
    steps := [Reopen(0)] + [CallWait(0), GroupDrained, WaitReturns(0), AddWorkers(0, 0, 1)];
  }

  predicate AlwaysQuiet(s: State, steps: seq<Step>)
    requires Runs(s, steps)
    decreases |steps|
  {
    Quiet(s) && (steps == [] || AlwaysQuiet(Next(s, steps[0]), steps[1..]))
  }

  lemma QuietStep(s: State, step: Step)
    requires Quiet(s) && Enabled(s, step)
    ensures Quiet(Next(s, step)) <==> !Starts(step)
  {
    var s' := Next(s, step);
    assert forall t :: t in s.tasks ==> t !in Unfinished(s.tasks);
    if step.AddWorkers? {
      assert step.t in Unfinished(s'.tasks);
    } else {
      assert forall t :: t !in Unfinished(s'.tasks);
    }
  }

  /** From a quiet state it stays quiet through any later steps exactly when none of them is part of a start. */
  lemma {:induction false} QuietForeverIff(s: State, steps: seq<Step>)
    requires Quiet(s) && Runs(s, steps)
    ensures AlwaysQuiet(s, steps) <==> NoStart(steps)
    decreases |steps|
  {
    if steps != [] {
      QuietStep(s, steps[0]);
      var rest := steps[1..];
      assert forall i :: 0 <= i < |rest| ==> rest[i] == steps[i + 1];
      assert forall i :: 0 < i < |steps| ==> steps[i] == rest[i - 1];
      if !Starts(steps[0]) {
        QuietForeverIff(Next(s, steps[0]), rest);
      }
    }
  }

  /** A year is turned away exactly when admission is closed or the app is done, and coalesced exactly when reserved. */
  lemma ScheduleIff(a: Admission, appDone: bool, year: int)
    ensures YearVerdict(a, appDone, year) == Rejected <==> a.bgClosed || appDone
    ensures YearVerdict(a, appDone, year) == Scheduled <==> !a.bgClosed && !appDone && year !in a.yearTasks
    ensures year in YearAdmitted(a, appDone, year).yearTasks <==> year in a.yearTasks || (!a.bgClosed && !appDone)
  {
  }

  /** So in every run an open scheduler starts exactly one task for a year that has none. */
  lemma OpenSchedulerStartsTheTask(steps: seq<Step>, t: int, year: int)
    requires Runs(Initial(), steps) && Enabled(After(Initial(), steps), ScheduleYear(t, year, false))
    requires !After(Initial(), steps).a.bgClosed
    ensures var s := After(Initial(), steps);
      var s' := Next(s, ScheduleYear(t, year, false));
      && ReservedYear(s'.tasks, year)
      && s'.a.wg == s.a.wg + (if ReservedYear(s.tasks, year) then 0 else 1)
  {
    AccountedRun(Initial(), steps);
    var s := After(Initial(), steps);
    var s' := Next(s, ScheduleYear(t, year, false));
    assert year in s.a.yearTasks <==> ReservedYear(s.tasks, year);
    ReservationsKept(s, ScheduleYear(t, year, false));
    assert year in s'.a.yearTasks <==> ReservedYear(s'.tasks, year);
  }
}
