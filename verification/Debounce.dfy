/**
 * The debounced trigger: threads add lifecycle events under a lock, an event loop runs one worker that waits
 * for a quiet moment and fires. The class is the code between two lock boundaries; the transition system
 * interleaves those sections in every way the lock and the single loop thread allow.
 */
module Debounce {
  import opened Text
  import opened Models

  const TOLERANCE := 0.005

  datatype Timing = Timing(delay: real, maxDelay: real)

  /** Where a worker task stands; it holds the loop thread at Top and Check, and awaits elsewhere. */
  datatype Point = Scheduled | Top | Sleeping(until: real) | Check | Firing | Over

  datatype Task = Task(point: Point, cancelled: bool)

  /** The trigger's fields, the loop's tasks, and the queued `_ensure_worker` callbacks. */
  datatype State = State(
    closed: bool,
    deadline: Option<real>,
    maxDeadline: Option<real>,
    reasons: seq<string>,
    worker: Option<nat>,
    tasks: seq<Task>,
    queued: nat)

  const IDLE := State(false, None, None, [], None, [], 0)

  function Earlier(a: real, b: real): real {
    if b < a then b else a
  }

  predicate Alive(s: State, i: nat) {
    i < |s.tasks| && !s.tasks[i].point.Over?
  }

  predicate WorkerAlive(s: State) {
    s.worker.Some? && Alive(s, s.worker.value)
  }

  function MaxDeadlineFrom(s: State, t: Timing, now: real): real {
    if s.maxDeadline.Some? then s.maxDeadline.value else now + t.maxDelay
  }

  /** `trigger`; `loop` says that a running event loop could be found. */
  function Triggered(s: State, t: Timing, now: real, reason: string, loop: bool): State {
    if s.closed then s
    else
      s.(deadline := Some(Earlier(now + t.delay, MaxDeadlineFrom(s, t, now))),
         maxDeadline := Some(MaxDeadlineFrom(s, t, now)),
         reasons := if reason != "" then s.reasons + [reason] else s.reasons,
         queued := if loop then s.queued + 1 else s.queued)
  }

  /** `_ensure_worker`, taken from the loop's queue. */
  function Ensured(s: State): State
    requires s.queued > 0
  {
    var s' := s.(queued := s.queued - 1);
    if s.closed || WorkerAlive(s) then s'
    else s'.(tasks := s.tasks + [Task(Scheduled, false)], worker := Some(|s.tasks|))
  }

  function At(s: State, i: nat, p: Point): State
    requires i < |s.tasks|
  {
    s.(tasks := s.tasks[i := s.tasks[i].(point := p)])
  }

  /** A task resumes after an await: a requested cancellation ends it. */
  function Resumed(s: State, i: nat, p: Point): State
    requires i < |s.tasks|
  {
    At(s, i, if s.tasks[i].cancelled then Over else p)
  }

  /** The worker's first locked section: stop without a deadline, sleep before it, go on after it. */
  function Looked(s: State, i: nat, now: real): State
    requires i < |s.tasks|
  {
    match s.deadline
    case None => At(s, i, Over)
    case Some(d) => At(s, i, if d - now > 0.0 then Sleeping(now + (d - now)) else Check)
  }

  predicate FiresAt(s: State, now: real) {
    !(s.deadline.Some? && s.deadline.value - now > TOLERANCE)
  }

  /** The second locked section: go back while the deadline is still ahead, else take everything and fire. */
  function Rechecked(s: State, i: nat, now: real): State
    requires i < |s.tasks|
  {
    if !FiresAt(s, now) then At(s, i, Top)
    else At(s, i, Firing).(deadline := None, maxDeadline := None, reasons := [])
  }

  function Closed(s: State): State {
    var tasks :=
      if WorkerAlive(s) then s.tasks[s.worker.value := s.tasks[s.worker.value].(cancelled := true)] else s.tasks;
    s.(closed := true, deadline := None, maxDeadline := None, reasons := [], tasks := tasks)
  }

  class DebouncedSyncTrigger {
    const timing: Timing
    var closed: bool
    var deadline: Option<real>
    var maxDeadline: Option<real>
    var reasons: seq<string>
    var workerTask: Option<nat>
    /** The event loop: every task ever created, and the callbacks waiting for the loop thread. */
    var tasks: seq<Task>
    var queued: nat

    constructor (timing: Timing)
      ensures this.timing == timing && Now() == IDLE
    {
      this.timing := timing;
      closed, deadline, maxDeadline, reasons := false, None, None, [];
      workerTask, tasks, queued := None, [], 0;
    }

    ghost function Now(): State
      reads this
    {
      State(closed, deadline, maxDeadline, reasons, workerTask, tasks, queued)
    }

    method Trigger(now: real, reason: string, loop: bool)
      modifies this
      ensures Now() == Triggered(old(Now()), timing, now, reason, loop)
    {
      if closed {
        return;
      }
      if maxDeadline.None? {
        maxDeadline := Some(now + timing.maxDelay);
      }
      deadline := Some(Earlier(now + timing.delay, maxDeadline.value));
      if reason != "" {
        reasons := reasons + [reason];
      }
      if loop {
        queued := queued + 1;
      }
    }

    method EnsureWorker()
      requires queued > 0
      modifies this
      ensures Now() == Ensured(old(Now()))
    {
      queued := queued - 1;
      if !closed && (workerTask.None? || workerTask.value >= |tasks| || tasks[workerTask.value].point.Over?) {
        workerTask := Some(|tasks|);
        tasks := tasks + [Task(Scheduled, false)];
      }
    }

    method Look(i: nat, now: real)
      requires i < |tasks|
      modifies this`tasks
      ensures Now() == Looked(old(Now()), i, now)
    {
      var next := Over;
      if deadline.Some? {
        var remaining := deadline.value - now;
        next := if remaining > 0.0 then Sleeping(now + remaining) else Check;
      }
      tasks := tasks[i := tasks[i].(point := next)];
    }

    method Recheck(i: nat, now: real) returns (fired: Option<seq<string>>)
      requires i < |tasks|
      modifies this
      ensures Now() == Rechecked(old(Now()), i, now)
      ensures fired == if FiresAt(old(Now()), now) then Some(old(reasons)) else None
    {
      if deadline.Some? && deadline.value - now > TOLERANCE {
        tasks := tasks[i := tasks[i].(point := Top)];
        return None;
      }
      fired := Some(reasons);
      deadline, maxDeadline, reasons := None, None, [];
      tasks := tasks[i := tasks[i].(point := Firing)];
    }

    method Close()
      modifies this
      ensures Now() == Closed(old(Now()))
    {
      closed := true;
      deadline, maxDeadline := None, None;
      reasons := [];
      if workerTask.Some? && workerTask.value < |tasks| && !tasks[workerTask.value].point.Over? {
        tasks := tasks[workerTask.value := tasks[workerTask.value].(cancelled := true)];
      }
    }
  }

  // ---------------------------------------------------------------- all interleavings

  datatype Pulse = Pulse(time: real, reason: string)

  /**
   * The state, the clock, and what happened: triggers not yet fired, those fired batch by batch, those dropped, and
   * when the last synchronization began.
   */
  datatype System = System(s: State, now: real, waiting: seq<Pulse>, accepted: seq<Pulse>, fired: seq<seq<Pulse>>,
                           dropped: seq<Pulse>, began: real)

  datatype Step =
    | Tick(to: real)
    | TriggerStep(reason: string, loop: bool)
    | EnsureStep
    | Resume(i: nat)
    | LookStep(i: nat)
    | RecheckStep(i: nat)
    | CloseStep

  /** No task is in the middle of a step: the loop thread is free. */
  predicate LoopFree(s: State) {
    forall i :: 0 <= i < |s.tasks| ==> !s.tasks[i].point.Top? && !s.tasks[i].point.Check?
  }

  predicate Enabled(y: System, e: Step) {
    match e
    case Tick(to) => to >= y.now
    case TriggerStep(_, _) => true
    case EnsureStep => y.s.queued > 0 && LoopFree(y.s)
    case Resume(i) => LoopFree(y.s) && Alive(y.s, i)
    case LookStep(i) => Alive(y.s, i) && y.s.tasks[i].point.Top?
    case RecheckStep(i) => Alive(y.s, i) && y.s.tasks[i].point.Check?
    case CloseStep => LoopFree(y.s)
  }

  /** A sleeping task may wake at any moment; a firing one returns when its synchronization ends, however it ends. */
  function NextPoint(p: Point): Point {
    match p case Scheduled => Top case Sleeping(_) => Check case Firing => Top case other => other
  }

  function Taken(y: System, t: Timing, e: Step): System
    requires Enabled(y, e)
  {
    match e
    case Tick(to) => y.(now := to)
    case TriggerStep(reason, loop) =>
      var p := Pulse(y.now, reason);
      y.(s := Triggered(y.s, t, y.now, reason, loop),
         waiting := if y.s.closed then y.waiting else y.waiting + [p],
         accepted := if y.s.closed then y.accepted else y.accepted + [p])
    case EnsureStep => y.(s := Ensured(y.s))
    case Resume(i) => y.(s := Resumed(y.s, i, NextPoint(y.s.tasks[i].point)))
    case LookStep(i) => y.(s := Looked(y.s, i, y.now))
    case RecheckStep(i) =>
      if FiresAt(y.s, y.now)
      then y.(s := Rechecked(y.s, i, y.now), waiting := [], fired := y.fired + [y.waiting], began := y.now)
      else y.(s := Rechecked(y.s, i, y.now))
    case CloseStep => y.(s := Closed(y.s), waiting := [], dropped := y.dropped + y.waiting)
  }

  function Start(now: real): System {
    System(IDLE, now, [], [], [], [], now)
  }

  ghost predicate Possible(start: real, t: Timing, run: seq<Step>)
    decreases |run|, 0
  {
    run == [] ||
    (Possible(start, t, run[..|run| - 1]) && Enabled(After(start, t, run[..|run| - 1]), run[|run| - 1]))
  }

  ghost function After(start: real, t: Timing, run: seq<Step>): System
    requires Possible(start, t, run)
    decreases |run|, 1
  {
    if run == [] then Start(start) else Taken(After(start, t, run[..|run| - 1]), t, run[|run| - 1])
  }

  // ---------------------------------------------------------------- invariants

  /** The deadline asked for by the waiting triggers: delay after the last, at most the maximum after the first. */
  function DueAt(waiting: seq<Pulse>, t: Timing): real
    requires waiting != []
  {
    Earlier(waiting[|waiting| - 1].time + t.delay, waiting[0].time + t.maxDelay)
  }

  function ReasonsOf(pulses: seq<Pulse>): seq<string> {
    if pulses == [] then []
    else
      var p, before := pulses[|pulses| - 1], ReasonsOf(pulses[..|pulses| - 1]);
      if p.reason != "" then before + [p.reason] else before
  }

  function Batches(fired: seq<seq<Pulse>>): seq<Pulse> {
    if fired == [] then [] else Batches(fired[..|fired| - 1]) + fired[|fired| - 1]
  }

  /** The fields say what the waiting triggers ask for. */
  ghost predicate Clocked(y: System, t: Timing) {
    && (y.s.deadline.Some? <==> y.waiting != [])
    && (y.s.maxDeadline.Some? <==> y.waiting != [])
    && (y.waiting != [] ==>
          && y.s.deadline == Some(DueAt(y.waiting, t))
          && y.s.maxDeadline == Some(y.waiting[0].time + t.maxDelay)
          && y.waiting[|y.waiting| - 1].time <= y.now)
    && y.s.reasons == ReasonsOf(y.waiting)
  }

  /** Nothing is lost, duplicated or reordered. */
  ghost predicate Conserved(y: System) {
    && y.accepted == Batches(y.fired) + y.dropped + y.waiting
    && (y.dropped != [] ==> y.s.closed)
    && (forall b :: b in y.fired ==> b != [])
  }

  /** At most one task is alive, and it is the recorded worker. */
  ghost predicate OneWorker(s: State) {
    forall i: nat :: Alive(s, i) ==> s.worker == Some(i)
  }

  ghost predicate TaskSound(s: State, task: Task) {
    && (s.closed ==> task.cancelled || task.point.Over?)
    && (task.cancelled ==> s.closed && !task.point.Top? && !task.point.Check?)
    && (task.point.Check? ==> s.deadline.Some?)
    && (task.point.Sleeping? && !task.cancelled ==> s.deadline.Some? && task.point.until <= s.deadline.value)
  }

  /**
   * A worker about to fire, or asleep, has something to fire; it never sleeps past the deadline; a closed one is
   * ending.
   */
  ghost predicate TasksSound(s: State) {
    forall i :: 0 <= i < |s.tasks| ==> TaskSound(s, s.tasks[i])
  }

  ghost predicate Invariant(y: System, t: Timing) {
    && Clocked(y, t) && Conserved(y)
    && OneWorker(y.s) && TasksSound(y.s)
    && (y.s.closed ==> y.waiting == [])
  }

  lemma DueOnlyMovesLater(y: System, t: Timing, reason: string)
    requires Clocked(y, t) && y.waiting != []
    ensures DueAt(y.waiting + [Pulse(y.now, reason)], t) >= DueAt(y.waiting, t)
  {
  }

  lemma ReasonsSnoc(waiting: seq<Pulse>, p: Pulse)
    ensures ReasonsOf(waiting + [p]) == if p.reason != "" then ReasonsOf(waiting) + [p.reason] else ReasonsOf(waiting)
  {
    assert (waiting + [p])[..|waiting|] == waiting;
  }

  lemma DueSnoc(waiting: seq<Pulse>, p: Pulse, t: Timing)
    ensures DueAt(waiting + [p], t) == Earlier(p.time + t.delay,
            (if waiting == [] then p else waiting[0]).time + t.maxDelay)
  {
  }

  lemma TriggerKeepsDeadlines(y: System, t: Timing, reason: string, loop: bool)
    requires Clocked(y, t) && !y.s.closed
    ensures var s', w := Taken(y, t, TriggerStep(reason, loop)).s, y.waiting + [Pulse(y.now, reason)];
            s'.deadline == Some(DueAt(w, t)) && s'.maxDeadline == Some(w[0].time + t.maxDelay)
  {
    DueSnoc(y.waiting, Pulse(y.now, reason), t);
  }

  lemma TriggerKeepsClock(y: System, t: Timing, reason: string, loop: bool)
    requires Clocked(y, t) && !y.s.closed
    ensures Clocked(Taken(y, t, TriggerStep(reason, loop)), t)
  {
    ReasonsSnoc(y.waiting, Pulse(y.now, reason));
    TriggerKeepsDeadlines(y, t, reason, loop);
  }

  lemma TriggerKeepsPulses(y: System, t: Timing, reason: string, loop: bool)
    requires Conserved(y) && !y.s.closed
    ensures Conserved(Taken(y, t, TriggerStep(reason, loop)))
  {
    Regroup(Batches(y.fired) + y.dropped, y.waiting, [Pulse(y.now, reason)]);
  }

  lemma TriggerKeepsTasks(y: System, t: Timing, reason: string, loop: bool)
    requires Clocked(y, t) && OneWorker(y.s) && TasksSound(y.s) && !y.s.closed
    ensures var s' := Taken(y, t, TriggerStep(reason, loop)).s; OneWorker(s') && TasksSound(s')
  {
    var s' := Taken(y, t, TriggerStep(reason, loop)).s;
    if y.waiting != [] { DueOnlyMovesLater(y, t, reason); }
    forall i | 0 <= i < |s'.tasks| ensures TaskSound(s', s'.tasks[i]) { assert TaskSound(y.s, y.s.tasks[i]); }
    forall i: nat | Alive(s', i) ensures s'.worker == Some(i) { assert Alive(y.s, i); }
  }

  lemma TriggerKeeps(y: System, t: Timing, reason: string, loop: bool)
    requires Invariant(y, t)
    ensures Invariant(Taken(y, t, TriggerStep(reason, loop)), t)
  {
    if !y.s.closed {
      TriggerKeepsClock(y, t, reason, loop);
      TriggerKeepsPulses(y, t, reason, loop);
      TriggerKeepsTasks(y, t, reason, loop);
    }
  }

  lemma EnsureKeeps(y: System, t: Timing)
    requires Invariant(y, t) && Enabled(y, EnsureStep)
    ensures Invariant(Taken(y, t, EnsureStep), t)
  {
    var s, s' := y.s, Taken(y, t, EnsureStep).s;
    forall i: nat | Alive(s', i) ensures s'.worker == Some(i) { if i < |s.tasks| { assert Alive(s, i); } }
    forall i | 0 <= i < |s'.tasks| ensures TaskSound(s', s'.tasks[i]) {
      if i < |s.tasks| { assert TaskSound(s, s.tasks[i]); }
    }
  }

  /** Moving one task from one point to another disturbs no other task. */
  lemma MoveKeeps(s: State, i: nat, p: Point)
    requires OneWorker(s) && TasksSound(s) && Alive(s, i) && TaskSound(s, s.tasks[i].(point := p))
    ensures OneWorker(At(s, i, p)) && TasksSound(At(s, i, p))
  {
    var s' := At(s, i, p);
    forall j: nat | Alive(s', j) ensures s'.worker == Some(j) { assert Alive(s, j); }
    forall j | 0 <= j < |s'.tasks| ensures TaskSound(s', s'.tasks[j]) { assert TaskSound(s, s.tasks[j]); }
  }

  lemma ResumeKeeps(y: System, t: Timing, i: nat)
    requires Invariant(y, t) && Enabled(y, Resume(i))
    ensures Invariant(Taken(y, t, Resume(i)), t)
  {
    assert TaskSound(y.s, y.s.tasks[i]);
    MoveKeeps(y.s, i, if y.s.tasks[i].cancelled then Over else NextPoint(y.s.tasks[i].point));
  }

  lemma LookKeeps(y: System, t: Timing, i: nat)
    requires Invariant(y, t) && Enabled(y, LookStep(i))
    ensures Invariant(Taken(y, t, LookStep(i)), t)
  {
    assert TaskSound(y.s, y.s.tasks[i]);
    MoveKeeps(y.s, i, Taken(y, t, LookStep(i)).s.tasks[i].point);
  }

  lemma FireKeeps(y: System, t: Timing, i: nat)
    requires Invariant(y, t) && Enabled(y, RecheckStep(i)) && FiresAt(y.s, y.now)
    ensures Invariant(Taken(y, t, RecheckStep(i)), t)
  {
    var y' := Taken(y, t, RecheckStep(i));
    assert TaskSound(y.s, y.s.tasks[i]);
    assert y'.fired[..|y.fired|] == y.fired;
    assert y.dropped == [];
    assert y'.accepted == Batches(y'.fired) + y'.dropped + y'.waiting;
    forall j: nat | Alive(y'.s, j) ensures y'.s.worker == Some(j) { assert Alive(y.s, j); }
    forall j | 0 <= j < |y'.s.tasks| ensures TaskSound(y'.s, y'.s.tasks[j]) {
      assert TaskSound(y.s, y.s.tasks[j]);
      if j != i {
        assert Alive(y.s, i);
        assert !Alive(y.s, j);
      }
    }
  }

  lemma RecheckKeeps(y: System, t: Timing, i: nat)
    requires Invariant(y, t) && Enabled(y, RecheckStep(i))
    ensures Invariant(Taken(y, t, RecheckStep(i)), t)
  {
    if FiresAt(y.s, y.now) {
      FireKeeps(y, t, i);
    } else {
      assert TaskSound(y.s, y.s.tasks[i]);
      MoveKeeps(y.s, i, Top);
    }
  }

  lemma CloseKeeps(y: System, t: Timing)
    requires Invariant(y, t) && Enabled(y, CloseStep)
    ensures Invariant(Taken(y, t, CloseStep), t)
  {
    var y' := Taken(y, t, CloseStep);
    assert y'.accepted == Batches(y'.fired) + y'.dropped + y'.waiting;
    forall j: nat | Alive(y'.s, j) ensures y'.s.worker == Some(j) { assert Alive(y.s, j); }
    forall j | 0 <= j < |y'.s.tasks| ensures TaskSound(y'.s, y'.s.tasks[j]) {
      assert TaskSound(y.s, y.s.tasks[j]);
      if Alive(y.s, j) { assert y.s.worker == Some(j); }
    }
  }

  lemma StepKeeps(y: System, t: Timing, e: Step)
    requires Invariant(y, t) && Enabled(y, e)
    ensures Invariant(Taken(y, t, e), t)
  {
    match e
    case Tick(_) =>
    case TriggerStep(reason, loop) => TriggerKeeps(y, t, reason, loop);
    case EnsureStep => EnsureKeeps(y, t);
    case Resume(i) => ResumeKeeps(y, t, i);
    case LookStep(i) => LookKeeps(y, t, i);
    case RecheckStep(i) => RecheckKeeps(y, t, i);
    case CloseStep => CloseKeeps(y, t);
  }

  /** Over every interleaving: the deadline, the single worker, its sleep, and every trigger are accounted for. */
  lemma {:induction false} AlwaysSound(start: real, t: Timing, run: seq<Step>)
    requires Possible(start, t, run)
    ensures Invariant(After(start, t, run), t)
  {
    if run != [] {
      AlwaysSound(start, t, run[..|run| - 1]);
      StepKeeps(After(start, t, run[..|run| - 1]), t, run[|run| - 1]);
    }
  }

  /** A step that starts a synchronization. */
  ghost predicate Fires(y: System, e: Step) {
    e.RecheckStep? && FiresAt(y.s, y.now)
  }

  /**
   * A synchronization starts only for triggers that are waiting and due (to within 5 ms), never after close,
   * never while another one runs, and takes exactly the waiting reasons, in order.
   */
  lemma FiresWhenDue(start: real, t: Timing, run: seq<Step>, e: Step)
    requires Possible(start, t, run) && Enabled(After(start, t, run), e) && Fires(After(start, t, run), e)
    ensures var y := After(start, t, run);
            && y.waiting != [] && !y.s.closed
            && y.now >= DueAt(y.waiting, t) - TOLERANCE
            && (forall j :: 0 <= j < |y.s.tasks| ==> !y.s.tasks[j].point.Firing?)
            && y.s.reasons == ReasonsOf(y.waiting)
  {
    var y := After(start, t, run);
    AlwaysSound(start, t, run);
    assert Alive(y.s, e.i) && TaskSound(y.s, y.s.tasks[e.i]);
    forall j | 0 <= j < |y.s.tasks| ensures !y.s.tasks[j].point.Firing? {
      if y.s.tasks[j].point.Firing? { assert Alive(y.s, j); }
    }
  }

  /** Until close, what has been fired followed by what is waiting is what was triggered. */
  lemma NothingIsLost(start: real, t: Timing, run: seq<Step>)
    requires Possible(start, t, run)
    ensures var y := After(start, t, run);
            && y.accepted == Batches(y.fired) + y.dropped + y.waiting
            && (!y.s.closed ==> y.accepted == Batches(y.fired) + y.waiting)
  {
    AlwaysSound(start, t, run);
  }

  // ---------------------------------------------------------------- what the worker does, in numbers

  /** The deadline in numbers: the delay after the last waiting trigger, at most the maximum after the first. */
  lemma DueAtExactly(waiting: seq<Pulse>, t: Timing)
    requires waiting != []
    ensures var due, last, first := DueAt(waiting, t), waiting[|waiting| - 1].time, waiting[0].time;
            && due <= last + t.delay && due <= first + t.maxDelay
            && (due == last + t.delay || due == first + t.maxDelay)
  {
  }

  /**
   * What the worker does first: it ends if nothing waits, sleeps until the deadline, neither shorter nor longer, if
   * that is ahead, and goes on otherwise.
   */
  lemma LooksExactly(start: real, t: Timing, run: seq<Step>, i: nat)
    requires Possible(start, t, run) && Enabled(After(start, t, run), LookStep(i))
    ensures var y := After(start, t, run);
            var point := Taken(y, t, LookStep(i)).s.tasks[i].point;
            if y.waiting == [] then point == Over
            else
              var last, first := y.waiting[|y.waiting| - 1].time, y.waiting[0].time;
              if y.now < last + t.delay && y.now < first + t.maxDelay
              then && point.Sleeping? && point.until <= last + t.delay && point.until <= first + t.maxDelay
                   && (point.until == last + t.delay || point.until == first + t.maxDelay)
              else point == Check
  {
    AlwaysSound(start, t, run);
  }

  /** What it does next: it fires exactly if the deadline is at most 5 ms ahead, and goes back otherwise. */
  lemma RechecksExactly(start: real, t: Timing, run: seq<Step>, i: nat)
    requires Possible(start, t, run) && Enabled(After(start, t, run), RecheckStep(i))
    ensures var y := After(start, t, run);
            var y' := Taken(y, t, RecheckStep(i));
            && y.waiting != []
            && (if y.now + 0.005 >= y.waiting[|y.waiting| - 1].time + t.delay
                   || y.now + 0.005 >= y.waiting[0].time + t.maxDelay
                then y'.fired == y.fired + [y.waiting] && y'.waiting == [] && y'.s.tasks[i].point == Firing
                else y'.fired == y.fired && y'.waiting == y.waiting && y'.s.tasks[i].point == Top)
  {
    AlwaysSound(start, t, run);
    assert TaskSound(After(start, t, run).s, After(start, t, run).s.tasks[i]);
  }

  // ---------------------------------------------------------------- wake-ups

  /** Triggers are waiting, and nobody will ever look at them. */
  ghost predicate Stranded(s: State) {
    s.deadline.Some? && !WorkerAlive(s) && s.queued == 0
  }

  /** A trigger finds no running loop while nobody is on duty. */
  ghost predicate Strands(y: System, e: Step) {
    e.TriggerStep? && !e.loop && !y.s.closed && !WorkerAlive(y.s) && y.s.queued == 0
  }

  /** A trigger finds the loop, or everything waiting is dropped. */
  predicate Rescues(e: Step) {
    (e.TriggerStep? && e.loop) || e.CloseStep?
  }

  /** What one step does to a lost wake-up: exactly which steps lose one, and which end it. */
  lemma StrandingExactly(y: System, t: Timing, e: Step)
    requires Invariant(y, t) && Enabled(y, e)
    ensures Stranded(Taken(y, t, e).s) <==> Strands(y, e) || (Stranded(y.s) && !Rescues(e))
  {
    if e.Resume? || e.LookStep? || e.RecheckStep? {
      assert Alive(y.s, e.i) && TaskSound(y.s, y.s.tasks[e.i]);
    }
  }

  /** The wake-up lost by step k of a run has not been made up for since. */
  ghost predicate LostAt(start: real, t: Timing, run: seq<Step>, k: nat) {
    && k < |run| && Possible(start, t, run[..k]) && Strands(After(start, t, run[..k]), run[k])
    && forall j :: k < j < |run| ==> !Rescues(run[j])
  }

  lemma LostOneStepEarlier(start: real, t: Timing, run: seq<Step>, k: nat)
    requires run != [] && k < |run| - 1
    ensures LostAt(start, t, run, k) <==> LostAt(start, t, run[..|run| - 1], k) && !Rescues(run[|run| - 1])
  {
    var init := run[..|run| - 1];
    assert init[..k] == run[..k] && init[k] == run[k];
    if LostAt(start, t, init, k) && !Rescues(run[|run| - 1]) {
      forall j | k < j < |run| ensures !Rescues(run[j]) { if j < |init| { assert init[j] == run[j]; } }
    }
    if LostAt(start, t, run, k) {
      forall j | k < j < |init| ensures !Rescues(init[j]) { assert init[j] == run[j]; }
    }
  }

  /**
   * Lost wake-ups over every run: triggers are left waiting with nobody to look at them if and only if some
   * trigger found no running loop while nobody was on duty, and no trigger since found the loop, nor was
   * everything closed.
   */
  lemma {:induction false} LostExactly(start: real, t: Timing, run: seq<Step>)
    requires Possible(start, t, run)
    ensures Stranded(After(start, t, run).s) <==> exists k: nat :: LostAt(start, t, run, k)
  {
    if run != [] {
      var e, init, last := run[|run| - 1], run[..|run| - 1], |run| - 1;
      LostExactly(start, t, init);
      AlwaysSound(start, t, init);
      StrandingExactly(After(start, t, init), t, e);
      assert LostAt(start, t, run, last) <==> Strands(After(start, t, init), e);
      forall k: nat | k < last ensures LostAt(start, t, run, k) <==> LostAt(start, t, init, k) && !Rescues(e) {
        LostOneStepEarlier(start, t, run, k);
      }
    }
  }

  /** With a running loop no wake-up is ever lost, not even one arriving during a synchronization. */
  lemma NoLostWakeUp(start: real, t: Timing, run: seq<Step>)
    requires Possible(start, t, run) && forall e :: e in run && e.TriggerStep? ==> e.loop
    ensures !Stranded(After(start, t, run).s)
  {
    LostExactly(start, t, run);
  }

  /** A worker that wakes up when the deadline is reached fires at once, with everything that is waiting. */
  lemma WakingOnTimeFires(start: real, t: Timing, run: seq<Step>, i: nat)
    requires Possible(start, t, run)
    requires var y := After(start, t, run);
             Enabled(y, Resume(i)) && y.s.tasks[i].point.Sleeping? && !y.s.closed && y.now >= y.s.tasks[i].point.until
    ensures var y := After(start, t, run);
            && y.waiting != [] && y.s.tasks[i].point.until <= y.waiting[0].time + t.maxDelay
            && (y.now >= DueAt(y.waiting, t) ==>
                  var y' := Taken(y, t, Resume(i));
                  Enabled(y', RecheckStep(i)) && Taken(y', t, RecheckStep(i)).fired == y.fired + [y.waiting])
  {
    var y := After(start, t, run);
    AlwaysSound(start, t, run);
    assert TaskSound(y.s, y.s.tasks[i]);
  }

  // ---------------------------------------------------------------- latency

  /** The latest moment to which an idle loop may let time pass for this task, if it is awaiting something. */
  ghost predicate MayWait(y: System, task: Task, limit: real, to: real) {
    || task.point.Over?
    || (task.point.Sleeping? && to <= task.point.until)
    || (task.point.Firing? && to <= y.began + limit)
  }

  /**
   * Time passes only when nothing can run on the loop, not past the moment the worker is to be woken, and not past the
   * limit of a synchronization.
   */
  ghost predicate Prompt(y: System, e: Step, limit: real) {
    e.Tick? ==> y.s.queued == 0 && forall i :: 0 <= i < |y.s.tasks| ==> MayWait(y, y.s.tasks[i], limit, e.to)
  }

  ghost predicate PromptRun(start: real, t: Timing, run: seq<Step>, limit: real)
    requires Possible(start, t, run)
  {
    run == [] ||
    (PromptRun(start, t, run[..|run| - 1], limit)
     && Prompt(After(start, t, run[..|run| - 1]), run[|run| - 1], limit))
  }

  /** The bound: the maximum delay, or the longest synchronization if that is longer. */
  function Longest(t: Timing, limit: real): real {
    if limit > t.maxDelay then limit else t.maxDelay
  }

  /**
   * Nothing waiting is older than the first waiting trigger, which is neither overdue nor from before the last
   * firing.
   */
  ghost predicate NotOverdue(y: System, t: Timing, limit: real) {
    && y.began <= y.now
    && (forall p :: p in y.waiting ==> y.waiting[0].time <= p.time)
    && (y.waiting != [] ==> y.began <= y.waiting[0].time <= y.now <= y.waiting[0].time + Longest(t, limit))
  }

  lemma TickInTime(y: System, t: Timing, to: real, limit: real)
    requires Invariant(y, t) && !Stranded(y.s) && NotOverdue(y, t, limit)
    requires Enabled(y, Tick(to)) && Prompt(y, Tick(to), limit)
    ensures NotOverdue(Taken(y, t, Tick(to)), t, limit)
  {
    if y.waiting != [] {
      var i := y.s.worker.value;
      assert TaskSound(y.s, y.s.tasks[i]) && MayWait(y, y.s.tasks[i], limit, to);
    }
  }

  lemma TriggerInTime(y: System, t: Timing, reason: string, loop: bool, limit: real)
    requires NotOverdue(y, t, limit) && t.maxDelay >= 0.0
    ensures NotOverdue(Taken(y, t, TriggerStep(reason, loop)), t, limit)
  {
  }

  lemma StepInTime(y: System, t: Timing, e: Step, limit: real)
    requires Invariant(y, t) && !Stranded(y.s) && NotOverdue(y, t, limit) && t.maxDelay >= 0.0
    requires Enabled(y, e) && Prompt(y, e, limit)
    ensures NotOverdue(Taken(y, t, e), t, limit)
  {
    match e
    case Tick(to) => TickInTime(y, t, to, limit);
    case TriggerStep(reason, loop) => TriggerInTime(y, t, reason, loop, limit);
    case _ =>
  }

  lemma {:induction false} NeverOverdue(start: real, t: Timing, run: seq<Step>, limit: real)
    requires Possible(start, t, run) && PromptRun(start, t, run, limit) && t.maxDelay >= 0.0
    requires forall e :: e in run && e.TriggerStep? ==> e.loop
    ensures NotOverdue(After(start, t, run), t, limit)
  {
    if run != [] {
      var init := run[..|run| - 1];
      NeverOverdue(start, t, init, limit);
      AlwaysSound(start, t, init);
      NoLostWakeUp(start, t, init);
      StepInTime(After(start, t, init), t, run[|run| - 1], limit);
    }
  }

  /**
   * Latency over every run with a running, prompt loop whose synchronizations take at most `limit`: whatever is waiting
   * was triggered at most the maximum delay ago, or at most `limit` ago if that is longer; so was whatever the next
   * step fires; and whatever was triggered longer ago than that has been fired, or dropped by close.
   */
  lemma FiredInTime(start: real, t: Timing, run: seq<Step>, limit: real)
    requires Possible(start, t, run) && PromptRun(start, t, run, limit) && t.maxDelay >= 0.0
    requires forall e :: e in run && e.TriggerStep? ==> e.loop
    ensures var y := After(start, t, run);
            && (forall p :: p in y.waiting ==> y.now <= p.time + Longest(t, limit))
            && (forall e, p :: Enabled(y, e) && Fires(y, e) && p in Taken(y, t, e).fired[|y.fired|] ==>
                  y.now <= p.time + Longest(t, limit))
            && (forall p :: p in y.accepted && p.time + Longest(t, limit) < y.now ==>
                  p in Batches(y.fired) || p in y.dropped)
  {
    var y := After(start, t, run);
    NeverOverdue(start, t, run, limit);
    AlwaysSound(start, t, run);
    forall p | p in y.accepted && p.time + Longest(t, limit) < y.now ensures p in Batches(y.fired) || p in y.dropped {
      assert p in Batches(y.fired) + y.dropped + y.waiting;
    }
  }
}
