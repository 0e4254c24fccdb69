/** The worker pool of a run (gear_optimizer/pipeline/workers.py) as a state machine: the steps of the worker processes and
    of the parent's event loop, interleaved in any order. */
module WorkerPool {

  import opened Wrappers

  datatype Item = Task(index: nat) | End

  datatype Event = Started(index: nat) | Done | Failed | Fatal

  /** Zero (the queue ended, a stop request or a lost GPU), the code for a memory release, a death's in the worker's loop, or a
      death's after it, while its GPU work stops. */
  datatype ExitCode = Zero | Memory | Dead | Crashed

  /** Where a worker's loop is; a dead one may have taken a task whose start it never reported. */
  datatype Phase = Looping | Waiting | Taken(index: nat) | Solving(index: nat) | Reported | Exited(code: ExitCode, holding: Option<nat>)

  /** A worker process with the events in its pipe. */
  datatype Worker = Worker(phase: Phase, pipe: seq<Event>)

  datatype Report = Report(index: nat, stored: bool)

  /** `ended` are the workers that took an end marker. */
  datatype State = State(
    tasks: nat, pending: seq<Item>, stop: bool, running: map<nat, Worker>, working: map<nat, nat>, finished: nat, stored: nat,
    error: bool, reports: seq<Report>, keyError: bool, ended: set<nat>)

  datatype Step =
    | Check(worker: nat) | Get(worker: nat) | SendStart(worker: nat) | SendDone(worker: nat) | SendFailed(worker: nat)
    | SendFatal(worker: nat) | Abort(worker: nat) | LeaveForMemory(worker: nat) | Continue(worker: nat) | Die(worker: nat)
    | Crash(worker: nat) | RequestStop | Receive(worker: nat) | Exit(worker: nat)

  const FRESH := Worker(Looping, [])

  function Ends(count: nat): (r: seq<Item>)
    ensures |r| == count && forall i :: 0 <= i < count ==> r[i] == End
  {
    seq(count, i => End)
  }

  function TasksFrom(k: nat, n: nat): (r: seq<Item>)
    requires k <= n
    ensures |r| == n - k && forall i :: 0 <= i < n - k ==> r[i] == Task(k + i)
  {
    seq(n - k, i requires 0 <= i => Task(k + i))
  }

  function FreshWorkers(count: nat): (r: map<nat, Worker>)
    ensures forall w: nat :: w in r <==> w < count
    ensures forall w: nat :: w in r ==> r[w] == FRESH
  {
    if count == 0 then map[] else FreshWorkers(count - 1)[count - 1 := FRESH]
  }

  /** The parent before its loop: the tasks queued, then one end marker per worker, every worker running. */
  function Start(tasks: nat, workers: nat): State {
    State(tasks, TasksFrom(0, tasks) + Ends(workers), false, FreshWorkers(workers), map[], 0, 0, false, [], false, {})
  }

  // ---- The steps.

  function PhaseOf(s: State, w: nat): Phase
    requires w in s.running
  {
    s.running[w].phase
  }

  predicate Alive(s: State, w: nat) { w in s.running && !PhaseOf(s, w).Exited? }

  /** Out of its loop with a good exit code, if nothing goes wrong. */
  predicate IsLeaving(phase: Phase) { phase.Exited? && (phase.code.Zero? || phase.code.Memory?) }

  predicate IsDeath(code: ExitCode) { code.Dead? || code.Crashed? }

  predicate Enabled(s: State, step: Step) {
    match step
    case Check(w) => Alive(s, w) && PhaseOf(s, w).Looping?
    case Get(w) => Alive(s, w) && PhaseOf(s, w).Waiting? && s.pending != []
    case SendStart(w) => Alive(s, w) && PhaseOf(s, w).Taken?
    case SendDone(w) => Alive(s, w) && PhaseOf(s, w).Solving?
    case SendFailed(w) => Alive(s, w) && PhaseOf(s, w).Solving?
    case SendFatal(w) => Alive(s, w) && PhaseOf(s, w).Solving?
    case Abort(w) => Alive(s, w) && PhaseOf(s, w).Solving? && s.stop
    case LeaveForMemory(w) => Alive(s, w) && PhaseOf(s, w).Reported?
    case Continue(w) => Alive(s, w) && PhaseOf(s, w).Reported?
    case Die(w) => Alive(s, w)
    case Crash(w) => w in s.running && IsLeaving(PhaseOf(s, w))
    case RequestStop => true
    case Receive(w) => w in s.running && s.running[w].pipe != []
    case Exit(w) => w in s.running && PhaseOf(s, w).Exited?
  }

  function Moved(s: State, w: nat, phase: Phase, sent: seq<Event>): State
    requires w in s.running
  {
    s.(running := s.running[w := Worker(phase, s.running[w].pipe + sent)])
  }

  /** The parent handling one event; taking an unknown worker's task would be a KeyError. */
  function Handled(s: State, w: nat, event: Event): State {
    match event
    case Started(i) => s.(working := s.working[w := i])
    case Done => if w in s.working then Settled(s, w, true) else s.(keyError := true)
    case Failed => if w in s.working then Settled(s, w, false) else s.(keyError := true)
    case Fatal => s.(working := s.working - {w}, error := true, stop := true)
  }

  function Settled(s: State, w: nat, stored: bool): State
    requires w in s.working
  {
    s.(working := s.working - {w}, finished := s.finished + 1, stored := if stored then s.stored + 1 else s.stored,
       reports := s.reports + [Report(s.working[w], stored)])
  }

  function Drained(s: State, w: nat, pipe: seq<Event>): State
    decreases |pipe|
  {
    if pipe == [] then s else Drained(Handled(s, w, pipe[0]), w, pipe[1..])
  }

  /** The parent handling a worker's exit: its last events, then its exit code. */
  function ExitHandled(s: State, w: nat): State
    requires w in s.running && PhaseOf(s, w).Exited?
  {
    var code := PhaseOf(s, w).code;
    var d := Drained(s.(running := s.running - {w}), w, s.running[w].pipe);
    if code.Zero? then d
    else if IsDeath(code) && w !in d.working then d.(error := true, stop := true)
    else Respawned(if IsDeath(code) then Settled(d, w, false) else d, w)
  }

  function Respawned(s: State, w: nat): State {
    if !s.stop && s.finished < s.tasks then s.(running := s.running[w := FRESH]) else s
  }

  /** Where a worker's own step leads its loop, and what it sends; taking an end marker ends it. */
  function NewPhase(phase: Phase, stop: bool, step: Step): Phase {
    match step
    case Check(_) => if stop then Exited(Zero, None) else Waiting
    case Get(_) => Exited(Zero, None)
    case SendStart(_) => if phase.Taken? then Solving(phase.index) else phase
    case SendDone(_) => Reported
    case SendFailed(_) => Reported
    case SendFatal(_) => Exited(Zero, None)
    case Abort(_) => Exited(Zero, None)
    case LeaveForMemory(_) => Exited(Memory, None)
    case Continue(_) => Looping
    case Die(_) => Exited(Dead, if phase.Taken? then Some(phase.index) else None)
    case Crash(_) => Exited(Crashed, None)
    case _ => phase
  }

  function Sent(phase: Phase, step: Step): seq<Event> {
    match step
    case SendStart(_) => if phase.Taken? then [Started(phase.index)] else []
    case SendDone(_) => [Done]
    case SendFailed(_) => [Failed]
    case SendFatal(_) => [Fatal]
    case _ => []
  }

  function Stepped(s: State, w: nat, step: Step): State
    requires w in s.running
  {
    Moved(s, w, NewPhase(PhaseOf(s, w), s.stop, step), Sent(PhaseOf(s, w), step))
  }

  function Next(s: State, step: Step): State
    requires Enabled(s, step)
  {
    match step
    case RequestStop => s.(stop := true)
    case Get(w) =>
      (match s.pending[0]
       case End => Stepped(s, w, step).(pending := s.pending[1..], ended := s.ended + {w})
       case Task(i) => Moved(s, w, Taken(i), []).(pending := s.pending[1..]))
    case Receive(w) =>
      var worker := s.running[w];
      Handled(s.(running := s.running[w := Worker(worker.phase, worker.pipe[1..])]), w, worker.pipe[0])
    case Exit(w) => ExitHandled(s, w)
    case _ => Stepped(s, step.worker, step)
  }

  ghost predicate IsStep(s: State, step: Step, s': State) { Enabled(s, step) && s' == Next(s, step) }

  ghost predicate Follows(s: State, s': State) { exists step :: IsStep(s, step, s') }

  /** The states a run of steps leads to. */
  ghost predicate IsRun(tasks: nat, workers: nat, run: seq<State>) {
    && run != [] && run[0] == Start(tasks, workers)
    && forall i :: 0 <= i < |run| - 1 ==> Follows(run[i], run[i + 1])
  }

  // ---- What a worker still owes: the task the parent counts it on, those starting in its pipe, the one it holds.

  function Starts(pipe: seq<Event>): seq<nat> {
    if pipe == [] then [] else (if pipe[0].Started? then [pipe[0].index] else []) + Starts(pipe[1..])
  }

  function Counted(working: map<nat, nat>, w: nat): Option<nat> { if w in working then Some(working[w]) else None }

  function AsSeq(x: Option<nat>): seq<nat> { if x.Some? then [x.value] else [] }

  function Held(phase: Phase): seq<nat> {
    match phase
    case Taken(i) => [i]
    case Exited(_, holding) => AsSeq(holding)
    case _ => []
  }

  function OwedBy(counted: Option<nat>, worker: Worker): seq<nat> { AsSeq(counted) + Starts(worker.pipe) + Held(worker.phase) }

  function Owed(s: State, w: nat): seq<nat>
    requires w in s.running
  {
    OwedBy(Counted(s.working, w), s.running[w])
  }

  /** Read in order, starts and ends alternate. */
  predicate Legal(counted: Option<nat>, pipe: seq<Event>)
    decreases |pipe|
  {
    if pipe == [] then true
    else
      match pipe[0]
      case Started(i) => counted.None? && Legal(Some(i), pipe[1..])
      case Done => counted.Some? && Legal(None, pipe[1..])
      case Failed => counted.Some? && Legal(None, pipe[1..])
      case Fatal => counted.Some? && Legal(None, pipe[1..])
  }

  /** The task the parent counts the worker on once it has read the pipe. */
  function After(counted: Option<nat>, pipe: seq<Event>): Option<nat>
    decreases |pipe|
  {
    if pipe == [] then counted
    else After(match pipe[0] case Started(i) => Some(i) case _ => None, pipe[1..])
  }

  predicate Consistent(counted: Option<nat>, worker: Worker, stop: bool, allTaken: bool) {
    && Legal(counted, worker.pipe)
    && var after := After(counted, worker.pipe);
       match worker.phase
       case Solving(i) => after == Some(i)
       case Exited(Zero, holding) => holding.None? && (stop || Fatal in worker.pipe || (allTaken && after.None?))
       case Exited(Crashed, holding) => holding.None? && (stop || Fatal in worker.pipe || after.None?)
       case Exited(Memory, holding) => after.None? && holding.None?
       case Exited(Dead, holding) => holding.Some? ==> after.None?
       case _ => after.None?
  }

  // ---- The ledger: every task taken is on the books once.

  ghost predicate Distinct(x: seq<nat>) { forall i, j :: 0 <= i < j < |x| ==> x[i] != x[j] }

  /** The tasks the workers owe and those reported are all different and all taken. */
  ghost predicate Ledger(owed: map<nat, seq<nat>>, reported: seq<nat>, taken: nat) {
    && Distinct(reported) && (forall i :: i in reported ==> i < taken)
    && (forall w :: w in owed ==> Distinct(owed[w]) && forall i :: i in owed[w] ==> i < taken && i !in reported)
    && (forall v, w :: v in owed && w in owed && v != w ==> forall i :: i in owed[v] ==> i !in owed[w])
  }

  /** None of them is missing. */
  ghost predicate Complete(owed: map<nat, seq<nat>>, reported: seq<nat>, taken: nat) {
    forall i: nat :: i < taken ==> i in reported || exists w :: w in owed && i in owed[w]
  }

  ghost function OwedMap(s: State): (m: map<nat, seq<nat>>)
    ensures m.Keys == s.running.Keys && forall w :: w in m ==> m[w] == Owed(s, w)
  {
    map w | w in s.running :: Owed(s, w)
  }

  function Indices(reports: seq<Report>): (r: seq<nat>)
    ensures |r| == |reports| && forall i :: 0 <= i < |r| ==> r[i] == reports[i].index
  {
    seq(|reports|, i requires 0 <= i < |reports| => reports[i].index)
  }

  /** A worker takes the next task. */
  lemma LedgerTakes(owed: map<nat, seq<nat>>, reported: seq<nat>, taken: nat, w: nat)
    requires Ledger(owed, reported, taken) && w in owed
    ensures Ledger(owed[w := owed[w] + [taken]], reported, taken + 1)
    ensures Complete(owed, reported, taken) ==> Complete(owed[w := owed[w] + [taken]], reported, taken + 1)
  {
    var more := owed[w := owed[w] + [taken]];
    assert forall i :: i in more[w] ==> i in owed[w] || i == taken;
    assert forall k :: 0 <= k < |owed[w]| ==> owed[w][k] in owed[w];
    forall i: nat | i < taken + 1 && Complete(owed, reported, taken) ensures i in reported || exists v :: v in more && i in more[v] {
      if i == taken {
        assert more[w][|owed[w]|] == taken;
        assert taken in more[w];
      } else if i !in reported {
        var v :| v in owed && i in owed[v];
        assert i in more[v];
      }
    }
  }

  /** A worker's first task is reported. */
  lemma LedgerSettles(owed: map<nat, seq<nat>>, reported: seq<nat>, taken: nat, w: nat)
    requires Ledger(owed, reported, taken) && w in owed && owed[w] != []
    ensures Ledger(owed[w := owed[w][1..]], reported + [owed[w][0]], taken)
    ensures Complete(owed, reported, taken) ==> Complete(owed[w := owed[w][1..]], reported + [owed[w][0]], taken)
  {
    var less, more := owed[w := owed[w][1..]], reported + [owed[w][0]];
    assert owed[w][0] in owed[w];
    assert forall i :: i in owed[w][1..] ==> i in owed[w];
    assert owed[w][0] !in owed[w][1..];
    forall i: nat | i < taken && Complete(owed, reported, taken) ensures i in more || exists v :: v in less && i in less[v] {
      if i !in reported {
        var v :| v in owed && i in owed[v];
        if v == w && i != owed[w][0] { assert i in less[w]; } else if v != w { assert i in less[v]; }
      }
    }
  }

  /** Dropping what a worker owes keeps the ledger, though not complete. */
  lemma LedgerDrops(owed: map<nat, seq<nat>>, reported: seq<nat>, taken: nat, w: nat, k: nat)
    requires Ledger(owed, reported, taken) && w in owed && k <= |owed[w]|
    ensures Ledger(owed[w := owed[w][k..]], reported, taken)
    ensures Ledger(owed - {w}, reported, taken)
    ensures Complete(owed, reported, taken) && owed[w] == [] ==> Complete(owed - {w}, reported, taken)
  {
    assert forall i :: i in owed[w][k..] ==> i in owed[w];
    forall i: nat | i < taken && Complete(owed, reported, taken) && owed[w] == []
      ensures i in reported || exists v :: v in owed - {w} && i in (owed - {w})[v]
    {
      if i !in reported {
        var v :| v in owed && i in owed[v];
        assert v in owed - {w};
      }
    }
  }

  lemma LedgerAdds(owed: map<nat, seq<nat>>, reported: seq<nat>, taken: nat, w: nat)
    requires Ledger(owed, reported, taken) && w !in owed
    ensures Ledger(owed[w := []], reported, taken)
    ensures Complete(owed, reported, taken) ==> Complete(owed[w := []], reported, taken)
  {
    var more := owed[w := []];
    forall i: nat | i < taken && Complete(owed, reported, taken) ensures i in reported || exists v :: v in more && i in more[v] {
      if i !in reported {
        var v :| v in owed && i in owed[v];
        assert i in more[v];
      }
    }
  }

  // ---- The invariant.

  /** The queue keeps its order: the tasks not taken, then a marker per worker that has not taken one. */
  ghost predicate QueueIs(s: State, workers: nat, taken: nat) {
    && taken <= s.tasks && |s.ended| <= workers
    && s.pending == TasksFrom(taken, s.tasks) + Ends(workers - |s.ended|)
    && (s.ended != {} ==> taken == s.tasks)
  }

  ghost predicate WorkersAre(s: State, workers: nat) {
    && (forall w :: w in s.running ==> w < workers)
    && (forall w :: w in s.ended ==> w < workers)
    && (forall w :: w in s.running && w in s.ended ==> PhaseOf(s, w) == Exited(Zero, None) || PhaseOf(s, w) == Exited(Crashed, None))
  }

  ghost predicate AllConsistent(s: State, taken: nat) {
    forall w :: w in s.running ==> Consistent(Counted(s.working, w), s.running[w], s.stop, taken == s.tasks)
  }

  ghost predicate Counts(s: State) {
    && s.finished == |s.reports| && s.stored == StoredIn(s.reports) && !s.keyError && (s.error ==> s.stop)
  }

  function StoredIn(reports: seq<Report>): nat {
    if reports == [] then 0 else StoredIn(reports[..|reports| - 1]) + (if reports[|reports| - 1].stored then 1 else 0)
  }

  /** Until a stop, somebody is left to take what is left. */
  ghost predicate Staffed(s: State, taken: nat) {
    !s.stop ==> s.running.Keys != {} || taken == s.tasks || s.finished == s.tasks
  }

  ghost predicate Inv(s: State, workers: nat, taken: nat) {
    && QueueIs(s, workers, taken) && WorkersAre(s, workers) && AllConsistent(s, taken) && Counts(s) && Staffed(s, taken)
    && Ledger(OwedMap(s), Indices(s.reports), taken)
    && (!s.stop ==> Complete(OwedMap(s), Indices(s.reports), taken))
  }

  // ---- Every step keeps it.

  lemma {:induction false} Snoc(counted: Option<nat>, pipe: seq<Event>, e: Event)
    ensures Starts(pipe + [e]) == Starts(pipe) + (if e.Started? then [e.index] else [])
    ensures Legal(counted, pipe + [e]) <==> Legal(counted, pipe) && (e.Started? <==> After(counted, pipe).None?)
    ensures After(counted, pipe + [e]) == if e.Started? then Some(e.index) else None
    decreases |pipe|
  {
    if pipe == [] {
      assert (pipe + [e])[1..] == [];
    } else {
      assert (pipe + [e])[1..] == pipe[1..] + [e];
      Snoc(match pipe[0] case Started(i) => Some(i) case _ => None, pipe[1..], e);
    }
  }

  /** A worker's own steps, taking a task aside. */
  predicate IsQuiet(s: State, step: Step) {
    match step
    case Get(w) => s.pending != [] && s.pending[0].End?
    case RequestStop => false
    case Receive(_) => false
    case Exit(_) => false
    case _ => true
  }

  predicate Ready(phase: Phase, stop: bool, step: Step) {
    match step
    case Check(_) => phase.Looping?
    case Get(_) => phase.Waiting?
    case SendStart(_) => phase.Taken?
    case SendDone(_) => phase.Solving?
    case SendFailed(_) => phase.Solving?
    case SendFatal(_) => phase.Solving?
    case Abort(_) => phase.Solving? && stop
    case LeaveForMemory(_) => phase.Reported?
    case Continue(_) => phase.Reported?
    case Die(_) => !phase.Exited?
    case Crash(_) => IsLeaving(phase)
    case _ => false
  }

  lemma MoveKeeps(counted: Option<nat>, worker: Worker, stop: bool, allTaken: bool, step: Step)
    requires Consistent(counted, worker, stop, allTaken) && Ready(worker.phase, stop, step) && (step.Get? ==> allTaken)
    ensures var moved := Worker(NewPhase(worker.phase, stop, step), worker.pipe + Sent(worker.phase, step));
            Consistent(counted, moved, stop, allTaken) && OwedBy(counted, moved) == OwedBy(counted, worker)
  {
    hide Legal, After, Starts;
    var pipe, sent := worker.pipe, Sent(worker.phase, step);
    if sent == [] {
      assert pipe + [] == pipe;
    } else {
      Snoc(counted, pipe, sent[0]);
      assert sent == [sent[0]];
    }
  }

  lemma QuietStep(s: State, step: Step, workers: nat, taken: nat)
    requires Inv(s, workers, taken) && Enabled(s, step) && IsQuiet(s, step)
    ensures Inv(Next(s, step), workers, taken)
  {
    hide Ledger, Complete, StoredIn, Indices, QueueIs, WorkersAre, AllConsistent, OwedMap;
    var s', w := Next(s, step), step.worker;
    if step.Get? { MarkerTaken(s, workers, taken, w); }
    QuietConsistent(s, step, taken);
    assert s'.running.Keys == s.running.Keys;
    assert OwedMap(s') == OwedMap(s);
    QuietPhases(s, step, workers, taken);
  }

  lemma NextQuiet(s: State, step: Step)
    requires Enabled(s, step) && IsQuiet(s, step)
    ensures var w, s' := step.worker, Next(s, step);
            && w in s.running && Ready(PhaseOf(s, w), s.stop, step)
            && s'.running == s.running[w := Worker(NewPhase(PhaseOf(s, w), s.stop, step), s.running[w].pipe + Sent(PhaseOf(s, w), step))]
            && s'.working == s.working && s'.stop == s.stop && s'.tasks == s.tasks
  {
    hide NewPhase, Sent;
  }

  lemma QuietConsistent(s: State, step: Step, taken: nat)
    requires AllConsistent(s, taken) && Enabled(s, step) && IsQuiet(s, step) && (step.Get? ==> taken == s.tasks)
    ensures AllConsistent(Next(s, step), taken)
    ensures Next(s, step).running.Keys == s.running.Keys && forall v :: v in s.running ==> Owed(Next(s, step), v) == Owed(s, v)
  {
    hide Consistent, OwedBy, NewPhase, Sent, Next, Enabled;
    var w := step.worker;
    NextQuiet(s, step);
    MoveKeeps(Counted(s.working, w), s.running[w], s.stop, taken == s.tasks, step);
  }

  lemma QuietPhases(s: State, step: Step, workers: nat, taken: nat)
    requires QueueIs(s, workers, taken) && WorkersAre(s, workers) && Enabled(s, step) && IsQuiet(s, step)
    requires step.Get? ==> taken == s.tasks && step.worker !in s.ended && |s.ended| < workers
    requires step.Get? ==> s.pending[1..] == TasksFrom(taken, s.tasks) + Ends(workers - |s.ended| - 1)
    ensures QueueIs(Next(s, step), workers, taken) && WorkersAre(Next(s, step), workers)
  {
    if step.Get? { assert |s.ended + {step.worker}| == |s.ended| + 1; }
  }

  lemma MarkerTaken(s: State, workers: nat, taken: nat, w: nat)
    requires QueueIs(s, workers, taken) && WorkersAre(s, workers) && Alive(s, w) && s.pending != [] && s.pending[0].End?
    ensures taken == s.tasks && w !in s.ended && |s.ended| < workers
    ensures s.pending[1..] == TasksFrom(taken, s.tasks) + Ends(workers - |s.ended| - 1)
  {
    var all := TasksFrom(taken, s.tasks) + Ends(workers - |s.ended|);
    assert s.pending[0] == all[0];
  }

  lemma TakeStep(s: State, w: nat, workers: nat, taken: nat)
    requires Inv(s, workers, taken) && Enabled(s, Get(w)) && s.pending[0].Task?
    ensures Inv(Next(s, Get(w)), workers, taken + 1)
  {
    hide Ledger, Complete, StoredIn, Indices, OwedBy, Starts, Legal, After;
    var s' := Next(s, Get(w));
    HeadIsNext(s, workers, taken);
    assert s.running[w].pipe + [] == s.running[w].pipe;
    assert s'.running.Keys == s.running.Keys;
    TakenOwes(Counted(s.working, w), s.running[w], taken);
    forall v | v in s.running && v != w ensures Owed(s', v) == Owed(s, v) { }
    assert OwedMap(s') == OwedMap(s)[w := OwedMap(s)[w] + [taken]];
    LedgerTakes(OwedMap(s), Indices(s.reports), taken, w);
  }

  lemma TakenOwes(counted: Option<nat>, worker: Worker, taken: nat)
    requires worker.phase.Waiting?
    ensures OwedBy(counted, Worker(Taken(taken), worker.pipe)) == OwedBy(counted, worker) + [taken]
  {
    assert AsSeq(counted) + Starts(worker.pipe) + [] == AsSeq(counted) + Starts(worker.pipe);
  }

  lemma HeadIsNext(s: State, workers: nat, taken: nat)
    requires QueueIs(s, workers, taken) && s.pending != [] && s.pending[0].Task?
    ensures taken < s.tasks && s.pending[0].index == taken && s.ended == {}
    ensures s.pending[1..] == TasksFrom(taken + 1, s.tasks) + Ends(workers - |s.ended|)
  {
    var all := TasksFrom(taken, s.tasks) + Ends(workers - |s.ended|);
    assert s.pending[0] == all[0];
    assert TasksFrom(taken, s.tasks)[1..] == TasksFrom(taken + 1, s.tasks);
  }

  lemma StopStep(s: State, workers: nat, taken: nat)
    requires Inv(s, workers, taken)
    ensures Inv(s.(stop := true), workers, taken)
  {
    hide Ledger, Complete, StoredIn, Indices, Legal, After;
    assert OwedMap(s.(stop := true)) == OwedMap(s);
  }

  /** What reading one event does to the worker's account. */
  lemma ReadKeeps(counted: Option<nat>, worker: Worker, stop: bool, allTaken: bool)
    requires Consistent(counted, worker, stop, allTaken) && worker.pipe != []
    ensures var read := Worker(worker.phase, worker.pipe[1..]);
            match worker.pipe[0]
            case Started(i) => counted.None? && Consistent(Some(i), read, stop, allTaken) && OwedBy(Some(i), read) == OwedBy(counted, worker)
            case Fatal => counted.Some? && Consistent(None, read, true, allTaken) && OwedBy(None, read) == OwedBy(counted, worker)[1..]
            case _ => counted.Some? && Consistent(None, read, stop, allTaken) && OwedBy(None, read) == OwedBy(counted, worker)[1..]
    ensures counted.Some? ==> OwedBy(counted, worker) != [] && OwedBy(counted, worker)[0] == counted.value
  {
    var e, rest := worker.pipe[0], worker.pipe[1..];
    assert worker.pipe == [e] + rest;
    assert Starts(worker.pipe) == (if e.Started? then [e.index] else []) + Starts(rest);
  }

  lemma ReceiveStep(s: State, w: nat, workers: nat, taken: nat)
    requires Inv(s, workers, taken) && Enabled(s, Receive(w))
    ensures Inv(Next(s, Receive(w)), workers, taken)
  {
    hide Ledger, Complete, StoredIn, Consistent, Indices, QueueIs, WorkersAre, AllConsistent, Handled;
    ReceiveRest(s, w, workers, taken);
    ReceiveConsistent(s, w, taken);
    ReceiveLedger(s, w, taken);
  }

  lemma ReceiveRest(s: State, w: nat, workers: nat, taken: nat)
    requires Enabled(s, Receive(w)) && QueueIs(s, workers, taken) && WorkersAre(s, workers) && Counts(s) && AllConsistent(s, taken)
    ensures var s' := Next(s, Receive(w));
            QueueIs(s', workers, taken) && WorkersAre(s', workers) && Counts(s') && Staffed(s', taken)
  {
    hide Consistent, StoredIn;
    var event := s.running[w].pipe[0];
    ReadKeeps(Counted(s.working, w), s.running[w], s.stop, taken == s.tasks);
    assert w in Next(s, Receive(w)).running.Keys;
    if event.Done? || event.Failed? { OneMoreReport(s.reports, Report(s.working[w], event.Done?)); }
  }

  lemma ReceiveConsistent(s: State, w: nat, taken: nat)
    requires Enabled(s, Receive(w)) && AllConsistent(s, taken)
    ensures AllConsistent(Next(s, Receive(w)), taken)
  {
    hide Consistent;
    var s' := Next(s, Receive(w));
    ReadKeeps(Counted(s.working, w), s.running[w], s.stop, taken == s.tasks);
    assert s'.running.Keys == s.running.Keys;
    OthersKept(s, w);
    if s.running[w].pipe[0].Fatal? { StopKeepsConsistent(s, s', w, taken); }
  }

  lemma ReceiveLedger(s: State, w: nat, taken: nat)
    requires Enabled(s, Receive(w)) && AllConsistent(s, taken) && Ledger(OwedMap(s), Indices(s.reports), taken)
    requires !s.stop ==> Complete(OwedMap(s), Indices(s.reports), taken)
    ensures var s' := Next(s, Receive(w));
            && Ledger(OwedMap(s'), Indices(s'.reports), taken)
            && (!s'.stop ==> Complete(OwedMap(s'), Indices(s'.reports), taken))
  {
    hide Ledger, Complete, StoredIn, Consistent, OwedBy, Indices, OwedMap, Next;
    var s', event := Next(s, Receive(w)), s.running[w].pipe[0];
    var owed: map<nat, seq<nat>> := OwedMap(s);
    ReadOwes(s, w, taken);
    if event.Started? {
      assert OwedMap(s') == owed;
    } else {
      assert OwedMap(s') == owed[w := owed[w][1..]];
      if event.Fatal? {
        LedgerDrops(owed, Indices(s.reports), taken, w, 1);
      } else {
        LedgerSettles(owed, Indices(s.reports), taken, w);
        OneMoreReport(s.reports, Report(owed[w][0], event.Done?));
      }
    }
  }

  /** What the workers owe after the parent read one event, and what it reported. */
  lemma ReadOwes(s: State, w: nat, taken: nat)
    requires Enabled(s, Receive(w)) && AllConsistent(s, taken)
    ensures var s', event := Next(s, Receive(w)), s.running[w].pipe[0];
            && s'.running.Keys == s.running.Keys && (forall v :: v in s.running && v != w ==> Owed(s', v) == Owed(s, v))
            && (event.Started? ==> Owed(s', w) == Owed(s, w) && s'.reports == s.reports && s'.stop == s.stop)
            && (event.Fatal? ==> Owed(s, w) != [] && Owed(s', w) == Owed(s, w)[1..] && s'.reports == s.reports && s'.stop)
            && (event.Done? || event.Failed? ==> Owed(s, w) != [] && Owed(s', w) == Owed(s, w)[1..] && s'.stop == s.stop)
            && (event.Done? || event.Failed? ==> s'.reports == s.reports + [Report(Owed(s, w)[0], event.Done?)])
  {
    hide Consistent, OwedBy;
    ReadKeeps(Counted(s.working, w), s.running[w], s.stop, taken == s.tasks);
    OthersKept(s, w);
    assert Next(s, Receive(w)).running.Keys == s.running.Keys;
  }

  lemma OthersKept(s: State, w: nat)
    requires Enabled(s, Receive(w))
    ensures var s' := Next(s, Receive(w));
            forall v :: v in s.running && v != w ==> v in s'.running && Counted(s'.working, v) == Counted(s.working, v) && s'.running[v] == s.running[v]
  {
  }

  lemma OneMoreReport(reports: seq<Report>, r: Report)
    ensures Indices(reports + [r]) == Indices(reports) + [r.index]
    ensures StoredIn(reports + [r]) == StoredIn(reports) + (if r.stored then 1 else 0)
  {
    assert (reports + [r])[..|reports|] == reports;
  }

  lemma StopKeepsConsistent(s: State, s': State, w: nat, taken: nat)
    requires AllConsistent(s, taken) && s'.stop && s'.running.Keys == s.running.Keys && s'.tasks == s.tasks && w in s'.running
    requires forall v :: v in s.running && v != w ==> Counted(s'.working, v) == Counted(s.working, v) && s'.running[v] == s.running[v]
    requires Consistent(Counted(s'.working, w), s'.running[w], true, taken == s.tasks)
    ensures AllConsistent(s', taken)
  {
    hide Legal, After;
  }

  /** Handling an exit reads the worker's last events first, one by one. */
  lemma ExitReadsFirst(s: State, w: nat)
    requires w in s.running && PhaseOf(s, w).Exited? && s.running[w].pipe != []
    ensures var read := Next(s, Receive(w));
            w in read.running && read.running[w] == Worker(PhaseOf(s, w), s.running[w].pipe[1..]) && ExitHandled(read, w) == ExitHandled(s, w)
  {
    hide Settled, Respawned;
    var read, event, pipe := Next(s, Receive(w)), s.running[w].pipe[0], s.running[w].pipe;
    HandledRunning(s, w, event, s.running[w := Worker(PhaseOf(s, w), pipe[1..])]);
    HandledRunning(s, w, event, s.running - {w});
    assert s.running[w := Worker(PhaseOf(s, w), pipe[1..])] - {w} == s.running - {w};
    assert Gone(read, w) == Handled(Gone(s, w), w, event);
    assert Drained(Gone(s, w), w, pipe) == Drained(Handled(Gone(s, w), w, event), w, pipe[1..]);
  }

  /** Handling an event does not touch the running workers. */
  lemma HandledRunning(s: State, w: nat, event: Event, running: map<nat, Worker>)
    ensures Handled(s.(running := running), w, event) == Handled(s, w, event).(running := running)
  {
  }

  lemma {:induction false} ExitStep(s: State, w: nat, workers: nat, taken: nat)
    requires Inv(s, workers, taken) && Enabled(s, Exit(w))
    ensures Inv(Next(s, Exit(w)), workers, taken)
    decreases |s.running[w].pipe|
  {
    hide Inv, Drained, Handled;
    if s.running[w].pipe != [] {
      ReceiveStep(s, w, workers, taken);
      ExitReadsFirst(s, w);
      ExitStep(Next(s, Receive(w)), w, workers, taken);
    } else {
      BareExit(s, w, workers, taken);
    }
  }

  /** An exit with every event read: what the worker owed is reported, or nothing, or lost to a stop. */
  lemma BareExit(s: State, w: nat, workers: nat, taken: nat)
    requires Inv(s, workers, taken) && Enabled(s, Exit(w)) && s.running[w].pipe == []
    ensures Inv(Next(s, Exit(w)), workers, taken)
  {
    hide Inv, Respawned, Settled;
    var code := PhaseOf(s, w).code;
    if code.Zero? {
      ZeroLeaves(s, w, workers, taken);
    } else if IsDeath(code) && w !in s.working {
      DeadStops(s, w, workers, taken);
    } else if code.Dead? {
      DeadSettles(s, w, workers, taken);
    } else if code.Crashed? {
      CrashSettles(s, w, workers, taken);
    } else {
      MemoryLeaves(s, w, workers, taken);
    }
  }

  ghost predicate Bare(s: State, w: nat, workers: nat, taken: nat, code: ExitCode) {
    Inv(s, workers, taken) && Enabled(s, Exit(w)) && s.running[w].pipe == [] && PhaseOf(s, w).code == code
  }

  function Gone(s: State, w: nat): State { s.(running := s.running - {w}) }

  lemma GoneOwed(s: State, w: nat)
    requires w in s.running
    ensures OwedMap(Gone(s, w)) == OwedMap(s) - {w}
  {
    hide OwedBy;
  }

  lemma SameOwed(s: State, s': State)
    requires s'.running == s.running && s'.working == s.working
    ensures OwedMap(s') == OwedMap(s)
  {
    hide OwedBy;
  }

  /** What a worker with every event read still owes when it exits. */
  lemma BareOwes(s: State, w: nat, taken: nat)
    requires AllConsistent(s, taken) && w in s.running && PhaseOf(s, w).Exited? && s.running[w].pipe == []
    ensures PhaseOf(s, w).code.Zero? ==> s.stop || (Owed(s, w) == [] && taken == s.tasks)
    ensures PhaseOf(s, w).code.Memory? ==> Owed(s, w) == [] && w !in s.working
    ensures IsDeath(PhaseOf(s, w).code) && w in s.working ==> Owed(s, w) == [s.working[w]]
    ensures PhaseOf(s, w).code.Crashed? && w in s.working ==> s.stop
  {
    assert Consistent(Counted(s.working, w), s.running[w], s.stop, taken == s.tasks);
  }

  /** The rest of the invariant does not need the worker. */
  lemma GoneKeeps(s: State, w: nat, workers: nat, taken: nat)
    requires QueueIs(s, workers, taken) && WorkersAre(s, workers) && AllConsistent(s, taken) && Counts(s)
    ensures QueueIs(Gone(s, w), workers, taken) && WorkersAre(Gone(s, w), workers)
    ensures AllConsistent(Gone(s, w), taken) && Counts(Gone(s, w))
  {
    hide StoredIn, Consistent, TasksFrom, Ends;
  }

  lemma NotEnded(s: State, w: nat, workers: nat)
    requires WorkersAre(s, workers) && w in s.running && PhaseOf(s, w).Exited?
    requires PhaseOf(s, w).code.Dead? || PhaseOf(s, w).code.Memory?
    ensures w < workers && w !in s.ended
  {
  }

  lemma ZeroLeaves(s: State, w: nat, workers: nat, taken: nat)
    requires Bare(s, w, workers, taken, Zero)
    ensures Inv(Gone(s, w), workers, taken)
  {
    hide Ledger, Complete, StoredIn, Indices, QueueIs, WorkersAre, AllConsistent, Counts;
    BareOwes(s, w, taken);
    GoneOwed(s, w);
    GoneKeeps(s, w, workers, taken);
    LedgerDrops(OwedMap(s), Indices(s.reports), taken, w, 0);
  }

  lemma DeadStops(s: State, w: nat, workers: nat, taken: nat)
    requires Bare(s, w, workers, taken, Dead) || Bare(s, w, workers, taken, Crashed)
    ensures Inv(Gone(s, w).(error := true, stop := true), workers, taken)
  {
    hide Ledger, Complete, StoredIn, Indices, QueueIs, WorkersAre, AllConsistent, Counts;
    var gone := Gone(s, w);
    var stopped := gone.(error := true, stop := true);
    GoneOwed(s, w);
    GoneKeeps(s, w, workers, taken);
    SameOwed(gone, stopped);
    StoppedKeeps(gone, workers, taken);
    LedgerDrops(OwedMap(s), Indices(s.reports), taken, w, 0);
  }

  lemma StoppedKeeps(s: State, workers: nat, taken: nat)
    requires QueueIs(s, workers, taken) && WorkersAre(s, workers) && AllConsistent(s, taken) && Counts(s)
    ensures var stopped := s.(error := true, stop := true);
            QueueIs(stopped, workers, taken) && WorkersAre(stopped, workers) && AllConsistent(stopped, taken) && Counts(stopped)
  {
    hide StoredIn, Legal, After, TasksFrom, Ends;
  }

  lemma MemoryLeaves(s: State, w: nat, workers: nat, taken: nat)
    requires Bare(s, w, workers, taken, Memory)
    ensures Inv(Respawned(Gone(s, w), w), workers, taken)
  {
    hide Ledger, Complete, StoredIn, Indices, QueueIs, WorkersAre, AllConsistent, Counts, Respawned;
    BareOwes(s, w, taken);
    GoneOwed(s, w);
    GoneKeeps(s, w, workers, taken);
    NotEnded(s, w, workers);
    LedgerDrops(OwedMap(s), Indices(s.reports), taken, w, 0);
    RespawnKeeps(Gone(s, w), w, workers, taken);
  }

  /** A worker dead in a task: the task is reported failed. */
  lemma DeadSettles(s: State, w: nat, workers: nat, taken: nat)
    requires Bare(s, w, workers, taken, Dead) && w in s.working
    ensures Inv(Respawned(Settled(Gone(s, w), w, false), w), workers, taken)
  {
    hide Ledger, Complete, StoredIn, Indices, QueueIs, WorkersAre, AllConsistent, Counts, Respawned;
    var settled := Settled(Gone(s, w), w, false);
    var owed: map<nat, seq<nat>> := OwedMap(s);
    BareOwes(s, w, taken);
    assert owed[w] == [s.working[w]] && owed[w][1..] == [];
    LedgerSettles(owed, Indices(s.reports), taken, w);
    OneMoreReport(s.reports, Report(s.working[w], false));
    LedgerDrops(owed[w := []], Indices(settled.reports), taken, w, 0);
    SettledOwed(s, w);
    GoneKeeps(s, w, workers, taken);
    SettledKeeps(Gone(s, w), w, workers, taken);
    NotEnded(s, w, workers);
    RespawnKeeps(settled, w, workers, taken);
  }

  /** A worker dead after its loop, still counted on a task: only a stop leaves that, and the task is reported failed. */
  lemma CrashSettles(s: State, w: nat, workers: nat, taken: nat)
    requires Bare(s, w, workers, taken, Crashed) && w in s.working
    ensures Inv(Respawned(Settled(Gone(s, w), w, false), w), workers, taken)
  {
    hide Ledger, Complete, StoredIn, Indices, QueueIs, WorkersAre, AllConsistent, Counts;
    var settled := Settled(Gone(s, w), w, false);
    var owed: map<nat, seq<nat>> := OwedMap(s);
    BareOwes(s, w, taken);
    assert owed[w] == [s.working[w]] && owed[w][1..] == [];
    LedgerSettles(owed, Indices(s.reports), taken, w);
    OneMoreReport(s.reports, Report(s.working[w], false));
    LedgerDrops(owed[w := []], Indices(settled.reports), taken, w, 0);
    SettledOwed(s, w);
    GoneKeeps(s, w, workers, taken);
    SettledKeeps(Gone(s, w), w, workers, taken);
  }

  lemma SettledOwed(s: State, w: nat)
    requires w in s.running && w in s.working
    ensures OwedMap(Settled(Gone(s, w), w, false)) == OwedMap(s)[w := []] - {w}
  {
    hide OwedBy, OwedMap;
    var settled := Settled(Gone(s, w), w, false);
    forall v | v in settled.running ensures Owed(settled, v) == Owed(s, v) {
      assert v != w && Counted(settled.working, v) == Counted(s.working, v);
    }
    assert OwedMap(settled).Keys == (OwedMap(s)[w := []] - {w}).Keys;
  }

  lemma SettledKeeps(s: State, w: nat, workers: nat, taken: nat)
    requires QueueIs(s, workers, taken) && WorkersAre(s, workers) && AllConsistent(s, taken) && Counts(s)
    requires w !in s.running && w in s.working
    ensures var settled := Settled(s, w, false);
            QueueIs(settled, workers, taken) && WorkersAre(settled, workers) && AllConsistent(settled, taken) && Counts(settled)
  {
    hide StoredIn, Consistent, TasksFrom, Ends;
    var settled := Settled(s, w, false);
    OneMoreReport(s.reports, Report(s.working[w], false));
    forall v | v in s.running ensures Counted(settled.working, v) == Counted(s.working, v) { }
  }

  lemma RespawnKeeps(s: State, w: nat, workers: nat, taken: nat)
    requires QueueIs(s, workers, taken) && WorkersAre(s, workers) && AllConsistent(s, taken) && Counts(s)
    requires w !in s.running && w !in s.working && w < workers && w !in s.ended
    requires Ledger(OwedMap(s), Indices(s.reports), taken)
    requires !s.stop ==> Complete(OwedMap(s), Indices(s.reports), taken)
    ensures Inv(Respawned(s, w), workers, taken)
  {
    hide Ledger, Complete, StoredIn, Indices, QueueIs, Consistent;
    var s' := Respawned(s, w);
    if !s.stop && s.finished < s.tasks {
      assert w in s'.running.Keys;
      assert Consistent(None, FRESH, s.stop, taken == s.tasks) by { FreshIsConsistent(s.stop, taken == s.tasks); }
      assert OwedMap(s') == OwedMap(s)[w := []];
      LedgerAdds(OwedMap(s), Indices(s.reports), taken, w);
      assert QueueIs(s', workers, taken) by { SameQueue(s, s', workers, taken); }
    } else {
      FinishedAll(s, workers, taken);
    }
  }

  lemma FreshIsConsistent(stop: bool, allTaken: bool)
    ensures Consistent(None, FRESH, stop, allTaken) && OwedBy(None, FRESH) == []
  {
  }

  lemma SameQueue(s: State, s': State, workers: nat, taken: nat)
    requires QueueIs(s, workers, taken) && s'.pending == s.pending && s'.ended == s.ended && s'.tasks == s.tasks
    ensures QueueIs(s', workers, taken)
  {
  }

  lemma FinishedAll(s: State, workers: nat, taken: nat)
    requires QueueIs(s, workers, taken) && Counts(s) && Ledger(OwedMap(s), Indices(s.reports), taken)
    ensures s.finished <= s.tasks
  {
    LedgerFull(OwedMap(s), Indices(s.reports), taken);
  }

  lemma LedgerFull(owed: map<nat, seq<nat>>, reported: seq<nat>, taken: nat)
    requires Ledger(owed, reported, taken)
    ensures |reported| <= taken
  {
    DistinctFits(reported, taken);
  }

  ghost function Below(n: nat): (r: set<nat>)
    ensures |r| == n && forall i: nat :: i in r <==> i < n
  {
    if n == 0 then {} else Below(n - 1) + {n - 1}
  }

  ghost function Elements(x: seq<nat>): (r: set<nat>)
    ensures forall i: nat :: i in r <==> i in x
  {
    if x == [] then {} else Elements(x[..|x| - 1]) + {x[|x| - 1]}
  }

  lemma {:induction false} DistinctElements(x: seq<nat>)
    requires Distinct(x)
    ensures |Elements(x)| == |x|
  {
    if x != [] {
      var front := x[..|x| - 1];
      DistinctElements(front);
      assert x[|x| - 1] !in front;
    }
  }

  lemma DistinctFits(x: seq<nat>, n: nat)
    requires Distinct(x) && forall i :: i in x ==> i < n
    ensures |x| <= n
    ensures |x| == n ==> forall i: nat :: i < n ==> i in x
  {
    DistinctElements(x);
    SubsetSize(Elements(x), Below(n));
  }

  // ---- Over all runs.

  lemma StartHolds(tasks: nat, workers: nat)
    requires workers > 0
    ensures Inv(Start(tasks, workers), workers, 0)
  {
    var s := Start(tasks, workers);
    assert 0 in s.running.Keys;
    forall w | w in s.running ensures Consistent(Counted(s.working, w), s.running[w], false, 0 == tasks) && Owed(s, w) == [] {
      FreshIsConsistent(false, 0 == tasks);
    }
  }

  lemma StepKeeps(s: State, step: Step, workers: nat, taken: nat) returns (taken': nat)
    requires Inv(s, workers, taken) && Enabled(s, step)
    ensures Inv(Next(s, step), workers, taken')
  {
    hide Inv, Next;
    taken' := taken;
    if IsQuiet(s, step) {
      QuietStep(s, step, workers, taken);
    } else {
      match step
      case Get(w) =>
        TakeStep(s, w, workers, taken);
        taken' := taken + 1;
      case RequestStop => StopStep(s, workers, taken); NextStops(s);
      case Receive(w) => ReceiveStep(s, w, workers, taken);
      case Exit(w) => ExitStep(s, w, workers, taken);
    }
  }

  lemma NextStops(s: State)
    ensures Next(s, RequestStop) == s.(stop := true)
  {
  }

  lemma {:induction false} RunHolds(tasks: nat, workers: nat, run: seq<State>, i: nat) returns (taken: nat)
    requires workers > 0 && IsRun(tasks, workers, run) && i < |run|
    ensures Inv(run[i], workers, taken) && run[i].tasks == tasks
  {
    hide Inv, Next, Enabled;
    if i == 0 {
      StartHolds(tasks, workers);
      taken := 0;
    } else {
      taken := RunHolds(tasks, workers, run, i - 1);
      assert Follows(run[i - 1], run[i - 1 + 1]);
      var step :| IsStep(run[i - 1], step, run[i]);
      taken := StepKeeps(run[i - 1], step, workers, taken);
      TasksKept(run[i - 1], step);
    }
  }

  lemma TasksKept(s: State, step: Step)
    requires Enabled(s, step)
    ensures Next(s, step).tasks == s.tasks
  {
    if step.Exit? { DrainedTasks(s.(running := s.running - {step.worker}), step.worker, s.running[step.worker].pipe); }
  }

  lemma {:induction false} DrainedTasks(s: State, w: nat, pipe: seq<Event>)
    ensures Drained(s, w, pipe).tasks == s.tasks
    decreases |pipe|
  {
    if pipe != [] { DrainedTasks(Handled(s, w, pipe[0]), w, pipe[1..]); }
  }

  /** In every run, in every state: no task is reported twice, the counts are the reports, the parent never misses a
      task's start, and an error has stopped the run. */
  lemma ReportedOnce(tasks: nat, workers: nat, run: seq<State>, i: nat)
    requires workers > 0 && IsRun(tasks, workers, run) && i < |run|
    ensures forall p, q :: 0 <= p < q < |run[i].reports| ==> run[i].reports[p].index != run[i].reports[q].index
    ensures forall p :: 0 <= p < |run[i].reports| ==> run[i].reports[p].index < tasks
    ensures run[i].finished == |run[i].reports| && run[i].stored == StoredIn(run[i].reports)
    ensures !run[i].keyError && (run[i].error ==> run[i].stop)
  {
    hide QueueIs, WorkersAre, AllConsistent, Complete, StoredIn;
    var taken := RunHolds(tasks, workers, run, i);
    var reported := Indices(run[i].reports);
    forall p, q | 0 <= p < q < |reported| ensures reported[p] != reported[q] { }
    forall p | 0 <= p < |reported| ensures reported[p] < tasks {
      assert reported[p] in reported;
      TakenWithin(run[i], workers, taken);
    }
  }

  lemma TakenWithin(s: State, workers: nat, taken: nat)
    requires Inv(s, workers, taken)
    ensures taken <= s.tasks
  {
  }

  ghost predicate IsReported(reports: seq<Report>, t: nat) { exists p :: 0 <= p < |reports| && reports[p].index == t }

  /** Unless it was stopped, the parent's loop ends only with every task reported. */
  lemma EndsWithAllReported(tasks: nat, workers: nat, run: seq<State>, i: nat)
    requires workers > 0 && IsRun(tasks, workers, run) && i < |run|
    requires run[i].running.Keys == {} && !run[i].stop
    ensures run[i].finished == tasks && !run[i].error
    ensures forall t: nat :: t < tasks ==> IsReported(run[i].reports, t)
  {
    hide Inv, IsReported;
    var taken := RunHolds(tasks, workers, run, i);
    DoneHolds(run[i], workers, taken);
  }

  lemma DoneHolds(s: State, workers: nat, taken: nat)
    requires Inv(s, workers, taken) && s.running.Keys == {} && !s.stop
    ensures s.finished == s.tasks && !s.error
    ensures forall t: nat :: t < s.tasks ==> IsReported(s.reports, t)
  {
    hide QueueIs, WorkersAre, AllConsistent, StoredIn, Ledger, Complete;
    TakenWithin(s, workers, taken);
    LedgerFull(OwedMap(s), Indices(s.reports), taken);
    if taken == s.tasks { AllReported(s, taken); }
    FullIsAll(OwedMap(s), s.reports, taken);
  }

  lemma FullIsAll(owed: map<nat, seq<nat>>, reports: seq<Report>, taken: nat)
    requires Ledger(owed, Indices(reports), taken) && |reports| == taken
    ensures forall t: nat :: t < taken ==> IsReported(reports, t)
  {
    var reported := Indices(reports);
    DistinctFits(reported, taken);
    forall t: nat | t < taken ensures IsReported(reports, t) {
      assert t in reported;
      var p :| 0 <= p < |reported| && reported[p] == t;
      assert reports[p].index == t;
    }
  }

  lemma AllReported(s: State, taken: nat)
    requires Ledger(OwedMap(s), Indices(s.reports), taken) && Complete(OwedMap(s), Indices(s.reports), taken) && s.running.Keys == {}
    ensures |s.reports| == taken
  {
    var reported := Indices(s.reports);
    forall t: nat | t < taken ensures t in reported { }
    DistinctElements(reported);
    assert forall i :: i in reported ==> i < taken;
    assert Elements(reported) == Below(taken);
  }

  function MarkersLeft(pending: seq<Item>): (n: nat)
    ensures n <= |pending|
  {
    if pending == [] then 0 else (if pending[0].End? then 1 else 0) + MarkersLeft(pending[1..])
  }

  /** The end markers left cover the workers that have not taken one, so no worker waits on an empty queue. */
  lemma MarkersCover(tasks: nat, workers: nat, run: seq<State>, i: nat)
    requires workers > 0 && IsRun(tasks, workers, run) && i < |run|
    ensures |run[i].running.Keys - run[i].ended| <= MarkersLeft(run[i].pending)
    ensures forall w :: Alive(run[i], w) ==> w !in run[i].ended
    ensures forall w :: Alive(run[i], w) && PhaseOf(run[i], w).Waiting? ==> Enabled(run[i], Get(w))
  {
    hide Inv;
    var taken := RunHolds(tasks, workers, run, i);
    CoverHolds(run[i], workers, taken);
  }

  lemma CoverHolds(s: State, workers: nat, taken: nat)
    requires Inv(s, workers, taken)
    ensures |s.running.Keys - s.ended| <= MarkersLeft(s.pending)
    ensures forall w :: Alive(s, w) ==> w !in s.ended
    ensures forall w :: Alive(s, w) && PhaseOf(s, w).Waiting? ==> Enabled(s, Get(w))
  {
    hide AllConsistent, Ledger, Complete, StoredIn, MarkersLeft, Counts, Staffed, QueueIs, WorkersAre, Enabled, Alive;
    CoverCount(s, workers, taken);
    AliveOpen(s, workers);
    forall w | Alive(s, w) && PhaseOf(s, w).Waiting? ensures Enabled(s, Get(w)) {
      assert w in s.running.Keys - s.ended;
      MayGet(s, w, workers, taken);
    }
  }

  lemma CoverCount(s: State, workers: nat, taken: nat)
    requires QueueIs(s, workers, taken) && WorkersAre(s, workers)
    ensures |s.running.Keys - s.ended| <= MarkersLeft(s.pending)
    ensures forall w :: w in s.running.Keys - s.ended ==> |s.ended| < workers
  {
    hide MarkersLeft, TasksFrom, Ends;
    MarkersOf(taken, s.tasks, workers - |s.ended|);
    OpenWorkers(s.running.Keys, s.ended, workers);
  }

  lemma AliveOpen(s: State, workers: nat)
    requires WorkersAre(s, workers)
    ensures forall w :: Alive(s, w) ==> w !in s.ended && w in s.running.Keys - s.ended
  {
  }

  lemma MayGet(s: State, w: nat, workers: nat, taken: nat)
    requires Alive(s, w) && PhaseOf(s, w).Waiting? && QueueIs(s, workers, taken) && |s.ended| < workers
    ensures Enabled(s, Get(w))
  {
  }

  lemma OpenWorkers(running: set<nat>, ended: set<nat>, workers: nat)
    requires (forall w :: w in running ==> w < workers) && (forall w :: w in ended ==> w < workers)
    ensures |running - ended| <= workers - |ended|
    ensures forall w :: w in running - ended ==> |ended| < workers
  {
    var open, all := running - ended, Below(workers);
    assert ended <= all && all == (all - ended) + ended;
    assert |all| == |all - ended| + |ended|;
    SubsetSize(open, all - ended);
  }

  lemma {:induction false} MarkersOf(taken: nat, tasks: nat, markers: nat)
    requires taken <= tasks
    ensures MarkersLeft(TasksFrom(taken, tasks) + Ends(markers)) == markers
    decreases tasks - taken, markers
  {
    var all := TasksFrom(taken, tasks) + Ends(markers);
    if taken < tasks {
      assert all[1..] == TasksFrom(taken + 1, tasks) + Ends(markers);
      MarkersOf(taken + 1, tasks, markers);
    } else if markers > 0 {
      assert all[1..] == TasksFrom(taken, tasks) + Ends(markers - 1);
      MarkersOf(taken, tasks, markers - 1);
    }
  }
}
