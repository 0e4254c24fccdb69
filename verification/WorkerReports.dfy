/** What a run of the worker pool reports (gear_optimizer/pipeline/workers.py) against what its workers did: a task is counted
    as stored, as failed, or the run as broken off, exactly for what some worker's own step was. */
module WorkerReports {
  import opened Wrappers
  import opened WorkerPool

  // ---- What the workers did.

  /** A task solved and stored, one that failed, one whose worker died in it, a lost GPU, a death outside a task. */
  datatype Fact = Solved(task: nat) | Unsolved(task: nat) | Broken(task: nat) | LostGpu | DiedIdle

  /** The death of a worker that is on this task, or on none. */
  function Death(task: Option<nat>): Fact { if task.Some? then Broken(task.value) else DiedIdle }

  /** The task whose start a worker has sent and whose end it has not. */
  function OnTask(s: State, w: nat): Option<nat>
    requires w in s.running
  {
    After(Counted(s.working, w), s.running[w].pipe)
  }

  /** What a worker's step does to its task. */
  function Did(s: State, step: Step): set<Fact>
    requires Enabled(s, step)
  {
    match step
    case SendDone(w) => {Solved(PhaseOf(s, w).index)}
    case SendFailed(w) => {Unsolved(PhaseOf(s, w).index)}
    case SendFatal(w) => {LostGpu}
    case Die(w) => {Death(if PhaseOf(s, w).Solving? then Some(PhaseOf(s, w).index) else None)}
    case Crash(w) => {Death(OnTask(s, w))}
    case _ => {}
  }

  /** When a worker can die: in its loop, or out of it with a good exit code, while its GPU work stops. */
  lemma DeathsAre(s: State, w: nat)
    ensures Enabled(s, Die(w)) <==> w in s.running && !PhaseOf(s, w).Exited?
    ensures Enabled(s, Crash(w)) <==> w in s.running && PhaseOf(s, w).Exited? && !IsDeath(PhaseOf(s, w).code)
  {
  }

  /** The states of a run with the steps between them. */
  ghost predicate IsTrace(tasks: nat, workers: nat, run: seq<State>, steps: seq<Step>) {
    && |run| == |steps| + 1 && run[0] == Start(tasks, workers)
    && forall i :: 0 <= i < |steps| ==> IsStep(run[i], steps[i], run[i + 1])
  }

  /** Some of the first n steps did it. */
  ghost predicate Happened(run: seq<State>, steps: seq<Step>, n: nat, f: Fact) {
    exists j :: 0 <= j < n && j < |steps| && j < |run| && Enabled(run[j], steps[j]) && f in Did(run[j], steps[j])
  }

  // ---- What is still to be told of it.

  /** What the events in a pipe tell when they are read. */
  function PipeFacts(counted: Option<nat>, pipe: seq<Event>): set<Fact>
    decreases |pipe|
  {
    if pipe == [] then {}
    else
      match pipe[0]
      case Started(i) => PipeFacts(Some(i), pipe[1..])
      case Done => (if counted.Some? then {Solved(counted.value)} else {}) + PipeFacts(None, pipe[1..])
      case Failed => (if counted.Some? then {Unsolved(counted.value)} else {}) + PipeFacts(None, pipe[1..])
      case Fatal => {LostGpu} + PipeFacts(None, pipe[1..])
  }

  /** And a worker's exit. */
  function Pending(counted: Option<nat>, worker: Worker): set<Fact> {
    PipeFacts(counted, worker.pipe)
    + (if worker.phase.Exited? && IsDeath(worker.phase.code) then {Death(After(counted, worker.pipe))} else {})
  }

  /** The parent reported it, or will raise it. */
  predicate Told(s: State, f: Fact) {
    match f
    case Solved(t) => Report(t, true) in s.reports
    case Unsolved(t) => Report(t, false) in s.reports
    case Broken(t) => Report(t, false) in s.reports
    case LostGpu => s.error
    case DiedIdle => s.error
  }

  ghost predicate IsPending(s: State, w: nat, f: Fact) { w in s.running && f in Pending(Counted(s.working, w), s.running[w]) }

  ghost predicate Backed(s: State, facts: iset<Fact>) {
    && (forall r :: r in s.reports ==> if r.stored then Solved(r.index) in facts else Unsolved(r.index) in facts || Broken(r.index) in facts)
    && (s.error ==> LostGpu in facts || DiedIdle in facts)
  }

  /** Nothing is told or pending that was not done, and nothing done is lost. */
  ghost predicate Truthful(s: State, facts: iset<Fact>) {
    && Backed(s, facts)
    && (forall w, f :: IsPending(s, w, f) ==> f in facts)
    && (forall f :: f in facts ==> Told(s, f) || exists w :: IsPending(s, w, f))
  }

  // ---- A worker's step.

  lemma {:induction false} SnocFacts(counted: Option<nat>, pipe: seq<Event>, e: Event)
    ensures PipeFacts(counted, pipe + [e]) == PipeFacts(counted, pipe) + PipeFacts(After(counted, pipe), [e])
    decreases |pipe|
  {
    if pipe == [] {
      assert pipe + [e] == [e];
    } else {
      assert (pipe + [e])[1..] == pipe[1..] + [e];
      SnocFacts(match pipe[0] case Started(i) => Some(i) case _ => None, pipe[1..], e);
    }
  }

  /** The steps of a worker's own loop. */
  predicate IsOwn(step: Step) { !step.RequestStop? && !step.Receive? && !step.Exit? }

  /** A worker after its own step. */
  function MovedTo(s: State, step: Step): Worker
    requires Enabled(s, step) && IsOwn(step)
  {
    var worker := s.running[step.worker];
    if step.Get? && s.pending[0].Task? then Worker(Taken(s.pending[0].index), worker.pipe)
    else Worker(NewPhase(worker.phase, s.stop, step), worker.pipe + Sent(worker.phase, step))
  }

  lemma OwnStep(s: State, step: Step)
    requires Enabled(s, step) && IsOwn(step)
    ensures var s' := Next(s, step);
            step.worker in s.running && s'.running == s.running[step.worker := MovedTo(s, step)] && s'.working == s.working && s'.reports == s.reports && s'.error == s.error
  {
    assert s.running[step.worker].pipe + [] == s.running[step.worker].pipe;
  }

  /** It adds to what is pending of its worker just what it did. */
  lemma OwnAdds(s: State, step: Step, allTaken: bool)
    requires Enabled(s, step) && IsOwn(step)
    requires Consistent(Counted(s.working, step.worker), s.running[step.worker], s.stop, allTaken)
    ensures var counted := Counted(s.working, step.worker);
            Pending(counted, MovedTo(s, step)) == Pending(counted, s.running[step.worker]) + Did(s, step)
  {
    hide Legal;
    var counted, worker := Counted(s.working, step.worker), s.running[step.worker];
    var sent := Sent(worker.phase, step);
    if sent == [] {
      assert worker.pipe + sent == worker.pipe;
    } else {
      assert sent == [sent[0]];
      SnocFacts(counted, worker.pipe, sent[0]);
      OneFact(After(counted, worker.pipe), sent[0]);
    }
  }

  lemma OneFact(counted: Option<nat>, e: Event)
    ensures PipeFacts(counted, [e]) == match e
              case Started(_) => {}
              case Done => if counted.Some? then {Solved(counted.value)} else {}
              case Failed => if counted.Some? then {Unsolved(counted.value)} else {}
              case Fatal => {LostGpu}
  {
    assert [e][1..] == [];
  }

  lemma OwnKeeps(s: State, step: Step, facts: iset<Fact>, allTaken: bool)
    requires Enabled(s, step) && IsOwn(step) && Truthful(s, facts)
    requires Consistent(Counted(s.working, step.worker), s.running[step.worker], s.stop, allTaken)
    ensures Truthful(Next(s, step), facts + iset f | f in Did(s, step))
  {
    hide Consistent, Pending, Did, Next, MovedTo, Enabled;
    var s', all := Next(s, step), facts + iset f | f in Did(s, step);
    OwnStep(s, step);
    OwnAdds(s, step, allTaken);
    forall v, f ensures IsPending(s', v, f) <==> IsPending(s, v, f) || (v == step.worker && f in Did(s, step)) { }
    forall f | f in all ensures Told(s', f) || exists v :: IsPending(s', v, f) {
      if f in facts {
        if v :| IsPending(s, v, f) { assert IsPending(s', v, f); }
      } else {
        assert IsPending(s', step.worker, f);
      }
    }
  }

  // ---- The parent's steps.

  /** Reading one event tells what it says, and no more. */
  lemma HandledTells(s: State, w: nat, e: Event, facts: iset<Fact>)
    requires Backed(s, facts) && (e.Done? || e.Failed? ==> w in s.working) && forall f :: f in PipeFacts(Counted(s.working, w), [e]) ==> f in facts
    ensures var s' := Handled(s, w, e);
            && Backed(s', facts) && (forall f :: Told(s, f) ==> Told(s', f)) && (forall f :: f in PipeFacts(Counted(s.working, w), [e]) ==> Told(s', f))
            && s'.running == s.running && (forall v :: v != w ==> Counted(s'.working, v) == Counted(s.working, v))
            && Counted(s'.working, w) == After(Counted(s.working, w), [e])
            && (s'.error <==> s.error || e.Fatal?)
  {
    OneFact(Counted(s.working, w), e);
    var s' := Handled(s, w, e);
    assert forall r :: r in s.reports ==> r in s'.reports;
    if e.Done? || e.Failed? { assert Report(s.working[w], e.Done?) in s'.reports; }
  }

  lemma FirstFacts(counted: Option<nat>, pipe: seq<Event>)
    requires pipe != [] && Legal(counted, pipe)
    ensures PipeFacts(counted, pipe) == PipeFacts(counted, [pipe[0]]) + PipeFacts(After(counted, [pipe[0]]), pipe[1..])
    ensures After(counted, pipe) == After(After(counted, [pipe[0]]), pipe[1..]) && Legal(After(counted, [pipe[0]]), pipe[1..])
    ensures pipe[0].Done? || pipe[0].Failed? ==> counted.Some?
  {
    OneFact(counted, pipe[0]);
  }

  lemma {:induction false} DrainedTells(s: State, w: nat, pipe: seq<Event>, facts: iset<Fact>)
    requires Backed(s, facts) && Legal(Counted(s.working, w), pipe) && forall f :: f in PipeFacts(Counted(s.working, w), pipe) ==> f in facts
    ensures var s' := Drained(s, w, pipe);
            && Backed(s', facts) && (forall f :: Told(s, f) ==> Told(s', f)) && (forall f :: f in PipeFacts(Counted(s.working, w), pipe) ==> Told(s', f))
            && s'.running == s.running && (forall v :: v != w ==> Counted(s'.working, v) == Counted(s.working, v))
            && Counted(s'.working, w) == After(Counted(s.working, w), pipe)
            && (s'.error <==> s.error || Fatal in pipe)
    decreases |pipe|
  {
    hide Backed, Told, Legal, PipeFacts, After, Handled;
    if pipe == [] {
      NothingRead(Counted(s.working, w));
    } else {
      FirstFacts(Counted(s.working, w), pipe);
      HandledTells(s, w, pipe[0], facts);
      DrainedTells(Handled(s, w, pipe[0]), w, pipe[1..], facts);
    }
  }

  lemma NothingRead(counted: Option<nat>)
    ensures PipeFacts(counted, []) == {} && After(counted, []) == counted
  {
  }

  lemma ReceiveKeeps(s: State, w: nat, facts: iset<Fact>)
    requires Enabled(s, Receive(w)) && Truthful(s, facts) && Legal(Counted(s.working, w), s.running[w].pipe)
    ensures Truthful(Next(s, Receive(w)), facts)
    ensures Next(s, Receive(w)).error <==> s.error || s.running[w].pipe[0].Fatal?
  {
    hide Backed, Told, Legal, PipeFacts, After, Handled;
    var worker, counted := s.running[w], Counted(s.working, w);
    var read := s.(running := s.running[w := Worker(worker.phase, worker.pipe[1..])]);
    var s' := Next(s, Receive(w));
    assert s' == Handled(read, w, worker.pipe[0]);
    assert Backed(read, facts) by { SameReports(s, read, facts); }
    FirstFacts(counted, worker.pipe);
    assert forall f :: f in PipeFacts(counted, worker.pipe) ==> IsPending(s, w, f);
    HandledTells(read, w, worker.pipe[0], facts);
    forall v, f | v != w ensures IsPending(s', v, f) <==> IsPending(s, v, f) { }
    forall f ensures IsPending(s, w, f) <==> IsPending(s', w, f) || f in PipeFacts(counted, [worker.pipe[0]]) { }
    forall f | f in facts ensures Told(s', f) || exists v :: IsPending(s', v, f) {
      SameTold(s, read, f);
      if !Told(s', f) {
        var v :| IsPending(s, v, f);
        assert IsPending(s', v, f);
      }
    }
  }

  lemma SameReports(s: State, s': State, facts: iset<Fact>)
    requires Backed(s, facts) && s'.reports == s.reports && s'.error == s.error
    ensures Backed(s', facts)
  {
  }

  lemma SameTold(s: State, s': State, f: Fact)
    requires s'.reports == s.reports && s'.error == s.error
    ensures Told(s, f) <==> Told(s', f)
  {
  }

  /** The exit of a worker that died: its task is reported failed, or the run is broken off. */
  predicate DiesIdle(s: State, w: nat)
    requires w in s.running
  {
    PhaseOf(s, w).Exited? && IsDeath(PhaseOf(s, w).code) && OnTask(s, w).None?
  }

  lemma ExitTells(s: State, w: nat, facts: iset<Fact>)
    requires Enabled(s, Exit(w)) && Backed(s, facts) && Legal(Counted(s.working, w), s.running[w].pipe)
    requires forall f :: f in Pending(Counted(s.working, w), s.running[w]) ==> f in facts
    requires PhaseOf(s, w).code.Memory? ==> OnTask(s, w).None?
    ensures var s' := Next(s, Exit(w));
            && Backed(s', facts) && (forall f :: Told(s, f) ==> Told(s', f))
            && (forall f :: f in Pending(Counted(s.working, w), s.running[w]) ==> Told(s', f))
            && (s'.running == s.running - {w} || s'.running == (s.running - {w})[w := FRESH])
            && (forall v :: v != w ==> Counted(s'.working, v) == Counted(s.working, v))
            && (s'.error <==> s.error || Fatal in s.running[w].pipe || DiesIdle(s, w))
  {
    hide Backed, Told, Legal, PipeFacts, After;
    var less, pipe, code := s.(running := s.running - {w}), s.running[w].pipe, PhaseOf(s, w).code;
    SameReports(s, less, facts);
    forall f ensures Told(s, f) <==> Told(less, f) { SameTold(s, less, f); }
    DrainedTells(less, w, pipe, facts);
    var d := Drained(less, w, pipe);
    if code.Memory? {
      RespawnTells(d, w, facts);
    } else if IsDeath(code) {
      DeathTells(d, w, facts);
    }
  }

  lemma RespawnTells(d: State, w: nat, facts: iset<Fact>)
    requires Backed(d, facts)
    ensures var s' := Respawned(d, w);
            Backed(s', facts) && (forall f :: Told(s', f) <==> Told(d, f)) && s'.working == d.working && s'.error == d.error
            && (s'.running == d.running || s'.running == d.running[w := FRESH])
  {
  }

  lemma DeathTells(d: State, w: nat, facts: iset<Fact>)
    requires Backed(d, facts) && Death(Counted(d.working, w)) in facts
    ensures var s' := if w !in d.working then d.(error := true, stop := true) else Respawned(Settled(d, w, false), w);
            && Backed(s', facts) && (forall f :: Told(d, f) ==> Told(s', f)) && Told(s', Death(Counted(d.working, w)))
            && (s'.running == d.running || s'.running == d.running[w := FRESH])
            && (forall v :: v != w ==> Counted(s'.working, v) == Counted(d.working, v))
            && (s'.error <==> d.error || w !in d.working)
  {
    if w in d.working {
      var settled := Settled(d, w, false);
      assert forall r :: r in d.reports ==> r in settled.reports;
      assert Report(d.working[w], false) in settled.reports;
      RespawnTells(settled, w, facts);
    }
  }

  lemma ExitKeeps(s: State, w: nat, facts: iset<Fact>)
    requires Enabled(s, Exit(w)) && Truthful(s, facts) && Legal(Counted(s.working, w), s.running[w].pipe)
    requires PhaseOf(s, w).code.Memory? ==> OnTask(s, w).None?
    ensures Truthful(Next(s, Exit(w)), facts)
    ensures Next(s, Exit(w)).error <==> s.error || Fatal in s.running[w].pipe || DiesIdle(s, w)
  {
    hide Backed, Told, Legal, PipeFacts, After, Next, DiesIdle, OnTask;
    var s' := Next(s, Exit(w));
    assert forall f :: f in Pending(Counted(s.working, w), s.running[w]) ==> IsPending(s, w, f);
    ExitTells(s, w, facts);
    FreshPends(Counted(s'.working, w));
    forall v, f ensures IsPending(s', v, f) <==> v != w && IsPending(s, v, f) { }
    forall f | f in facts ensures Told(s', f) || exists v :: IsPending(s', v, f) {
      if !Told(s', f) {
        var v :| IsPending(s, v, f);
        assert IsPending(s', v, f);
      }
    }
  }

  lemma FreshPends(counted: Option<nat>)
    ensures Pending(counted, FRESH) == {}
  {
  }

  // ---- Over a run.

  ghost function Facts(run: seq<State>, steps: seq<Step>, n: nat): iset<Fact> { iset f | Happened(run, steps, n, f) }

  /** The parent reads of a lost GPU, or handles the exit of a worker that died outside a task. */
  ghost predicate Fails(s: State, step: Step)
    requires Enabled(s, step)
  {
    match step
    case Receive(w) => s.running[w].pipe[0].Fatal?
    case Exit(w) => Fatal in s.running[w].pipe || DiesIdle(s, w)
    case _ => false
  }

  lemma StepIsTruthful(s: State, step: Step, workers: nat, taken: nat, facts: iset<Fact>)
    requires Inv(s, workers, taken) && Enabled(s, step) && Truthful(s, facts)
    ensures Truthful(Next(s, step), facts + iset f | f in Did(s, step))
    ensures Next(s, step).error <==> s.error || Fails(s, step)
  {
    hide Truthful, Next, QueueIs, WorkersAre, Counts, Staffed, Ledger, Complete, Legal, After;
    var all := facts + iset f | f in Did(s, step);
    if IsOwn(step) {
      OwnKeeps(s, step, facts, taken == s.tasks);
      OwnStep(s, step);
    } else {
      assert all == facts;
      match step
      case RequestStop => StopKeeps(s, facts);
      case Receive(w) => ReceiveKeeps(s, w, facts);
      case Exit(w) => ExitKeeps(s, w, facts);
    }
  }

  lemma StopKeeps(s: State, facts: iset<Fact>)
    requires Truthful(s, facts)
    ensures Truthful(Next(s, RequestStop), facts) && Next(s, RequestStop).error == s.error
  {
    hide Pending;
    var s' := Next(s, RequestStop);
    SameReports(s, s', facts);
    forall f ensures Told(s, f) <==> Told(s', f) { SameTold(s, s', f); }
    forall v, f ensures IsPending(s', v, f) <==> IsPending(s, v, f) { }
  }

  lemma MoreHappened(run: seq<State>, steps: seq<Step>, n: nat)
    requires n < |steps| < |run| && Enabled(run[n], steps[n])
    ensures Facts(run, steps, n + 1) == Facts(run, steps, n) + iset f | f in Did(run[n], steps[n])
  {
    hide Did, Enabled;
    forall f ensures Happened(run, steps, n + 1, f) <==> Happened(run, steps, n, f) || f in Did(run[n], steps[n]) {
      if Happened(run, steps, n + 1, f) {
        var j :| 0 <= j < n + 1 && j < |steps| && j < |run| && Enabled(run[j], steps[j]) && f in Did(run[j], steps[j]);
        assert j < n ==> Happened(run, steps, n, f);
      }
    }
  }

  lemma StartIsTruthful(tasks: nat, workers: nat, facts: iset<Fact>)
    requires facts == iset{}
    ensures Truthful(Start(tasks, workers), facts) && !Start(tasks, workers).error
  {
    var s := Start(tasks, workers);
    forall w, f ensures !IsPending(s, w, f) { if w in s.running { FreshPends(Counted(s.working, w)); } }
  }

  lemma TraceIsRun(tasks: nat, workers: nat, run: seq<State>, steps: seq<Step>)
    requires IsTrace(tasks, workers, run, steps)
    ensures IsRun(tasks, workers, run)
  {
    hide Enabled, Next;
    forall i | 0 <= i < |run| - 1 ensures Follows(run[i], run[i + 1]) {
      assert IsStep(run[i], steps[i], run[i + 1]);
    }
  }

  /** In every state of every run: what is told or pending is what the workers did, and nothing of it is lost. */
  lemma {:induction false} RunIsTruthful(tasks: nat, workers: nat, run: seq<State>, steps: seq<Step>, i: nat)
    requires workers > 0 && IsTrace(tasks, workers, run, steps) && i < |run|
    ensures Truthful(run[i], Facts(run, steps, i))
  {
    hide Truthful, Inv, Next, Enabled, Did;
    if i == 0 {
      assert Facts(run, steps, 0) == iset{};
      StartIsTruthful(tasks, workers, Facts(run, steps, 0));
    } else {
      RunIsTruthful(tasks, workers, run, steps, i - 1);
      TraceIsRun(tasks, workers, run, steps);
      var taken := RunHolds(tasks, workers, run, i - 1);
      assert IsStep(run[i - 1], steps[i - 1], run[i]);
      StepIsTruthful(run[i - 1], steps[i - 1], workers, taken, Facts(run, steps, i - 1));
      MoreHappened(run, steps, i - 1);
    }
  }

  /** One of the first n steps broke the run off. */
  ghost predicate FailedBefore(run: seq<State>, steps: seq<Step>, n: nat) {
    exists j :: 0 <= j < n && FailsAt(run, steps, j)
  }

  ghost predicate FailsAt(run: seq<State>, steps: seq<Step>, j: int) {
    0 <= j < |steps| && j < |run| && Enabled(run[j], steps[j]) && Fails(run[j], steps[j])
  }

  lemma MoreFailed(run: seq<State>, steps: seq<Step>, n: nat)
    ensures FailedBefore(run, steps, n + 1) <==> FailedBefore(run, steps, n) || FailsAt(run, steps, n)
  {
    hide FailsAt;
  }

  /** There is an error exactly when the parent read of a lost GPU or handled the exit of a worker that died outside a task. */
  lemma {:induction false} ErrorIs(tasks: nat, workers: nat, run: seq<State>, steps: seq<Step>, i: nat)
    requires workers > 0 && IsTrace(tasks, workers, run, steps) && i < |run|
    ensures run[i].error <==> FailedBefore(run, steps, i)
  {
    hide Truthful, Inv, Next, Enabled, Fails;
    if i == 0 {
      StartIsTruthful(tasks, workers, iset{});
    } else {
      ErrorIs(tasks, workers, run, steps, i - 1);
      MoreFailed(run, steps, i - 1);
      RunIsTruthful(tasks, workers, run, steps, i - 1);
      TraceIsRun(tasks, workers, run, steps);
      var taken := RunHolds(tasks, workers, run, i - 1);
      assert IsStep(run[i - 1], steps[i - 1], run[i]);
      StepIsTruthful(run[i - 1], steps[i - 1], workers, taken, Facts(run, steps, i - 1));
    }
  }

  /** No report without a worker's step: stored only if its worker sent it done, failed only if it sent that or died in it. */
  lemma ReportsAreTrue(tasks: nat, workers: nat, run: seq<State>, steps: seq<Step>, i: nat, t: nat)
    requires workers > 0 && IsTrace(tasks, workers, run, steps) && i < |run|
    ensures Report(t, true) in run[i].reports ==> Happened(run, steps, i, Solved(t))
    ensures Report(t, false) in run[i].reports ==> Happened(run, steps, i, Unsolved(t)) || Happened(run, steps, i, Broken(t))
    ensures run[i].error ==> Happened(run, steps, i, LostGpu) || Happened(run, steps, i, DiedIdle)
  {
    hide Happened;
    RunIsTruthful(tasks, workers, run, steps, i);
  }

  /** When the parent's loop ends, stopped or not: the tasks stored are those whose worker took SendDone, the failed ones those
      that failed or whose worker died in them, and there is an error exactly if a worker lost its GPU or died outside a task. */
  lemma EndsTruthfully(tasks: nat, workers: nat, run: seq<State>, steps: seq<Step>, i: nat, t: nat)
    requires workers > 0 && IsTrace(tasks, workers, run, steps) && i < |run| && run[i].running.Keys == {}
    ensures Report(t, true) in run[i].reports <==> Happened(run, steps, i, Solved(t))
    ensures Report(t, false) in run[i].reports <==> Happened(run, steps, i, Unsolved(t)) || Happened(run, steps, i, Broken(t))
    ensures run[i].error <==> Happened(run, steps, i, LostGpu) || Happened(run, steps, i, DiedIdle)
  {
    hide Happened, Pending;
    RunIsTruthful(tasks, workers, run, steps, i);
    assert forall f :: f in Facts(run, steps, i) ==> Told(run[i], f);
    assert Told(run[i], Solved(t)) <== Happened(run, steps, i, Solved(t));
    assert Told(run[i], Unsolved(t)) <== Happened(run, steps, i, Unsolved(t));
    assert Told(run[i], Broken(t)) <== Happened(run, steps, i, Broken(t));
    assert Told(run[i], LostGpu) <== Happened(run, steps, i, LostGpu);
    assert Told(run[i], DiedIdle) <== Happened(run, steps, i, DiedIdle);
  }

  /** Every run has its steps. */
  lemma {:induction false} RunHasTrace(tasks: nat, workers: nat, run: seq<State>, n: nat) returns (steps: seq<Step>)
    requires IsRun(tasks, workers, run) && n < |run|
    ensures |steps| == n && forall i :: 0 <= i < n ==> IsStep(run[i], steps[i], run[i + 1])
  {
    hide IsStep;
    if n == 0 {
      steps := [];
    } else {
      steps := RunHasTrace(tasks, workers, run, n - 1);
      assert Follows(run[n - 1], run[n - 1 + 1]);
      var step :| IsStep(run[n - 1], step, run[n]);
      steps := steps + [step];
    }
  }
}
