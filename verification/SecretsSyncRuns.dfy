/** The fan-out over whole schedules, and the program that runs one. */
module SecretsSyncRuns {
  import opened Text
  import opened Sequences
  import opened SecretsSync
  import opened SecretsSyncProofs

  function Names(cfg: Config): set<string> {
    set name | name in cfg.clusters
  }

  lemma {:induction false} RunKeeps(cfg: Config, s: State, schedule: seq<Step>)
    requires Inv(cfg, s) && Run(cfg, s, schedule).Some?
    ensures var s' := Run(cfg, s, schedule).value;
      Inv(cfg, s') && |schedule| + StepsLeft(cfg, s') <= StepsLeft(cfg, s)
    decreases |schedule|
  {
    if schedule != [] {
      hide Apply, StepsLeft, Counted, Locked, Flagged, Bounded, Mapped;
      StepKeeps(cfg, s, schedule[0]);
      StepProgresses(cfg, s, schedule[0]);
      RunKeeps(cfg, Apply(cfg, s, schedule[0]), schedule[1..]);
    }
  }

  /** Never more syncs in flight than the limit, and every slot held is accounted for. */
  lemma AtMostLimitInFlight(cfg: Config, schedule: seq<Step>)
    requires Run(cfg, Initial(cfg), schedule).Some?
    ensures var s := Run(cfg, Initial(cfg), schedule).value;
      Count(s.pcs, Syncing) <= s.slots <= cfg.concurrency
  {
    InitialInv(cfg);
    RunKeeps(cfg, Initial(cfg), schedule);
    CountLess(Run(cfg, Initial(cfg), schedule).value.pcs, Syncing, HoldsSlot);
  }

  /** With stop-on-error, at most the limit fail, and once the flag is set fewer than the limit still record. */
  lemma StopOnErrorIsPrompt(cfg: Config, schedule: seq<Step>)
    requires cfg.stopOnError && Run(cfg, Initial(cfg), schedule).Some?
    ensures var s := Run(cfg, Initial(cfg), schedule).value;
      && |s.failures| <= Count(s.pcs, Failing) <= cfg.concurrency
      && (s.stopFlag ==> s.late <= cfg.concurrency - 1)
      && (s.stopFlag <==> Count(s.pcs, Failing) > 0)
  {
    InitialInv(cfg);
    RunKeeps(cfg, Initial(cfg), schedule);
  }

  lemma {:induction false} CountWitness(pcs: seq<Pc>, p: Pc -> bool) returns (i: nat)
    requires Count(pcs, p) > 0
    ensures i < |pcs| && p(pcs[i])
  {
    if p(pcs[0]) { i := 0; } else { i := CountWitness(pcs[1..], p); i := i + 1; }
  }

  predicate HasStep(cfg: Config, s: State) {
    MainEnabled(cfg, s) || exists i :: 0 <= i < |s.pcs| && WorkerEnabled(cfg, s, i)
  }

  lemma NeverStuck(cfg: Config, s: State)
    requires Inv(cfg, s) && cfg.concurrency >= 1 && !s.main.Returned?
    ensures HasStep(cfg, s)
  {
    hide Mapped, Flagged, Bounded, Count;
    if s.mutex.Worker? {
      assert WorkerEnabled(cfg, s, s.mutex.i);
    } else if !MainEnabled(cfg, s) {
      var j := CountWitness(s.pcs, Alive);
      if s.pcs[j].AtSemaphore? && s.slots >= cfg.concurrency {
        var k := CountWitness(s.pcs, HoldsSlot);
        assert WorkerEnabled(cfg, s, k);
      } else {
        assert WorkerEnabled(cfg, s, j);
      }
    }
  }

  // ---------------------------------------------------------------- what the syncs returned

  /** What the sync of cluster j returned in the course of a schedule, if it has returned. */
  function Outcome(cfg: Config, s: State, schedule: seq<Step>, j: nat): Option<bool>
    requires Run(cfg, s, schedule).Some? && j < |cfg.clusters|
    decreases |schedule|
  {
    if schedule == [] then None
    else if schedule[0].WorkerMoves? && schedule[0].i == j && s.pcs[j].InSync? then Some(schedule[0].ok)
    else Outcome(cfg, Apply(cfg, s, schedule[0]), schedule[1..], j)
  }

  ghost function Outcomes(cfg: Config, schedule: seq<Step>): (outcomes: seq<Option<bool>>)
    requires Run(cfg, Initial(cfg), schedule).Some?
    ensures |outcomes| == |cfg.clusters|
  {
    seq(|cfg.clusters|, j requires 0 <= j < |cfg.clusters| => Outcome(cfg, Initial(cfg), schedule, j))
  }

  /** The outcome a goroutine carries once its sync has returned. */
  function ResultOf(pc: Pc): Option<bool> {
    match pc
    case WantRecord(ok) => Some(ok)
    case Recording(ok) => Some(ok)
    case _ =>
      if FateOf(pc) == Some(Synced) then Some(true)
      else if FateOf(pc) == Some(Errored) then Some(false)
      else None
  }

  lemma WorkerResult(cfg: Config, s: State, i: nat, ok: bool)
    requires WellSized(cfg, s) && i < |s.pcs| && WorkerEnabled(cfg, s, i)
    ensures var s' := ApplyWorker(cfg, s, i, ok);
      |s'.pcs| == |s.pcs| && ResultOf(s'.pcs[i]) == if s.pcs[i].InSync? then Some(ok) else ResultOf(s.pcs[i])
  {
  }

  lemma MainKeepsResult(cfg: Config, s: State, j: nat)
    requires Sized(cfg, s) && MainEnabled(cfg, s) && j < |cfg.clusters|
    ensures var s' := ApplyMain(cfg, s); |s'.pcs| == |s.pcs| && ResultOf(s'.pcs[j]) == ResultOf(s.pcs[j])
  {
  }

  lemma StepKeepsResult(cfg: Config, s: State, step: Step, j: nat)
    requires Inv(cfg, s) && Enabled(cfg, s, step) && j < |cfg.clusters|
    ensures var s' := Apply(cfg, s, step);
      && |s'.pcs| == |s.pcs|
      && ResultOf(s'.pcs[j]) ==
           if step.WorkerMoves? && step.i == j && s.pcs[j].InSync? then Some(step.ok) else ResultOf(s.pcs[j])
  {
    hide Counted, Locked, Flagged, Bounded, Mapped, ResultOf, ApplyMain, ApplyWorker, MainEnabled, WorkerEnabled;
    match step
    case MainMoves => MainKeepsResult(cfg, s, j);
    case WorkerMoves(i, ok) =>
      SecretsSyncProofs.WorkerMoves(cfg, s, i, ok);
      WorkerResult(cfg, s, i, ok);
  }

  /** A goroutine carries what its sync returned, from then to the end. */
  lemma {:induction false} ResultIsOutcome(cfg: Config, s: State, schedule: seq<Step>, j: nat)
    requires Inv(cfg, s) && Run(cfg, s, schedule).Some? && j < |cfg.clusters|
    ensures var end := Run(cfg, s, schedule).value;
      && |end.pcs| == |cfg.clusters|
      && ResultOf(end.pcs[j]) == if ResultOf(s.pcs[j]).Some? then ResultOf(s.pcs[j]) else Outcome(cfg, s, schedule, j)
    decreases |schedule|
  {
    hide Apply, ResultOf, Counted, Locked, Flagged, Bounded, Mapped;
    if schedule != [] {
      StepKeeps(cfg, s, schedule[0]);
      StepKeepsResult(cfg, s, schedule[0], j);
      InSyncCarriesNothing(s.pcs[j]);
      ResultIsOutcome(cfg, Apply(cfg, s, schedule[0]), schedule[1..], j);
    }
  }

  lemma InSyncCarriesNothing(pc: Pc)
    ensures pc.InSync? ==> ResultOf(pc).None?
  {
  }

  /** m holds exactly the clusters whose sync returned ok, each with a goroutine of that cluster. */
  ghost predicate Records(cfg: Config, outcomes: seq<Option<bool>>, m: map<string, nat>, ok: bool)
    requires |outcomes| == |cfg.clusters|
  {
    && (forall name :: name in m ==>
      m[name] < |outcomes| && cfg.clusters[m[name]] == name && outcomes[m[name]] == Some(ok))
    && (forall j :: 0 <= j < |outcomes| && outcomes[j] == Some(ok) ==> cfg.clusters[j] in m)
  }

  predicate AnyFailed(outcomes: seq<Option<bool>>) {
    exists j :: 0 <= j < |outcomes| && outcomes[j] == Some(false)
  }

  /** What the two maps and the error say, once the call has returned, about what the syncs returned. */
  ghost predicate FinalReport(cfg: Config, outcomes: seq<Option<bool>>, results: map<string, nat>,
                              failures: map<string, nat>, failed: bool)
    requires |outcomes| == |cfg.clusters|
  {
    && Records(cfg, outcomes, results, true) && Records(cfg, outcomes, failures, false)
    && (failed <==> AnyFailed(outcomes))
    && (!cfg.stopOnError || !failed ==> forall j :: 0 <= j < |outcomes| ==> outcomes[j].Some?)
    && (cfg.stopOnError ==> |failures| <= cfg.concurrency)
  }

  /** A report tells apart who synced and who failed, and leaves nobody out unless it was told to stop. */
  lemma ReportSplits(cfg: Config, outcomes: seq<Option<bool>>, results: map<string, nat>, failures: map<string, nat>,
                     failed: bool)
    requires |outcomes| == |cfg.clusters| && FinalReport(cfg, outcomes, results, failures, failed)
    ensures failed <==> failures != map[]
    ensures !cfg.stopOnError || !failed ==> results.Keys + failures.Keys == Names(cfg)
    ensures Distinct(cfg.clusters) ==> results.Keys !! failures.Keys
    ensures Distinct(cfg.clusters) ==> forall j :: 0 <= j < |outcomes| ==>
      (cfg.clusters[j] in failures <==> outcomes[j] == Some(false))
    ensures Distinct(cfg.clusters) ==> forall j :: 0 <= j < |outcomes| ==>
      (cfg.clusters[j] in results <==> outcomes[j] == Some(true))
  {
    hide Records, Names, Distinct;
    ErrorIsFailure(cfg, outcomes, failures);
    if !cfg.stopOnError || !failed { NobodyLeftOut(cfg, outcomes, results, failures); }
    if Distinct(cfg.clusters) {
      DistinctRecords(cfg, outcomes, results, true);
      DistinctRecords(cfg, outcomes, failures, false);
      RecordsDisjoint(cfg, outcomes, results, failures);
    }
  }

  lemma NobodyLeftOut(cfg: Config, outcomes: seq<Option<bool>>, results: map<string, nat>, failures: map<string, nat>)
    requires |outcomes| == |cfg.clusters| && forall j :: 0 <= j < |outcomes| ==> outcomes[j].Some?
    requires Records(cfg, outcomes, results, true) && Records(cfg, outcomes, failures, false)
    ensures results.Keys + failures.Keys == Names(cfg)
  {
    forall name | name in Names(cfg) ensures name in results.Keys + failures.Keys {
      var j :| 0 <= j < |cfg.clusters| && cfg.clusters[j] == name;
      var ok := outcomes[j].value;
      assert outcomes[j] == Some(ok);
    }
  }

  lemma DistinctRecords(cfg: Config, outcomes: seq<Option<bool>>, m: map<string, nat>, ok: bool)
    requires |outcomes| == |cfg.clusters| && Records(cfg, outcomes, m, ok) && Distinct(cfg.clusters)
    ensures forall j :: 0 <= j < |outcomes| ==> (cfg.clusters[j] in m <==> outcomes[j] == Some(ok))
  {
  }

  lemma RecordsDisjoint(cfg: Config, outcomes: seq<Option<bool>>, results: map<string, nat>, failures: map<string, nat>)
    requires |outcomes| == |cfg.clusters| && Distinct(cfg.clusters)
    requires Records(cfg, outcomes, results, true) && Records(cfg, outcomes, failures, false)
    ensures results.Keys !! failures.Keys
  {
  }

  lemma NoneAlive(cfg: Config, s: State, j: nat)
    requires Counted(cfg, s) && s.waitGroup == 0 && j < |s.pcs|
    ensures !Alive(s.pcs[j])
  {
    if Alive(s.pcs[j]) { AliveCounts(cfg, s, j); }
  }

  lemma AllSettled(cfg: Config, s: State, j: nat)
    requires Inv(cfg, s) && s.main.Returned? && j < |s.pcs| && !s.stopFlag
    ensures s.pcs[j] == Gone(Synced) || s.pcs[j] == Gone(Errored)
    ensures cfg.clusters[j] in s.results.Keys + s.failures.Keys
  {
    hide Count, Locked, Bounded;
    NoneAlive(cfg, s, j);
    assert s.pcs[j].Gone?;
    var fate := FateOf(s.pcs[j]).value;
    match fate
    case Stopped => assert false;
    case _ =>
  }

  lemma FewFailures(cfg: Config, s: State)
    requires Inv(cfg, s) && cfg.stopOnError
    ensures |s.failures| <= cfg.concurrency
  {
  }

  lemma SettledFates(cfg: Config, s: State, j: nat)
    requires Inv(cfg, s) && s.main.Returned? && j < |s.pcs|
    ensures FateOf(s.pcs[j]) == Some(Synced) <==> ResultOf(s.pcs[j]) == Some(true)
    ensures FateOf(s.pcs[j]) == Some(Errored) <==> ResultOf(s.pcs[j]) == Some(false)
    ensures (!cfg.stopOnError || !s.main.failed) ==> ResultOf(s.pcs[j]).Some?
  {
    hide Count, Locked, Bounded, Mapped;
    NoneAlive(cfg, s, j);
    if !cfg.stopOnError || !s.main.failed {
      assert !s.stopFlag by { if s.stopFlag { FlagMeansFailure(cfg, s); } }
      AllSettled(cfg, s, j);
    }
  }

  lemma MappedIsRecord(cfg: Config, s: State, outcomes: seq<Option<bool>>, m: map<string, nat>, fate: Fate, ok: bool)
    requires Mapped(cfg, s, m, fate) && |outcomes| == |cfg.clusters|
    requires forall j :: 0 <= j < |s.pcs| ==> (FateOf(s.pcs[j]) == Some(fate) <==> outcomes[j] == Some(ok))
    ensures Records(cfg, outcomes, m, ok)
  {
  }

  lemma ReturnedReports(cfg: Config, s: State, outcomes: seq<Option<bool>>)
    requires Inv(cfg, s) && s.main.Returned? && |outcomes| == |cfg.clusters|
    requires forall j :: 0 <= j < |s.pcs| ==> outcomes[j] == ResultOf(s.pcs[j])
    ensures FinalReport(cfg, outcomes, s.results, s.failures, s.main.failed)
  {
    hide Counted, Locked, Flagged, Bounded, Mapped, ResultOf, Records;
    if cfg.stopOnError { FewFailures(cfg, s); }
    forall j | 0 <= j < |s.pcs|
      ensures FateOf(s.pcs[j]) == Some(Synced) <==> outcomes[j] == Some(true)
      ensures FateOf(s.pcs[j]) == Some(Errored) <==> outcomes[j] == Some(false)
      ensures (!cfg.stopOnError || !s.main.failed) ==> outcomes[j].Some?
    {
      SettledFates(cfg, s, j);
    }
    MappedIsRecord(cfg, s, outcomes, s.results, Synced, true);
    MappedIsRecord(cfg, s, outcomes, s.failures, Errored, false);
    ErrorIsFailure(cfg, outcomes, s.failures);
  }

  lemma ErrorIsFailure(cfg: Config, outcomes: seq<Option<bool>>, failures: map<string, nat>)
    requires |outcomes| == |cfg.clusters| && Records(cfg, outcomes, failures, false)
    ensures failures != map[] <==> AnyFailed(outcomes)
  {
    if failures != map[] {
      var name :| name in failures;
      assert outcomes[failures[name]] == Some(false);
    }
  }

  lemma FlagMeansFailure(cfg: Config, s: State)
    requires Inv(cfg, s) && s.stopFlag
    ensures s.failures != map[]
  {
    var j := CountWitness(s.pcs, Failing);
    assert cfg.clusters[j] in s.failures;
  }

  /** Before anything has happened no goroutine carries an outcome, so in the end each carries its own. */
  lemma OutcomesAreResults(cfg: Config, schedule: seq<Step>)
    requires Run(cfg, Initial(cfg), schedule).Some?
    ensures var end := Run(cfg, Initial(cfg), schedule).value;
      |end.pcs| == |cfg.clusters| && forall j :: 0 <= j < |end.pcs| ==>
        Outcomes(cfg, schedule)[j] == ResultOf(end.pcs[j])
  {
    hide Sized, Counted, Locked, Flagged, Bounded, Mapped, Outcome;
    InitialInv(cfg);
    RunKeeps(cfg, Initial(cfg), schedule);
    var end := Run(cfg, Initial(cfg), schedule).value;
    EndSized(cfg, end);
    forall j | 0 <= j < |end.pcs| ensures Outcomes(cfg, schedule)[j] == ResultOf(end.pcs[j]) {
      ResultIsOutcome(cfg, Initial(cfg), schedule, j);
    }
  }

  lemma EndSized(cfg: Config, s: State)
    requires Inv(cfg, s)
    ensures |s.pcs| == |cfg.clusters|
  {
  }

  /**
   * With at least one slot, no schedule can get stuck or go on for ever: each is either finished,
   * with a report of what the syncs returned, or has an enabled step, and its length is bounded.
   */
  lemma EveryScheduleFinishes(cfg: Config, schedule: seq<Step>)
    requires cfg.concurrency >= 1 && Run(cfg, Initial(cfg), schedule).Some?
    ensures var s := Run(cfg, Initial(cfg), schedule).value;
      && |schedule| + StepsLeft(cfg, s) <= StepsLeft(cfg, Initial(cfg))
      && (if s.main.Returned? then FinalReport(cfg, Outcomes(cfg, schedule), s.results, s.failures, s.main.failed)
          else HasStep(cfg, s))
  {
    hide StepsLeft, FinalReport, HasStep, Sized, Counted, Locked, Flagged, Bounded, Mapped, Outcomes;
    InitialInv(cfg);
    RunKeeps(cfg, Initial(cfg), schedule);
    var s := Run(cfg, Initial(cfg), schedule).value;
    if s.main.Returned? {
      OutcomesAreResults(cfg, schedule);
      ReturnedReports(cfg, s, Outcomes(cfg, schedule));
    } else {
      NeverStuck(cfg, s);
    }
  }

  // ---------------------------------------------------------------- schedules that follow given sync results

  /** Every sync that a schedule ends returns what is given for its cluster. */
  predicate Follows(schedule: seq<Step>, synced: seq<bool>) {
    forall k :: 0 <= k < |schedule| && schedule[k].WorkerMoves? ==>
      schedule[k].i < |synced| && schedule[k].ok == synced[schedule[k].i]
  }

  lemma {:induction false} OutcomeIsGiven(cfg: Config, s: State, schedule: seq<Step>, synced: seq<bool>, j: nat)
    requires Run(cfg, s, schedule).Some? && j < |cfg.clusters| == |synced| && Follows(schedule, synced)
    ensures Outcome(cfg, s, schedule, j) in {None, Some(synced[j])}
    decreases |schedule|
  {
    hide Apply;
    if schedule != [] { OutcomeIsGiven(cfg, Apply(cfg, s, schedule[0]), schedule[1..], synced, j); }
  }

  lemma OutcomesAreGiven(cfg: Config, schedule: seq<Step>, synced: seq<bool>)
    requires Run(cfg, Initial(cfg), schedule).Some? && |synced| == |cfg.clusters| && Follows(schedule, synced)
    ensures forall j :: 0 <= j < |cfg.clusters| ==> Outcomes(cfg, schedule)[j] in {None, Some(synced[j])}
  {
    hide Outcome;
    forall j | 0 <= j < |cfg.clusters| ensures Outcomes(cfg, schedule)[j] in {None, Some(synced[j])} {
      OutcomeIsGiven(cfg, Initial(cfg), schedule, synced, j);
    }
  }

  /** The maps hold clusters under what their syncs return: all of them without stop-on-error. */
  ghost predicate Reports(cfg: Config, synced: seq<bool>, m: map<string, nat>, ok: bool)
    requires |synced| == |cfg.clusters|
  {
    && (forall name :: name in m ==> m[name] < |synced| && cfg.clusters[m[name]] == name && synced[m[name]] == ok)
    && (!cfg.stopOnError ==> forall j :: 0 <= j < |synced| && synced[j] == ok ==> cfg.clusters[j] in m)
  }

  predicate SomeFail(synced: seq<bool>) {
    exists j :: 0 <= j < |synced| && !synced[j]
  }

  lemma ReportOfGiven(cfg: Config, outcomes: seq<Option<bool>>, synced: seq<bool>, results: map<string, nat>,
                      failures: map<string, nat>, failed: bool)
    requires |outcomes| == |cfg.clusters| == |synced| && FinalReport(cfg, outcomes, results, failures, failed)
    requires forall j :: 0 <= j < |outcomes| ==> outcomes[j] in {None, Some(synced[j])}
    ensures Reports(cfg, synced, results, true) && Reports(cfg, synced, failures, false)
    ensures failed <==> SomeFail(synced)
  {
    hide Names;
    RecordIsReport(cfg, outcomes, synced, results, true);
    RecordIsReport(cfg, outcomes, synced, failures, false);
    hide Records, Reports;
    if failed {
      var j :| 0 <= j < |outcomes| && outcomes[j] == Some(false);
      assert !synced[j];
    } else {
      forall j | 0 <= j < |synced| ensures synced[j] { assert outcomes[j].Some? && outcomes[j] != Some(false); }
    }
  }

  lemma RecordIsReport(cfg: Config, outcomes: seq<Option<bool>>, synced: seq<bool>, m: map<string, nat>, ok: bool)
    requires |outcomes| == |cfg.clusters| == |synced| && Records(cfg, outcomes, m, ok)
    requires forall j :: 0 <= j < |outcomes| ==> outcomes[j] in {None, Some(synced[j])}
    requires !cfg.stopOnError ==> forall j :: 0 <= j < |outcomes| ==> outcomes[j].Some?
    ensures Reports(cfg, synced, m, ok)
  {
  }

  lemma {:induction false} RunOneMore(cfg: Config, s: State, schedule: seq<Step>, step: Step)
    requires Run(cfg, s, schedule).Some? && WellSized(cfg, Run(cfg, s, schedule).value)
    requires Enabled(cfg, Run(cfg, s, schedule).value, step)
    requires WellSized(cfg, Apply(cfg, Run(cfg, s, schedule).value, step))
    ensures Run(cfg, s, schedule + [step]) == Some(Apply(cfg, Run(cfg, s, schedule).value, step))
    decreases |schedule|
  {
    hide Apply, WellSized, Enabled;
    if schedule == [] {
      assert schedule + [step] == [step];
    } else {
      assert (schedule + [step])[1..] == schedule[1..] + [step];
      RunOneMore(cfg, Apply(cfg, s, schedule[0]), schedule[1..], step);
    }
  }

  // ---------------------------------------------------------------- exactly when a schedule can finish

  /** With no slot: nobody has got past the semaphore. */
  ghost predicate Idle(cfg: Config, s: State) {
    !s.stopFlag && !s.main.Returned? && forall j :: 0 <= j < |s.pcs| ==> s.pcs[j].Unborn? || s.pcs[j].AtSemaphore?
  }

  lemma IdleKeeps(cfg: Config, s: State, step: Step)
    requires Inv(cfg, s) && Idle(cfg, s) && cfg.concurrency == 0 && cfg.clusters != [] && Enabled(cfg, s, step)
    ensures Idle(cfg, Apply(cfg, s, step))
  {
  }

  lemma {:induction false} IdleForEver(cfg: Config, s: State, schedule: seq<Step>)
    requires Inv(cfg, s) && Idle(cfg, s) && cfg.concurrency == 0 && cfg.clusters != []
    requires Run(cfg, s, schedule).Some?
    ensures Idle(cfg, Run(cfg, s, schedule).value)
    decreases |schedule|
  {
    if schedule != [] {
      hide Apply, Idle, Counted, Locked, Flagged, Bounded, Mapped;
      StepKeeps(cfg, s, schedule[0]);
      IdleKeeps(cfg, s, schedule[0]);
      IdleForEver(cfg, Apply(cfg, s, schedule[0]), schedule[1..]);
    }
  }

  /** Any state reached can be run on to the end. */
  lemma {:induction false} FinishFrom(cfg: Config, s: State) returns (schedule: seq<Step>)
    requires Inv(cfg, s) && cfg.concurrency >= 1
    ensures Run(cfg, s, schedule).Some? && Run(cfg, s, schedule).value.main.Returned?
    decreases if s.main.Returned? then 0 else StepsLeft(cfg, s)
  {
    hide StepsLeft, Apply, MainEnabled, WorkerEnabled, Counted, Locked, Flagged, Bounded, Mapped;
    if s.main.Returned? {
      schedule := [];
    } else {
      NeverStuck(cfg, s);
      var step := MainMoves;
      if !MainEnabled(cfg, s) {
        var i :| 0 <= i < |s.pcs| && WorkerEnabled(cfg, s, i);
        step := WorkerMoves(i, true);
      }
      StepKeeps(cfg, s, step);
      StepProgresses(cfg, s, step);
      var rest := FinishFrom(cfg, Apply(cfg, s, step));
      schedule := [step] + rest;
    }
  }

  /** The call can return at all exactly when there is a slot, or nothing to do. */
  lemma FinishesExactlyWithASlot(cfg: Config)
    ensures (exists schedule :: var end := Run(cfg, Initial(cfg), schedule); end.Some? && end.value.main.Returned?)
            <==> cfg.concurrency >= 1 || cfg.clusters == []
  {
    hide Inv;
    InitialInv(cfg);
    if cfg.clusters == [] {
      assert Run(cfg, Initial(cfg), []).Some?;
    } else if cfg.concurrency >= 1 {
      var schedule := FinishFrom(cfg, Initial(cfg));
    } else {
      forall schedule | Run(cfg, Initial(cfg), schedule).Some?
        ensures !Run(cfg, Initial(cfg), schedule).value.main.Returned?
      {
        IdleForEver(cfg, Initial(cfg), schedule);
      }
    }
  }
}
