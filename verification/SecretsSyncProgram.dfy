/** The fan-out as a program: shared fields, one method per process step, and an arbitrary scheduler. */
module SecretsSyncProgram {
  import opened Text
  import opened SecretsSync
  import opened SecretsSyncProofs
  import opened SecretsSyncRuns

  class FanOut {
    const cfg: Config
    var main: Main
    var pcs: seq<Pc>
    var slots: int
    var mutex: Owner
    var waitGroup: int
    var stopFlag: bool
    var results: map<string, nat>
    var failures: map<string, nat>
    ghost var late: nat

    constructor (cfg: Config)
      ensures this.cfg == cfg && View() == Initial(cfg)
    {
      this.cfg := cfg;
      main := if cfg.clusters == [] then Returned(0, false) else WantLoop(0);
      pcs := seq(|cfg.clusters|, _ => Unborn);
      slots, mutex, waitGroup, stopFlag := 0, Nobody, 0, false;
      results, failures := map[], map[];
      late := 0;
    }

    ghost function View(): State
      reads this
    {
      State(main, pcs, slots, mutex, waitGroup, stopFlag, results, failures, late)
    }

    method MainStep()
      requires WellSized(cfg, View()) && MainEnabled(cfg, View())
      modifies this
      ensures View() == ApplyMain(cfg, old(View()))
    {
      match main {
        case WantLoop(i) =>
          if i == |cfg.clusters| {
            main := Waiting(i);
          } else {
            mutex := MainLoop;
            main := LoopChecking(i);
          }
        case LoopChecking(i) =>
          main := LoopChecked(i, stopFlag);
        case LoopChecked(i, stop) =>
          mutex := Nobody;
          main := if stop then Waiting(i) else Adding(i);
        case Adding(i) =>
          waitGroup := waitGroup + 1;
          main := Spawning(i);
        case Spawning(i) =>
          pcs := pcs[i := AtSemaphore];
          main := WantLoop(i + 1);
        case Waiting(i) =>
          main := Returned(i, failures != map[]);
      }
    }

    method Record(i: nat, ok: bool)
      requires i < |pcs| == |cfg.clusters|
      modifies this
      ensures View() == var s := old(View());
        var counted := s.(pcs := s.pcs[i := Recorded(if ok then Synced else Errored)],
                          late := if s.stopFlag then s.late + 1 else s.late);
        if ok then counted.(results := s.results[cfg.clusters[i] := i])
        else counted.(failures := s.failures[cfg.clusters[i] := i], stopFlag := s.stopFlag || cfg.stopOnError)
    {
      if stopFlag { late := late + 1; }
      if ok {
        results := results[cfg.clusters[i] := i];
        pcs := pcs[i := Recorded(Synced)];
      } else {
        failures := failures[cfg.clusters[i] := i];
        if cfg.stopOnError { stopFlag := true; }
        pcs := pcs[i := Recorded(Errored)];
      }
    }

    method WorkerStep(i: nat, ok: bool)
      requires WellSized(cfg, View()) && i < |pcs| && WorkerEnabled(cfg, View(), i)
      modifies this
      ensures View() == ApplyWorker(cfg, old(View()), i, ok)
    {
      match pcs[i] {
        case AtSemaphore => slots := slots + 1; pcs := pcs[i := WantCheck];
        case WantCheck => mutex := Worker(i); pcs := pcs[i := Checking];
        case Checking => pcs := pcs[i := Checked(!stopFlag)];
        case Checked(goOn) => mutex := Nobody; pcs := pcs[i := if goOn then InSync else Leaving(Stopped)];
        case InSync => pcs := pcs[i := WantRecord(ok)];
        case WantRecord(result) => mutex := Worker(i); pcs := pcs[i := Recording(result)];
        case Recording(result) => Record(i, result);
        case Recorded(fate) => mutex := Nobody; pcs := pcs[i := Leaving(fate)];
        case Leaving(fate) => slots := slots - 1; pcs := pcs[i := Finishing(fate)];
        case Finishing(fate) => waitGroup := waitGroup - 1; pcs := pcs[i := Gone(fate)];
      }
    }
  }

  function EnabledWorkers(cfg: Config, s: State): set<nat> {
    set i: nat | i < |s.pcs| && WorkerEnabled(cfg, s, i)
  }

  /**
   * The whole command, for whatever the syncs return: any enabled process moves next, until the call
   * returns. The schedule it happened to take accounts for the maps and the error.
   */
  method RunMultiClusterSync(cfg: Config, synced: seq<bool>)
    returns (results: map<string, nat>, failures: map<string, nat>, failed: bool, ghost schedule: seq<Step>)
    requires cfg.concurrency >= 1 && |synced| == |cfg.clusters|
    ensures Reports(cfg, synced, results, true) && Reports(cfg, synced, failures, false)
    ensures failed <==> SomeFail(synced)
    ensures cfg.stopOnError ==> |failures| <= cfg.concurrency
    ensures Run(cfg, Initial(cfg), schedule).Some? && Follows(schedule, synced)
    ensures var end := Run(cfg, Initial(cfg), schedule).value;
      end.main.Returned? && end.main.failed == failed && end.results == results && end.failures == failures
    ensures FinalReport(cfg, Outcomes(cfg, schedule), results, failures, failed)
    ensures forall j :: 0 <= j < |cfg.clusters| ==> Outcomes(cfg, schedule)[j] in {None, Some(synced[j])}
  {
    var f := new FanOut(cfg);
    InitialInv(cfg);
    hide ApplyMain, ApplyWorker, MainEnabled, WorkerEnabled, WellSized, StepsLeft, FinalReport, Follows, Sized,
      Counted, Locked, Flagged, Bounded, Mapped, Outcomes, Reports, SomeFail;
    schedule := [];
    NothingToFollow(synced);
    FittingStates(cfg, f.View());
    while !f.main.Returned?
      invariant f.cfg == cfg && Inv(cfg, f.View()) && Run(cfg, Initial(cfg), schedule) == Some(f.View())
      invariant Follows(schedule, synced)
      decreases StepsLeft(cfg, f.View()), if f.main.Returned? then 0 else 1
    {
      ghost var s := f.View();
      NeverStuck(cfg, s);
      FittingStates(cfg, s);
      var main: bool := *;
      var mainCanMove := CanMainMove(f);
      var workers := CanMove(f);
      ghost var step := MainMoves;
      if mainCanMove && (main || workers == {}) {
        f.MainStep();
      } else {
        if !mainCanMove {
          ghost var j :| 0 <= j < |s.pcs| && WorkerEnabled(cfg, s, j);
          assert j in workers;
        }
        var i :| i in workers;
        step := WorkerMoves(i, synced[i]);
        f.WorkerStep(i, synced[i]);
      }
      StepKeeps(cfg, s, step);
      StepProgresses(cfg, s, step);
      FittingStates(cfg, f.View());
      RunOneMore(cfg, Initial(cfg), schedule, step);
      FollowsOneMore(schedule, step, synced);
      schedule := schedule + [step];
    }
    OutcomesAreResults(cfg, schedule);
    ReturnedReports(cfg, f.View(), Outcomes(cfg, schedule));
    OutcomesAreGiven(cfg, schedule, synced);
    results, failures, failed := f.results, f.failures, f.main.failed;
    if cfg.stopOnError { FewFailures(cfg, f.View()); }
    ReportOfGiven(cfg, Outcomes(cfg, schedule), synced, results, failures, failed);
  }

  lemma NothingToFollow(synced: seq<bool>)
    ensures Follows([], synced)
  {
  }

  lemma FollowsOneMore(schedule: seq<Step>, step: Step, synced: seq<bool>)
    requires Follows(schedule, synced) && (step.WorkerMoves? ==> step.i < |synced| && step.ok == synced[step.i])
    ensures Follows(schedule + [step], synced)
  {
  }

  lemma FittingStates(cfg: Config, s: State)
    requires Inv(cfg, s)
    ensures WellSized(cfg, s) && |s.pcs| == |cfg.clusters| && Run(cfg, s, []) == Some(s)
    ensures s.main.Spawning? ==> s.main.i < |s.pcs| && s.pcs[s.main.i].Unborn?
  {
  }

  method CanMainMove(f: FanOut) returns (b: bool)
    ensures b == MainEnabled(f.cfg, f.View())
  {
    match f.main
    case WantLoop(i) => b := i < |f.cfg.clusters| ==> f.mutex == Nobody;
    case Waiting(_) => b := f.waitGroup == 0;
    case Returned(_, _) => b := false;
    case _ => b := true;
  }

  method CanMove(f: FanOut) returns (workers: set<nat>)
    ensures workers == EnabledWorkers(f.cfg, f.View())
  {
    workers := EnabledWorkers(
      f.cfg, State(f.main, f.pcs, f.slots, f.mutex, f.waitGroup, f.stopFlag, f.results, f.failures, 0));
  }
}
