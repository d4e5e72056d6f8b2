/**
 * The multi-cluster sync fan-out of cmd/secrets_sync.go: one goroutine per cluster, a channel
 * semaphore, a mutex around the stop flag and the two result maps, and a wait group.  Every
 * operation on shared state is one step, and any enabled process may take the next step.
 */
module SecretsSync {
  import opened Text

  datatype Config = Config(clusters: seq<string>, concurrency: nat, stopOnError: bool)

  /** How a goroutine ended: it saw the stop flag, or its sync returned without or with an error. */
  datatype Fate = Stopped | Synced | Errored

  /** Program counter of a goroutine. */
  datatype Pc =
    | Unborn
    | AtSemaphore
    | WantCheck
    | Checking
    | Checked(goOn: bool)
    | InSync
    | WantRecord(ok: bool)
    | Recording(ok: bool)
    | Recorded(fate: Fate)
    | Leaving(fate: Fate)
    | Finishing(fate: Fate)
    | Gone(fate: Fate)

  /** Program counter of runMultiClusterSync itself; i is the cluster the loop is at. */
  datatype Main =
    | WantLoop(i: nat)
    | LoopChecking(i: nat)
    | LoopChecked(i: nat, stop: bool)
    | Adding(i: nat)
    | Spawning(i: nat)
    | Waiting(i: nat)
    | Returned(i: nat, failed: bool)

  datatype Owner = Nobody | MainLoop | Worker(i: nat)

  datatype State = State(
    main: Main,
    pcs: seq<Pc>,
    slots: int,
    mutex: Owner,
    waitGroup: int,
    stopFlag: bool,
    results: map<string, nat>,
    failures: map<string, nat>,
    late: nat)  // outcomes recorded when the stop flag was already set

  /** Who moves next; ok is what SyncSecrets returns if the move ends a sync. */
  datatype Step = MainMoves | WorkerMoves(i: nat, ok: bool)

  function Initial(cfg: Config): State {
    State(if cfg.clusters == [] then Returned(0, false) else WantLoop(0),
          seq(|cfg.clusters|, _ => Unborn), 0, Nobody, 0, false, map[], map[], 0)
  }

  predicate WellSized(cfg: Config, s: State) {
    |s.pcs| == |cfg.clusters| && s.main.i <= |cfg.clusters|
    && (s.main.LoopChecking? || s.main.LoopChecked? || s.main.Adding? || s.main.Spawning? ==> s.main.i < |cfg.clusters|)
  }

  predicate MainEnabled(cfg: Config, s: State) {
    match s.main
    case WantLoop(i) => i < |cfg.clusters| ==> s.mutex == Nobody
    case Waiting(_) => s.waitGroup == 0
    case Returned(_, _) => false
    case _ => true
  }

  predicate WorkerEnabled(cfg: Config, s: State, i: nat)
    requires i < |s.pcs|
  {
    match s.pcs[i]
    case AtSemaphore => s.slots < cfg.concurrency
    case WantCheck => s.mutex == Nobody
    case WantRecord(_) => s.mutex == Nobody
    case Unborn => false
    case Gone(_) => false
    case _ => true
  }

  predicate Enabled(cfg: Config, s: State, step: Step) {
    match step
    case MainMoves => MainEnabled(cfg, s)
    case WorkerMoves(i, _) => i < |s.pcs| && WorkerEnabled(cfg, s, i)
  }

  function ApplyMain(cfg: Config, s: State): State
    requires WellSized(cfg, s) && MainEnabled(cfg, s)
  {
    match s.main
    case WantLoop(i) =>
      if i == |cfg.clusters| then s.(main := Waiting(i)) else s.(main := LoopChecking(i), mutex := MainLoop)
    case LoopChecking(i) => s.(main := LoopChecked(i, s.stopFlag))
    case LoopChecked(i, stop) => s.(main := if stop then Waiting(i) else Adding(i), mutex := Nobody)
    case Adding(i) => s.(main := Spawning(i), waitGroup := s.waitGroup + 1)
    case Spawning(i) => s.(main := WantLoop(i + 1), pcs := s.pcs[i := AtSemaphore])
    case Waiting(i) => s.(main := Returned(i, s.failures != map[]))
  }

  function ApplyWorker(cfg: Config, s: State, i: nat, ok: bool): State
    requires WellSized(cfg, s) && i < |s.pcs| && WorkerEnabled(cfg, s, i)
  {
    var name := cfg.clusters[i];
    match s.pcs[i]
    case AtSemaphore => s.(pcs := s.pcs[i := WantCheck], slots := s.slots + 1)
    case WantCheck => s.(pcs := s.pcs[i := Checking], mutex := Worker(i))
    case Checking => s.(pcs := s.pcs[i := Checked(!s.stopFlag)])
    case Checked(goOn) => s.(pcs := s.pcs[i := if goOn then InSync else Leaving(Stopped)], mutex := Nobody)
    case InSync => s.(pcs := s.pcs[i := WantRecord(ok)])
    case WantRecord(result) => s.(pcs := s.pcs[i := Recording(result)], mutex := Worker(i))
    case Recording(result) =>
      var late := if s.stopFlag then s.late + 1 else s.late;
      if result then
        s.(pcs := s.pcs[i := Recorded(Synced)], results := s.results[name := i], late := late)
      else
        s.(pcs := s.pcs[i := Recorded(Errored)], failures := s.failures[name := i], late := late,
           stopFlag := s.stopFlag || cfg.stopOnError)
    case Recorded(fate) => s.(pcs := s.pcs[i := Leaving(fate)], mutex := Nobody)
    case Leaving(fate) => s.(pcs := s.pcs[i := Finishing(fate)], slots := s.slots - 1)
    case Finishing(fate) => s.(pcs := s.pcs[i := Gone(fate)], waitGroup := s.waitGroup - 1)
  }

  function Apply(cfg: Config, s: State, step: Step): State
    requires WellSized(cfg, s) && Enabled(cfg, s, step)
  {
    match step
    case MainMoves => ApplyMain(cfg, s)
    case WorkerMoves(i, ok) => ApplyWorker(cfg, s, i, ok)
  }

  /** The state a schedule leads to, if each of its steps is enabled in turn. */
  function Run(cfg: Config, s: State, schedule: seq<Step>): Option<State>
    decreases |schedule|
  {
    if !WellSized(cfg, s) then None
    else if schedule == [] then Some(s)
    else if !Enabled(cfg, s, schedule[0]) then None
    else Run(cfg, Apply(cfg, s, schedule[0]), schedule[1..])
  }

  // ---------------------------------------------------------------- counting goroutines

  function Count(pcs: seq<Pc>, p: Pc -> bool): nat {
    if pcs == [] then 0 else Count(pcs[1..], p) + if p(pcs[0]) then 1 else 0
  }

  lemma {:induction false} CountUpdate(pcs: seq<Pc>, p: Pc -> bool, i: nat, pc: Pc)
    requires i < |pcs|
    ensures Count(pcs[i := pc], p) ==
            Count(pcs, p) - (if p(pcs[i]) then 1 else 0) + (if p(pc) then 1 else 0)
    ensures p(pcs[i]) ==> Count(pcs, p) >= 1
  {
    if i == 0 {
      assert pcs[i := pc][1..] == pcs[1..];
    } else {
      CountUpdate(pcs[1..], p, i - 1, pc);
      assert pcs[i := pc][1..] == pcs[1..][i - 1 := pc];
    }
  }

  lemma {:induction false} CountNone(pcs: seq<Pc>, p: Pc -> bool)
    requires forall i :: 0 <= i < |pcs| ==> !p(pcs[i])
    ensures Count(pcs, p) == 0
  {
    if pcs != [] { CountNone(pcs[1..], p); }
  }

  lemma {:induction false} CountLess(pcs: seq<Pc>, p: Pc -> bool, q: Pc -> bool)
    requires forall i :: 0 <= i < |pcs| && p(pcs[i]) ==> q(pcs[i])
    ensures Count(pcs, p) <= Count(pcs, q)
  {
    if pcs != [] {
      assert p(pcs[0]) ==> q(pcs[0]);
      forall i | 0 <= i < |pcs[1..]| && p(pcs[1..][i]) ensures q(pcs[1..][i]) { assert pcs[1..][i] == pcs[i + 1]; }
      CountLess(pcs[1..], p, q);
    }
  }
}
