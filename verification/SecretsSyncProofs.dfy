/** Safety of the fan-out under every schedule, deadlock freedom, termination, and its final split. */
module SecretsSyncProofs {
  import opened Text
  import opened SecretsSync

  // ---------------------------------------------------------------- what a program counter means

  function FateOf(pc: Pc): Option<Fate> {
    match pc
    case Recorded(fate) => Some(fate)
    case Leaving(fate) => Some(fate)
    case Finishing(fate) => Some(fate)
    case Gone(fate) => Some(fate)
    case _ => None
  }

  predicate Syncing(pc: Pc) { pc.InSync? }

  predicate HoldsMutex(pc: Pc) { pc.Checking? || pc.Checked? || pc.Recording? || pc.Recorded? }

  /** Past the stop check, outcome not yet recorded. */
  predicate Committed(pc: Pc) { pc == Checked(true) || pc.InSync? || pc.WantRecord? || pc.Recording? }

  predicate OtherwiseHolds(pc: Pc) {
    pc.WantCheck? || pc.Checking? || pc == Checked(false) || pc.Recorded? || pc.Leaving?
  }

  predicate HoldsSlot(pc: Pc) { Committed(pc) || OtherwiseHolds(pc) }

  predicate Alive(pc: Pc) { !pc.Unborn? && !pc.Gone? }

  predicate Failing(pc: Pc) { FateOf(pc) == Some(Errored) }

  // ---------------------------------------------------------------- the invariant, in parts

  ghost predicate Sized(cfg: Config, s: State) {
    && WellSized(cfg, s)
    && (forall j :: 0 <= j < |s.pcs| ==> (s.pcs[j].Unborn? <==> j >= s.main.i))
    && (s.main.Waiting? || s.main.Returned? ==> s.main.i == |s.pcs| || s.stopFlag)
    && (s.main.Returned? ==> s.waitGroup == 0 && s.main.failed == (s.failures != map[]))
  }

  ghost predicate Counted(cfg: Config, s: State) {
    && s.slots == Count(s.pcs, HoldsSlot) <= cfg.concurrency
    && s.waitGroup == Count(s.pcs, Alive) + (if s.main.Spawning? then 1 else 0)
  }

  ghost predicate Locked(s: State) {
    && (forall j :: 0 <= j < |s.pcs| ==> (HoldsMutex(s.pcs[j]) <==> s.mutex == Worker(j)))
    && (s.mutex == MainLoop <==> s.main.LoopChecking? || s.main.LoopChecked?)
    && (s.mutex.Worker? ==> s.mutex.i < |s.pcs|)
  }

  ghost predicate Flagged(cfg: Config, s: State) {
    && (s.stopFlag ==> cfg.stopOnError)
    && (s.main.LoopChecked? && s.main.stop ==> s.stopFlag)
    && (forall j :: 0 <= j < |s.pcs| && (s.pcs[j] == Checked(false) || FateOf(s.pcs[j]) == Some(Stopped)) ==>
      s.stopFlag)
    && (cfg.stopOnError ==> (s.stopFlag <==> Count(s.pcs, Failing) > 0))
  }

  /** After the flag is set, only goroutines that were already past the check can still record. */
  ghost predicate Bounded(cfg: Config, s: State) {
    if !s.stopFlag then s.late == 0 else
      && Count(s.pcs, Committed) + s.late + 1 <= cfg.concurrency
      && Count(s.pcs, Failing) <= 1 + s.late
  }

  ghost predicate Mapped(cfg: Config, s: State, m: map<string, nat>, fate: Fate) {
    |s.pcs| == |cfg.clusters|
    && (forall name :: name in m ==>
      m[name] < |s.pcs| && cfg.clusters[m[name]] == name && FateOf(s.pcs[m[name]]) == Some(fate))
    && (forall j :: 0 <= j < |s.pcs| && FateOf(s.pcs[j]) == Some(fate) ==> cfg.clusters[j] in m)
  }

  ghost predicate Inv(cfg: Config, s: State) {
    && Sized(cfg, s) && Counted(cfg, s) && Locked(s) && Flagged(cfg, s) && Bounded(cfg, s)
    && Mapped(cfg, s, s.results, Synced)
    && Mapped(cfg, s, s.failures, Errored)
    && |s.failures| <= Count(s.pcs, Failing)
  }

  lemma InitialInv(cfg: Config)
    ensures Inv(cfg, Initial(cfg))
  {
    var pcs := Initial(cfg).pcs;
    CountNone(pcs, HoldsSlot);
    CountNone(pcs, Alive);
    CountNone(pcs, Committed);
    CountNone(pcs, Failing);
  }

  lemma {:induction false} CountSplit(pcs: seq<Pc>)
    ensures Count(pcs, HoldsSlot) == Count(pcs, Committed) + Count(pcs, OtherwiseHolds)
  {
    if pcs != [] { CountSplit(pcs[1..]); }
  }

  // ---------------------------------------------------------------- every step keeps it

  function Bit(b: bool): int { if b then 1 else 0 }

  /** What one worker step does, in terms of the goroutine's two program counters. */
  ghost predicate Moves(s: State, s': State, i: nat, pc: Pc, pc': Pc) {
    s'.main == s.main && i < |s.pcs| && pc == s.pcs[i] && s'.pcs == s.pcs[i := pc'] && Alive(pc) && !pc'.Unborn?
  }

  ghost predicate CountEffect(cfg: Config, s: State, s': State, pc: Pc, pc': Pc) {
    && s'.slots == s.slots - Bit(HoldsSlot(pc)) + Bit(HoldsSlot(pc'))
    && (HoldsSlot(pc') && !HoldsSlot(pc) ==> s.slots < cfg.concurrency)
    && s'.waitGroup == s.waitGroup - 1 + Bit(Alive(pc'))
  }

  ghost predicate MutexEffect(s: State, s': State, i: nat, pc: Pc, pc': Pc) {
    && s'.mutex ==
      (if HoldsMutex(pc) == HoldsMutex(pc') then s.mutex else if HoldsMutex(pc') then Worker(i) else Nobody)
    && (HoldsMutex(pc') && !HoldsMutex(pc) ==> s.mutex == Nobody)
  }

  ghost predicate FlagEffect(cfg: Config, s: State, s': State, pc: Pc, pc': Pc) {
    && (if pc.Recording? then
          && pc' == Recorded(if pc.ok then Synced else Errored)
          && s'.late == s.late + Bit(s.stopFlag)
          && s'.stopFlag == (s.stopFlag || (!pc.ok && cfg.stopOnError))
        else
          && FateOf(pc') == (if pc == Checked(false) then Some(Stopped) else FateOf(pc))
          && s'.late == s.late && s'.stopFlag == s.stopFlag
          && (Committed(pc') && !Committed(pc) ==> !s.stopFlag)
          && (Committed(pc) ==> Committed(pc')))
    && (pc' == Checked(false) ==> s.stopFlag)
  }

  ghost predicate MapEffect(cfg: Config, s: State, s': State, i: nat, pc: Pc, pc': Pc) {
    i < |cfg.clusters|
    && s'.results == (if pc == Recording(true) then s.results[cfg.clusters[i] := i] else s.results)
    && s'.failures == (if pc == Recording(false) then s.failures[cfg.clusters[i] := i] else s.failures)
    && FateOf(pc') == (if pc == Recording(true) then Some(Synced) else if pc == Recording(false) then Some(Errored)
                       else if pc == Checked(false) then Some(Stopped) else FateOf(pc))
    && (pc.Recording? || pc == Checked(false) ==> FateOf(pc) == None)
  }

  lemma WorkerMoves(cfg: Config, s: State, i: nat, ok: bool)
    requires WellSized(cfg, s) && i < |s.pcs| && WorkerEnabled(cfg, s, i)
    ensures var s' := ApplyWorker(cfg, s, i, ok); |s'.pcs| == |s.pcs| && Moves(s, s', i, s.pcs[i], s'.pcs[i])
  {
  }

  lemma WorkerCounts(cfg: Config, s: State, i: nat, ok: bool)
    requires WellSized(cfg, s) && i < |s.pcs| && WorkerEnabled(cfg, s, i)
    ensures var s' := ApplyWorker(cfg, s, i, ok); |s'.pcs| == |s.pcs| && CountEffect(cfg, s, s', s.pcs[i], s'.pcs[i])
  {
  }

  lemma WorkerLocks(cfg: Config, s: State, i: nat, ok: bool)
    requires WellSized(cfg, s) && i < |s.pcs| && WorkerEnabled(cfg, s, i)
    ensures var s' := ApplyWorker(cfg, s, i, ok); |s'.pcs| == |s.pcs| && MutexEffect(s, s', i, s.pcs[i], s'.pcs[i])
  {
  }

  lemma WorkerFlags(cfg: Config, s: State, i: nat, ok: bool)
    requires WellSized(cfg, s) && i < |s.pcs| && WorkerEnabled(cfg, s, i)
    ensures var s' := ApplyWorker(cfg, s, i, ok); |s'.pcs| == |s.pcs| && FlagEffect(cfg, s, s', s.pcs[i], s'.pcs[i])
  {
  }

  lemma WorkerMaps(cfg: Config, s: State, i: nat, ok: bool)
    requires WellSized(cfg, s) && i < |s.pcs| && WorkerEnabled(cfg, s, i)
    ensures var s' := ApplyWorker(cfg, s, i, ok); |s'.pcs| == |s.pcs| && MapEffect(cfg, s, s', i, s.pcs[i], s'.pcs[i])
  {
  }

  lemma WorkerSized(cfg: Config, s: State, s': State, i: nat, pc: Pc, pc': Pc)
    requires Sized(cfg, s) && Counted(cfg, s) && Moves(s, s', i, pc, pc')
    requires FlagEffect(cfg, s, s', pc, pc')
    ensures Sized(cfg, s')
  {
    AliveCounts(cfg, s, i);
  }

  lemma AliveCounts(cfg: Config, s: State, i: nat)
    requires Counted(cfg, s) && i < |s.pcs| && Alive(s.pcs[i])
    ensures s.waitGroup > 0
  {
    CountUpdate(s.pcs, Alive, i, Unborn);
  }

  lemma WorkerLocked(cfg: Config, s: State, s': State, i: nat, pc: Pc, pc': Pc)
    requires Locked(s) && Moves(s, s', i, pc, pc') && MutexEffect(s, s', i, pc, pc')
    ensures Locked(s')
  {
  }

  lemma WorkerCounted(cfg: Config, s: State, s': State, i: nat, pc: Pc, pc': Pc)
    requires Counted(cfg, s) && Moves(s, s', i, pc, pc') && CountEffect(cfg, s, s', pc, pc')
    ensures Counted(cfg, s')
  {
    hide Count;
    CountUpdate(s.pcs, HoldsSlot, i, pc');
    CountUpdate(s.pcs, Alive, i, pc');
  }

  lemma WorkerFlagged(cfg: Config, s: State, s': State, i: nat, pc: Pc, pc': Pc)
    requires Flagged(cfg, s) && Moves(s, s', i, pc, pc') && FlagEffect(cfg, s, s', pc, pc')
    ensures Flagged(cfg, s')
  {
    hide Count;
    CountUpdate(s.pcs, Failing, i, pc');
  }

  lemma WorkerBounded(cfg: Config, s: State, s': State, i: nat, pc: Pc, pc': Pc)
    requires Flagged(cfg, s) && Bounded(cfg, s) && Counted(cfg, s') && Moves(s, s', i, pc, pc')
      && FlagEffect(cfg, s, s', pc, pc')
    ensures Bounded(cfg, s')
  {
    hide Count;
    CountUpdate(s.pcs, Committed, i, pc');
    CountUpdate(s.pcs, Failing, i, pc');
    CountUpdate(s'.pcs, OtherwiseHolds, i, pc');
    CountSplit(s'.pcs);
  }

  /** One result map: goroutine i either records its fate there, or neither gains nor loses it. */
  lemma MapKeeps(cfg: Config, s: State, s': State, i: nat, m: map<string, nat>, fate: Fate, records: bool)
    requires Mapped(cfg, s, m, fate)
    requires i < |s.pcs| && |s'.pcs| == |s.pcs| && s'.pcs == s.pcs[i := s'.pcs[i]]
    requires if records then FateOf(s'.pcs[i]) == Some(fate)
             else FateOf(s'.pcs[i]) == Some(fate) <==> FateOf(s.pcs[i]) == Some(fate)
    ensures Mapped(cfg, s', if records then m[cfg.clusters[i] := i] else m, fate)
  {
  }

  lemma WorkerMapped(cfg: Config, s: State, s': State, i: nat, pc: Pc, pc': Pc)
    requires Mapped(cfg, s, s.results, Synced) && Mapped(cfg, s, s.failures, Errored)
    requires |s.failures| <= Count(s.pcs, Failing)
    requires Moves(s, s', i, pc, pc') && MapEffect(cfg, s, s', i, pc, pc')
    ensures Mapped(cfg, s', s'.results, Synced) && Mapped(cfg, s', s'.failures, Errored)
    ensures |s'.failures| <= Count(s'.pcs, Failing)
  {
    hide Count, Mapped, FateOf;
    MapKeeps(cfg, s, s', i, s.results, Synced, pc == Recording(true));
    MapKeeps(cfg, s, s', i, s.failures, Errored, pc == Recording(false));
    CountUpdate(s.pcs, Failing, i, pc');
  }

  lemma WorkerKeeps(cfg: Config, s: State, i: nat, ok: bool)
    requires Inv(cfg, s) && i < |s.pcs| && WorkerEnabled(cfg, s, i)
    ensures Inv(cfg, ApplyWorker(cfg, s, i, ok))
  {
    WorkerMoves(cfg, s, i, ok);
    WorkerCounts(cfg, s, i, ok);
    WorkerLocks(cfg, s, i, ok);
    WorkerFlags(cfg, s, i, ok);
    WorkerMaps(cfg, s, i, ok);
    hide ApplyWorker, Moves, CountEffect, MutexEffect, FlagEffect, MapEffect, Sized, Counted, Locked, Flagged,
      Bounded, Mapped, Count;
    var s' := ApplyWorker(cfg, s, i, ok);
    WorkerMapped(cfg, s, s', i, s.pcs[i], s'.pcs[i]);
    WorkerSized(cfg, s, s', i, s.pcs[i], s'.pcs[i]);
    WorkerLocked(cfg, s, s', i, s.pcs[i], s'.pcs[i]);
    WorkerCounted(cfg, s, s', i, s.pcs[i], s'.pcs[i]);
    WorkerFlagged(cfg, s, s', i, s.pcs[i], s'.pcs[i]);
    WorkerBounded(cfg, s, s', i, s.pcs[i], s'.pcs[i]);
  }

  lemma SpawnCounts(pcs: seq<Pc>, i: nat)
    requires i < |pcs| && pcs[i] == Unborn
    ensures var pcs' := pcs[i := AtSemaphore];
      && Count(pcs', HoldsSlot) == Count(pcs, HoldsSlot) && Count(pcs', Alive) == Count(pcs, Alive) + 1
      && Count(pcs', Committed) == Count(pcs, Committed) && Count(pcs', Failing) == Count(pcs, Failing)
  {
    hide Count;
    CountUpdate(pcs, HoldsSlot, i, AtSemaphore);
    CountUpdate(pcs, Alive, i, AtSemaphore);
    CountUpdate(pcs, Committed, i, AtSemaphore);
    CountUpdate(pcs, Failing, i, AtSemaphore);
  }

  lemma MainSized(cfg: Config, s: State)
    requires Sized(cfg, s) && Locked(s) && Flagged(cfg, s) && MainEnabled(cfg, s)
    ensures Sized(cfg, ApplyMain(cfg, s)) && Locked(ApplyMain(cfg, s))
  {
  }

  lemma MainCounted(cfg: Config, s: State)
    requires Sized(cfg, s) && Counted(cfg, s) && Flagged(cfg, s) && Bounded(cfg, s) && MainEnabled(cfg, s)
    ensures var s' := ApplyMain(cfg, s); Counted(cfg, s') && Flagged(cfg, s') && Bounded(cfg, s')
  {
    hide Count;
    if s.main.Spawning? { SpawnCounts(s.pcs, s.main.i); }
  }

  lemma MainMapped(cfg: Config, s: State)
    requires Sized(cfg, s) && MainEnabled(cfg, s)
    requires Mapped(cfg, s, s.results, Synced) && Mapped(cfg, s, s.failures, Errored)
      && |s.failures| <= Count(s.pcs, Failing)
    ensures var s' := ApplyMain(cfg, s);
      && Mapped(cfg, s', s'.results, Synced) && Mapped(cfg, s', s'.failures, Errored)
      && |s'.failures| <= Count(s'.pcs, Failing)
  {
    hide Count, Mapped;
    if s.main.Spawning? {
      SpawnCounts(s.pcs, s.main.i);
      MapKeeps(cfg, s, ApplyMain(cfg, s), s.main.i, s.results, Synced, false);
      MapKeeps(cfg, s, ApplyMain(cfg, s), s.main.i, s.failures, Errored, false);
    } else {
      SamePcs(cfg, s, ApplyMain(cfg, s), s.results, Synced);
      SamePcs(cfg, s, ApplyMain(cfg, s), s.failures, Errored);
    }
  }

  lemma SamePcs(cfg: Config, s: State, s': State, m: map<string, nat>, fate: Fate)
    requires s'.pcs == s.pcs && Mapped(cfg, s, m, fate)
    ensures Mapped(cfg, s', m, fate)
  {
  }

  lemma StepKeeps(cfg: Config, s: State, step: Step)
    requires Inv(cfg, s) && Enabled(cfg, s, step)
    ensures Inv(cfg, Apply(cfg, s, step))
  {
    hide ApplyMain, ApplyWorker, Counted, Locked, Flagged, Bounded, Mapped;
    if step.MainMoves? {
      MainSized(cfg, s);
      MainCounted(cfg, s);
      MainMapped(cfg, s);
    } else {
      WorkerKeeps(cfg, s, step.i, step.ok);
    }
  }

  // ---------------------------------------------------------------- progress

  /** Steps left for a goroutine, and for the loop at each of its program counters. */
  function WorkLeft(pc: Pc): nat {
    match pc
    case Unborn => 11
    case AtSemaphore => 10
    case WantCheck => 9
    case Checking => 8
    case Checked(_) => 7
    case InSync => 6
    case WantRecord(_) => 5
    case Recording(_) => 4
    case Recorded(_) => 3
    case Leaving(_) => 2
    case Finishing(_) => 1
    case Gone(_) => 0
  }

  function WorkLeftAll(pcs: seq<Pc>): nat {
    if pcs == [] then 0 else WorkLeft(pcs[0]) + WorkLeftAll(pcs[1..])
  }

  function MainLeft(cfg: Config, main: Main): int {
    5 * (|cfg.clusters| - main.i) +
    match main
    case WantLoop(_) => 2
    case LoopChecking(_) => 1
    case LoopChecked(_, _) => 0
    case Adding(_) => -1
    case Spawning(_) => -2
    case Waiting(i) => 1 - 5 * (|cfg.clusters| - i)
    case Returned(i, _) => 0 - 5 * (|cfg.clusters| - i)
  }

  /** An upper bound on the steps any schedule can still take. */
  function StepsLeft(cfg: Config, s: State): int {
    MainLeft(cfg, s.main) + WorkLeftAll(s.pcs)
  }

  lemma {:induction false} WorkLeftUpdate(pcs: seq<Pc>, i: nat, pc: Pc)
    requires i < |pcs|
    ensures WorkLeftAll(pcs[i := pc]) == WorkLeftAll(pcs) - WorkLeft(pcs[i]) + WorkLeft(pc)
  {
    hide WorkLeft;
    if i == 0 {
      assert pcs[i := pc][1..] == pcs[1..];
    } else {
      WorkLeftUpdate(pcs[1..], i - 1, pc);
      assert pcs[i := pc][1..] == pcs[1..][i - 1 := pc];
    }
  }

  lemma WorkerLess(cfg: Config, s: State, i: nat, ok: bool)
    requires WellSized(cfg, s) && i < |s.pcs| && WorkerEnabled(cfg, s, i)
    ensures var s' := ApplyWorker(cfg, s, i, ok);
      i < |s'.pcs| && s'.pcs == s.pcs[i := s'.pcs[i]] && s'.main == s.main && WorkLeft(s'.pcs[i]) < WorkLeft(s.pcs[i])
  {
  }

  lemma StepProgresses(cfg: Config, s: State, step: Step)
    requires WellSized(cfg, s) && Enabled(cfg, s, step)
    requires s.main.Spawning? ==> s.pcs[s.main.i].Unborn?
    ensures var s' := Apply(cfg, s, step); StepsLeft(cfg, s') < StepsLeft(cfg, s)
    ensures StepsLeft(cfg, s) > 0
  {
    match step
    case MainMoves =>
      if s.main.Spawning? { WorkLeftUpdate(s.pcs, s.main.i, AtSemaphore); }
    case WorkerMoves(i, ok) =>
      WorkerLess(cfg, s, i, ok);
      WorkLeftUpdate(s.pcs, i, Apply(cfg, s, step).pcs[i]);
  }
}
