/** Plain runs repeat a step that returned nil only when its success could not be recorded. */
module BootstrapOnce {
  import opened Text
  import opened BootstrapService
  import opened BootstrapRuns

  predicate Plain(opts: Options) {
    !opts.restart && Blank(opts.onlyStep) && Blank(opts.fromStep)
  }

  /** The process died, or a save failed. */
  predicate Lossy(e: Event) {
    e == Ended(Died) || e == Ended(Error(SaveFailed))
  }

  predicate NoReset(log: seq<Event>, n: nat) {
    forall p :: n <= p < |log| ==> !log[p].Reset?
  }

  predicate LastIs(log: seq<Event>, n: nat, e: Event) {
    |log| > n && log[|log| - 1] == e
  }

  /** How often, from position n on, an attempt of the step returned nil. */
  function Successes(log: seq<Event>, n: nat, id: string): nat {
    if |log| <= n then 0
    else Successes(log[..|log| - 1], n, id) + if log[|log| - 1] == Returned(id, true) then 1 else 0
  }

  /** How often the process died or the save failed right after such a return. */
  function Losses(log: seq<Event>, n: nat, id: string): nat {
    if |log| <= n then 0
    else
      var before := log[..|log| - 1];
      Losses(before, n, id) + if Lossy(log[|log| - 1]) && LastIs(before, n, Returned(id, true)) then 1 else 0
  }

  function Records(log: seq<Event>, n: nat, id: string): nat {
    if |log| <= n then 0
    else Records(log[..|log| - 1], n, id) + if log[|log| - 1] == Recorded(id) then 1 else 0
  }

  /** Every success so far is recorded, lost, or has just been returned. */
  ghost predicate Balanced(log: seq<Event>, n: nat, id: string) {
    Successes(log, n, id) ==
    Records(log, n, id) + Losses(log, n, id) + if LastIs(log, n, Returned(id, true)) then 1 else 0
  }

  predicate DoneIn(file: File, id: string) {
    file.Corrupt? || (file.Saved? && id in file.steps && file.steps[id] == Success)
  }

  ghost predicate AtMostOnce(w: World, n: nat, id: string) {
    NoReset(w.log, n) ==> Records(w.log, n, id) <= 1 && (Records(w.log, n, id) == 1 ==> DoneIn(w.primary, id))
  }

  ghost predicate Inv(w: World, n: nat, id: string) {
    n <= |w.log| && Balanced(w.log, n, id) && AtMostOnce(w, n, id)
  }

  ghost predicate MidInv(w: World, n: nat, id: string, steps: StepMap) {
    && Inv(w, n, id)
    && !LastIs(w.log, n, Returned(id, true))
    && (NoReset(w.log, n) && Records(w.log, n, id) == 1 ==> id in steps && steps[id] == Success)
  }

  lemma NoteKeeps(w: World, n: nat, id: string, e: Event)
    requires Inv(w, n, id)
    requires e != Recorded(id)
    requires LastIs(w.log, n, Returned(id, true)) ==> Lossy(e)
    ensures Inv(w.Note(e), n, id)
    ensures Records(w.Note(e).log, n, id) == Records(w.log, n, id)
    ensures LastIs(w.Note(e).log, n, Returned(id, true)) <==> e == Returned(id, true)
    ensures NoReset(w.Note(e).log, n) ==> NoReset(w.log, n)
  {
  }

  lemma SaveKeeps(w: World, n: nat, id: string, steps: StepMap)
    requires Inv(w, n, id)
    requires NoReset(w.log, n) && Records(w.log, n, id) == 1 ==> id in steps && steps[id] == Success
    ensures Inv(Save(w, steps).0, n, id) && Save(w, steps).0.log == w.log
  {
  }

  /** How a run of steps may end: an unrecorded success is left only by dying or by a failed save. */
  ghost predicate EndInv(r: Ran, n: nat, id: string) {
    && Inv(r.w, n, id)
    && (r.out == Nil ==> MidInv(r.w, n, id, r.steps))
    && (LastIs(r.w.log, n, Returned(id, true)) ==> r.out in {Died, Error(SaveFailed)})
  }

  lemma OtherStepKeeps(w: World, n: nat, id: string, steps: StepMap, other: string)
    requires MidInv(w, n, id, steps) && other != id
    ensures EndInv(ExecuteOne(w, steps, other, false), n, id)
  {
    hide Balanced, LastIs, NoReset, Records;
    var running := steps[other := Running];
    var (w1, out1) := Save(w, running);
    SaveKeeps(w, n, id, running);
    if out1 == Nil && w1.replies != [] && !StepSucceeded(steps, other) {
      var w2 := w1.Next().Note(Started(other));
      NoteKeeps(w1.Next(), n, id, Started(other));
      if w2.replies != [] {
        var ok := w2.replies[0] == Ok;
        var w3 := w2.Next().Note(Returned(other, ok));
        NoteKeeps(w2.Next(), n, id, Returned(other, ok));
        var after := running[other := if ok then Success else Failed];
        SaveKeeps(w3, n, id, after);
        var (w4, out4) := Save(w3, after);
        if out4 == Nil && ok { NoteKeeps(w4, n, id, Recorded(other)); }
      }
    }
  }

  lemma RecordKeeps(w: World, n: nat, id: string, steps: StepMap)
    requires Inv(w, n, id) && LastIs(w.log, n, Returned(id, true)) && w.primary == Saved(steps)
    requires id in steps && steps[id] == Success
    requires NoReset(w.log, n) ==> Records(w.log, n, id) == 0
    ensures MidInv(w.Note(Recorded(id)), n, id, steps)
  {
  }

  lemma SameStepKeeps(w: World, n: nat, id: string, steps: StepMap)
    requires MidInv(w, n, id, steps)
    ensures EndInv(ExecuteOne(w, steps, id, false), n, id)
  {
    hide Balanced, LastIs, NoReset, Records;
    var running := steps[id := Running];
    var (w1, out1) := Save(w, running);
    if !StepSucceeded(steps, id) {
      SaveKeeps(w, n, id, running);
      if out1 == Nil && w1.replies != [] {
        var w2 := w1.Next().Note(Started(id));
        NoteKeeps(w1.Next(), n, id, Started(id));
        if w2.replies != [] {
          var ok := w2.replies[0] == Ok;
          var w3 := w2.Next().Note(Returned(id, ok));
          NoteKeeps(w2.Next(), n, id, Returned(id, ok));
          var after := running[id := if ok then Success else Failed];
          SaveKeeps(w3, n, id, after);
          var (w4, out4) := Save(w3, after);
          if out4 == Nil && ok { RecordKeeps(w4, n, id, after); }
        }
      }
    }
  }

  lemma {:induction false} ExecuteStepsKeeps(w: World, n: nat, id: string, steps: StepMap, ids: seq<string>)
    requires MidInv(w, n, id, steps)
    ensures EndInv(ExecuteSteps(w, steps, ids, false), n, id)
    decreases |ids|
  {
    if ids != [] {
      hide ExecuteOne, MidInv;
      var one := ExecuteOne(w, steps, ids[0], false);
      if ids[0] == id { SameStepKeeps(w, n, id, steps); } else { OtherStepKeeps(w, n, id, steps, ids[0]); }
      if one.out == Nil { ExecuteStepsKeeps(one.w, n, id, one.steps, ids[1..]); }
    }
  }

  lemma PrepareKeeps(w: World, n: nat, id: string, opts: Options)
    requires Inv(w, n, id) && !LastIs(w.log, n, Returned(id, true)) && !opts.restart
    ensures var (w1, steps, out) := Prepare(w, opts);
      && Inv(w1, n, id) && !LastIs(w1.log, n, Returned(id, true))
      && (out == Nil ==> MidInv(w1, n, id, steps))
  {
  }

  lemma ProvisionKeeps(w: World, n: nat, id: string, opts: Options, build: Option<seq<string>>)
    requires Inv(w, n, id) && !LastIs(w.log, n, Returned(id, true)) && Plain(opts)
    ensures EndInv(Provision(w, opts, build), n, id)
  {
    hide Prepare, Balanced, AtMostOnce, LastIs, ExecuteSteps, Blank;
    PrepareKeeps(w, n, id, opts);
    var (w1, steps, out) := Prepare(w, opts);
    if out == Nil && build.Some? {
      ExecuteStepsKeeps(w1, n, id, steps, build.value);
    }
  }

  lemma CleanupKeeps(w: World, n: nat, id: string)
    requires Inv(w, n, id) && !LastIs(w.log, n, Returned(id, true))
    ensures Inv(Cleanup(w).0, n, id) && !LastIs(Cleanup(w).0.log, n, Returned(id, true))
  {
    hide Balanced, Records, LastIs;
    var (w1, out1) := RemovePrimary(w);
    if w1.log != w.log {
      var e := Reset(w.legacy != Absent);
      NoteKeeps(w, n, id, e);
      assert w1.log[|w.log|] == e;
    }
    assert Inv(w1, n, id) && !LastIs(w1.log, n, Returned(id, true));
    if RemoveLegacy(w1).0.log != w1.log { NoteKeeps(w1, n, id, Cleared); }
  }

  /** The last part of Deploy, from where provisioning returned nil. */
  lemma FinishKeeps(w: World, n: nat, id: string)
    requires Inv(w, n, id) && !LastIs(w.log, n, Returned(id, true))
    ensures var w1 := WaitReady(w).0;
      && Inv(w1, n, id) && !LastIs(w1.log, n, Returned(id, true))
      && Inv(Cleanup(w1).0, n, id) && !LastIs(Cleanup(w1).0.log, n, Returned(id, true))
  {
    var w1 := WaitReady(w).0;
    assert w1 == w.(replies := w1.replies);
    CleanupKeeps(w1, n, id);
  }

  lemma DeployKeeps(w: World, n: nat, id: string, opts: Options, build: Option<seq<string>>)
    requires Inv(w, n, id) && !LastIs(w.log, n, Returned(id, true)) && Plain(opts)
    ensures var d := Deploy(w, opts, build);
      Inv(d.w, n, id) && (LastIs(d.w.log, n, Returned(id, true)) ==> Lossy(Ended(d.out)))
  {
    hide Provision, Cleanup, WaitReady, Inv, LastIs, Plain;
    ProvisionKeeps(w, n, id, opts, build);
    var r := Provision(w, opts, build);
    if r.out == Nil { FinishKeeps(r.w, n, id); }
  }

  lemma RunCallKeeps(w: World, n: nat, id: string, call: Call)
    requires Inv(w, n, id) && !LastIs(w.log, n, Returned(id, true)) && Plain(call.opts)
    ensures var w' := RunCall(w, call); Inv(w', n, id) && !LastIs(w'.log, n, Returned(id, true))
  {
    hide Deploy, Plain, Balanced, NoReset, Records, LastIs;
    if !call.opts.dryRun {
      var w0 := w.(replies := call.replies);
      var d := Deploy(w0, call.opts, call.build);
      DeployKeeps(w0, n, id, call.opts, call.build);
      NoteKeeps(d.w.(replies := []), n, id, Ended(d.out));
    }
  }

  lemma {:induction false} RunAllKeeps(w: World, n: nat, id: string, calls: seq<Call>)
    requires Inv(w, n, id) && !LastIs(w.log, n, Returned(id, true))
    requires forall c :: c in calls ==> Plain(c.opts)
    ensures Inv(RunAll(w, calls), n, id) && !LastIs(RunAll(w, calls).log, n, Returned(id, true))
    decreases |calls|
  {
    if calls != [] {
      hide RunCall, Inv, LastIs;
      RunCallKeeps(w, n, id, calls[0]);
      RunAllKeeps(RunCall(w, calls[0]), n, id, calls[1..]);
    }
  }

  /**
   * Over plain runs between two resets, a step returns nil at most once more than the number of
   * times the process died, or a save failed, between that return and its success record.
   */
  lemma StepsRunAtMostOncePlusLosses(w: World, calls: seq<Call>, id: string)
    requires forall c :: c in calls ==> Plain(c.opts)
    ensures var log := RunAll(w, calls).log;
      NoReset(log, |w.log|) ==> Successes(log, |w.log|, id) <= 1 + Losses(log, |w.log|, id)
  {
    RunAllKeeps(w, |w.log|, id, calls);
  }

  // ---------------------------------------------------------------- what a nil result leaves behind

  predicate AllSucceeded(steps: StepMap, ids: seq<string>) {
    forall id :: id in ids ==> StepSucceeded(steps, id)
  }

  lemma ExecuteOneDone(w: World, steps: StepMap, id: string, ignoreState: bool)
    ensures var r := ExecuteOne(w, steps, id, ignoreState);
      r.out == Nil ==>
        && StepSucceeded(r.steps, id)
        && (forall other :: StepSucceeded(steps, other) ==> StepSucceeded(r.steps, other))
        && (r.w.primary == Saved(r.steps) || (r.w.primary == w.primary && r.w.legacy == w.legacy && r.steps == steps))
  {
  }

  lemma {:induction false} ExecuteStepsDone(w: World, steps: StepMap, ids: seq<string>, ignoreState: bool)
    ensures var r := ExecuteSteps(w, steps, ids, ignoreState);
      r.out == Nil ==>
        && AllSucceeded(r.steps, ids)
        && (forall other :: StepSucceeded(steps, other) ==> StepSucceeded(r.steps, other))
        && (r.w.primary == Saved(r.steps) || (r.w.primary == w.primary && r.w.legacy == w.legacy && r.steps == steps))
    decreases |ids|
  {
    if ids != [] {
      hide ExecuteOne, StepSucceeded;
      ExecuteOneDone(w, steps, ids[0], ignoreState);
      var one := ExecuteOne(w, steps, ids[0], ignoreState);
      if one.out == Nil { ExecuteStepsDone(one.w, one.steps, ids[1..], ignoreState); }
    }
  }

  /** An unfiltered provisioning that returns nil leaves every listed step recorded as done on disk. */
  lemma NilRecordsEveryStep(w: World, opts: Options, ids: seq<string>)
    requires Blank(opts.onlyStep) && Blank(opts.fromStep)
    ensures var r := Provision(w, opts, Some(ids));
      r.out == Nil && ids != [] ==> Effective(r.w).Saved? && AllSucceeded(Effective(r.w).steps, ids)
  {
    hide ExecuteSteps, StepSucceeded, Blank;
    var (w1, steps, out) := Prepare(w, opts);
    if out == Nil {
      ExecuteStepsDone(w1, steps, ids, opts.restart);
      var r := ExecuteSteps(w1, steps, ids, opts.restart);
      if r.out == Nil && ids != [] && r.w.primary != Saved(r.steps) {
        assert ids[0] in ids;
        assert ids[0] in steps by { NonEmpty(steps, ids[0]); }
      }
    }
  }

  lemma NonEmpty(steps: StepMap, id: string)
    ensures StepSucceeded(steps, id) ==> id in steps
  {
  }
}
