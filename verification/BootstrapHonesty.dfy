/** A step that the saved state has the next run take for done was last attempted with success. */
module BootstrapHonesty {
  import opened Text
  import opened BootstrapService
  import opened BootstrapRuns

  /** The legacy file and lists that calls began with, and whether they are known to keep out of its reach. */
  datatype Start = Start(legacy: File, lists: Lists, safe: bool)

  ghost predicate Trusted(start: Start, log: seq<Event>) {
    PairsKept(log) || start.safe
  }

  predicate EndsInReset(log: seq<Event>) {
    log != [] && log[|log| - 1] == Reset(true)
  }

  /** The inductive invariant, for a sequence of calls that began here. */
  ghost predicate Inv(start: Start, w: World) {
    && (w.legacy == start.legacy || w.legacy == Absent)
    && (EndsInReset(w.log) ==> w.primary == Absent)
    && (start.safe ==> OutOfReach(start.legacy, w.log, start.lists))
    && (Trusted(start, w.log) ==> Honest(w.primary, w.log) && (w.primary == Absent ==> Honest(w.legacy, w.log)))
  }

  /** The invariant while steps run: the map in memory is honest too. */
  ghost predicate MidInv(start: Start, w: World, steps: StepMap) {
    && Inv(start, w)
    && !EndsInReset(w.log)
    && (Trusted(start, w.log) ==> HonestSteps(steps, w.log))
  }

  predicate Open(steps: StepMap, id: string) {
    id in steps && steps[id] == Running
  }

  /** Honesty survives any event that is not an attempt of a step recorded as done. */
  lemma HonestSnoc(steps: StepMap, log: seq<Event>, e: Event)
    requires HonestSteps(steps, log)
    requires (e.Started? || e.Returned?) ==> Open(steps, e.id)
    ensures HonestSteps(steps, log + [e])
  {
  }

  /** A file stays out of reach as long as only listed steps are attempted. */
  lemma ReachSnoc(file: File, log: seq<Event>, lists: Lists, e: Event)
    requires OutOfReach(file, log, lists)
    requires (e.Started? || e.Returned?) ==> Listed(lists, e.id)
    ensures OutOfReach(file, log + [e], lists)
  {
    hide LastOk, Listed;
    if file.Saved? {
      forall id | id in file.steps && StepSucceeded(file.steps, id) ensures LastOk(log + [e], id) {
        LastOkSnoc(log, e, id);
      }
    }
  }

  lemma TrustSnoc(start: Start, log: seq<Event>, e: Event)
    requires Trusted(start, log + [e])
    ensures Trusted(start, log) || (EndsInReset(log) && e == Cleared)
    ensures e == Reset(true) ==> start.safe
  {
    if PairsKept(log + [e]) { PairsSnoc(log, e); }
  }

  lemma NoteKeeps(start: Start, w: World, steps: StepMap, e: Event)
    requires MidInv(start, w, steps)
    requires !e.Reset? && !e.Cleared?
    requires (e.Started? || e.Returned?) ==> w.primary.Saved? && Open(w.primary.steps, e.id) && Open(steps, e.id)
    requires (e.Started? || e.Returned?) ==> Listed(start.lists, e.id)
    ensures MidInv(start, w.Note(e), steps)
  {
    hide HonestSteps, PairsKept, OutOfReach;
    if start.safe { ReachSnoc(start.legacy, w.log, start.lists, e); }
    if Trusted(start, w.log + [e]) {
      TrustSnoc(start, w.log, e);
      HonestSnoc(steps, w.log, e);
      if w.primary.Saved? { HonestSnoc(w.primary.steps, w.log, e); }
      if w.primary.Absent? && w.legacy.Saved? { HonestSnoc(w.legacy.steps, w.log, e); }
    }
  }

  lemma SaveKeeps(start: Start, w: World, steps: StepMap)
    requires MidInv(start, w, steps)
    ensures MidInv(start, Save(w, steps).0, steps)
  {
  }

  /** Setting a status that is not done, or one that is right after a nil return, keeps the map honest. */
  lemma SetKeeps(start: Start, w: World, steps: StepMap, id: string, status: Status)
    requires MidInv(start, w, steps)
    requires status in {Success, Skipped} ==> w.log != [] && w.log[|w.log| - 1] == Returned(id, true)
    ensures MidInv(start, w, steps[id := status])
  {
  }

  lemma ExecuteOneKeeps(start: Start, w: World, steps: StepMap, id: string, ignoreState: bool)
    requires MidInv(start, w, steps) && Listed(start.lists, id)
    ensures var r := ExecuteOne(w, steps, id, ignoreState); MidInv(start, r.w, r.steps)
  {
    hide Listed, OutOfReach;
    if ignoreState || !StepSucceeded(steps, id) {
      var running := steps[id := Running];
      SetKeeps(start, w, steps, id, Running);
      SaveKeeps(start, w, running);
      var (w1, out1) := Save(w, running);
      if out1 == Nil && w1.replies != [] {
        var w2 := w1.Next().Note(Started(id));
        NoteKeeps(start, w1.Next(), running, Started(id));
        if w2.replies != [] {
          var ok := w2.replies[0] == Ok;
          var w3 := w2.Next().Note(Returned(id, ok));
          NoteKeeps(start, w2.Next(), running, Returned(id, ok));
          var status := if ok then Success else Failed;
          SetKeeps(start, w3, running, id, status);
          SaveKeeps(start, w3, running[id := status]);
          var (w4, out4) := Save(w3, running[id := status]);
          if out4 == Nil { NoteKeeps(start, w4, running[id := status], Recorded(id)); }
        }
      }
    }
  }

  lemma {:induction false} ExecuteStepsKeeps(start: Start, w: World, steps: StepMap, ids: seq<string>,
                                             ignoreState: bool)
    requires MidInv(start, w, steps) && forall id :: id in ids ==> Listed(start.lists, id)
    ensures var r := ExecuteSteps(w, steps, ids, ignoreState); MidInv(start, r.w, r.steps)
    decreases |ids|
  {
    hide Listed, MidInv;
    if ids != [] {
      ExecuteOneKeeps(start, w, steps, ids[0], ignoreState);
      var one := ExecuteOne(w, steps, ids[0], ignoreState);
      if one.out == Nil { ExecuteStepsKeeps(start, one.w, one.steps, ids[1..], ignoreState); }
    }
  }

  /** Dropping the primary file, then the legacy file, in a process that may stop in between. */
  lemma RemovalsKeep(start: Start, w: World)
    requires Inv(start, w) && !EndsInReset(w.log)
    ensures Inv(start, RemovePrimary(w).0)
    ensures var w1 := RemovePrimary(w).0;
      && Inv(start, RemoveLegacy(w1).0)
      && (RemoveLegacy(w1).1 == Nil ==> !EndsInReset(RemoveLegacy(w1).0.log))
  {
    var (w1, out1) := RemovePrimary(w);
    PrimaryGoneKeeps(start, w);
    var (w2, out2) := RemoveLegacy(w1);
    if w2.log != w1.log {
      assert w2.log[|w1.log|] == Cleared;
      if start.safe { ReachSnoc(start.legacy, w1.log, start.lists, Cleared); }
      if Trusted(start, w2.log) {
        TrustSnoc(start, w1.log, Cleared);
        if w1.primary.Saved? { HonestSnoc(w1.primary.steps, w1.log, Cleared); }
      }
    }
  }

  lemma PrimaryGoneKeeps(start: Start, w: World)
    requires Inv(start, w) && !EndsInReset(w.log)
    ensures Inv(start, RemovePrimary(w).0)
  {
    hide PairsKept;
    var (w1, out1) := RemovePrimary(w);
    if w1.log != w.log {
      var e := Reset(w.legacy != Absent);
      assert w1.log[|w.log|] == e;
      if start.safe { ReachSnoc(start.legacy, w.log, start.lists, e); }
      if Trusted(start, w1.log) { TrustSnoc(start, w.log, e); }
    }
  }

  lemma PrepareKeeps(start: Start, w: World, opts: Options)
    requires Inv(start, w) && !EndsInReset(w.log)
    ensures var (w1, steps, out) := Prepare(w, opts);
      Inv(start, w1) && (out == Nil ==> MidInv(start, w1, steps))
  {
    hide RemovePrimary, RemoveLegacy, LoadWithFallback, Inv, EndsInReset, Trusted, HonestSteps;
    RemovalsKeep(start, w);
    LoadKeeps(start, w);
    NothingToVouchFor();
  }

  lemma NothingToVouchFor()
    ensures forall log :: HonestSteps(map[], log)
  {
  }

  lemma LoadKeeps(start: Start, w: World)
    requires Inv(start, w) && !EndsInReset(w.log)
    ensures var (w1, steps, out) := LoadWithFallback(w);
      Inv(start, w1) && (out == Nil ==> MidInv(start, w1, steps))
  {
    hide EndsInReset, Trusted, HonestSteps, OutOfReach;
    NothingToVouchFor();
  }

  lemma FilterSelects(ids: seq<string>, opts: Options)
    ensures var s := FilterSteps(ids, opts); s.Selected? ==> forall id :: id in s.ids ==> id in ids
  {
  }

  lemma ProvisionKeeps(start: Start, w: World, opts: Options, build: Option<seq<string>>)
    requires Inv(start, w) && !EndsInReset(w.log) && (build.Some? ==> build.value in start.lists)
    ensures var r := Provision(w, opts, build);
      Inv(start, r.w) && (r.out == Nil ==> MidInv(start, r.w, r.steps))
  {
    hide ExecuteSteps, Prepare, Inv, FilterSteps;
    PrepareKeeps(start, w, opts);
    var (w1, steps, out) := Prepare(w, opts);
    if out == Nil && build.Some? {
      var selection := FilterSteps(build.value, opts);
      if selection.Selected? {
        FilterSelects(build.value, opts);
        ExecuteStepsKeeps(start, w1, steps, selection.ids, selection.ignoreState);
      }
    }
  }

  lemma DeployKeeps(start: Start, w: World, opts: Options, build: Option<seq<string>>)
    requires Inv(start, w) && !EndsInReset(w.log) && (build.Some? ==> build.value in start.lists)
    ensures Inv(start, Deploy(w, opts, build).w)
  {
    hide Provision, RemovePrimary, RemoveLegacy, OutOfReach;
    ProvisionKeeps(start, w, opts, build);
    var r := Provision(w, opts, build);
    if r.out == Nil { RemovalsKeep(start, WaitReady(r.w).0); }
  }

  lemma CallKeeps(start: Start, w: World, call: Call)
    requires Inv(start, w) && AtRest(w) && (call.build.Some? ==> call.build.value in start.lists)
    ensures Inv(start, RunCall(w, call)) && AtRest(RunCall(w, call))
  {
    hide Deploy, OutOfReach, PairsKept;
    if !call.opts.dryRun {
      DeployKeeps(start, w.(replies := call.replies), call.opts, call.build);
      var r := Deploy(w.(replies := call.replies), call.opts, call.build);
      var e := Ended(r.out);
      var w1 := r.w.(replies := []).Note(e);
      assert w1.log[|r.w.log|] == e;
      if start.safe { ReachSnoc(start.legacy, r.w.log, start.lists, e); }
      if Trusted(start, w1.log) {
        TrustSnoc(start, r.w.log, e);
        if r.w.primary.Saved? { HonestSnoc(r.w.primary.steps, r.w.log, e); }
        if r.w.primary.Absent? && r.w.legacy.Saved? { HonestSnoc(r.w.legacy.steps, r.w.log, e); }
      }
    }
  }

  lemma {:induction false} RunAllKeeps(start: Start, w: World, calls: seq<Call>)
    requires Inv(start, w) && AtRest(w) && CallsOf(calls, start.lists)
    ensures Inv(start, RunAll(w, calls)) && AtRest(RunAll(w, calls))
    decreases |calls|
  {
    hide Inv, AtRest, RunCall;
    if calls != [] {
      CallKeeps(start, w, calls[0]);
      RunAllKeeps(start, RunCall(w, calls[0]), calls[1..]);
    }
  }

  /**
   * Any sequence of plain, restart, step and from-step runs, with failures, torn writes and
   * crashes anywhere: what the next run would resume from is honest, as long as no reset left a
   * legacy file behind.
   */
  lemma SavedSuccessIsHonest(w: World, calls: seq<Call>)
    requires AtRest(w) && Honest(Effective(w), w.log) && PairsKept(w.log)
    ensures var w' := RunAll(w, calls); PairsKept(w'.log) ==> Honest(Effective(w'), w'.log)
  {
    hide RunAll, PairsKept;
    RunAllKeeps(Start(w.legacy, iset c | c in calls && c.build.Some? :: c.build.value, false), w, calls);
  }

  // ---------------------------------------------------------------- exactly when, with no assumption on resets

  const CLEAR := Options(true, false, "", "")

  /** A restart whose removal of the legacy file fails: only the primary file goes. */
  function HalfReset(w: World): Call {
    Call(CLEAR, None, if w.primary == Absent then [Refused] else [Ok, Refused])
  }

  /** The one step run by name, which fails. */
  function FailingRun(ids: seq<string>, id: string): Call {
    Call(Options(false, false, id, ""), Some(ids), [Ok, Ok] + [Ok, Ok, Refused, Ok])
  }

  /** A restart that dies between its two removals. */
  const DYING_RESET := Call(CLEAR, None, [Ok])

  lemma HalfResetUncovers(w: World, id: string)
    requires w.legacy.Saved?
    ensures var w' := RunCall(w, HalfReset(w));
      w'.primary == Absent && w'.legacy == w.legacy && LastOk(w'.log, id) == LastOk(w.log, id)
  {
    hide LastOk;
    var r := Deploy(w.(replies := HalfReset(w).replies), CLEAR, None);
    LastOkSnoc(w.log, Reset(true), id);
    LastOkSnoc(r.w.log, Ended(r.out), id);
  }

  /** A step run whose saves work, but which fails. */
  lemma StepFails(w: World, steps: StepMap, id: string)
    requires w.replies == [Ok, Ok, Refused, Ok]
    ensures var r := ExecuteOne(w, steps, id, true);
      r.w.primary.Saved? && r.w.legacy == w.legacy && r.out == Error(StepFailed(id)) && !LastOk(r.w.log, id)
  {
  }

  lemma OnlyThatStep(ids: seq<string>, id: string)
    requires id in ids && !Blank(id)
    ensures FilterSteps(ids, FailingRun(ids, id).opts) == Selected([id], true)
  {
  }

  lemma FreshLoad(w: World, ids: seq<string>, id: string)
    requires w.primary == Absent && w.legacy.Saved?
    ensures var (w1, steps, out) := Prepare(w.(replies := FailingRun(ids, id).replies), FailingRun(ids, id).opts);
      out == Nil && w1.legacy == w.legacy && w1.replies == [Ok, Ok, Refused, Ok]
  {
  }

  lemma FailingRunFails(w: World, ids: seq<string>, id: string)
    requires w.primary == Absent && w.legacy.Saved? && id in ids && !Blank(id)
    ensures var w' := RunCall(w, FailingRun(ids, id));
      w'.primary.Saved? && w'.legacy == w.legacy && !LastOk(w'.log, id)
  {
    var call := FailingRun(ids, id);
    OnlyThatStep(ids, id);
    FreshLoad(w, ids, id);
    hide ExecuteOne, LastOk, FilterSteps, Prepare;
    var (w1, steps, out) := Prepare(w.(replies := call.replies), call.opts);
    StepFails(w1, steps, id);
    var one := ExecuteOne(w1, steps, id, true);
    assert ExecuteSteps(w1, steps, [id], true) == one;
    LastOkSnoc(one.w.log, Ended(one.out), id);
  }

  lemma DyingResetUncovers(w: World, id: string)
    requires w.primary.Saved? && w.legacy.Saved? && !LastOk(w.log, id)
    ensures var w' := RunCall(w, DYING_RESET);
      w'.primary == Absent && w'.legacy == w.legacy && !LastOk(w'.log, id)
  {
    hide LastOk;
    var r := Deploy(w.(replies := DYING_RESET.replies), CLEAR, None);
    LastOkSnoc(w.log, Reset(true), id);
    LastOkSnoc(r.w.log, Ended(r.out), id);
  }

  /** Three calls after which a listed step that the legacy file vouches for was last attempted with a failure. */
  function Misleading(w: World, ids: seq<string>, id: string): seq<Call> {
    [HalfReset(w), FailingRun(ids, id), DYING_RESET]
  }

  lemma StaleRunsMislead(w: World, ids: seq<string>, id: string)
    requires w.legacy.Saved? && id in w.legacy.steps && StepSucceeded(w.legacy.steps, id)
    requires id in ids && !Blank(id)
    ensures var w' := RunAll(w, Misleading(w, ids, id)); !Honest(Effective(w'), w'.log)
  {
    hide RunCall, LastOk;
    var calls := Misleading(w, ids, id);
    var w1 := RunCall(w, HalfReset(w));
    var w2 := RunCall(w1, FailingRun(ids, id));
    var w3 := RunCall(w2, DYING_RESET);
    HalfResetUncovers(w, id);
    FailingRunFails(w1, ids, id);
    DyingResetUncovers(w2, id);
    assert calls[1..] == [FailingRun(ids, id), DYING_RESET];
    assert calls[1..][1..] == [DYING_RESET];
    assert RunAll(w2, [DYING_RESET]) == w3;
    assert RunAll(w, calls) == RunAll(w2, [DYING_RESET]);
  }

  /** One call after which a retired step that last failed is taken for done. */
  lemma StaleFileMisleads(w: World, id: string)
    requires w.legacy.Saved? && id in w.legacy.steps && StepSucceeded(w.legacy.steps, id) && !LastOk(w.log, id)
    ensures var w' := RunAll(w, [HalfReset(w)]); !Honest(Effective(w'), w'.log)
  {
    hide RunCall, LastOk;
    HalfResetUncovers(w, id);
    assert RunAll(RunCall(w, HalfReset(w)), []) == RunCall(w, HalfReset(w));
  }

  ghost predicate AlwaysHonest(w: World, lists: Lists) {
    forall calls :: CallsOf(calls, lists) ==> var w' := RunAll(w, calls); Honest(Effective(w'), w'.log)
  }

  /**
   * With no assumption on resets: over all calls that build one of these lists, honesty holds exactly when
   * everything the legacy file has taken for done was last attempted with success and is on none of them.
   */
  lemma HonestExactlyOutOfReach(w: World, lists: Lists)
    requires AtRest(w) && Honest(Effective(w), w.log)
    requires forall ids, id :: ids in lists && id in ids ==> !Blank(id)
    ensures AlwaysHonest(w, lists) <==> OutOfReach(w.legacy, w.log, lists)
  {
    hide RunAll, LastOk, Blank;
    if OutOfReach(w.legacy, w.log, lists) {
      forall calls | CallsOf(calls, lists) ensures var w' := RunAll(w, calls); Honest(Effective(w'), w'.log) {
        RunAllKeeps(Start(w.legacy, lists, true), w, calls);
      }
    } else {
      var id :| id in w.legacy.steps && StepSucceeded(w.legacy.steps, id) && (Listed(lists, id) || !LastOk(w.log, id));
      if Listed(lists, id) {
        var ids :| ids in lists && id in ids;
        StaleRunsMislead(w, ids, id);
        assert CallsOf(Misleading(w, ids, id), lists);
      } else {
        StaleFileMisleads(w, id);
        assert CallsOf([HalfReset(w)], lists);
      }
    }
  }
}
