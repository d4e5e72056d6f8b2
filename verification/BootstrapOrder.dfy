/** Over unfiltered runs of one step list, the saved state is a prefix and steps start in order. */
module BootstrapOrder {
  import opened Text
  import opened BootstrapService
  import opened BootstrapRuns
  import opened Sequences

  /** The most recent attempt of the step since the saved state was last reset returned nil. */
  predicate FreshOk(log: seq<Event>, id: string) {
    if log == [] then false
    else
      match log[|log| - 1]
      case Reset(_) => false
      case Started(i) => i != id && FreshOk(log[..|log| - 1], id)
      case Returned(i, ok) => if i == id then ok else FreshOk(log[..|log| - 1], id)
      case _ => FreshOk(log[..|log| - 1], id)
  }

  /** That is: some nil return of the step has neither a reset nor an attempt of it behind. */
  lemma {:induction false} FreshOkExactly(log: seq<Event>, id: string)
    ensures FreshOk(log, id) <==>
      exists i: nat :: LastReturnAt(log, id, i) && forall j :: i < j < |log| ==> !log[j].Reset?
  {
    if log != [] {
      var init, e := log[..|log| - 1], log[|log| - 1];
      FreshOkExactly(init, id);
      if i: nat :| LastReturnAt(init, id, i) && (forall j :: i < j < |init| ==> !init[j].Reset?)
                   && e != Started(id) && !(e.Returned? && e.id == id) && !e.Reset? {
        assert LastReturnAt(log, id, i);
      }
      if e == Returned(id, true) { assert LastReturnAt(log, id, |log| - 1); }
      if i: nat :| LastReturnAt(log, id, i) && (forall j :: i < j < |log| ==> !log[j].Reset?) && i < |log| - 1 {
        assert LastReturnAt(init, id, i);
      }
    }
  }

  lemma FreshOkSnoc(log: seq<Event>, e: Event, id: string)
    ensures FreshOk(log + [e], id) ==
            if e.Reset? || e == Started(id) then false
            else if e.Returned? && e.id == id then e.ok
            else FreshOk(log, id)
  {
  }

  ghost predicate PrefixOk(ids: seq<string>, k: nat, log: seq<Event>)
    requires k <= |ids|
  {
    forall j :: 0 <= j < k ==> FreshOk(log, ids[j])
  }

  /** Success on ids[..k], at most a running or failed ids[k], nothing beyond. */
  ghost predicate ShapeAt(steps: StepMap, ids: seq<string>, k: nat) {
    && k <= |ids|
    && (forall j :: 0 <= j < k ==> ids[j] in steps && steps[ids[j]] == Success)
    && (forall id :: id in steps ==> id in ids[..k] || (k < |ids| && id == ids[k] && steps[id] in {Running, Failed}))
  }

  ghost predicate Shape(file: File, ids: seq<string>, log: seq<Event>) {
    file.Saved? ==> exists k: nat :: ShapeAt(file.steps, ids, k) && PrefixOk(ids, k, log)
  }

  /** From position n on, a step only starts when every earlier step has succeeded since the last reset. */
  ghost predicate StartsInOrder(ids: seq<string>, n: nat, log: seq<Event>) {
    forall p, k :: n <= p < |log| && 0 <= k < |ids| && log[p] == Started(ids[k]) ==> PrefixOk(ids, k, log[..p])
  }

  ghost predicate Inv(ids: seq<string>, n: nat, w: World) {
    && w.legacy == Absent
    && n <= |w.log|
    && Shape(w.primary, ids, w.log)
    && StartsInOrder(ids, n, w.log)
  }

  ghost predicate MidInv(ids: seq<string>, n: nat, w: World, steps: StepMap, k: nat) {
    Inv(ids, n, w) && ShapeAt(steps, ids, k) && PrefixOk(ids, k, w.log)
  }

  lemma OrderSnoc(ids: seq<string>, n: nat, log: seq<Event>, e: Event, k: nat)
    requires Distinct(ids) && k <= |ids| && n <= |log|
    requires StartsInOrder(ids, n, log)
    requires e.Started? ==> k < |ids| && e.id == ids[k] && PrefixOk(ids, k, log)
    ensures StartsInOrder(ids, n, log + [e])
  {
    var log' := log + [e];
    forall p, i | n <= p < |log'| && 0 <= i < |ids| && log'[p] == Started(ids[i])
      ensures PrefixOk(ids, i, log'[..p])
    {
      if p < |log| {
        assert log'[..p] == log[..p] && log'[p] == log[p];
      } else {
        assert log'[..p] == log;
      }
    }
  }

  lemma PrefixSnoc(ids: seq<string>, k: nat, log: seq<Event>, e: Event)
    requires k <= |ids| && PrefixOk(ids, k, log)
    requires !e.Reset?
    requires (e.Started? || e.Returned?) ==> e.id !in ids[..k]
    ensures PrefixOk(ids, k, log + [e])
  {
  }

  lemma NotInPrefix(ids: seq<string>, k: nat)
    requires Distinct(ids) && k < |ids|
    ensures ids[k] !in ids[..k]
  {
  }

  /** While ids[k] is running on disk and in memory, its attempt events keep the invariant. */
  lemma AttemptKeeps(ids: seq<string>, n: nat, w: World, steps: StepMap, k: nat, e: Event)
    requires Distinct(ids) && k < |ids| && MidInv(ids, n, w, steps, k)
    requires w.primary == Saved(steps) && (e == Started(ids[k]) || (e.Returned? && e.id == ids[k]))
    ensures MidInv(ids, n, w.Note(e), steps, k)
    ensures e == Returned(ids[k], true) ==> PrefixOk(ids, k + 1, w.Note(e).log)
  {
    NotInPrefix(ids, k);
    OrderSnoc(ids, n, w.log, e, k);
    PrefixSnoc(ids, k, w.log, e);
    FreshOkSnoc(w.log, e, ids[k]);
  }

  lemma SaveKeeps(ids: seq<string>, n: nat, w: World, steps: StepMap, k: nat)
    requires Inv(ids, n, w) && ShapeAt(steps, ids, k) && PrefixOk(ids, k, w.log)
    ensures var (w', out) := Save(w, steps);
      MidInv(ids, n, w', steps, k) && w'.log == w.log && (out == Nil ==> w'.primary == Saved(steps))
  {
  }

  lemma SetKeeps(ids: seq<string>, steps: StepMap, k: nat, status: Status)
    requires Distinct(ids) && k < |ids| && ShapeAt(steps, ids, k)
    ensures status in {Running, Failed} ==> ShapeAt(steps[ids[k] := status], ids, k)
    ensures status == Success ==> ShapeAt(steps[ids[k] := status], ids, k + 1)
  {
  }

  lemma RecordKeeps(ids: seq<string>, n: nat, w: World, k: nat, e: Event)
    requires Distinct(ids) && Inv(ids, n, w) && (e.Recorded? || e.Ended?)
    ensures Inv(ids, n, w.Note(e))
    ensures k <= |ids| && PrefixOk(ids, k, w.log) ==> PrefixOk(ids, k, w.Note(e).log)
  {
    OrderSnoc(ids, n, w.log, e, 0);
    forall i: nat | i <= |ids| && PrefixOk(ids, i, w.log) ensures PrefixOk(ids, i, w.Note(e).log) {
      PrefixSnoc(ids, i, w.log, e);
    }
  }

  lemma ExecuteOneKeeps(ids: seq<string>, n: nat, w: World, steps: StepMap, k: nat, ignoreState: bool)
    requires Distinct(ids) && k < |ids| && MidInv(ids, n, w, steps, k)
    ensures var r := ExecuteOne(w, steps, ids[k], ignoreState);
      Inv(ids, n, r.w) && (r.out == Nil ==> MidInv(ids, n, r.w, r.steps, k + 1))
  {
    hide Shape, ShapeAt, PrefixOk, StartsInOrder;
    var id := ids[k];
    assert !StepSucceeded(steps, id) by { NotSucceeded(ids, steps, k); }
    var running := steps[id := Running];
    SetKeeps(ids, steps, k, Running);
    SaveKeeps(ids, n, w, running, k);
    var (w1, out1) := Save(w, running);
    if out1 == Nil && w1.replies != [] {
      var w2 := w1.Next().Note(Started(id));
      AttemptKeeps(ids, n, w1.Next(), running, k, Started(id));
      if w2.replies != [] {
        var ok := w2.replies[0] == Ok;
        var w3 := w2.Next().Note(Returned(id, ok));
        AttemptKeeps(ids, n, w2.Next(), running, k, Returned(id, ok));
        var status := if ok then Success else Failed;
        SetKeeps(ids, running, k, status);
        SaveKeeps(ids, n, w3, running[id := status], if ok then k + 1 else k);
        var (w4, out4) := Save(w3, running[id := status]);
        if out4 == Nil && ok { RecordKeeps(ids, n, w4, k + 1, Recorded(id)); }
      }
    }
  }

  lemma NotSucceeded(ids: seq<string>, steps: StepMap, k: nat)
    requires Distinct(ids) && k < |ids| && ShapeAt(steps, ids, k)
    ensures !StepSucceeded(steps, ids[k])
  {
  }

  lemma SkipsSucceeded(w: World, steps: StepMap, id: string)
    requires StepSucceeded(steps, id)
    ensures ExecuteOne(w, steps, id, false) == Ran(w, steps, Nil, [], [])
  {
  }

  /** From index i on, where the first k >= i steps have succeeded. */
  lemma {:induction false} ExecuteStepsKeeps(ids: seq<string>, n: nat, w: World, steps: StepMap, i: nat, k: nat,
                                             ignoreState: bool)
    requires Distinct(ids) && i <= k && MidInv(ids, n, w, steps, k)
    requires ignoreState ==> i == k
    ensures var r := ExecuteSteps(w, steps, ids[i..], ignoreState); Inv(ids, n, r.w)
    decreases |ids| - i
  {
    if i < |ids| {
      hide ExecuteOne, Inv;
      assert ids[i..][1..] == ids[i + 1..];
      if i < k {
        assert ExecuteOne(w, steps, ids[i], ignoreState) == Ran(w, steps, Nil, [], []) by {
          SkipsSucceeded(w, steps, ids[i]);
        }
        ExecuteStepsKeeps(ids, n, w, steps, i + 1, k, ignoreState);
      } else {
        ExecuteOneKeeps(ids, n, w, steps, k, ignoreState);
        var one := ExecuteOne(w, steps, ids[i], ignoreState);
        if one.out == Nil { ExecuteStepsKeeps(ids, n, one.w, one.steps, i + 1, k + 1, ignoreState); }
      }
    }
  }

  lemma RemovalKeeps(ids: seq<string>, n: nat, w: World)
    requires Distinct(ids) && Inv(ids, n, w)
    ensures Inv(ids, n, RemovePrimary(w).0)
    ensures RemoveLegacy(RemovePrimary(w).0) == (RemovePrimary(w).0, Nil)
  {
    OrderSnoc(ids, n, w.log, Reset(false), 0);
  }

  lemma PrepareKeeps(ids: seq<string>, n: nat, w: World, opts: Options) returns (k: nat)
    requires Distinct(ids) && Inv(ids, n, w)
    ensures var (w1, steps, out) := Prepare(w, opts);
      Inv(ids, n, w1) && (out == Nil ==> MidInv(ids, n, w1, steps, k) && (opts.restart ==> k == 0))
  {
    RemovalKeeps(ids, n, w);
    k := 0;
    if !opts.restart && w.primary.Saved? {
      k :| ShapeAt(w.primary.steps, ids, k) && PrefixOk(ids, k, w.log);
    }
  }

  lemma ProvisionKeeps(ids: seq<string>, n: nat, w: World, opts: Options, build: Option<seq<string>>)
    requires Distinct(ids) && Inv(ids, n, w) && Unfiltered(opts) && (build == None || build == Some(ids))
    ensures Inv(ids, n, Provision(w, opts, build).w)
  {
    hide Prepare, Inv, ExecuteSteps, Blank;
    var (w1, steps, out) := Prepare(w, opts);
    var k := PrepareKeeps(ids, n, w, opts);
    if out == Nil && build.Some? {
      assert ids[0..] == ids;
      ExecuteStepsKeeps(ids, n, w1, steps, 0, k, opts.restart);
    }
  }

  predicate Unfiltered(opts: Options) {
    Blank(opts.onlyStep) && Blank(opts.fromStep)
  }

  lemma FinishKeeps(ids: seq<string>, n: nat, w: World)
    requires Distinct(ids) && Inv(ids, n, w)
    ensures Inv(ids, n, WaitReady(w).0) && Inv(ids, n, Cleanup(WaitReady(w).0).0)
  {
    var w1 := WaitReady(w).0;
    assert w1 == w.(replies := w1.replies);
    RemovalKeeps(ids, n, w1);
    assert Cleanup(w1).0 == RemovePrimary(w1).0;
  }

  lemma DeployKeeps(ids: seq<string>, n: nat, w: World, opts: Options, build: Option<seq<string>>)
    requires Distinct(ids) && Inv(ids, n, w) && Unfiltered(opts) && (build == None || build == Some(ids))
    ensures Inv(ids, n, Deploy(w, opts, build).w)
  {
    hide Provision, Cleanup, WaitReady, Inv, Unfiltered;
    ProvisionKeeps(ids, n, w, opts, build);
    FinishKeeps(ids, n, Provision(w, opts, build).w);
  }

  lemma RunCallKeeps(ids: seq<string>, n: nat, w: World, call: Call)
    requires Distinct(ids) && Inv(ids, n, w) && Unfiltered(call.opts) && (call.build == None || call.build == Some(ids))
    ensures Inv(ids, n, RunCall(w, call))
  {
    hide Deploy, Unfiltered;
    if !call.opts.dryRun {
      var w0 := w.(replies := call.replies);
      var d := Deploy(w0, call.opts, call.build);
      DeployKeeps(ids, n, w0, call.opts, call.build);
      RecordKeeps(ids, n, d.w.(replies := []), 0, Ended(d.out));
    }
  }

  lemma {:induction false} RunAllKeeps(ids: seq<string>, n: nat, w: World, calls: seq<Call>)
    requires Distinct(ids) && Inv(ids, n, w)
    requires forall c :: c in calls ==> Unfiltered(c.opts) && (c.build == None || c.build == Some(ids))
    ensures Inv(ids, n, RunAll(w, calls))
    decreases |calls|
  {
    if calls != [] {
      RunCallKeeps(ids, n, w, calls[0]);
      RunAllKeeps(ids, n, RunCall(w, calls[0]), calls[1..]);
    }
  }

  /**
   * From no saved state, over any runs with no filter (restart or not) of one list of distinct
   * steps: the saved state is a prefix of successes with at most one open step after it, and no
   * step has ever started before all earlier ones had succeeded.
   */
  lemma SavedStateIsAPrefix(w: World, ids: seq<string>, calls: seq<Call>)
    requires w.primary == Absent && w.legacy == Absent && Distinct(ids)
    requires forall c :: c in calls ==> Unfiltered(c.opts) && (c.build == None || c.build == Some(ids))
    ensures var w' := RunAll(w, calls);
      && Shape(w'.primary, ids, w'.log)
      && StartsInOrder(ids, |w.log|, w'.log)
  {
    RunAllKeeps(ids, |w.log|, w, calls);
  }
}
