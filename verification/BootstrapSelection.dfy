/** Which steps one call attempts, told by the log and with the selection written out. */
module BootstrapSelection {
  import opened Text
  import opened Sequences
  import opened BootstrapService

  /** The attempts in a log: each start, and each return. */
  function Attempts(log: seq<Event>): seq<Event> {
    if log == [] then []
    else (if log[0].Started? || log[0].Returned? then [log[0]] else []) + Attempts(log[1..])
  }

  /** The steps that were started, in order. */
  function Tried(log: seq<Event>): seq<string> {
    if log == [] then [] else (if log[0].Started? then [log[0].id] else []) + Tried(log[1..])
  }

  /** Every step started, and returned without an error, before the next. */
  function AllSucceed(ids: seq<string>): seq<Event> {
    if ids == [] then [] else [Started(ids[0]), Returned(ids[0], true)] + AllSucceed(ids[1..])
  }

  lemma AttemptsConcat(a: seq<Event>, b: seq<Event>)
    ensures Attempts(a + b) == Attempts(a) + Attempts(b) && Tried(a + b) == Tried(a) + Tried(b)
  {
    AttemptsOfBoth(a, b);
    TriedOfBoth(a, b);
  }

  lemma {:induction false} AttemptsOfBoth(a: seq<Event>, b: seq<Event>)
    ensures Attempts(a + b) == Attempts(a) + Attempts(b)
  {
    if a == [] {
      assert a + b == b;
    } else {
      var e := if a[0].Started? || a[0].Returned? then [a[0]] else [];
      AttemptsOfBoth(a[1..], b);
      assert (a + b)[1..] == a[1..] + b;
      assert e + (Attempts(a[1..]) + Attempts(b)) == (e + Attempts(a[1..])) + Attempts(b);
    }
  }

  lemma {:induction false} TriedOfBoth(a: seq<Event>, b: seq<Event>)
    ensures Tried(a + b) == Tried(a) + Tried(b)
  {
    if a == [] {
      assert a + b == b;
    } else {
      var e := if a[0].Started? then [a[0].id] else [];
      TriedOfBoth(a[1..], b);
      assert (a + b)[1..] == a[1..] + b;
      assert e + (Tried(a[1..]) + Tried(b)) == (e + Tried(a[1..])) + Tried(b);
    }
  }

  /** What a call has added to the log. */
  function New(w: World, w': World): seq<Event>
    requires w.log <= w'.log
  {
    w'.log[|w.log|..]
  }

  lemma NewInTwo(w: World, w1: World, w2: World)
    requires w.log <= w1.log && w1.log <= w2.log
    ensures w.log <= w2.log
    ensures Attempts(New(w, w2)) == Attempts(New(w, w1)) + Attempts(New(w1, w2))
    ensures Tried(New(w, w2)) == Tried(New(w, w1)) + Tried(New(w1, w2))
  {
    assert New(w, w2) == New(w, w1) + New(w1, w2);
    AttemptsConcat(New(w, w1), New(w1, w2));
  }

  lemma {:induction false} FewEvents(log: seq<Event>)
    requires forall i :: 0 <= i < |log| ==> !log[i].Started? && !log[i].Returned?
    ensures Attempts(log) == [] && Tried(log) == []
  {
    if log != [] { FewEvents(log[1..]); }
  }

  /** The step whose own error ended the call. */
  function FailedStep(out: Outcome): seq<string> {
    if out.Error? && out.failure.StepFailed? then [out.failure.id] else []
  }

  /** What a step that is run adds to the log, and how its run ends. */
  predicate RunLogged(id: string, log: seq<Event>, r: Ran) {
    && (log == [Started(id), Returned(id, true), Recorded(id)] ||
        (r.out != Nil && (log == [] || log == [Started(id)] || log == [Started(id), Returned(id, true)] ||
                          log == [Started(id), Returned(id, false)])))
    && r.failed == FailedStep(r.out)
    && (r.out == Nil ==> r.completed == [id])
  }

  lemma SaveLogsNothing(w: World, steps: StepMap)
    ensures Save(w, steps).0.log == w.log
    ensures Save(w, steps).1.Error? ==> Save(w, steps).1.failure == SaveFailed
  {
  }

  lemma RunStepLogs(w: World, id: string)
    ensures var (w', out) := RunStep(w, id);
      && (out == Nil ==> w'.log == w.log + [Started(id)] + [Returned(id, true)])
      && (out.Error? ==> w'.log == w.log + [Started(id)] + [Returned(id, false)] && out.failure == StepFailed(id))
      && (out == Died ==> w'.log == w.log || w'.log == w.log + [Started(id)])
  {
  }

  lemma LogOfRun(w: World, steps: StepMap, id: string, ignoreState: bool)
    requires ignoreState || id !in steps || steps[id] !in {Success, Skipped}
    ensures var r := ExecuteOne(w, steps, id, ignoreState);
      w.log <= r.w.log && RunLogged(id, New(w, r.w), r)
  {
    hide Save, RunStep;
    var running := steps[id := Running];
    var (w1, out1) := Save(w, running);
    SaveLogsNothing(w, running);
    if out1 == Nil {
      var w2 := RunStep(w1, id).0;
      RunStepLogs(w1, id);
      SaveLogsNothing(w2, running[id := Failed]);
      SaveLogsNothing(w2, running[id := Success]);
    }
  }

  /** A step that is run: its start, then its return if the process gets so far. */
  lemma OneRun(w: World, steps: StepMap, id: string, ignoreState: bool)
    requires ignoreState || id !in steps || steps[id] !in {Success, Skipped}
    ensures var r := ExecuteOne(w, steps, id, ignoreState);
      && w.log <= r.w.log && Tried(New(w, r.w)) <= [id] && r.failed == FailedStep(r.out)
      && (r.out == Nil ==> Attempts(New(w, r.w)) == [Started(id), Returned(id, true)] && r.completed == [id])
  {
    hide ExecuteOne, New;
    LogOfRun(w, steps, id, ignoreState);
    AttemptsOfRun(id, true);
    AttemptsOfRun(id, false);
  }

  lemma AttemptsOfRun(id: string, ok: bool)
    ensures Tried([Started(id)]) == [id]
    ensures Tried([Started(id), Returned(id, ok)]) == Tried([Started(id), Returned(id, ok), Recorded(id)]) == [id]
    ensures Attempts([Started(id), Returned(id, ok), Recorded(id)]) == [Started(id), Returned(id, ok)]
  {
    var s, e, r := [Started(id)], [Returned(id, ok)], [Recorded(id)];
    AttemptsConcat(s, e);
    AttemptsConcat(s + e, r);
    assert s + e == [Started(id), Returned(id, ok)] && s + e + r == [Started(id), Returned(id, ok), Recorded(id)];
    OneEvent(s[0]);
    OneEvent(e[0]);
    OneEvent(r[0]);
  }

  lemma OneEvent(e: Event)
    ensures Attempts([e]) == (if e.Started? || e.Returned? then [e] else [])
    ensures Tried([e]) == if e.Started? then [e.id] else []
  {
    assert [e][1..] == [];
  }

  /** The steps that the saved state does not record as success or skipped. */
  function Pending(steps: StepMap, ids: seq<string>): seq<string> {
    if ids == [] then []
    else
      (if ids[0] in steps && (steps[ids[0]] == Success || steps[ids[0]] == Skipped) then [] else [ids[0]])
      + Pending(steps, ids[1..])
  }

  lemma {:induction false} PendingElsewhere(steps: StepMap, ids: seq<string>, other: StepMap)
    requires forall id :: id in ids ==> (id in steps <==> id in other) && (id in steps ==> steps[id] == other[id])
    ensures Pending(steps, ids) == Pending(other, ids)
  {
    if ids != [] {
      assert ids[0] in ids;
      PendingElsewhere(steps, ids[1..], other);
    }
  }

  lemma OneTouchesOne(w: World, steps: StepMap, id: string, ignoreState: bool, other: string)
    requires other != id
    ensures var r := ExecuteOne(w, steps, id, ignoreState).steps;
      (other in r <==> other in steps) && (other in steps ==> r[other] == steps[other])
  {
  }

  /** The steps that are due when the selected ones are run. */
  function Due(steps: StepMap, ids: seq<string>, ignoreState: bool): seq<string> {
    if ignoreState then ids else Pending(steps, ids)
  }

  lemma DueFirst(steps: StepMap, ids: seq<string>, ignoreState: bool)
    requires ids != []
    ensures Due(steps, ids, ignoreState) ==
      (if !ignoreState && ids[0] in steps && steps[ids[0]] in {Success, Skipped} then [] else [ids[0]])
      + Due(steps, ids[1..], ignoreState)
  {
    assert ids == [ids[0]] + ids[1..];
  }

  lemma SucceedMore(id: string, ids: seq<string>)
    ensures AllSucceed([id] + ids) == [Started(id), Returned(id, true)] + AllSucceed(ids)
  {
    assert ([id] + ids)[1..] == ids;
  }

  /** Running a selection attempts the due steps in order; on success all of them, each once. */
  lemma {:induction false} SelectionRuns(w: World, steps: StepMap, ids: seq<string>, ignoreState: bool)
    requires Distinct(ids)
    ensures var r := ExecuteSteps(w, steps, ids, ignoreState); var due := Due(steps, ids, ignoreState);
      && w.log <= r.w.log && Tried(New(w, r.w)) <= due && r.failed == FailedStep(r.out)
      && (r.out == Nil ==> Attempts(New(w, r.w)) == AllSucceed(due) && Tried(New(w, r.w)) == r.completed == due)
    decreases |ids|
  {
    hide ExecuteOne, Due, AllSucceed;
    if ids == [] {
      assert New(w, w) == [];
      NothingDue(steps, ignoreState);
    } else {
      var id, rest := ids[0], ids[1..];
      var one := ExecuteOne(w, steps, id, ignoreState);
      DueFirst(steps, ids, ignoreState);
      if !ignoreState && id in steps && steps[id] in {Success, Skipped} {
        SkippedOne(w, steps, id);
        SelectionRuns(w, steps, rest, ignoreState);
        var r := ExecuteSteps(w, steps, rest, ignoreState);
        assert [] + r.completed == r.completed;
        assert [] + Due(steps, rest, ignoreState) == Due(steps, rest, ignoreState);
      } else {
        OneRun(w, steps, id, ignoreState);
        if one.out == Nil {
          SelectionRuns(one.w, one.steps, rest, ignoreState);
          var two := ExecuteSteps(one.w, one.steps, rest, ignoreState);
          NewInTwo(w, one.w, two.w);
          RestDue(w, steps, ids, ignoreState);
          SucceedMore(id, Due(steps, rest, ignoreState));
          TriedOfRun(New(w, one.w), id);
        }
      }
    }
  }

  lemma TriedOfRun(log: seq<Event>, id: string)
    requires Attempts(log) == [Started(id), Returned(id, true)]
    ensures Tried(log) == [id]
  {
    TriedOfAttempts(log);
    AttemptsOfRun(id, true);
  }

  lemma {:induction false} TriedOfAttempts(log: seq<Event>)
    ensures Tried(log) == Tried(Attempts(log))
  {
    if log != [] {
      TriedOfAttempts(log[1..]);
      if log[0].Started? || log[0].Returned? {
        assert Attempts(log)[1..] == Attempts(log[1..]);
      } else {
        assert Attempts(log) == Attempts(log[1..]);
      }
    }
  }

  lemma SkippedOne(w: World, steps: StepMap, id: string)
    requires id in steps && steps[id] in {Success, Skipped}
    ensures ExecuteOne(w, steps, id, false) == Ran(w, steps, Nil, [], [])
  {
  }

  lemma NothingDue(steps: StepMap, ignoreState: bool)
    ensures Due(steps, [], ignoreState) == [] && AllSucceed([]) == []
  {
  }

  lemma RestDue(w: World, steps: StepMap, ids: seq<string>, ignoreState: bool)
    requires Distinct(ids) && ids != []
    ensures Due(ExecuteOne(w, steps, ids[0], ignoreState).steps, ids[1..], ignoreState) ==
      Due(steps, ids[1..], ignoreState)
  {
    hide ExecuteOne;
    var one := ExecuteOne(w, steps, ids[0], ignoreState);
    forall id | id in ids[1..]
      ensures (id in steps <==> id in one.steps) && (id in steps ==> steps[id] == one.steps[id])
    {
      OneTouchesOne(w, steps, ids[0], ignoreState, id);
    }
    PendingElsewhere(steps, ids[1..], one.steps);
  }

  // ---------------------------------------------------------------- whole calls

  lemma PrepareAttemptsNothing(w: World, opts: Options)
    ensures var w1 := Prepare(w, opts).0; w.log <= w1.log && Attempts(New(w, w1)) == [] && Tried(New(w, w1)) == []
    ensures FailedStep(Prepare(w, opts).2) == []
  {
    var w1 := Prepare(w, opts).0;
    var more := w1.log[|w.log|..];
    assert w.log <= w1.log;
    assert forall i :: 0 <= i < |more| ==> more[i].Reset? || more[i].Cleared?;
    FewEvents(more);
  }

  /** What a call has run, whatever it ends in: the first of these steps, all of them once if it returns nil. */
  ghost predicate RunsInOrder(w: World, r: Ran, due: seq<string>) {
    && w.log <= r.w.log && Tried(New(w, r.w)) <= due && r.failed == FailedStep(r.out)
    && (r.out == Nil ==> Attempts(New(w, r.w)) == AllSucceed(due) && r.completed == due)
  }

  lemma ProvisionRuns(w: World, opts: Options, ids: seq<string>, selected: seq<string>, ignoreState: bool)
    requires FilterSteps(ids, opts) == Selected(selected, ignoreState) && Distinct(selected)
    ensures RunsInOrder(w, Provision(w, opts, Some(ids)), Due(Prepare(w, opts).1, selected, ignoreState))
  {
    hide Prepare, ExecuteSteps, FilterSteps, AllSucceed, Due, Attempts, Tried;
    var (w1, steps, out) := Prepare(w, opts);
    PrepareAttemptsNothing(w, opts);
    if out == Nil {
      SelectionRuns(w1, steps, selected, ignoreState);
      NewInTwo(w, w1, ExecuteSteps(w1, steps, selected, ignoreState).w);
    }
  }

  lemma {:induction false} LastIndexOf(ids: seq<string>, k: nat)
    requires Distinct(ids) && k < |ids|
    ensures LastIndex(ids, ids[k]) == Some(k)
    decreases |ids|
  {
    var n := |ids| - 1;
    if k < n {
      assert ids[..n][k] == ids[k];
      LastIndexOf(ids[..n], k);
    }
  }

  /** --from-step runs the named step and all behind it, and none before it, whatever was saved. */
  lemma FromStepRunsTheRest(w: World, opts: Options, ids: seq<string>, k: nat)
    requires Distinct(ids) && k < |ids| && opts.fromStep == ids[k] && !Blank(ids[k]) && Blank(opts.onlyStep)
    ensures RunsInOrder(w, Provision(w, opts, Some(ids)), ids[k..])
  {
    hide Blank, RunsInOrder;
    LastIndexOf(ids, k);
    ProvisionRuns(w, opts, ids, ids[k..], true);
  }

  /** --step runs the named step and no other, whatever was saved and whatever --from-step says. */
  lemma OnlyStepRunsOne(w: World, opts: Options, ids: seq<string>, k: nat)
    requires Distinct(ids) && k < |ids| && opts.onlyStep == ids[k] && !Blank(ids[k])
    ensures RunsInOrder(w, Provision(w, opts, Some(ids)), [ids[k]])
  {
    hide Blank, RunsInOrder;
    LastIndexOf(ids, k);
    ProvisionRuns(w, opts, ids, [ids[k]], true);
  }

  /** --restart runs all steps. */
  lemma RestartRunsAll(w: World, opts: Options, ids: seq<string>)
    requires Distinct(ids) && opts.restart && Blank(opts.onlyStep) && Blank(opts.fromStep)
    ensures RunsInOrder(w, Provision(w, opts, Some(ids)), ids)
  {
    hide Blank, RunsInOrder;
    ProvisionRuns(w, opts, ids, ids, true);
  }

  /** What is saved: the primary file decides if it is there. */
  function SavedSteps(w: World): StepMap {
    match w.primary
    case Saved(steps) => steps
    case Corrupt => map[]
    case Absent => if w.legacy.Saved? then w.legacy.steps else map[]
  }

  lemma LoadsSaved(w: World)
    ensures var (w1, steps, out) := LoadWithFallback(w);
      out == Nil ==> steps == SavedSteps(w) && w.primary != Corrupt && (w.primary == Absent ==> w.legacy != Corrupt)
    ensures LoadWithFallback(w).0.log == w.log
  {
  }

  /** A plain call runs the steps that the saved state does not record as success or skipped; a torn file stops it. */
  lemma PlainCallRunsThePending(w: World, opts: Options, ids: seq<string>)
    requires Distinct(ids) && !opts.restart && Blank(opts.onlyStep) && Blank(opts.fromStep)
    ensures RunsInOrder(w, Provision(w, opts, Some(ids)), Pending(SavedSteps(w), ids))
    ensures w.primary == Corrupt || (w.primary == Absent && w.legacy == Corrupt) ==>
      Provision(w, opts, Some(ids)).out != Nil
  {
    hide Blank, ExecuteSteps, LoadWithFallback, SavedSteps;
    LoadsSaved(w);
    ProvisionRuns(w, opts, ids, ids, false);
    if Prepare(w, opts).2 != Nil { PrepareAttemptsNothing(w, opts); }
  }

  /** A step that is not on the list is refused before anything is attempted. */
  lemma UnknownStepIsRefused(w: World, opts: Options, ids: seq<string>)
    requires (!Blank(opts.onlyStep) && opts.onlyStep !in ids)
      || (Blank(opts.onlyStep) && !Blank(opts.fromStep) && opts.fromStep !in ids)
    ensures var r := Provision(w, opts, Some(ids));
      r.out != Nil && w.log <= r.w.log && Attempts(New(w, r.w)) == []
  {
    hide Prepare, Blank;
    PrepareAttemptsNothing(w, opts);
  }

  /** Waiting and cleaning up after the steps attempts nothing. */
  lemma DeployAttemptsTheSame(w: World, opts: Options, build: Option<seq<string>>)
    requires w.log <= Provision(w, opts, build).w.log
    ensures var r, d := Provision(w, opts, build), Deploy(w, opts, build);
      && w.log <= d.w.log && Attempts(New(w, d.w)) == Attempts(New(w, r.w)) && Tried(New(w, d.w)) == Tried(New(w, r.w))
      && (d.out == Nil ==> r.out == Nil) && d.completed == r.completed
  {
    hide Provision;
    var r, d := Provision(w, opts, build), Deploy(w, opts, build);
    assert r.w.log <= d.w.log;
    var more := New(r.w, d.w);
    assert forall i :: 0 <= i < |more| ==> more[i].Reset? || more[i].Cleared?;
    FewEvents(more);
    NewInTwo(w, r.w, d.w);
  }

  /** A dry run lists what the call would run, the saved state aside. */
  lemma DryRunLists(w: World, opts: Options, ids: seq<string>, k: nat)
    requires Distinct(ids) && k < |ids| && !Blank(ids[k])
    ensures opts.onlyStep == ids[k] ==> DryRun(w, opts, Some(ids)) == (Some([ids[k]]), Nil)
    ensures Blank(opts.onlyStep) && opts.fromStep == ids[k] ==> DryRun(w, opts, Some(ids)) == (Some(ids[k..]), Nil)
    ensures Blank(opts.onlyStep) && Blank(opts.fromStep) ==> DryRun(w, opts, Some(ids)) == (Some(ids), Nil)
  {
    LastIndexOf(ids, k);
  }
}
