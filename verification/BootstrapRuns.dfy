/** Whole sequences of deploy calls, and what the saved state means about the attempts made so far. */
module BootstrapRuns {
  import opened Text
  import opened BootstrapService

  datatype Call = Call(opts: Options, build: Option<seq<string>>, replies: seq<Reply>)

  /** One command: its process sees its own replies and its end is logged. */
  function RunCall(w: World, call: Call): World {
    if call.opts.dryRun then w
    else
      var r := Deploy(w.(replies := call.replies), call.opts, call.build);
      r.w.(replies := []).Note(Ended(r.out))
  }

  function RunAll(w: World, calls: seq<Call>): World
    decreases |calls|
  {
    if calls == [] then w else RunAll(RunCall(w, calls[0]), calls[1..])
  }

  /** The file the next plain run would resume from. */
  function Effective(w: World): File {
    if w.primary == Absent then w.legacy else w.primary
  }

  /** No call is in progress. */
  predicate AtRest(w: World) {
    w.log == [] || w.log[|w.log| - 1].Ended?
  }

  /** The most recent attempt of the step returned nil. */
  predicate LastOk(log: seq<Event>, id: string) {
    if log == [] then false
    else
      match log[|log| - 1]
      case Started(i) => i != id && LastOk(log[..|log| - 1], id)
      case Returned(i, ok) => if i == id then ok else LastOk(log[..|log| - 1], id)
      case _ => LastOk(log[..|log| - 1], id)
  }

  lemma LastOkSnoc(log: seq<Event>, e: Event, id: string)
    ensures LastOk(log + [e], id) ==
            if e.Started? && e.id == id then false
            else if e.Returned? && e.id == id then e.ok
            else LastOk(log, id)
  {
  }

  /** Position i is a nil return of the step with no attempt of it behind. */
  predicate LastReturnAt(log: seq<Event>, id: string, i: nat) {
    i < |log| && log[i] == Returned(id, true)
    && forall j :: i < j < |log| ==> log[j] != Started(id) && !(log[j].Returned? && log[j].id == id)
  }

  /** The most recent attempt returned nil exactly when there is such a position. */
  lemma {:induction false} LastOkExactly(log: seq<Event>, id: string)
    ensures LastOk(log, id) <==> exists i: nat :: LastReturnAt(log, id, i)
  {
    if log != [] {
      var init, e := log[..|log| - 1], log[|log| - 1];
      LastOkExactly(init, id);
      if i: nat :| LastReturnAt(init, id, i) && e != Started(id) && !(e.Returned? && e.id == id) {
        assert LastReturnAt(log, id, i);
      }
      if e == Returned(id, true) { assert LastReturnAt(log, id, |log| - 1); }
      if i: nat :| LastReturnAt(log, id, i) && i < |log| - 1 { assert LastReturnAt(init, id, i); }
    }
  }

  /** The step lists that calls may build. */
  type Lists = iset<seq<string>>

  /** Some call may run the step: it is on a list that a call builds. */
  ghost predicate Listed(lists: Lists, id: string) {
    exists ids :: ids in lists && id in ids
  }

  /** Every call that builds a list builds one of these. */
  ghost predicate CallsOf(calls: seq<Call>, lists: Lists) {
    forall c :: c in calls && c.build.Some? ==> c.build.value in lists
  }

  /** No call may run what the file has the next run take for done, and that was last attempted with success. */
  ghost predicate OutOfReach(file: File, log: seq<Event>, lists: Lists) {
    file.Saved? ==>
      forall id :: id in file.steps && StepSucceeded(file.steps, id) ==> !Listed(lists, id) && LastOk(log, id)
  }

  /** Every step that would be taken for done was last attempted with success. */
  predicate HonestSteps(steps: StepMap, log: seq<Event>) {
    forall id :: id in steps && StepSucceeded(steps, id) ==> LastOk(log, id)
  }

  predicate Honest(file: File, log: seq<Event>) {
    file.Saved? ==> HonestSteps(file.steps, log)
  }

  /** Whenever the primary file was removed over a legacy file, the legacy file went right after it. */
  predicate PairsKept(log: seq<Event>) {
    forall p :: 0 <= p < |log| && log[p] == Reset(true) ==> p + 1 < |log| && log[p + 1] == Cleared
  }

  lemma PairsSnoc(log: seq<Event>, e: Event)
    requires PairsKept(log + [e])
    ensures PairsKept(log) || (log[|log| - 1] == Reset(true) && e == Cleared)
    ensures e != Reset(true)
  {
    assert (log + [e])[|log|] == e;
    forall p | 0 <= p < |log| && log[p] == Reset(true)
      ensures p + 1 < |log| ==> log[p + 1] == Cleared
      ensures p + 1 == |log| ==> e == Cleared
    {
      assert (log + [e])[p] == log[p];
      assert (log + [e])[p + 1] == if p + 1 < |log| then log[p + 1] else e;
    }
  }
}
