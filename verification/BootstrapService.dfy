/**
 * The resumable step engine of internal/cluster/bootstrap_service.go.
 *
 * What the engine does not decide itself -- whether a file operation works, whether a step's Run
 * returns nil -- is read from a list of replies.  The process dies when the replies run out, so
 * quantifying over reply lists quantifies over every failure and over a crash between any two
 * operations.
 */
module BootstrapService {
  import opened Text

  datatype Status = Running | Failed | Success | Skipped | Other(text: string)

  type StepMap = map<string, Status>

  /** A state file: missing, unreadable as JSON (a torn write), or holding a step map. */
  datatype File = Absent | Corrupt | Saved(steps: StepMap)

  datatype Reply = Ok | Refused | Torn

  datatype Failure =
    | SaveFailed | StepFailed(id: string) | ClearFailed | LoadFailed
    | BuildFailed | UnknownStep(name: string) | NotReady

  datatype Outcome = Nil | Error(failure: Failure) | Died

  /** What happened, in order.  Started/Returned are attempts of a step; the rest is about files. */
  datatype Event =
    | Started(id: string)
    | Returned(id: string, ok: bool)
    | Recorded(id: string)
    | Reset(legacyBehind: bool)
    | Cleared
    | Ended(outcome: Outcome)

  datatype World = World(primary: File, legacy: File, log: seq<Event>, replies: seq<Reply>) {
    function Note(e: Event): World {
      this.(log := log + [e])
    }

    function Next(): World
      requires replies != []
    {
      this.(replies := replies[1..])
    }
  }

  datatype Options = Options(restart: bool, dryRun: bool, onlyStep: string, fromStep: string)

  // ---------------------------------------------------------------- the specification functions

  predicate StepSucceeded(steps: StepMap, id: string) {
    id in steps && steps[id] in {Success, Skipped}
  }

  /** Write the step map to the primary file. */
  function Save(w: World, steps: StepMap): (World, Outcome) {
    if w.replies == [] then (w, Died)
    else match w.replies[0]
      case Ok => (w.Next().(primary := Saved(steps)), Nil)
      case Refused => (w.Next(), Error(SaveFailed))
      case Torn => (w.Next().(primary := Corrupt), Error(SaveFailed))
  }

  function LoadFile(w: World, file: File): (World, StepMap, Outcome) {
    if w.replies == [] then (w, map[], Died)
    else if w.replies[0] != Ok || file.Corrupt? then (w.Next(), map[], Error(LoadFailed))
    else (w.Next(), if file.Saved? then file.steps else map[], Nil)
  }

  function LoadWithFallback(w: World): (World, StepMap, Outcome) {
    var (w1, steps, out) := LoadFile(w, w.primary);
    if out != Nil || w.primary != Absent then (w1, steps, out) else LoadFile(w1, w1.legacy)
  }

  function RemovePrimary(w: World): (World, Outcome) {
    if w.primary == Absent then (w, Nil)
    else if w.replies == [] then (w, Died)
    else if w.replies[0] != Ok then (w.Next(), Error(ClearFailed))
    else (w.Next().(primary := Absent).Note(Reset(w.legacy != Absent)), Nil)
  }

  function RemoveLegacy(w: World): (World, Outcome) {
    if w.legacy == Absent then (w, Nil)
    else if w.replies == [] then (w, Died)
    else if w.replies[0] != Ok then (w.Next(), Error(ClearFailed))
    else (w.Next().(legacy := Absent).Note(Cleared), Nil)
  }

  /** The index the last-wins step map holds for an ID. */
  function LastIndex(ids: seq<string>, id: string): (k: Option<nat>)
    ensures k.Some? ==> k.value < |ids| && ids[k.value] == id && id !in ids[k.value + 1..]
    ensures k.None? <==> id !in ids
  {
    if ids == [] then None
    else if ids[|ids| - 1] == id then Some(|ids| - 1)
    else
      assert ids == ids[..|ids| - 1] + [ids[|ids| - 1]];
      LastIndex(ids[..|ids| - 1], id)
  }

  datatype Selection = Selected(ids: seq<string>, ignoreState: bool) | Unknown(name: string)

  function FilterSteps(ids: seq<string>, opts: Options): Selection {
    if !Blank(opts.onlyStep) then
      match LastIndex(ids, opts.onlyStep)
      case None => Unknown(opts.onlyStep)
      case Some(k) => Selected([ids[k]], true)
    else if !Blank(opts.fromStep) then
      match LastIndex(ids, opts.fromStep)
      case None => Unknown(opts.fromStep)
      case Some(k) => Selected(ids[k..], true)
    else
      Selected(ids, opts.restart)
  }

  datatype Ran = Ran(w: World, steps: StepMap, out: Outcome, completed: seq<string>, failed: seq<string>) {
    function After(before: Ran): Ran {
      this.(completed := before.completed + completed, failed := before.failed + failed)
    }
  }

  /** Call step.Run: the attempt is logged when it starts and when it returns. */
  function RunStep(w: World, id: string): (World, Outcome) {
    if w.replies == [] then (w, Died)
    else
      var w1 := w.Next().Note(Started(id));
      if w1.replies == [] then (w1, Died)
      else
        var ok := w1.replies[0] == Ok;
        (w1.Next().Note(Returned(id, ok)), if ok then Nil else Error(StepFailed(id)))
  }

  function ExecuteOne(w: World, steps: StepMap, id: string, ignoreState: bool): Ran {
    if !ignoreState && StepSucceeded(steps, id) then Ran(w, steps, Nil, [], [])
    else
      var running := steps[id := Running];
      var (w1, out1) := Save(w, running);
      if out1 != Nil then Ran(w1, running, out1, [], [])
      else
        var (w2, out2) := RunStep(w1, id);
        match out2
        case Died => Ran(w2, running, Died, [], [])
        case Error(_) =>
          var failed := running[id := Failed];
          var (w3, out3) := Save(w2, failed);
          Ran(w3, failed, if out3 == Nil then out2 else out3, [], if out3 == Nil then [id] else [])
        case Nil =>
          var done := running[id := Success];
          var (w3, out3) := Save(w2, done);
          if out3 == Nil then Ran(w3.Note(Recorded(id)), done, Nil, [id], [])
          else Ran(w3, done, out3, [], [])
  }

  function ExecuteSteps(w: World, steps: StepMap, ids: seq<string>, ignoreState: bool): Ran
    decreases |ids|
  {
    if ids == [] then Ran(w, steps, Nil, [], [])
    else
      var one := ExecuteOne(w, steps, ids[0], ignoreState);
      if one.out != Nil then one
      else ExecuteSteps(one.w, one.steps, ids[1..], ignoreState).After(one)
  }

  lemma Regroup(a: seq<string>, b: seq<string>, c: seq<string>)
    ensures (a + b) + c == a + (b + c)
  {
  }

  lemma ExecuteStepsEmpty(w: World, steps: StepMap, ignoreState: bool)
    ensures ExecuteSteps(w, steps, [], ignoreState) == Ran(w, steps, Nil, [], [])
  {
  }

  lemma ExecuteStepsUnfold(w: World, steps: StepMap, ids: seq<string>, ignoreState: bool, before: Ran)
    requires ids != []
    ensures var one := ExecuteOne(w, steps, ids[0], ignoreState);
      ExecuteSteps(w, steps, ids, ignoreState).After(before) ==
      if one.out != Nil then one.After(before)
      else ExecuteSteps(one.w, one.steps, ids[1..], ignoreState).After(one.After(before))
  {
    hide ExecuteOne;
    var one := ExecuteOne(w, steps, ids[0], ignoreState);
    if one.out == Nil {
      var rest := ExecuteSteps(one.w, one.steps, ids[1..], ignoreState);
      assert before.completed + (one.completed + rest.completed) == (before.completed + one.completed) + rest.completed;
      assert before.failed + (one.failed + rest.failed) == (before.failed + one.failed) + rest.failed;
    }
  }

  /** Clear or load the saved state: the first half of provisionInfrastructure. */
  function Prepare(w: World, opts: Options): (World, StepMap, Outcome) {
    if opts.restart then
      var (w1, out1) := RemovePrimary(w);
      if out1 != Nil then (w1, map[], out1)
      else
        var (w2, out2) := RemoveLegacy(w1);
        (w2, map[], out2)
    else LoadWithFallback(w)
  }

  function Provision(w: World, opts: Options, build: Option<seq<string>>): Ran {
    var (w1, steps, out) := Prepare(w, opts);
    if out != Nil then Ran(w1, map[], out, [], [])
    else if build.None? then Ran(w1, steps, Error(BuildFailed), [], [])
    else
      match FilterSteps(build.value, opts)
      case Unknown(name) => Ran(w1, steps, Error(UnknownStep(name)), [], [])
      case Selected(ids, ignoreState) => ExecuteSteps(w1, steps, ids, ignoreState)
  }

  /** Remove both files after success; a failed removal is only a warning. */
  function Cleanup(w: World): (World, Outcome) {
    var (w1, out1) := RemovePrimary(w);
    if out1 == Died then (w1, Died)
    else
      var (w2, out2) := RemoveLegacy(w1);
      (w2, if out2 == Died then Died else Nil)
  }

  function WaitReady(w: World): (World, Outcome) {
    if w.replies == [] then (w, Died)
    else (w.Next(), if w.replies[0] == Ok then Nil else Error(NotReady))
  }

  /** Everything Bootstrap does to the files and the cluster after its checks have passed. */
  function Deploy(w: World, opts: Options, build: Option<seq<string>>): Ran {
    var r := Provision(w, opts, build);
    if r.out != Nil then r
    else
      var (w1, out1) := WaitReady(r.w);
      if out1 != Nil then r.(w := w1, out := out1)
      else
        var (w2, out2) := Cleanup(w1);
        r.(w := w2, out := out2)
  }

  function DryRun(w: World, opts: Options, build: Option<seq<string>>): (Option<seq<string>>, Outcome) {
    if build.None? then (None, Error(BuildFailed))
    else
      match FilterSteps(build.value, opts)
      case Unknown(name) => (None, Error(UnknownStep(name)))
      case Selected(ids, _) => (Some(ids), Nil)
  }

  // ---------------------------------------------------------------- the service

  class BootstrapState {
    var steps: StepMap

    constructor (initial: StepMap)
      ensures steps == initial
    {
      steps := initial;
    }

    method SetStepStatus(id: string, status: Status)
      modifies this
      ensures steps == old(steps)[id := status]
    {
      steps := steps[id := status];
    }
  }

  class BootstrapResult {
    var stepsCompleted: seq<string>
    var stepsFailed: seq<string>
    var plan: Option<seq<string>>

    constructor ()
      ensures stepsCompleted == [] && stepsFailed == [] && plan == None
    {
      stepsCompleted, stepsFailed, plan := [], [], None;
    }
  }

  class Service {
    var primary: File
    var legacy: File
    var log: seq<Event>
    var replies: seq<Reply>

    constructor (w: World)
      ensures View() == w
    {
      primary, legacy, log, replies := w.primary, w.legacy, w.log, w.replies;
    }

    ghost function View(): World
      reads this
    {
      World(primary, legacy, log, replies)
    }

    method SaveBootstrapState(state: BootstrapState) returns (out: Outcome)
      modifies this
      ensures (View(), out) == Save(old(View()), state.steps)
    {
      if replies == [] { return Died; }
      var reply := replies[0];
      replies := replies[1..];
      match reply {
        case Ok => primary := Saved(state.steps); out := Nil;
        case Refused => out := Error(SaveFailed);
        case Torn => primary := Corrupt; out := Error(SaveFailed);
      }
    }

    method LoadBootstrapState(file: File) returns (state: BootstrapState, out: Outcome)
      modifies this
      ensures fresh(state)
      ensures (View(), state.steps, out) == LoadFile(old(View()), file)
    {
      state := new BootstrapState(map[]);
      if replies == [] { return state, Died; }
      var reply := replies[0];
      replies := replies[1..];
      if reply != Ok || file == Corrupt { return state, Error(LoadFailed); }
      if file.Saved? { state.steps := file.steps; }
      return state, Nil;
    }

    method LoadBootstrapStateWithFallback() returns (state: BootstrapState, out: Outcome)
      modifies this
      ensures fresh(state)
      ensures (View(), state.steps, out) == LoadWithFallback(old(View()))
    {
      state, out := LoadBootstrapState(primary);
      if out == Nil && primary == Absent {
        state, out := LoadBootstrapState(legacy);
      }
    }

    method RemovePrimaryState() returns (out: Outcome)
      modifies this
      ensures (View(), out) == RemovePrimary(old(View()))
    {
      if primary == Absent { return Nil; }
      if replies == [] { return Died; }
      var reply := replies[0];
      replies := replies[1..];
      if reply != Ok { return Error(ClearFailed); }
      primary := Absent;
      log := log + [Reset(legacy != Absent)];
      return Nil;
    }

    method RemoveLegacyState() returns (out: Outcome)
      modifies this
      ensures (View(), out) == RemoveLegacy(old(View()))
    {
      if legacy == Absent { return Nil; }
      if replies == [] { return Died; }
      var reply := replies[0];
      replies := replies[1..];
      if reply != Ok { return Error(ClearFailed); }
      legacy := Absent;
      log := log + [Cleared];
      return Nil;
    }

    method Run(id: string) returns (out: Outcome)
      modifies this
      ensures (View(), out) == RunStep(old(View()), id)
    {
      if replies == [] { return Died; }
      replies := replies[1..];
      log := log + [Started(id)];
      if replies == [] { return Died; }
      var ok := replies[0] == Ok;
      replies := replies[1..];
      log := log + [Returned(id, ok)];
      return if ok then Nil else Error(StepFailed(id));
    }

    method ExecuteStep(state: BootstrapState, id: string, ignoreState: bool, result: BootstrapResult)
      returns (out: Outcome)
      modifies this, state, result
      ensures var r := ExecuteOne(old(View()), old(state.steps), id, ignoreState);
        && View() == r.w && state.steps == r.steps && out == r.out
        && result.stepsCompleted == old(result.stepsCompleted) + r.completed
        && result.stepsFailed == old(result.stepsFailed) + r.failed
        && result.plan == old(result.plan)
    {
      if !ignoreState && StepSucceeded(state.steps, id) { return Nil; }
      state.SetStepStatus(id, Running);
      out := SaveBootstrapState(state);
      if out != Nil { return; }
      out := Run(id);
      if out == Died { return; }
      if out != Nil {
        state.SetStepStatus(id, Failed);
        var saved := SaveBootstrapState(state);
        if saved != Nil { return saved; }
        result.stepsFailed := result.stepsFailed + [id];
        return;
      }
      state.SetStepStatus(id, Success);
      out := SaveBootstrapState(state);
      if out != Nil { return; }
      log := log + [Recorded(id)];
      result.stepsCompleted := result.stepsCompleted + [id];
    }

    method ExecuteBootstrapSteps(state: BootstrapState, ids: seq<string>, ignoreState: bool, result: BootstrapResult)
      returns (out: Outcome)
      modifies this, state, result
      ensures var r := ExecuteSteps(old(View()), old(state.steps), ids, ignoreState);
        && View() == r.w && state.steps == r.steps && out == r.out
        && result.stepsCompleted == old(result.stepsCompleted) + r.completed
        && result.stepsFailed == old(result.stepsFailed) + r.failed
        && result.plan == old(result.plan)
    {
      hide ExecuteOne, ExecuteSteps, Service.View;
      out := Nil;
      var i := 0;
      ghost var goal := ExecuteSteps(View(), state.steps, ids, ignoreState);
      ghost var sofar := Ran(View(), state.steps, Nil, [], []);
      while i < |ids|
        invariant 0 <= i <= |ids| && out == Nil
        invariant result.plan == old(result.plan)
        invariant result.stepsCompleted == old(result.stepsCompleted) + sofar.completed
        invariant result.stepsFailed == old(result.stepsFailed) + sofar.failed
        invariant ExecuteSteps(View(), state.steps, ids[i..], ignoreState).After(sofar) == goal
      {
        ghost var one := ExecuteOne(View(), state.steps, ids[i], ignoreState);
        ExecuteStepsUnfold(View(), state.steps, ids[i..], ignoreState, sofar);
        assert ids[i..][1..] == ids[i + 1..];
        out := ExecuteStep(state, ids[i], ignoreState, result);
        Regroup(old(result.stepsCompleted), sofar.completed, one.completed);
        Regroup(old(result.stepsFailed), sofar.failed, one.failed);
        sofar := one.After(sofar);
        if out != Nil { return; }
        i := i + 1;
      }
      assert ids[i..] == [];
      ExecuteStepsEmpty(View(), state.steps, ignoreState);
    }

    method ProvisionInfrastructure(opts: Options, build: Option<seq<string>>, result: BootstrapResult)
      returns (out: Outcome)
      modifies this, result
      ensures var r := Provision(old(View()), opts, build);
        && View() == r.w && out == r.out
        && result.stepsCompleted == old(result.stepsCompleted) + r.completed
        && result.stepsFailed == old(result.stepsFailed) + r.failed
        && result.plan == old(result.plan)
    {
      var state := new BootstrapState(map[]);
      if opts.restart {
        out := RemovePrimaryState();
        if out != Nil { return; }
        out := RemoveLegacyState();
        if out != Nil { return; }
      } else {
        state, out := LoadBootstrapStateWithFallback();
        if out != Nil { return; }
      }
      if build == None { return Error(BuildFailed); }
      match FilterSteps(build.value, opts) {
        case Unknown(name) => return Error(UnknownStep(name));
        case Selected(ids, ignoreState) => out := ExecuteBootstrapSteps(state, ids, ignoreState, result);
      }
    }

    method Bootstrap(opts: Options, build: Option<seq<string>>) returns (result: BootstrapResult, out: Outcome)
      modifies this
      ensures fresh(result)
      ensures opts.dryRun ==>
        unchanged(this) && (result.plan, out) == DryRun(old(View()), opts, build)
      ensures !opts.dryRun ==> var r := Deploy(old(View()), opts, build);
        && View() == r.w && out == r.out && result.plan == None
        && result.stepsCompleted == r.completed && result.stepsFailed == r.failed
    {
      result := new BootstrapResult();
      if opts.dryRun {
        if build == None { return result, Error(BuildFailed); }
        match FilterSteps(build.value, opts) {
          case Unknown(name) => return result, Error(UnknownStep(name));
          case Selected(ids, _) =>
            result.plan := Some(ids);
            return result, Nil;
        }
      }
      out := ProvisionInfrastructure(opts, build, result);
      if out != Nil { return; }
      if replies == [] { return result, Died; }
      var ready := replies[0] == Ok;
      replies := replies[1..];
      if !ready { return result, Error(NotReady); }
      out := RemovePrimaryState();
      if out == Died { return; }
      out := RemoveLegacyState();
      if out != Died { out := Nil; }
    }
  }
}
