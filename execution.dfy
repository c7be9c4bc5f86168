/** One run of a composed sequence: every child step is given a path per input and
    output tag, all children are constructed in order, then each is built in the
    same order with overwriting allowed. Temporary files live in a folder named after
    the run's id; the random ids of the source are an injective oracle here, and child
    construction and building are recorded in a trace. */
module Execution {
  import opened Steps

  /** The fixed prefix of every run folder. */
  const TempRoot: string := "/tmp/tinybaker-"

  function RunFolder(sid: string): string {
    TempRoot + sid
  }

  /** p names a file directly in the folder of run sid. */
  predicate InRunFolder(p: Path, sid: string) {
    RunFolder(sid) + "/" <= p && '/' !in p[|RunFolder(sid)| + 1..]
  }

  /** The temporary file named by the fresh id `id` inside the folder of run sid. */
  function TempFilename(sid: string, id: string): Path {
    RunFolder(sid) + "/" + id
  }

  /** A temporary file named by an id without '/' lies directly in its run's folder. */
  lemma TempFilenameInRunFolder(sid: string, id: string)
    requires '/' !in id
    ensures InRunFolder(TempFilename(sid, id), sid)
  {
    var p := TempFilename(sid, id);
    assert p[..|RunFolder(sid)| + 1] == RunFolder(sid) + "/";
    assert p[|RunFolder(sid)| + 1..] == id;
  }

  /** Within one run, distinct ids give distinct temporary files. */
  lemma TempFilenameInjective(sid: string, a: string, b: string)
    requires TempFilename(sid, a) == TempFilename(sid, b)
    ensures a == b
  {
    var k := |RunFolder(sid)| + 1;
    assert a == TempFilename(sid, a)[k..];
    assert b == TempFilename(sid, b)[k..];
  }

  /** Run ids contain no '/', so a path lies in the folder of at most one run: two
      runs with different ids never share a temporary file. */
  lemma RunFoldersDisjoint(p: Path, sid1: string, sid2: string)
    requires '/' !in sid1 && '/' !in sid2
    requires InRunFolder(p, sid1) && InRunFolder(p, sid2)
    ensures sid1 == sid2
  {
    var k := |TempRoot|;
    assert p[k + |sid1|] == '/' by {
      assert (RunFolder(sid1) + "/")[k + |sid1|] == '/';
    }
    assert p[k + |sid2|] == '/' by {
      assert (RunFolder(sid2) + "/")[k + |sid2|] == '/';
    }
    assert |sid1| == |sid2|;
    assert sid1 == (RunFolder(sid1) + "/")[k..k + |sid1|];
    assert sid2 == (RunFolder(sid2) + "/")[k..k + |sid2|];
  }

  /** The source draws a new random id for every temporary file; the model assumes
      these ids never repeat. */
  ghost predicate Injective(uuid: nat -> string) {
    forall a: nat, b: nat :: uuid(a) == uuid(b) ==> a == b
  }

  /** A uuid4 string is hex digits and dashes, so it never contains '/'. */
  ghost predicate SlashFree(uuid: nat -> string) {
    forall n: nat :: '/' !in uuid(n)
  }

  /** The input paths of a step: the sequence's own input paths for the step's input
      tags, overridden by the paths the immediately preceding step wrote. */
  function InputPaths(inputs: set<Tag>, seqInputPaths: map<Tag, Path>, prevOutputPaths: map<Tag, Path>): (m: map<Tag, Path>)
    ensures m.Keys == inputs * (seqInputPaths.Keys + prevOutputPaths.Keys)
    ensures forall t :: t in m && t in prevOutputPaths ==> m[t] == prevOutputPaths[t]
    ensures forall t :: t in m && t !in prevOutputPaths ==> m[t] == seqInputPaths[t]
  {
    var fromSequence := map t | t in seqInputPaths && t in inputs :: seqInputPaths[t];
    var fromPrev := map t | t in prevOutputPaths && t in inputs :: prevOutputPaths[t];
    fromSequence + fromPrev
  }

  /** t is an output of the step that is not an output of the sequence and that the
      caller gave no path for. */
  predicate GetsTempPath(step: StepDef, seqOutputs: set<Tag>, seqOutputPaths: map<Tag, Path>, t: Tag) {
    t in step.outputs && t !in seqOutputs && t !in seqOutputPaths
  }

  /** The output paths of a step: every output of the step that is not an output of
      the sequence gets a temporary file under the run's folder, and the caller's
      path wins for every output the caller gave one for. */
  ghost predicate OutputPlan(step: StepDef, seqOutputs: set<Tag>, seqOutputPaths: map<Tag, Path>, sid: string, paths: map<Tag, Path>) {
    && paths.Keys == (step.outputs - seqOutputs) + (step.outputs * seqOutputPaths.Keys)
    && (forall t :: t in step.outputs && t in seqOutputPaths ==> paths[t] == seqOutputPaths[t])
    && (forall t :: GetsTempPath(step, seqOutputs, seqOutputPaths, t) ==> InRunFolder(paths[t], sid))
  }

  /** When the caller gives a path for exactly the sequence's outputs, every output
      of the step has a path: the caller's for a sequence output, a temporary file
      under the run folder for any other. */
  lemma CompleteCallerPaths(step: StepDef, seqOutputs: set<Tag>, seqOutputPaths: map<Tag, Path>, sid: string, paths: map<Tag, Path>)
    requires OutputPlan(step, seqOutputs, seqOutputPaths, sid, paths)
    requires seqOutputPaths.Keys == seqOutputs
    ensures paths.Keys == step.outputs
    ensures forall t :: t in step.outputs && t in seqOutputs ==> paths[t] == seqOutputPaths[t]
    ensures forall t :: t in step.outputs && t !in seqOutputs ==> InRunFolder(paths[t], sid)
  {
    forall t | t in step.outputs && t !in seqOutputs ensures InRunFolder(paths[t], sid) {
      assert GetsTempPath(step, seqOutputs, seqOutputPaths, t);
    }
  }

  /** Allocates a temporary file for every output of the step outside the sequence's
      outputs, drawing ids next0, next0 + 1, ... from the oracle, then lets the
      caller's paths override. */
  method OutputPaths(step: StepDef, seqOutputs: set<Tag>, seqOutputPaths: map<Tag, Path>,
                     sid: string, uuid: nat -> string, next0: nat)
    returns (paths: map<Tag, Path>, next: nat, ghost idOf: map<Tag, nat>)
    requires SlashFree(uuid)
    ensures OutputPlan(step, seqOutputs, seqOutputPaths, sid, paths)
    ensures next0 <= next
    ensures forall t :: t in idOf <==> GetsTempPath(step, seqOutputs, seqOutputPaths, t)
    ensures forall t :: t in idOf ==> next0 <= idOf[t] < next && paths[t] == TempFilename(sid, uuid(idOf[t]))
    ensures forall t, u :: t in idOf && u in idOf && t != u ==> idOf[t] != idOf[u]
  {
    var generated: map<Tag, Path> := map[];
    ghost var ids: map<Tag, nat> := map[];
    next := next0;
    var pending := step.outputs - seqOutputs;
    while pending != {}
      invariant pending <= step.outputs - seqOutputs
      invariant generated.Keys == ids.Keys == (step.outputs - seqOutputs) - pending
      invariant next0 <= next
      invariant forall t :: t in ids ==> next0 <= ids[t] < next && generated[t] == TempFilename(sid, uuid(ids[t]))
      invariant forall t, u :: t in ids && u in ids && t != u ==> ids[t] != ids[u]
      decreases pending
    {
      var t :| t in pending;
      generated := generated[t := TempFilename(sid, uuid(next))];
      ids := ids[t := next];
      next := next + 1;
      pending := pending - {t};
    }
    paths := generated + map t | t in seqOutputPaths && t in step.outputs :: seqOutputPaths[t];
    idOf := map t | t in ids && t !in seqOutputPaths :: ids[t];
    OutputsAllocated(step, seqOutputs, seqOutputPaths, sid, uuid, next0, next, generated, ids, paths, idOf);
  }

  /** The temporary files generated for the non-sequence outputs, overridden by the
      caller's paths, follow OutputPlan, and the ids that survive the override still
      name their files. */
  lemma OutputsAllocated(step: StepDef, seqOutputs: set<Tag>, seqOutputPaths: map<Tag, Path>,
                         sid: string, uuid: nat -> string, next0: nat, next: nat,
                         generated: map<Tag, Path>, ids: map<Tag, nat>, paths: map<Tag, Path>, idOf: map<Tag, nat>)
    requires generated.Keys == ids.Keys == step.outputs - seqOutputs
    requires forall t :: t in ids ==> next0 <= ids[t] < next && generated[t] == TempFilename(sid, uuid(ids[t]))
    requires paths == generated + map t | t in seqOutputPaths && t in step.outputs :: seqOutputPaths[t]
    requires idOf == map t | t in ids && t !in seqOutputPaths :: ids[t]
    requires SlashFree(uuid)
    ensures OutputPlan(step, seqOutputs, seqOutputPaths, sid, paths)
    ensures forall t :: t in idOf <==> GetsTempPath(step, seqOutputs, seqOutputPaths, t)
    ensures forall t :: t in idOf ==> next0 <= idOf[t] < next && paths[t] == TempFilename(sid, uuid(idOf[t]))
  {
    forall t | GetsTempPath(step, seqOutputs, seqOutputPaths, t) ensures InRunFolder(paths[t], sid) {
      TempFilenameInRunFolder(sid, uuid(ids[t]));
    }
  }

  /** A constructed child: the step with the paths it was given. */
  datatype Instance = Instance(step: StepDef, inputPaths: map<Tag, Path>, outputPaths: map<Tag, Path>)

  /** What the run does to its children, in order. */
  datatype Event = Construct(index: nat, instance: Instance) | Build(index: nat, overwrite: bool)

  datatype RunOutcome = Completed | Failed(index: nat)

  /** No two temporary files of one run coincide. */
  ghost predicate TempPathsDistinct(steps: seq<StepDef>, seqOutputs: set<Tag>, seqOutputPaths: map<Tag, Path>, instances: seq<Instance>) {
    forall i, j, t, u ::
      0 <= i < |steps| && 0 <= j < |steps| && i < |instances| && j < |instances|
      && GetsTempPath(steps[i], seqOutputs, seqOutputPaths, t) && GetsTempPath(steps[j], seqOutputs, seqOutputPaths, u)
      && t in instances[i].outputPaths && u in instances[j].outputPaths
      && (i != j || t != u)
      ==> instances[i].outputPaths[t] != instances[j].outputPaths[u]
  }

  /** Phase 1 of a run: plans the paths of every child in order and constructs it.
      Each child reads the sequence's input paths, overridden by what the child just
      before it writes; its outputs follow OutputPlan, and no two temporary files
      coincide. */
  method ConstructInstances(steps: seq<StepDef>, seqOutputs: set<Tag>, inputFiles: map<Tag, Path>,
                            outputFiles: map<Tag, Path>, sid: string, uuid: nat -> string)
    returns (instances: seq<Instance>, constructs: seq<Event>)
    requires Injective(uuid) && SlashFree(uuid)
    ensures |instances| == |constructs| == |steps|
    ensures forall k :: 0 <= k < |steps| ==> constructs[k] == Construct(k, instances[k])
    ensures Planned(steps, seqOutputs, inputFiles, outputFiles, sid, instances)
    ensures TempPathsDistinct(steps, seqOutputs, outputFiles, instances)
  {
    var n := |steps|;
    instances := [];
    constructs := [];
    var prevOutputPaths: map<Tag, Path> := map[];
    var next := 0;
    ghost var ids: seq<map<Tag, nat>> := [];
    var i := 0;
    while i < n
      invariant 0 <= i <= n
      invariant |instances| == |constructs| == |ids| == i
      invariant forall k :: 0 <= k < i ==> constructs[k] == Construct(k, instances[k])
      invariant prevOutputPaths == PrevOutputPaths(instances, i)
      invariant Planned(steps, seqOutputs, inputFiles, outputFiles, sid, instances)
      invariant TempIds(steps, seqOutputs, outputFiles, sid, uuid, instances, ids, next)
    {
      var step := steps[i];
      var inputPaths := InputPaths(step.inputs, inputFiles, prevOutputPaths);
      var outputPaths, next', idOf := OutputPaths(step, seqOutputs, outputFiles, sid, uuid, next);
      var instance := Instance(step, inputPaths, outputPaths);
      TempIdsExtend(steps, seqOutputs, outputFiles, sid, uuid, instances, ids, next, instance, idOf, next');
      assert StepPlanned(step, instance, PrevOutputPaths(instances, i), seqOutputs, inputFiles, outputFiles, sid);
      PlannedExtend(steps, seqOutputs, inputFiles, outputFiles, sid, instances, instance);
      instances := instances + [instance];
      constructs := constructs + [Construct(i, instance)];
      ids := ids + [idOf];
      prevOutputPaths := outputPaths;
      next := next';
      i := i + 1;
    }

    DistinctIdsDistinctPaths(steps, seqOutputs, outputFiles, sid, uuid, instances, ids, next);
  }

  /** The output paths of the step before step k, or none for the first step. */
  function PrevOutputPaths(instances: seq<Instance>, k: nat): map<Tag, Path>
    requires k <= |instances|
  {
    if k == 0 then map[] else instances[k - 1].outputPaths
  }

  /** One child is planned: it is the step itself, its inputs are wired to the
      sequence's input paths and the outputs of the child before it, and its outputs
      follow OutputPlan. */
  ghost predicate StepPlanned(step: StepDef, instance: Instance, prevOutputPaths: map<Tag, Path>, seqOutputs: set<Tag>,
                              inputFiles: map<Tag, Path>, outputFiles: map<Tag, Path>, sid: string) {
    && instance.step == step
    && instance.inputPaths == InputPaths(step.inputs, inputFiles, prevOutputPaths)
    && OutputPlan(step, seqOutputs, outputFiles, sid, instance.outputPaths)
  }

  /** The instances so far are the leading steps, each of them planned. */
  ghost predicate Planned(steps: seq<StepDef>, seqOutputs: set<Tag>, inputFiles: map<Tag, Path>,
                          outputFiles: map<Tag, Path>, sid: string, instances: seq<Instance>) {
    && |instances| <= |steps|
    && forall k {:trigger PrevOutputPaths(instances, k)} :: 0 <= k < |instances| ==>
         StepPlanned(steps[k], instances[k], PrevOutputPaths(instances, k), seqOutputs, inputFiles, outputFiles, sid)
  }

  /** Planned spelled out child by child. */
  lemma PlannedMeaning(steps: seq<StepDef>, seqOutputs: set<Tag>, inputFiles: map<Tag, Path>,
                       outputFiles: map<Tag, Path>, sid: string, instances: seq<Instance>)
    requires Planned(steps, seqOutputs, inputFiles, outputFiles, sid, instances)
    ensures forall k :: 0 <= k < |instances| ==>
      && instances[k].step == steps[k]
      && OutputPlan(steps[k], seqOutputs, outputFiles, sid, instances[k].outputPaths)
    ensures |instances| > 0 ==> instances[0].inputPaths == InputPaths(steps[0].inputs, inputFiles, map[])
    ensures forall k :: 0 < k < |instances| ==>
      instances[k].inputPaths == InputPaths(steps[k].inputs, inputFiles, instances[k - 1].outputPaths)
  {
    forall k | 0 <= k < |instances|
      ensures instances[k].step == steps[k]
      ensures OutputPlan(steps[k], seqOutputs, outputFiles, sid, instances[k].outputPaths)
      ensures instances[k].inputPaths == InputPaths(steps[k].inputs, inputFiles, if k == 0 then map[] else instances[k - 1].outputPaths)
    {
      var prev := PrevOutputPaths(instances, k);
      assert StepPlanned(steps[k], instances[k], prev, seqOutputs, inputFiles, outputFiles, sid);
      assert prev == if k == 0 then map[] else instances[k - 1].outputPaths;
    }
    if |instances| > 0 {
      assert StepPlanned(steps[0], instances[0], PrevOutputPaths(instances, 0), seqOutputs, inputFiles, outputFiles, sid);
    }
  }

  lemma PlannedExtend(steps: seq<StepDef>, seqOutputs: set<Tag>, inputFiles: map<Tag, Path>,
                      outputFiles: map<Tag, Path>, sid: string, instances: seq<Instance>, instance: Instance)
    requires Planned(steps, seqOutputs, inputFiles, outputFiles, sid, instances)
    requires |instances| < |steps|
    requires StepPlanned(steps[|instances|], instance, PrevOutputPaths(instances, |instances|), seqOutputs, inputFiles, outputFiles, sid)
    ensures Planned(steps, seqOutputs, inputFiles, outputFiles, sid, instances + [instance])
  {
    var extended := instances + [instance];
    forall k | 0 <= k < |extended|
      ensures StepPlanned(steps[k], extended[k], PrevOutputPaths(extended, k), seqOutputs, inputFiles, outputFiles, sid)
    {
      if k < |instances| {
        assert extended[k] == instances[k];
        assert PrevOutputPaths(extended, k) == PrevOutputPaths(instances, k);
        assert StepPlanned(steps[k], instances[k], PrevOutputPaths(instances, k), seqOutputs, inputFiles, outputFiles, sid);
      } else {
        assert extended[k] == instance;
        assert PrevOutputPaths(extended, k) == PrevOutputPaths(instances, k);
      }
    }
  }

  /** The ghost bookkeeping of phase 1: ids[k] maps every output of step k that gets
      a temporary file to the oracle id it was named by; all ids are below next and no
      id is used twice. */
  ghost predicate TempIds(steps: seq<StepDef>, seqOutputs: set<Tag>, outputFiles: map<Tag, Path>, sid: string,
                          uuid: nat -> string, instances: seq<Instance>, ids: seq<map<Tag, nat>>, next: nat) {
    && |instances| == |ids| <= |steps|
    && IdsName(steps, seqOutputs, outputFiles, sid, uuid, instances, ids, next)
    && IdsDistinct(ids)
  }

  ghost predicate IdsName(steps: seq<StepDef>, seqOutputs: set<Tag>, outputFiles: map<Tag, Path>, sid: string,
                          uuid: nat -> string, instances: seq<Instance>, ids: seq<map<Tag, nat>>, next: nat)
    requires |instances| == |ids| <= |steps|
  {
    && (forall k, t :: 0 <= k < |ids| ==> (t in ids[k] <==> GetsTempPath(steps[k], seqOutputs, outputFiles, t)))
    && (forall k, t :: 0 <= k < |ids| && t in ids[k] ==>
          ids[k][t] < next && t in instances[k].outputPaths && instances[k].outputPaths[t] == TempFilename(sid, uuid(ids[k][t])))
  }

  ghost predicate IdsDistinct(ids: seq<map<Tag, nat>>) {
    forall k1, k2, t1, t2 :: 0 <= k1 < |ids| && 0 <= k2 < |ids| && t1 in ids[k1] && t2 in ids[k2] && (k1 != k2 || t1 != t2) ==>
      ids[k1][t1] != ids[k2][t2]
  }

  lemma TempIdsExtend(steps: seq<StepDef>, seqOutputs: set<Tag>, outputFiles: map<Tag, Path>, sid: string,
                      uuid: nat -> string, instances: seq<Instance>, ids: seq<map<Tag, nat>>, next: nat,
                      instance: Instance, idOf: map<Tag, nat>, next': nat)
    requires TempIds(steps, seqOutputs, outputFiles, sid, uuid, instances, ids, next)
    requires |ids| < |steps| && next <= next'
    requires forall t :: t in idOf <==> GetsTempPath(steps[|ids|], seqOutputs, outputFiles, t)
    requires forall t :: t in idOf ==>
      next <= idOf[t] < next' && t in instance.outputPaths && instance.outputPaths[t] == TempFilename(sid, uuid(idOf[t]))
    requires forall t, u :: t in idOf && u in idOf && t != u ==> idOf[t] != idOf[u]
    ensures TempIds(steps, seqOutputs, outputFiles, sid, uuid, instances + [instance], ids + [idOf], next')
  {
    IdsNameExtend(steps, seqOutputs, outputFiles, sid, uuid, instances, ids, next, instance, idOf, next');
    IdsDistinctExtend(steps, seqOutputs, outputFiles, sid, uuid, instances, ids, next, idOf, next');
  }

  lemma IdsNameExtend(steps: seq<StepDef>, seqOutputs: set<Tag>, outputFiles: map<Tag, Path>, sid: string,
                      uuid: nat -> string, instances: seq<Instance>, ids: seq<map<Tag, nat>>, next: nat,
                      instance: Instance, idOf: map<Tag, nat>, next': nat)
    requires |instances| == |ids| < |steps| && next <= next'
    requires IdsName(steps, seqOutputs, outputFiles, sid, uuid, instances, ids, next)
    requires forall t :: t in idOf <==> GetsTempPath(steps[|ids|], seqOutputs, outputFiles, t)
    requires forall t :: t in idOf ==>
      next <= idOf[t] < next' && t in instance.outputPaths && instance.outputPaths[t] == TempFilename(sid, uuid(idOf[t]))
    ensures IdsName(steps, seqOutputs, outputFiles, sid, uuid, instances + [instance], ids + [idOf], next')
  {
    var ids', instances' := ids + [idOf], instances + [instance];
    forall k, t | 0 <= k < |ids'| && t in ids'[k]
      ensures ids'[k][t] < next' && t in instances'[k].outputPaths && instances'[k].outputPaths[t] == TempFilename(sid, uuid(ids'[k][t]))
    {
      if k < |ids| {
        assert ids'[k] == ids[k] && instances'[k] == instances[k];
      }
    }
  }

  lemma IdsDistinctExtend(steps: seq<StepDef>, seqOutputs: set<Tag>, outputFiles: map<Tag, Path>, sid: string,
                          uuid: nat -> string, instances: seq<Instance>, ids: seq<map<Tag, nat>>, next: nat,
                          idOf: map<Tag, nat>, next': nat)
    requires |instances| == |ids| <= |steps|
    requires IdsDistinct(ids) && IdsName(steps, seqOutputs, outputFiles, sid, uuid, instances, ids, next)
    requires forall t :: t in idOf ==> next <= idOf[t] < next'
    requires forall t, u :: t in idOf && u in idOf && t != u ==> idOf[t] != idOf[u]
    ensures IdsDistinct(ids + [idOf])
  {
    var ids' := ids + [idOf];
    forall k1, k2, t1, t2 | 0 <= k1 < |ids'| && 0 <= k2 < |ids'| && t1 in ids'[k1] && t2 in ids'[k2] && (k1 != k2 || t1 != t2)
      ensures ids'[k1][t1] != ids'[k2][t2]
    {
      if k1 < |ids| && k2 < |ids| {
        assert ids'[k1] == ids[k1] && ids'[k2] == ids[k2];
      }
    }
  }

  /** Temporary files named by distinct ids of an injective oracle are distinct. */
  lemma DistinctIdsDistinctPaths(steps: seq<StepDef>, seqOutputs: set<Tag>, outputFiles: map<Tag, Path>,
                                 sid: string, uuid: nat -> string, instances: seq<Instance>, ids: seq<map<Tag, nat>>, next: nat)
    requires Injective(uuid)
    requires |ids| == |steps|
    requires TempIds(steps, seqOutputs, outputFiles, sid, uuid, instances, ids, next)
    ensures TempPathsDistinct(steps, seqOutputs, outputFiles, instances)
  {
    forall i, j, t, u |
      0 <= i < |steps| && 0 <= j < |steps|
      && GetsTempPath(steps[i], seqOutputs, outputFiles, t) && GetsTempPath(steps[j], seqOutputs, outputFiles, u)
      && t in instances[i].outputPaths && u in instances[j].outputPaths
      && (i != j || t != u)
      ensures instances[i].outputPaths[t] != instances[j].outputPaths[u]
    {
      if instances[i].outputPaths[t] == instances[j].outputPaths[u] {
        TempFilenameInjective(sid, uuid(ids[i][t]), uuid(ids[j][u]));
      }
    }
  }

  /** Phase 2 of a run: builds the instances in order with overwriting allowed and
      nothing in between; the first build that fails (an index in `failing`) ends the
      run. */
  method RunInstances(instances: seq<Instance>, failing: set<nat>) returns (builds: seq<Event>, outcome: RunOutcome)
    ensures outcome == Completed <==> forall k :: 0 <= k < |instances| ==> k !in failing
    ensures outcome.Failed? ==>
      outcome.index < |instances| && outcome.index in failing && forall k :: 0 <= k < outcome.index ==> k !in failing
    ensures |builds| == if outcome.Failed? then outcome.index + 1 else |instances|
    ensures forall k :: 0 <= k < |builds| ==> builds[k] == Build(k, true)
  {
    builds := [];
    var k := 0;
    while k < |instances|
      invariant 0 <= k <= |instances| && |builds| == k
      invariant forall m :: 0 <= m < k ==> builds[m] == Build(m, true) && m !in failing
    {
      builds := builds + [Build(k, true)];
      if k in failing {
        return builds, Failed(k);
      }
      k := k + 1;
    }
    return builds, Completed;
  }

  /** One run of the composite: every child is planned and constructed, then every
      child is built, all in declared order. The run's id is sid; uuid supplies the
      ids of its temporary files. */
  method Script(composite: StepDef, inputFiles: map<Tag, Path>, outputFiles: map<Tag, Path>,
                sid: string, uuid: nat -> string, failing: set<nat>)
    returns (instances: seq<Instance>, trace: seq<Event>, outcome: RunOutcome)
    requires Injective(uuid) && SlashFree(uuid)
    ensures |instances| == |composite.children|
    ensures forall i :: 0 <= i < |instances| ==> instances[i].step == composite.children[i]
    ensures |instances| > 0 ==> instances[0].inputPaths == InputPaths(composite.children[0].inputs, inputFiles, map[])
    ensures forall i :: 0 < i < |instances| ==>
      instances[i].inputPaths == InputPaths(composite.children[i].inputs, inputFiles, instances[i - 1].outputPaths)
    ensures forall i :: 0 <= i < |instances| ==>
      OutputPlan(composite.children[i], composite.outputs, outputFiles, sid, instances[i].outputPaths)
    ensures TempPathsDistinct(composite.children, composite.outputs, outputFiles, instances)
    ensures outcome == Completed <==> forall k :: 0 <= k < |instances| ==> k !in failing
    ensures outcome.Failed? ==>
      outcome.index < |instances| && outcome.index in failing && forall k :: 0 <= k < outcome.index ==> k !in failing
    ensures |trace| == |instances| + (if outcome.Failed? then outcome.index + 1 else |instances|)
    ensures forall k :: 0 <= k < |instances| ==> trace[k] == Construct(k, instances[k])
    ensures forall k :: |instances| <= k < |trace| ==> trace[k] == Build(k - |instances|, true)
  {
    var constructs;
    instances, constructs := ConstructInstances(composite.children, composite.outputs, inputFiles, outputFiles, sid, uuid);
    var builds;
    PlannedMeaning(composite.children, composite.outputs, inputFiles, outputFiles, sid, instances);
    builds, outcome := RunInstances(instances, failing);
    trace := constructs + builds;
  }

  /** The input-path rule consults only the immediately preceding step. In a
      conflict-free sequence, a tag read by step i and written by a step two or more
      places earlier is neither a sequence input nor an output of step i - 1, so step
      i gets no path for it. */
  lemma SkippedProducerGetsNoPath(steps: seq<StepDef>, i: nat, o: nat, t: Tag,
                                  seqInputPaths: map<Tag, Path>, prevOutputPaths: map<Tag, Path>)
    requires !HasConflict(steps)
    requires i < |steps| && o + 1 < i
    requires t in steps[o].outputs && t in steps[i].inputs
    requires seqInputPaths.Keys <= ExternalTags(steps)
    requires prevOutputPaths.Keys <= steps[i - 1].outputs
    ensures t !in InputPaths(steps[i].inputs, seqInputPaths, prevOutputPaths)
  {
    assert t !in steps[i - 1].outputs;
    assert t in Produced(steps, |steps|) by {
      assert 0 <= o < |steps| && t in steps[o].outputs;
    }
  }

  // Two steps that read the same raw input, and a third that joins their outputs.
  const SplitX := StepDef({"raw"}, {"x"}, [])
  const SplitY := StepDef({"raw"}, {"y"}, [])
  const Join := StepDef({"x", "y"}, {"z"}, [])

  /** The validator accepts [SplitX, SplitY, Join], yet however the caller supplies
      the sequence's input paths and whatever SplitY wrote, Join gets no path for
      "x", which only SplitX writes. */
  lemma {:induction false} JoinMissesEarlierOutput()
    ensures !HasConflict([SplitX, SplitY, Join])
    ensures ExternalTags([SplitX, SplitY, Join]) == {"raw"}
    ensures forall seqInputPaths: map<Tag, Path>, prevOutputPaths: map<Tag, Path> ::
      seqInputPaths.Keys <= {"raw"} && prevOutputPaths.Keys <= SplitY.outputs ==>
      "x" !in InputPaths(Join.inputs, seqInputPaths, prevOutputPaths)
  {
    var steps := [SplitX, SplitY, Join];
    ConsumedNext(steps, 0);
    ConsumedNext(steps, 1);
    ConsumedNext(steps, 2);
    ProducedNext(steps, 0);
    ProducedNext(steps, 1);
    ProducedNext(steps, 2);
    assert Consumed(steps, 3) == {"raw", "x", "y"};
    assert Produced(steps, 3) == {"x", "y", "z"};
    assert !HasConflict(steps) by {
      forall i: nat, t | i < 3 && t in steps[i].outputs ensures !ConflictAt(steps, i, t) {
        assert t in Produced(steps, 3);
      }
    }
  }
}
