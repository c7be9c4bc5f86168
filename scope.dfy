/** The lexical scope of a sequence: for every tag touched by its steps, where the
    tag comes from (-1 for outside the sequence, otherwise the index of the step that
    writes it) and how many steps read it. */
module LexicalScope {
  import opened Steps

  /** Origin of a tag and its reference count. */
  datatype Entry = Entry(origin: int, refCount: nat)

  /** The origin recorded for a tag that no step of the sequence writes. */
  const External: int := -1

  /** The scope after the first n steps have been registered, stated declaratively. */
  function ScopeUpTo(steps: seq<StepDef>, n: nat): map<Tag, Entry>
    requires n <= |steps|
  {
    map t | t in Consumed(steps, n) + Produced(steps, n) :: Entry(Origin(steps, n, t), Uses(steps, n, t))
  }

  function Scope(steps: seq<StepDef>): map<Tag, Entry> {
    ScopeUpTo(steps, |steps|)
  }

  /** Registers the inputs of step i: a tag not yet in scope becomes external with one
      reference, a tag already in scope keeps its origin and gains a reference. */
  method RegisterInputs(steps: seq<StepDef>, i: nat, scope0: map<Tag, Entry>) returns (scope: map<Tag, Entry>)
    requires i < |steps|
    requires scope0 == ScopeUpTo(steps, i)
    ensures scope.Keys == Consumed(steps, i + 1) + Produced(steps, i)
    ensures forall t :: t in scope ==> scope[t] == Entry(Origin(steps, i, t), Uses(steps, i + 1, t))
  {
    ConsumedNext(steps, i);
    scope := scope0;
    var pending := steps[i].inputs;
    ghost var done: set<Tag> := {};
    while pending != {}
      invariant pending !! done && pending + done == steps[i].inputs
      invariant scope.Keys == Consumed(steps, i) + Produced(steps, i) + done
      invariant forall t :: t in scope ==>
        scope[t] == Entry(Origin(steps, i, t), Uses(steps, i, t) + if t in done then 1 else 0)
      decreases pending
    {
      var t :| t in pending;
      if t !in scope {
        OriginMeaning(steps, i, t);
        UsesZero(steps, i, t);
        scope := scope[t := Entry(External, 1)];
      } else {
        scope := scope[t := Entry(scope[t].origin, scope[t].refCount + 1)];
      }
      pending := pending - {t};
      done := done + {t};
    }
  }

  /** Registers the outputs of step i: a tag already in scope is a conflict, any other
      tag is recorded as written by step i with no references. */
  method RegisterOutputs(steps: seq<StepDef>, i: nat, scope0: map<Tag, Entry>) returns (r: Result<map<Tag, Entry>>)
    requires i < |steps|
    requires scope0.Keys == Consumed(steps, i + 1) + Produced(steps, i)
    requires forall t :: t in scope0 ==> scope0[t] == Entry(Origin(steps, i, t), Uses(steps, i + 1, t))
    ensures r.Success? <==> forall t :: t in steps[i].outputs ==> !ConflictAt(steps, i, t)
    ensures r.Success? ==> r.value == ScopeUpTo(steps, i + 1)
    ensures r.Failure? ==> r.error.OutputConflict? && ConflictAt(steps, i, r.error.tag)
  {
    ProducedNext(steps, i);
    var scope := scope0;
    var pending := steps[i].outputs;
    while pending != {}
      invariant pending <= steps[i].outputs
      invariant scope.Keys == Consumed(steps, i + 1) + Produced(steps, i) + (steps[i].outputs - pending)
      invariant forall t :: t in scope ==>
        scope[t] == if t in steps[i].outputs - pending then Entry(i, 0) else Entry(Origin(steps, i, t), Uses(steps, i + 1, t))
      invariant forall t :: t in steps[i].outputs - pending ==> t !in Consumed(steps, i + 1) + Produced(steps, i)
      decreases pending
    {
      var t :| t in pending;
      if t in scope {
        assert ConflictAt(steps, i, t);
        return Failure(OutputConflict(t));
      }
      scope := scope[t := Entry(i, 0)];
      pending := pending - {t};
    }
    OutputsRegistered(steps, i, scope);
    return Success(scope);
  }

  /** Once every output of step i is recorded as written by it, the scope is the
      scope after i + 1 steps and none of those outputs conflicts. */
  lemma OutputsRegistered(steps: seq<StepDef>, i: nat, scope: map<Tag, Entry>)
    requires i < |steps|
    requires scope.Keys == Consumed(steps, i + 1) + Produced(steps, i) + steps[i].outputs
    requires forall t :: t in scope ==>
      scope[t] == if t in steps[i].outputs then Entry(i, 0) else Entry(Origin(steps, i, t), Uses(steps, i + 1, t))
    requires forall t :: t in steps[i].outputs ==> t !in Consumed(steps, i + 1) + Produced(steps, i)
    ensures forall t :: t in steps[i].outputs ==> !ConflictAt(steps, i, t)
    ensures scope == ScopeUpTo(steps, i + 1)
  {
    ProducedNext(steps, i);
    forall t | t in steps[i].outputs ensures !ConflictAt(steps, i, t) && Uses(steps, i + 1, t) == 0 {
      UsesZero(steps, i + 1, t);
    }
    var target := ScopeUpTo(steps, i + 1);
    assert scope.Keys == target.Keys;
    forall t | t in scope ensures scope[t] == target[t] {
      assert Origin(steps, i + 1, t) == if t in steps[i].outputs then i else Origin(steps, i, t);
    }
  }

  /** Registers the steps in order, failing on the first output that is already in
      scope. */
  method BuildLexicalScope(steps: seq<StepDef>) returns (r: Result<map<Tag, Entry>>)
    ensures r.Success? <==> !HasConflict(steps)
    ensures r.Success? ==> r.value == Scope(steps)
    ensures r.Failure? ==> r.error.OutputConflict? && IsConflictingTag(steps, r.error.tag)
    ensures r.Failure? ==> IsFirstConflictTag(steps, r.error.tag)
  {
    var scope: map<Tag, Entry> := map[];
    var i := 0;
    while i < |steps|
      invariant 0 <= i <= |steps|
      invariant !ConflictBefore(steps, i)
      invariant scope == ScopeUpTo(steps, i)
    {
      scope := RegisterInputs(steps, i, scope);
      var step := RegisterOutputs(steps, i, scope);
      if step.Failure? {
        return step;
      }
      scope := step.value;
      i := i + 1;
    }
    return Success(scope);
  }

  /** The shape of every entry of a successfully built scope: its origin is -1 or the
      index of the step that writes it, an external tag is read at least once, and the
      reference count is the number of steps after the origin that read the tag. */
  lemma ScopeEntryShape(steps: seq<StepDef>, t: Tag)
    requires !HasConflict(steps) && t in Scope(steps)
    ensures -1 <= Scope(steps)[t].origin < |steps|
    ensures Scope(steps)[t].origin == External <==> t !in Produced(steps, |steps|)
    ensures Scope(steps)[t].origin >= 0 ==> t in steps[Scope(steps)[t].origin].outputs
    ensures Scope(steps)[t].origin == External ==> Scope(steps)[t].refCount >= 1
    ensures Scope(steps)[t].refCount == |set j | Scope(steps)[t].origin < j < |steps| && t in steps[j].inputs|
  {
    var n := |steps|;
    var e := Scope(steps)[t];
    OriginMeaning(steps, n, t);
    UsesCount(steps, n, t);
    UsesZero(steps, n, t);
    var all := set j | 0 <= j < n && t in steps[j].inputs;
    var later := set j | e.origin < j < n && t in steps[j].inputs;
    if e.origin >= 0 {
      forall j | 0 <= j <= e.origin ensures t !in steps[j].inputs {
        NotReadUpToProducer(steps, e.origin, j, t);
      }
    }
    assert later == all;
  }
}
