/** The interface of a composed sequence and the combinator that builds it: the
    sequence reads the tags whose origin is external and writes the tags nobody reads
    after their producer, plus the intermediates the caller chose to expose. */
module SequenceInterface {
  import opened Steps
  import opened LexicalScope

  datatype Interface = Interface(inputs: set<Tag>, outputs: set<Tag>)

  /** The interface read off a scope: inputs are the external tags, outputs the tags
      with no references plus the exposed ones, which must all be non-external tags
      of the scope. On failure the error lists every exposed tag. */
  function InterfaceFromScope(scope: map<Tag, Entry>, exposed: set<Tag>): (r: Result<Interface>)
    ensures r.Failure? <==> exists t :: t in exposed && (t !in scope || scope[t].origin == External)
    ensures r.Failure? ==> r.error == NonGeneratedExposure(exposed)
    ensures r.Success? ==> exposed <= r.value.outputs && r.value.inputs !! exposed
  {
    var inputs := set t | t in scope && scope[t].origin == External;
    var rawOutputs := set t | t in scope && scope[t].refCount == 0;
    var nonInputs := scope.Keys - inputs;
    if exposed - nonInputs != {} then
      Failure(NonGeneratedExposure(exposed))
    else
      assert forall t :: t in exposed ==> t !in exposed - nonInputs;
      Success(Interface(inputs, rawOutputs + exposed))
  }

  /** Reading the interface off the scope of a conflict-free sequence gives its
      external tags, its raw outputs, and as non-external tags exactly the produced
      ones. */
  lemma ScopeInterface(steps: seq<StepDef>)
    requires !HasConflict(steps)
    ensures (set t | t in Scope(steps) && Scope(steps)[t].origin == External) == ExternalTags(steps)
    ensures (set t | t in Scope(steps) && Scope(steps)[t].refCount == 0) == RawOutputs(steps)
    ensures Scope(steps).Keys - ExternalTags(steps) == Produced(steps, |steps|)
  {
    var n := |steps|;
    var scope := Scope(steps);
    forall t | t in scope
      ensures scope[t].origin == External <==> t !in Produced(steps, n)
      ensures scope[t].refCount == 0 <==> t !in Consumed(steps, n)
    {
      OriginMeaning(steps, n, t);
      UsesZero(steps, n, t);
    }
    forall t | t in RawOutputs(steps) ensures t in scope && scope[t].refCount == 0 {
      var i :| 0 <= i < n && t in steps[i].outputs && !ConsumedAfter(steps, i, t);
      assert t in Produced(steps, n);
    }
    forall t | t in scope && scope[t].refCount == 0 ensures t in RawOutputs(steps) {
      var i :| 0 <= i < n && t in steps[i].outputs;
      assert !ConsumedAfter(steps, i, t);
    }
  }

  /** Builds the scope and derives the sequence's interface from it. The interface
      exists exactly when no outputs conflict and every exposed tag is written by
      some step. */
  method DetermineSequenceInterface(steps: seq<StepDef>, exposed: set<Tag>) returns (r: Result<Interface>)
    ensures r.Success? <==> !HasConflict(steps) && exposed <= Produced(steps, |steps|)
    ensures r.Success? ==> r.value == Interface(ExternalTags(steps), RawOutputs(steps) + exposed)
    ensures r.Failure? && HasConflict(steps) ==> r.error.OutputConflict? && IsConflictingTag(steps, r.error.tag)
    ensures r.Failure? && HasConflict(steps) ==> IsFirstConflictTag(steps, r.error.tag)
    ensures r.Failure? && !HasConflict(steps) ==> r.error == NonGeneratedExposure(exposed)
  {
    var scope := BuildLexicalScope(steps);
    if scope.Failure? {
      return Failure(scope.error);
    }
    ScopeInterface(steps);
    r := InterfaceFromScope(scope.value, exposed);
  }

  /** The sequence combinator: an empty list is refused, a single step is returned
      as it is, and a longer list becomes a composite step carrying the derived
      interface and the steps themselves. */
  method Sequence(steps: seq<StepDef>, exposed: set<Tag>) returns (r: Result<StepDef>)
    ensures |steps| == 0 ==> r == Failure(TooFewSteps)
    ensures |steps| == 1 ==> r == Success(steps[0])
    ensures |steps| >= 2 ==> (r.Success? <==> !HasConflict(steps) && exposed <= Produced(steps, |steps|))
    ensures |steps| >= 2 && r.Success? ==>
      r.value == StepDef(ExternalTags(steps), RawOutputs(steps) + exposed, steps)
    ensures |steps| >= 2 && r.Failure? && HasConflict(steps) ==>
      r.error.OutputConflict? && IsConflictingTag(steps, r.error.tag)
    ensures |steps| >= 2 && r.Failure? && HasConflict(steps) ==> IsFirstConflictTag(steps, r.error.tag)
    ensures |steps| >= 2 && r.Failure? && !HasConflict(steps) ==> r.error == NonGeneratedExposure(exposed)
  {
    if |steps| < 1 {
      return Failure(TooFewSteps);
    }
    if |steps| == 1 {
      return Success(steps[0]);
    }
    var scope := BuildLexicalScope(steps);
    if scope.Failure? {
      return Failure(scope.error);
    }
    var ifc := DetermineSequenceInterface(steps, exposed);
    if ifc.Failure? {
      return Failure(ifc.error);
    }
    return Success(StepDef(ifc.value.inputs, ifc.value.outputs, steps));
  }

  /** The interface of a composed sequence: its inputs and outputs never overlap, an
      exposed tag is always an output and never an input. */
  lemma ComposedInterfaceDisjoint(steps: seq<StepDef>, exposed: set<Tag>)
    requires exposed <= Produced(steps, |steps|)
    ensures ExternalTags(steps) !! (RawOutputs(steps) + exposed)
  {
    ExternalDisjointFromRaw(steps);
  }

  // A clean-up step followed by a reporting step.
  const CleanStep := StepDef({"raw"}, {"clean"}, [])
  const ReportStep := StepDef({"clean"}, {"report"}, [])

  /** Cleaning then reporting reads only "raw" and writes only "report"; exposing
      "clean" adds it to the outputs, while exposing "raw" or an unknown tag is
      refused. */
  lemma {:induction false} CleanThenReport()
    ensures !HasConflict([CleanStep, ReportStep])
    ensures ExternalTags([CleanStep, ReportStep]) == {"raw"}
    ensures RawOutputs([CleanStep, ReportStep]) == {"report"}
    ensures Produced([CleanStep, ReportStep], 2) == {"clean", "report"}
    ensures RawOutputs([CleanStep, ReportStep]) + {"clean"} == {"report", "clean"}
    ensures !({"raw"} <= Produced([CleanStep, ReportStep], 2))
    ensures !({"missing"} <= Produced([CleanStep, ReportStep], 2))
  {
    var steps := [CleanStep, ReportStep];
    ConsumedNext(steps, 0);
    ConsumedNext(steps, 1);
    ProducedNext(steps, 0);
    ProducedNext(steps, 1);
    assert Consumed(steps, 2) == {"raw", "clean"};
    assert Produced(steps, 2) == {"clean", "report"};
    assert ConsumedAfter(steps, 0, "clean");
    assert "report" in RawOutputs(steps) by {
      assert !ConsumedAfter(steps, 1, "report");
    }
  }

  /** Two steps that both write "x" conflict on "x", and "x" is the only tag the
      combinator can report for them. */
  lemma {:induction false} DuplicateProducer(a: set<Tag>, b: set<Tag>)
    ensures HasConflict([StepDef(a, {"x"}, []), StepDef(b, {"x"}, [])])
    ensures IsConflictingTag([StepDef(a, {"x"}, []), StepDef(b, {"x"}, [])], "x")
    ensures forall t :: IsFirstConflictTag([StepDef(a, {"x"}, []), StepDef(b, {"x"}, [])], t) <==> t == "x"
  {
    var steps := [StepDef(a, {"x"}, []), StepDef(b, {"x"}, [])];
    assert ConflictAt(steps, 1, "x") by {
      assert "x" in steps[0].outputs;
    }
    if ConflictAt(steps, 0, "x") {
      assert !ConflictBefore(steps, 0);
    } else {
      assert !ConflictBefore(steps, 1);
    }
  }

  // Two steps that each write "x" and then "y" twice over.
  const WriteX := StepDef({}, {"x"}, [])
  const WriteY := StepDef({}, {"y"}, [])

  /** In [WriteX, WriteX, WriteY, WriteY] the scope builder stops at the second step,
      so the only tag it can report is "x", although "y" conflicts too. */
  lemma {:induction false} FirstConflictIsReported()
    ensures IsConflictingTag([WriteX, WriteX, WriteY, WriteY], "y")
    ensures forall t :: IsFirstConflictTag([WriteX, WriteX, WriteY, WriteY], t) <==> t == "x"
  {
    var steps := [WriteX, WriteX, WriteY, WriteY];
    assert ConflictAt(steps, 3, "y") by {
      assert "y" in steps[2].outputs;
    }
    assert ConflictAt(steps, 1, "x") by {
      assert "x" in steps[0].outputs;
    }
    assert !ConflictBefore(steps, 1) by {
      assert !ConflictAt(steps, 0, "x");
    }
  }
}
