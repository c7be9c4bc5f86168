/** Steps, tags and the declarative facts about an ordered list of steps that the
    sequence combinator relies on: which tags are consumed, which are produced,
    how often a tag is consumed, which step produces it, and when two declarations
    conflict. */
module Steps {

  /** A tag names a logical file resource exchanged between steps. */
  type Tag = string

  /** A concrete filesystem path. */
  type Path = string

  /** A step definition: its declared input and output tag sets. A composite built
      by the sequence combinator has the same shape and also keeps its ordered
      children; a plain step has no children. */
  datatype StepDef = StepDef(inputs: set<Tag>, outputs: set<Tag>, children: seq<StepDef>)

  /** The composition errors the combinator raises (all are BakerError in the source). */
  datatype CompositionError =
    | TooFewSteps                          // "Cannot sequence fewer than 1 event"
    | OutputConflict(tag: Tag)             // "Multiple steps in sequence generate output tag ..."
    | NonGeneratedExposure(listed: set<Tag>) // "Attempting to expose non-generated intermediate(s): ..."

  datatype Result<T> = Success(value: T) | Failure(error: CompositionError)

  /** Tags read by one of the first n steps. */
  function Consumed(steps: seq<StepDef>, n: nat): set<Tag>
    requires n <= |steps|
  {
    set j, t | 0 <= j < n && t in steps[j].inputs :: t
  }

  /** Tags written by one of the first n steps. */
  function Produced(steps: seq<StepDef>, n: nat): set<Tag>
    requires n <= |steps|
  {
    set j, t | 0 <= j < n && t in steps[j].outputs :: t
  }

  /** How many of the first n steps read t. */
  function Uses(steps: seq<StepDef>, n: nat, t: Tag): nat
    requires n <= |steps|
    decreases n
  {
    if n == 0 then 0
    else Uses(steps, n - 1, t) + (if t in steps[n - 1].inputs then 1 else 0)
  }

  /** The index of the last of the first n steps that writes t, or -1 if none does. */
  function Origin(steps: seq<StepDef>, n: nat, t: Tag): int
    requires n <= |steps|
    decreases n
  {
    if n == 0 then -1
    else if t in steps[n - 1].outputs then n - 1
    else Origin(steps, n - 1, t)
  }

  /** Output t of step i clashes with a tag already in scope: some step j <= i reads it,
      or some earlier step j < i writes it. */
  predicate ConflictAt(steps: seq<StepDef>, i: nat, t: Tag)
    requires i < |steps|
  {
    && t in steps[i].outputs
    && ((exists j :: 0 <= j <= i && t in steps[j].inputs)
        || (exists j :: 0 <= j < i && t in steps[j].outputs))
  }

  /** Some output of one of the first n steps clashes. */
  predicate ConflictBefore(steps: seq<StepDef>, n: nat)
    requires n <= |steps|
  {
    exists i: nat, t :: i < n && t in steps[i].outputs && ConflictAt(steps, i, t)
  }

  predicate HasConflict(steps: seq<StepDef>) {
    ConflictBefore(steps, |steps|)
  }

  /** t is an output tag that clashes somewhere in the list. */
  predicate IsConflictingTag(steps: seq<StepDef>, t: Tag) {
    exists i: nat :: i < |steps| && ConflictAt(steps, i, t)
  }

  /** t is a clashing output of the first step that has one: the step where building
      the scope stops. */
  predicate IsFirstConflictTag(steps: seq<StepDef>, t: Tag) {
    exists i: nat :: i < |steps| && !ConflictBefore(steps, i) && ConflictAt(steps, i, t)
  }

  /** Some step after step i reads t. */
  predicate ConsumedAfter(steps: seq<StepDef>, i: int, t: Tag) {
    exists j :: 0 <= j && i < j < |steps| && t in steps[j].inputs
  }

  /** The tags the sequence reads from outside: read by some step, written by none. */
  function ExternalTags(steps: seq<StepDef>): set<Tag> {
    Consumed(steps, |steps|) - Produced(steps, |steps|)
  }

  /** The tags some step writes and no later step reads. */
  function RawOutputs(steps: seq<StepDef>): set<Tag> {
    set i, t | 0 <= i < |steps| && t in steps[i].outputs && !ConsumedAfter(steps, i, t) :: t
  }

  lemma ConsumedNext(steps: seq<StepDef>, n: nat)
    requires n < |steps|
    ensures Consumed(steps, n + 1) == Consumed(steps, n) + steps[n].inputs
  {
    forall t | t in steps[n].inputs ensures t in Consumed(steps, n + 1) {
      assert 0 <= n < n + 1 && t in steps[n].inputs;
    }
  }

  lemma ProducedNext(steps: seq<StepDef>, n: nat)
    requires n < |steps|
    ensures Produced(steps, n + 1) == Produced(steps, n) + steps[n].outputs
  {
    forall t | t in steps[n].outputs ensures t in Produced(steps, n + 1) {
      assert 0 <= n < n + 1 && t in steps[n].outputs;
    }
  }

  /** Origin finds a producer exactly when there is one, and it is a producer. */
  lemma {:induction false} OriginMeaning(steps: seq<StepDef>, n: nat, t: Tag)
    requires n <= |steps|
    ensures -1 <= Origin(steps, n, t) < n
    ensures Origin(steps, n, t) == -1 <==> t !in Produced(steps, n)
    ensures Origin(steps, n, t) >= 0 ==> t in steps[Origin(steps, n, t)].outputs
    ensures forall j :: Origin(steps, n, t) < j < n ==> t !in steps[j].outputs
    decreases n
  {
    if n > 0 {
      OriginMeaning(steps, n - 1, t);
      ProducedNext(steps, n - 1);
    }
  }

  /** Uses counts exactly the steps that read t. */
  lemma {:induction false} UsesCount(steps: seq<StepDef>, n: nat, t: Tag)
    requires n <= |steps|
    ensures Uses(steps, n, t) == |set j | 0 <= j < n && t in steps[j].inputs|
    decreases n
  {
    if n > 0 {
      UsesCount(steps, n - 1, t);
      var before := set j | 0 <= j < n - 1 && t in steps[j].inputs;
      var now := set j | 0 <= j < n && t in steps[j].inputs;
      if t in steps[n - 1].inputs {
        assert now == before + {n - 1};
      } else {
        assert now == before;
      }
    }
  }

  /** A tag is read zero times exactly when no step reads it. */
  lemma {:induction false} UsesZero(steps: seq<StepDef>, n: nat, t: Tag)
    requires n <= |steps|
    ensures Uses(steps, n, t) == 0 <==> t !in Consumed(steps, n)
    decreases n
  {
    if n > 0 {
      UsesZero(steps, n - 1, t);
      ConsumedNext(steps, n - 1);
    }
  }

  /** Without conflicts every tag has at most one producer. */
  lemma SingleProducer(steps: seq<StepDef>, i: nat, j: nat, t: Tag)
    requires !HasConflict(steps)
    requires i < |steps| && j < |steps|
    requires t in steps[i].outputs && t in steps[j].outputs
    ensures i == j
  {
  }

  /** Without conflicts no step up to and including the producer of a tag reads it. */
  lemma NotReadUpToProducer(steps: seq<StepDef>, i: nat, j: nat, t: Tag)
    requires !HasConflict(steps)
    requires i < |steps| && t in steps[i].outputs && j <= i
    ensures t !in steps[j].inputs
  {
  }

  /** The external inputs and the raw outputs of a sequence never overlap. */
  lemma ExternalDisjointFromRaw(steps: seq<StepDef>)
    ensures ExternalTags(steps) !! RawOutputs(steps)
  {
    forall t | t in RawOutputs(steps) ensures t in Produced(steps, |steps|) {
      var i :| 0 <= i < |steps| && t in steps[i].outputs && !ConsumedAfter(steps, i, t);
      assert 0 <= i < |steps| && t in steps[i].outputs;
    }
  }
}
