# tinybaker sequence combinator, modelled in Dafny

tinybaker composes file-transforming *steps*. Each step declares a set of input tags
and a set of output tags, where a tag names a logical file. The `sequence` combinator
takes an ordered list of steps and an optional set of *exposed intermediates*, and
turns them into one composite step:

- **Validation.** An empty list is refused and a single step is returned unchanged.
  For a longer list, the combinator builds a *lexical scope*: for every tag, its
  origin (-1 when it comes from outside the sequence, otherwise the index of the step
  that writes it) and how many steps read it. An output tag that is already in scope
  is rejected. That covers an output that an earlier step wrote, that an earlier step
  read, or that the same step reads.
- **Interface.** The composite reads the tags of external origin. It writes the tags
  nobody reads after their producer, plus the exposed intermediates. Those must all
  be produced inside the sequence.
- **Run.** A run of the composite happens in two phases:
  - Phase 1 constructs every child in order. Each child's inputs come from the
    sequence's input paths, overridden by the output paths of the child *immediately*
    before it. Each child's outputs that the sequence does not declare as outputs go
    to fresh temporary files under `/tmp/tinybaker-<run id>/`, and the caller's
    output paths take precedence.
  - Phase 2 builds every child in order, with overwriting allowed.

The project has four modules:

- `Steps` (steps.dfy) holds the step record, the combinator's errors and the
  declarative facts about a step list. These are the tags consumed and produced by
  the first n steps, reference counts, origins, output conflicts, the external tags
  and the raw outputs.
- `LexicalScope` (scope.dfy) builds the scope with loops over each step's tag sets,
  as the source does. Each loop is proved against the declarative scope
  `ScopeUpTo(steps, n)`.
- `SequenceInterface` (interface.dfy) reads the interface off the scope and holds the
  combinator itself.
- `Execution` (execution.dfy) covers the temporary file names, the input and output
  path planning of phase 1, the builds of phase 2, and the whole `script` run
  recorded as a trace of construct and build events.

Three behaviours of the code a reader may not expect:

- A step's input is wired only to the sequence's own input paths and to the outputs
  of the step just before it. In a sequence the validator accepts, a tag written two
  or more steps earlier therefore gets no path at all.
  `Execution.SkippedProducerGetsNoPath` states this for every such sequence, and
  `Execution.JoinMissesEarlierOutput` shows it on a concrete three-step sequence.
- Output conflicts are raised as the general composition error, not as the
  dedicated tag-conflict error that the module imports.
- The exposure error lists every exposed tag, not only the offending ones.

## Model

| member | source | states |
|---|---|---|
| Steps.OriginMeaning | tinybaker/combinators/sequence.py:19-37 | The origin of a tag among the first n steps is -1 exactly when none of them writes it. Otherwise it is the index of a step that writes it, and no later step among the first n writes it. |
| Steps.UsesCount | tinybaker/combinators/sequence.py:22-27 | The reference count of a tag equals the number of steps that read it. |
| Steps.UsesZero | tinybaker/combinators/sequence.py:22-27 | The reference count is zero exactly when no step reads the tag. |
| Steps.SingleProducer | tinybaker/combinators/sequence.py:30-37 | In a list the scope builder accepts, at most one step writes any tag. |
| Steps.NotReadUpToProducer | tinybaker/combinators/sequence.py:22-37 | In a list the scope builder accepts, no step up to and including a tag's producer reads it. |
| Steps.ExternalDisjointFromRaw | tinybaker/combinators/sequence.py:43-44 | No tag is both an external input of the sequence and a raw output. |
| LexicalScope.RegisterInputs | tinybaker/combinators/sequence.py:22-27 | After registering step i's inputs, the scope holds the tags read by steps 0..i or written by steps before i. Each tag keeps its earlier origin (-1 if new) and its count is the number of reads by steps 0..i. |
| LexicalScope.RegisterOutputs | tinybaker/combinators/sequence.py:30-37 | Registering step i's outputs succeeds exactly when none of them conflicts. On success the scope is the scope after i + 1 steps. On failure the reported tag is one of step i's conflicting outputs. |
| LexicalScope.OutputsRegistered | tinybaker/combinators/sequence.py:30-37 | Once every output of step i is recorded as (i, 0), the scope equals the declarative scope after i + 1 steps and none of those outputs conflicts. |
| LexicalScope.BuildLexicalScope | tinybaker/combinators/sequence.py:8-38 | Building the scope succeeds exactly when no output in the list conflicts. The result is then the declarative scope of the whole list. On failure the reported tag is a conflicting output of the first step that has one, where the loop stops. |
| LexicalScope.ScopeEntryShape | tinybaker/combinators/sequence.py:19-37 | In a successful scope, every entry's origin is -1 or the index of the step that writes the tag. An external tag is read at least once. The count is the number of steps after the origin that read the tag. |
| SequenceInterface.InterfaceFromScope | tinybaker/combinators/sequence.py:43-55 | Fails exactly when some exposed tag is missing from the scope or is external, and the error then carries the whole exposed set. On success the exposed tags are outputs and never inputs. |
| SequenceInterface.ScopeInterface | tinybaker/combinators/sequence.py:43-46 | For a conflict-free list, the scope's external tags are the tags read but never written. Its zero-count tags are the tags no later step reads. Its non-external tags are exactly the produced ones. |
| SequenceInterface.DetermineSequenceInterface | tinybaker/combinators/sequence.py:41-55 | The interface exists exactly when there is no conflict and every exposed tag is produced. It is then (external tags, raw outputs plus exposed tags). Otherwise the error is a conflicting output of the first step that has one, or the exposure error carrying the whole exposed set. |
| SequenceInterface.Sequence | tinybaker/combinators/sequence.py:58-76 | An empty list fails with the too-few-steps error and a single step is returned as it is. A longer list succeeds exactly when it has no conflict and every exposed tag is produced. The composite then reads the external tags, writes the raw outputs plus the exposed ones, and keeps the steps as children. A conflict is reported with a conflicting output of the first step that has one, and a bad exposure with the whole exposed set. |
| SequenceInterface.ComposedInterfaceDisjoint | tinybaker/combinators/sequence.py:43-53 | When every exposed tag is produced, the composite's inputs and outputs do not overlap. |
| SequenceInterface.CleanThenReport | tinybaker/combinators/sequence.py:43-53 | For a clean step followed by a report step, the composite reads only "raw" and writes "report". Exposing "clean" adds it to the outputs. Exposing "raw" or an unknown tag is refused. |
| SequenceInterface.DuplicateProducer | tinybaker/combinators/sequence.py:30-36 | Two steps that both write "x", whatever they read, conflict on "x", and "x" is the only tag the combinator can report. |
| SequenceInterface.FirstConflictIsReported | tinybaker/combinators/sequence.py:19-36 | In [WriteX, WriteX, WriteY, WriteY] both "x" and "y" conflict, but the only tag that can be reported is "x", because the scope builder stops at the second step. |
| Execution.TempFilenameInRunFolder | tinybaker/combinators/sequence.py:78-83 | A temporary file named by an id without '/' (as every uuid4 string is) lies directly in the run's folder: the folder plus '/' is a prefix and the rest has no '/'. |
| Execution.TempFilenameInjective | tinybaker/combinators/sequence.py:78-83 | Within one run, different ids give different temporary file names. |
| Execution.RunFoldersDisjoint | tinybaker/combinators/sequence.py:80 | When run ids contain no '/', a path lies in the folder of at most one run. |
| Execution.InputPaths | tinybaker/combinators/sequence.py:100-112 | A step's input paths cover exactly its input tags that the sequence or the previous step has a path for. The previous step's path takes precedence, otherwise the sequence's path is used. |
| Execution.OutputPaths | tinybaker/combinators/sequence.py:114-126 | A step's output paths follow the plan: the caller's path for any output it names, and a fresh temporary file in the run folder for any other output outside the sequence's outputs. Each temporary file is named with a distinct id drawn at or after the counter. |
| Execution.OutputsAllocated | tinybaker/combinators/sequence.py:115-126 | The generated temporary files, overridden by the caller's paths, follow the output plan. The ids that survive the override still name their files. |
| Execution.CompleteCallerPaths | tinybaker/combinators/sequence.py:114-126 | When the caller gives a path for exactly the sequence's outputs, every output of a step gets a path. It is the caller's path for a sequence output and a temporary file for any other output. |
| Execution.ConstructInstances | tinybaker/combinators/sequence.py:97-133 | Phase 1 constructs one instance per step, in order. Each is wired to the sequence inputs and its predecessor's outputs, and follows the output plan. No two temporary files coincide. |
| Execution.PlannedMeaning | tinybaker/combinators/sequence.py:98-133 | Phase 1's planning invariant, spelled out per child: child k is step k, its inputs are wired to the sequence inputs and child k - 1's outputs, and its outputs follow the plan. |
| Execution.PlannedExtend | tinybaker/combinators/sequence.py:128-133 | Appending a correctly planned child keeps every earlier child planned. |
| Execution.TempIdsExtend | tinybaker/combinators/sequence.py:115-118 | Adding a step's freshly drawn ids keeps the phase-1 id bookkeeping: ids name their files, stay below the counter and are never reused. |
| Execution.IdsNameExtend | tinybaker/combinators/sequence.py:115-118 | Adding a step's ids keeps every id naming its temporary file and staying below the counter. |
| Execution.IdsDistinctExtend | tinybaker/combinators/sequence.py:115-118 | Ids drawn above the counter keep all ids distinct. |
| Execution.DistinctIdsDistinctPaths | tinybaker/combinators/sequence.py:83 | Distinct ids from a uuid source that never repeats name distinct temporary files across the whole run. |
| Execution.RunInstances | tinybaker/combinators/sequence.py:135-139 | Phase 2 builds instances 0, 1, ... in order with overwriting allowed. It completes exactly when no build fails, and otherwise stops right after the first failing build. |
| Execution.Script | tinybaker/combinators/sequence.py:85-139 | A run first constructs every child, then builds them. The trace is all the constructs followed by the builds up to the first failure. The first child reads only the sequence's input paths, and every later child also reads its predecessor's outputs. Every child's outputs follow the plan, with temporary files directly in the run folder, and no two temporary files coincide. |
| Execution.SkippedProducerGetsNoPath | tinybaker/combinators/sequence.py:100-112 | In a conflict-free sequence, a tag that step i reads and a step two or more places earlier writes gets no input path for step i. |
| Execution.JoinMissesEarlierOutput | tinybaker/combinators/sequence.py:97-133 | The validator accepts [SplitX, SplitY, Join], yet Join never gets a path for "x". |

## Left out

- Folder creation (`os.path.exists` / `os.mkdir`) is file-system I/O. The model only records the path of the run folder.
- `uuid4` randomness: ids come from an oracle `uuid` that is assumed never to repeat and never to contain '/', drawn in sequence by a counter. The run id is a parameter `sid`.
- The `.path` of the input and output file objects: the sequence's input and output paths are given directly as maps from tags to paths.
- The children's constructors and `build` run code outside this module. Construction is recorded as an `Instance` value, a build as a trace event, and a failing build by the parameter `failing`. Exceptions other than a failing build are not modelled.
- The composite is a class synthesised at run time; it is modelled as a `StepDef` value holding its interface and its children.
- Nesting: a child may itself be a composite, but its own run is outside this model.
- Concurrency, cleanup of temporary files, and the order in which Python iterates sets.
- Error messages are not modelled as text: a conflict carries the offending tag and the exposure error carries the exposed set. The comma-joined rendering of the set is not modelled.
- Sequence: the default argument `exposed_intermediates=set()` is a shared mutable object in Python. The model takes the exposed set as an ordinary value.
- Sequence: when one step has several conflicting outputs, the reported tag is stated only to be one of that step's conflicting outputs, not the one Python's set iteration meets first, because set order is not modelled. The same holds for BuildLexicalScope and DetermineSequenceInterface.
