# A model of the engine's four state machines

A small Lisp engine keeps its objects in one growing vector of words, its
environments as chains of cells in that vector, its control state in stacks pushed
and popped by hand, and its input in a byte region refilled a byte at a time. This
project models those four machines in Dafny and proves what each one promises.

**The evaluator.** `Values` and `Nested` define the language and a reference
evaluator that is plain nested recursion over fuel, with the stacks passed as an
argument. `Machine` is the same language as a step machine whose continuation is an
explicit list of frames; `Adequacy` proves the two equal, with a bound on the stack.
`Evaluator` is the trampoline as the source writes it, a class that mutates its tail
slot, save row, guard chain, control records and root stacks; every method is proved
against the reference and to restore every stack on every outcome. `Tails`,
`Quiet`, `Runs` and `Replay` prove what holds over whole runs: where escapes land,
where `def` binds, that tail chains are flat, and that the control records a capture
snapshots are the defunctionalised rest of the run; `Sessions` carries that to a later
form that escapes to the capture, or is refused. `Scopes` says what names mean and what the
binders bind without the walk or the binders; `Laws` says what forms mean by what their
parts evaluate to, without the evaluator's helpers.

**The heap.** `Layout` is the bit layout. `Heap` is the allocator, a class over the
word vector with a ghost owner for every word; `Collector` marks and sweeps it;
`Cells` reads the live objects as a map for the layers above.

**Environments.** `Frames`, `GlobalTree` and `EnvSteps` say what a frame, its shadow
index and the base's global tree are, and which heap changes keep them;
`Environments` is the class that binds, looks up, rebinds, makes bases and
collects, over the heap of the previous layer, so that address reuse is real.

**The reader.** `Bytes` is the byte layer over words. `Buffers` is the refilled and
compacted region with its line anchor. `Forms` says what the built-in reader reads
and proves the round trip; `Spellings` says its alphabets, tables and numbers letter by
letter. `Reader` is the cursor-moving reader against it, over fixed and refilling
buffers, and `Rooms` follows the room left in the region as a form is read. `Tokens` and
`Contest` are the scoring contest and the five-state integer recogniser with its separate
value reader.

Fuel in the evaluator bounds recursion only: no theorem fixes an amount, and the
adequacy and replay theorems say what running out means on the other side.

Where the source and its own comments differ, the model follows the source:

- `better` (src/prims/tok.rs:182-197) is described as preferring a more negative score
  while nothing positive has matched. The comparison is true for every pair of scores
  below one, so the last such claim wins; `Tokens.WinnerIs` says so,
  `Tokens.NegativeWinnerIff` says when that is the most negative one, and
  `Tokens.LessNegativeWins` shows an input where it is not.
- `buf_refill` (src/read.rs:57-109) promises to give up when one span fills the whole
  region. It gives up after taking the byte from the stream, so that byte is lost;
  `Refill`, `ByteAhead` and `PrefetchLine` state exactly when, and
  `Buffers.FullRegionLosesByte` gives the inputs.
- The record of a guarded body (src/eval.rs:937-956) keeps a dotted tail that the
  evaluation ignores, and `resume_body` (src/prims/callcc.rs:163-169) walks it;
  `Replay.GuardedBodyAgreesIff` says exactly when the two agree.
- A refill that compacts the region (src/read.rs:85-103) moves the bytes under an atom,
  a character name or a multi-byte character being read, whose start is held as an
  offset. `Reader.Span` says exactly when that harms it, `Reader.LostAtom` what becomes
  of a symbol, and `Rooms` which forms are clear of it.
- Retaining on a writable buffer (src/prims/tok.rs:93-117) compacts without sliding
  the line anchor; the other two compactions slide it. `Retain` says when it stays true.

## Model

| member | source | states |
|---|---|---|
| Evaluator.Engine.Eval | src/eval.rs:206-226 | An evaluation has the outcome and world of the nested evaluator in the context the stacks spell, and leaves every stack as found: one more root on a value, none on a raise or an escape |
| Evaluator.Engine.EvalPending | src/eval.rs:311-440 | The trampoline equals evaluating each tail form by nested recursion; the tail slot is empty at entry and exit; roots and frames come back as they were |
| Evaluator.Engine.RunChain | src/eval.rs:311-440 | However many tails are parked, the loop uses one root slot region and exactly one frame slot above its marks |
| Evaluator.Engine.TakeTail | src/eval.rs:263-274 | Taking the parked tail empties the slot and replaces the loop's root and frame |
| Evaluator.Engine.EvalOnce | src/eval.rs:311-440 | One turn either finishes or parks a form that the nested evaluator would evaluate in the very same context |
| Evaluator.Engine.ListEval | src/prims/core.rs:31-39 | Head first, then the combiner; without a callable head the form is its own value |
| Evaluator.Engine.Settle | src/eval.rs:460-469 | A parked tail run for a non-tail caller is one evaluation deeper, and nothing stays parked |
| Evaluator.Engine.Combine | src/eval.rs:480-510 | Application agrees with the nested evaluator both when the caller loops and when it settles |
| Evaluator.Engine.EvalArgsFor | src/eval.rs:651-766 | Each argument is evaluated once, in order, under a record of the row so far exactly when the callee names itself, which a list and a continuation do not; an improper spine is refused before any is evaluated |
| Evaluator.Engine.ApplyClosure | src/eval.rs:806-834 | The save is active for exactly the forms before the last, and gone by the time the parked tail runs |
| Evaluator.Engine.BindParams | src/eval.rs:891-909 | The parameter loop binds like the structural walk: missing values are nil, and what a rest parameter gets is the list of the values left over |
| Evaluator.Engine.ApplyOp | src/eval.rs:843-881 | An operative binds argument forms and the caller's environment in a fresh frame, holding no save |
| Evaluator.Engine.BindSpine | src/eval.rs:843-881 | The operative's binder takes the spine structurally, as the recursive binder does |
| Evaluator.Engine.EvalBodyTail | src/eval.rs:916-935 | All but the last form run under a record each; the last is parked |
| Evaluator.Engine.EvalBody | src/eval.rs:937-956 | A body with no tail position evaluates every form here and settles nothing |
| Evaluator.Engine.InvokeCont | src/prims/callcc.rs:30-37 | Invoking a continuation puts exactly one escape in flight, carrying its id and value |
| Evaluator.Engine.WithEscape | src/prims/callcc.rs:42-59 | A fresh id, a snapshot of the records in flight, and only this id's escape becomes a value |
| Evaluator.Engine.CallValues | src/eval.rs:618-642 | Values reach the callee quoted, and the tail is settled |
| Evaluator.Engine.BindRow | src/syntax/binding.rs:41-84 | `def` and `set!` evaluate under a record; `def` asks the save row where to bind |
| Evaluator.Engine.MatchRow | src/syntax/control.rs:78-104 | Arms in order, the first truthy one's body in tail position |
| Evaluator.Engine.GuardRow | src/syntax/control.rs:33-72 | A raise runs the handler in a fresh frame, in tail position; an escape passes through; the guard chain is restored on every outcome |
| Evaluator.Engine.EvalInRow | src/prims/core.rs:173-199 | `(eval f)` parks; `(eval f env)` holds a save and a record over the evaluation |
| Evaluator.Engine.EvalTarget | src/prims/core.rs:186-196 | The evaluation in a given environment runs under its save and a record, both gone on every outcome |
| Evaluator.Engine.EvalHereRow | src/prims/core.rs:201-211 | `eval!` evaluates under a record and holds no save |
| Evaluator.Engine.EvalTop | src/session.rs:142-163 | A top-level form keeps resuming while an escape comes back, ends with none in flight, and roots only its result |
| Evaluator.Engine.ReplayAll | src/prims/callcc.rs:113-116 | The records resume from the last one, each handed the value before it |
| Evaluator.Engine.ResumeOne | src/prims/callcc.rs:118-169 | Each kind of record resumes as the replay function says |
| Evaluator.Engine.ResumeRow | src/prims/callcc.rs:173-206 | A resumed argument row finishes its forms, pads, and calls |
| Scopes.WalkFinds | src/env.rs:161-169 | Along a path of parents, the first frame that binds a name is the one that answers it |
| Scopes.UnboundIff | src/env.rs:161-184 | A name is unbound, and `set!` of it fails, iff no frame on the way out binds it |
| Scopes.BindWrites | src/env.rs:101-131 | Binding writes one cell of one frame and nothing else, and the name then means the value there |
| Scopes.SetWrites | src/env.rs:172-184 | `set!` writes the cell of the first frame on the way out that binds the name, and nothing else |
| Scopes.PushedMeans | src/env.rs:57-69 | In a new frame every name means what it means in the parent |
| Scopes.ParamsGet | src/eval.rs:891-909 | Parameter i of a spine holds value i, or nil when there are fewer values; a name given twice keeps the later; no other frame and no other name changes |
| Scopes.RestGets | src/eval.rs:891-909 | A rest parameter after k names holds a proper list of exactly the values from k on, empty when there are fewer |
| Scopes.FormsGet | src/eval.rs:843-881 | An operative's parameter i holds form i as written, the one past the last what the spine ends in, any further one nil |
| Scopes.FormsRest | src/eval.rs:843-881 | An operative's rest parameter holds the spine that is left |
| Laws.SymbolAnswers | src/prims/core.rs:19-24 | A symbol evaluates to its innermost binding, and changes nothing |
| Laws.SymbolUnbound | src/prims/core.rs:19-24 | With no binding on the way out it raises unbound, and changes nothing |
| Laws.SetChanges | src/syntax/binding.rs:66-84 | `(set! x e)` answers the value of e and changes the innermost binding of x alone |
| Laws.SetUnbound | src/syntax/binding.rs:66-84 | Of an unbound name it raises, in the world e left |
| Laws.RowsBuild | src/syntax/closure.rs:14-29 | `lit`, `fn` and `op` take their operands as written, the closure and the operative with the environment they stand in |
| Laws.ArgsInOrder | src/eval.rs:682-758 | Arguments that evaluate one after another hand on their values in that order, in the world the last one left |
| Laws.ParameterAnswers | src/eval.rs:806-834 | A closure whose body is its parameter i answers value i: itself for the first, nil past the last |
| Laws.FreeNameAnswers | src/eval.rs:806-834 | A closure whose body is any other name answers what the name means where the closure was made |
| Laws.CallAnswers | src/eval.rs:480-510 | A whole application of a closure that is its parameter i answers what argument i evaluated to |
| Laws.RowIsHanded | src/eval.rs:664-680 | A computing row is handed exactly the argument values, with nils behind them up to what it reads |
| Laws.ContinuationEscapes | src/prims/callcc.rs:30-37 | A continuation escapes with its first argument's value, nil when it has none |
| Laws.ListIsHanded | src/prims/core.rs:96-103 | A list in head position is handed its arguments' values; with none the answer is nil |
| Laws.TailEvalRuns | src/prims/core.rs:284-292 | `tail-eval` runs its first operand in the environment the second is, and raises when it is none |
| Laws.OperandAnswers | src/eval.rs:843-881 | An operative whose body is its parameter i answers operand i unevaluated |
| Laws.CallerAnswers | src/eval.rs:843-881 | Its environment name answers the environment it was called in |
| Laws.DataIsItself | src/prims/core.rs:31-39 | A list whose head evaluates to nil, a truth value, an integer, a string, a symbol or an environment is its own value |
| Laws.BodyInOrder | src/eval.rs:916-935 | A body answers its last form, in the world the forms before it left, one after another |
| Laws.GuardedInOrder | src/eval.rs:937-956 | A guarded body does too, its last form also under a record |
| Laws.MatchTakes | src/syntax/control.rs:78-104 | The arm taken is the first whose test is neither nil nor false |
| Laws.MatchFalls | src/syntax/control.rs:78-104 | With every test nil or false the answer is nil |
| Laws.HandlerAnswers | src/diag.rs:74-96 | A guard binds the very value that was raised, and the error atom for every condition of the engine's own |
| Laws.ErrorRaises | src/syntax/control.rs:25-29 | `(error e)` raises the value of e |
| Laws.EvalInRuns | src/prims/core.rs:173-199 | `(eval f e)` runs what f evaluates to in the environment e names, or where it stands when e names none |
| Laws.EvalHereRuns | src/prims/core.rs:201-211 | `(eval! f)` runs what f evaluates to where it stands, with no save |
| Adequacy.EvalLands | src/eval.rs:206-226 | The nested evaluator and the machine with an explicit continuation agree on every form, outcome and world, and at fuel n the machine never holds more than n evaluations above those it found; out of fuel, it is still at work |
| Adequacy.EscapeLands | src/prims/callcc.rs:42-59 | call/cc in the machine, its frame included, does what the nested call/cc does |
| Adequacy.GuardLands | src/syntax/control.rs:33-72 | A guard frame catches exactly the faults its nested form catches |
| Tails.TurnMeans | src/eval.rs:311-440 | A form is worth what the tail form it comes to is worth, in the same context |
| Tails.TurnLands | src/eval.rs:806-935 | The machine takes a form to its tail form on the very continuation it started on, holding at most as many evaluations above it as the turn has fuel |
| Tails.TailChainIsFlat | src/eval.rs:311-440 | A chain of any number of tail turns of fuel n each never holds more than n evaluations above the start, and the first form is worth what the last is |
| Runs.RunKeepsOk | src/eval.rs:700-766 | In every reachable state rows have the slots their callee reads and live call/cc frames have distinct, already minted ids |
| Runs.SnapshotStays | src/prims/callcc.rs:104-111 | A snapshot once taken never changes |
| Runs.HomeIsUnique | src/prims/callcc.rs:42-59 | At most one live call/cc carries an id |
| Runs.EscapeLandsAtHome | src/prims/callcc.rs:30-58 | An escape passes every guard and every other call/cc unchanged and becomes a value exactly at the live call/cc of its id, else reaches the top |
| Runs.SaveRowIsContext | src/eval.rs:298-309 | In every state of a run from a form a row is the save row iff it lists, innermost first, the frames of the closure activations with forms to run before their tail and the targets of the with-env evals under way, each traced to the last step that started it |
| Runs.ContextIsOne | src/eval.rs:298-309 | The run leaves exactly one such row: no other row fits the same dynamic context |
| Runs.DefBindsByContext | src/syntax/binding.rs:41-61 | In every run a `def` binds at the root when the dynamic context, whichever row fits it, is empty, otherwise where it was evaluated |
| Quiet.EvalQuiet | src/prims/callcc.rs:151-155 | A run that ends having made no `def` and no capture has the same outcome and world whatever the save row, the records and the depth |
| Replay.CoversIffAllRecorded | src/prims/callcc.rs:72-82 | The capture test accepts exactly the continuations in which every waiting evaluation left a record |
| Replay.RefusedIff | src/prims/callcc.rs:72-108 | A capture is refused a replay iff it is under a head, a test, a raised value, a part of an `eval`, a settled tail, or an argument of a list, of a continuation or of an instruction that does not name itself |
| Replay.FrameContinues | src/prims/callcc.rs:118-169 | Resuming one record is handing the value to the frame it describes |
| Replay.QuoteEvaluates | src/eval.rs:979-988 | Quoted values come back unchanged wherever `lit` still names the quoting row |
| Replay.DefRecordLandsIff | src/prims/callcc.rs:143-158 | Resuming a `def` record gives the result and world of its frame iff it binds in the same frame, or the binding was there already in both; it binds in the same frame iff no save was active or the frame is the root |
| Replay.GuardedBodyAgreesIff | src/prims/callcc.rs:163-169 | The record of a guarded body is worth what its frame is worth, and the machine's frame comes to the same, iff what is left is a list, nil included, or the value is nil |
| Replay.DottedBodyReplaysNil | src/prims/callcc.rs:163-169 | A run from a form where the two part: of `(guard () (call/cc 1) . tail)` for every dotted tail the capture is marked resumable, the run goes on to answer the value, and its replay answers nil |
| Replay.QuietIsReplayable | src/prims/callcc.rs:87-116 | A replay that makes no `def` and no capture, over proper guarded bodies, with nothing left to stop a raise or an escape it ends in, may stand for its continuation |
| Replay.ReplayContinues | src/prims/callcc.rs:72-206 | Replaying a fully recorded continuation with any value, from any world, ends in the outcome and world of letting the suspended run continue, `def` records that bind at the root included |
| Replay.CaptureReplays | src/prims/callcc.rs:104-116 | The snapshot that a capture leaves in any run, in any world of earlier snapshots, when marked resumable, replays as the continuation held there |
| Replay.ReplayEndsIffRunEnds | src/prims/callcc.rs:87-116 | The replay ends iff the continuation ends, and then they agree |
| Sessions.CaptureOutlives | src/prims/callcc.rs:85-116 | A snapshot a capture left is there after any later forms: the records then in flight, resumable iff every waiting frame left one |
| Sessions.LaterEscapeContinues | src/session.rs:142-163 | When a later form escapes to the top with a captured id and a value and the records may stand for the continuation, the session ends as the continuation held at the capture would with that value in that world, an escape that comes back being resumed in turn |
| Sessions.LaterEscapeRefused | src/prims/callcc.rs:87-102 | When a later form escapes with the id of a capture some of whose waiting frames left no record, the session raises that the extent is not resumable, in the world that form left, and replays nothing |
| Sessions.UnknownEscapeRefused | src/prims/callcc.rs:87-102 | An escape with an id that has no snapshot is refused in the same way |
| Sessions.TestCaptures | src/prims/callcc.rs:104-111 | A run that comes to such a capture: call/cc under the test of a `match` |
| Sessions.CaptureHands | src/prims/callcc.rs:42-59 | A receiver that answers its first argument answers the continuation just minted |
| Layout.StoredReads | src/objects.rs:485-493 | Kind, meta count and magic read back from the stored flags word |
| Layout.MarkRidesAlone | src/collect.rs:84-96 | Setting and clearing the mark disturbs no other field and clearing undoes setting |
| Heap.Disjoint | src/objects.rs:468-527 | No word is in two chunks, or in a chunk and a byte region, meta words included |
| Heap.KeyNamesChunk | src/collect.rs:274-283 | A free-list key names one data length and one meta room |
| Heap.ReuseKeepsShape | src/objects.rs:479-499 | Handing a free chunk out keeps chain, buckets, extents and count sound |
| Heap.CarveKeepsShape | src/objects.rs:503-526 | Carving at the frontier keeps chain, buckets, extents and count sound |
| Heap.RegionKeepsShape | src/heap.rs:149-156 | A byte region overlaps nothing and keeps every object |
| Heap.Objects.TakeFree | src/collect.rs:274-283 | A chunk comes only from the bucket of exactly its length and meta room |
| Heap.Objects.Alloc | src/objects.rs:468-527 | An allocation answers an address no live object has, with a right header, nil data, and every other object unchanged; references stay live if the type is |
| Heap.Objects.AllocBytes | src/heap.rs:149-156 | At least one zeroed word at the frontier, owned by no object ever |
| Heap.Objects.WriteHeader | src/objects.rs:685-694 | The four header words, and nothing outside the chunk |
| Heap.Objects.SetData | src/objects.rs:805-832 | One data word; the heap stays sound, and every reference live if the one written into a reference slot is |
| Collector.HitsFollow | src/collect.rs:135-226 | On a heap whose type words and reference slots are live or nil, and whose roots and instance words are live objects where they look like any, everything followed is a live object |
| Collector.PushEdges | src/collect.rs:135-226 | What marking an object pushes is exactly its kind's references |
| Collector.Mark | src/collect.rs:135-226 | From clear marks, exactly the objects reachable from the roots end marked, and no other bit of the heap changes; it terminates. Only the roots and the words of instances are taken to be live objects where they look like any |
| Collector.SweepOne | src/collect.rs:234-270 | The next object is kept at the front with its mark cleared iff it was marked, else stamped and put in its bucket |
| Collector.SweepChain | src/collect.rs:234-270 | The chain is rebuilt from the marked objects; every other goes to its bucket, stamped |
| Collector.Sweep | src/collect.rs:234-270 | The live chain is exactly the marked set, marks clear, the count right, the heap sound |
| Collector.NothingNewFollowed | src/collect.rs:234-270 | The sweep makes no word look like an object that did not before it |
| Collector.ReachabilityKept | src/collect.rs:234-270 | What is reachable from the same roots is the same after the sweep |
| Collector.Collect | src/collect.rs:373-424 | Exactly the reachable objects survive, each with its address, type, flags, length and data; every other is freed; every mark ends clear; every reference of a survivor is live again |
| Collector.CollectTwice | src/collect.rs:373-424 | A second mark and sweep from the same roots frees nothing |
| Cells.NewObj | src/objects.rs:468-527 | Through the object view, allocating adds one object with nil data at an unused address |
| Cells.SetSlot | src/objects.rs:805-832 | Through the view, a slot write changes one slot of one object |
| Cells.CollectCells | src/collect.rs:373-424 | Through the view, a collection keeps a part closed under references, unchanged; an address reads freed iff its object is gone |
| Frames.MapIsScan | src/env.rs:144-158 | The map of a chain answers what a scan of the chain answers |
| Frames.WalkIsNearest | src/env.rs:161-184 | The walk out stops at the nearest ancestor whose chain binds the name, and finds none iff no ancestor binds it |
| Frames.MeansOnce | src/env.rs:161-169 | A name has one meaning from a frame |
| Frames.ChainSurvives | src/collect.rs:135-226 | A holder that survives a collection keeps its whole chain |
| Frames.FramesSurvive | src/collect.rs:432-443 | Surviving frames are whole, and the index without its dead holders is still their cache |
| Environments.Envs.FindInFrame | src/env.rs:144-158 | Index or chain, the answer is the cell a scan finds |
| Environments.Envs.MapOfChain | src/env.rs:122-129 | The index built from a chain keeps the newest cell of each name |
| Environments.Envs.ChainLen | src/env.rs:133-141 | The number of bindings on the chain |
| Environments.Envs.Lookup | src/env.rs:161-169 | The value in the nearest frame out through the parents that binds the name, none iff no frame on the way binds it, whatever indexes exist |
| Environments.Envs.SetExisting | src/env.rs:172-184 | Exactly the binding in the nearest frame out that binds the name changes, in every frame of every chain; unbound changes nothing |
| Environments.Envs.Bind | src/env.rs:101-131 | The name has the value in this frame, no other binding anywhere changed and no object outside the environments; rebinding does not grow the chain; index and trees stay true; references stay live if the name and value are |
| Environments.Envs.Indexed | src/env.rs:119-130 | The index gains the new cell, or is built past sixteen cells, and is again each chain's map |
| Environments.Envs.Push | src/env.rs:57-69 | A new frame binds nothing, serves its parent's base, and disturbs no other frame and no other object, even at a recycled address |
| Environments.Envs.SetBase | src/env.rs:71-84 | Stamping a root frame with its base backfills the base's tree with every binding so far and changes no binding, whatever other bases there are |
| Environments.Envs.BuildSpine | src/base.rs:187-191 | The spine built cell by cell is a base's: every route's cell in order, the tree's empty, no part of any frame |
| Environments.Envs.MakeBase | src/engine.rs:439-492 | A new root frame with a base binds exactly what the rows give, the last row of a name standing; every other frame, every other base and every object outside the environments stands |
| Environments.Envs.Collect | src/collect.rs:373-443 | Every surviving frame binds what it bound, the index holds only live holders, every surviving root keeps its base and its tree, surviving objects are unchanged, and every reference is live again |
| Environments.Envs.Purge | src/collect.rs:432-442 | Dropping the keys whose flags word reads freed leaves exactly the live holders' entries |
| Environments.Envs.AllocOther | src/objects.rs:468-527 | Allocating any other object adds exactly it, of its kind with nil data at an unused address, and changes no binding |
| Environments.Envs.SetRoute | src/base.rs:267-270 | Writing another route of a base leaves every tree, every binding and every object outside the environments |
| Environments.Envs.TreeInsert | src/base.rs:350-375 | A missing root binding is hung where the descent stops; one already mirrored is left alone |
| Environments.Envs.Descend | src/base.rs:359-374 | The loop ends at the name, or at the empty side where it belongs |
| GlobalTree.TreeFindsScan | src/base.rs:344-375 | Descending by address finds the very cell the chain scan finds |
| GlobalTree.HangInserts | src/base.rs:350-375 | Writing the new node where the descent stops is inserting it, all other nodes standing |
| GlobalTree.InsertKeeps | src/base.rs:350-375 | The tree stays strictly ordered by symbol address and holds exactly one more cell |
| GlobalTree.TreeSurvives | src/collect.rs:135-226 | A tree whose top node survives a collection survives whole, in order |
| EnvSteps.GlobalFindIsScan | src/env.rs:71-131 | In every sound state each base's tree answers for a name what its root chain does |
| EnvSteps.BoundMeans | src/env.rs:101-169 | A name just bound means its value in that frame, and from every frame that reaches it before another that binds the name |
| EnvSteps.PushedMeans | src/env.rs:57-169 | From a new frame a name means what it means from the parent |
| EnvSteps.CollectStep | src/collect.rs:373-443 | One collection keeps chains, index and every surviving root's tree sound together |
| Buffers.Buffer.Refill | src/read.rs:57-109 | A byte arrives iff the stream is live, not at its end, and the region is not full with nothing read; end of input latches; otherwise the byte is lost |
| Buffers.FullRegionLosesByte | src/read.rs:57-109 | Any longer input over a region full and wholly unread: the read fails and the byte that did not fit is gone from the stream |
| Buffers.Buffer.Compact | src/read.rs:85-103 | The unread span moves to the front; the line anchor stays true iff no newline lies between it and the cut |
| Buffers.Buffer.CompactInput | src/session.rs:43-63 | Compaction between forms leaves the stream as it was, and the line anchor true exactly when no newline lies between it and the cut |
| Buffers.Buffer.ByteAhead | src/read.rs:38-50 | The answer is the stream's byte and the stream is kept; looking a whole region ahead fails and loses the byte that did not fit |
| Buffers.Buffer.NextByte | src/read.rs:113-122 | The stream's next byte; what was consumed with what is to come is always the whole input, in order |
| Buffers.Buffer.PrefetchLine | src/read.rs:133-153 | The line, or all that is left, is in the region with the stream kept, unless the line overruns the region; then exactly one byte is lost |
| Buffers.Buffer.Line | src/value/tok.rs:55-74 | One more than the newlines before the cursor, whatever moves came between; past a compaction, iff the cursor was not rewound behind the anchor |
| Buffers.NewlinesCount | src/value/tok.rs:55-74 | What the line count adds up is the number of newlines |
| Buffers.Buffer.Retain | src/prims/tok.rs:93-117 | The stream is kept, by a mark bump or by compaction; the line anchor, which does not move, stays true iff the buffer is read-only or the bytes that moved past it hold no newline |
| Forms.DocReads | src/read.rs:223-356 | Any layout of integers, symbols, strings, characters and proper or dotted lists, with any blanks and comments, reads back as its tree, stopping right after it |
| Forms.ItemsRead | src/read.rs:259-308 | The list half of the round trip |
| Forms.GlyphsRead | src/read.rs:315-356 | Every way of writing a string's bytes reads back as those bytes |
| Forms.CharReads | src/read.rs:372-424 | A single byte, each of the nine names and the encoding of every code point read back as the character, stopping right after it |
| Forms.NameIsNamed | src/vocabulary.rs:112-122 | Each listed name names its character |
| Forms.FirstCodeIs | src/read.rs:379-392 | Of a lead byte and the continuation bytes behind it, the code read is the one whose encoding they begin with, else the replacement character |
| Spellings.HexDigitIs | src/read.rs:688-695 | A hex digit is worth its place in the row of sixteen, in either case, and nothing else is one |
| Spellings.HexEscapeReads | src/read.rs:329-343 | A byte written as a backslash, an x and its two hex digits reads back as that byte |
| Spellings.EscapeIs | src/read.rs:322-328 | Each one-letter escape stands for its character, and no other letter is one |
| Spellings.IsBlankIs | src/read.rs:26-28 | Blanks are the NUL and ASCII white space |
| Spellings.IsDelimIs | src/read.rs:426-433 | An atom ends at a blank, a parenthesis or a semicolon |
| Spellings.IsDigitIs | src/read.rs:434-446 | Digits are the ten |
| Spellings.IsLetterIs | src/read.rs:394-408 | Letters are the ASCII letters |
| Spellings.MarksAre | src/read.rs:223-356 | The reader's marks are these characters |
| Spellings.NumberReads | src/read.rs:434-446 | Any decimal text, with a sign or none and any leading zeros, reads as the integer it says iff that fits in 64 bits, else as a symbol |
| Spellings.NumberWritten | src/read.rs:434-446 | Nothing else reads as an integer |
| Spellings.UnknownNameReads | src/read.rs:416-423 | An unknown character name gives its first letter and leaves the rest |
| Spellings.UnclosedStringReads | src/read.rs:315-321 | A string that never closes ends with the input, a last backslash dropped |
| Spellings.UnclosedListReads | src/read.rs:259-272 | A list that never closes ends with the input, its items kept |
| Spellings.StrayCloseReads | src/read.rs:231-236 | A closing parenthesis that closes nothing reads as nil |
| Forms.IntSpells | src/read.rs:203-215 | Every 64-bit integer reads back from its decimal text |
| Forms.GapSkipped | src/read.rs:155-169 | Blanks and whole comments are skipped, and nothing else |
| Forms.SourceReads | src/session.rs:200-253 | A whole source reads as its documents' trees, in order |
| Forms.ReadForm | src/read.rs:223-246 | On any bytes: none iff only blanks and comments are left, otherwise at least one byte is consumed |
| Reader.ReadForm | src/read.rs:223-246 | The cursor-moving reader reads and stops as specified, over a fixed buffer or a refilling one, however long the form, if no atom, character name or multi-byte character of it lies across the region's end |
| Reader.ReadList | src/read.rs:259-308 | Items collected then consed from the last are the list specified, dotted tails included, however often the region is compacted between their bytes |
| Reader.ReadString | src/read.rs:315-356 | The string loop and its escapes compute the specified bytes, whatever compactions come between, from any buffer |
| Reader.ReadChar | src/read.rs:372-424 | Multi-byte, single-byte, letter and named characters, the run of bytes whole in the region; an unknown name rewinds to its first letter |
| Reader.ReadAtom | src/read.rs:426-447 | The bytes up to a delimiter: the 64-bit integer they spell, else the symbol they name, if they are whole in the region; an atom across its end, no longer than it, reads as nil and takes the delimiter with it |
| Reader.Span | src/read.rs:426-431 | What is copied out of a run is the run iff the run did not come to the region's end with more of the input behind it |
| Reader.LostAtom | src/read.rs:426-440 | Any symbol no longer than the region, met after blanks so that it crosses the region's end, comes out as nil with its delimiter gone, where the specification reads the symbol |
| Rooms.ShortForm | src/read.rs:57-109 | A form shorter than the room left, with any letters right behind it, crosses no region's end and leaves the room less its bytes |
| Reader.SkipBlanks | src/read.rs:155-169 | The loop stops exactly where the specification does, whatever compactions come between, from any buffer |
| Reader.ReadAll | src/session.rs:200-253 | Reading a source to its end terminates with every form in order |
| Reader.ReadSession | src/main.rs:45-52 | Fetching a line, reading a form and compacting, again and again, reads every form of the whole input stream in order, however long it and its forms are, if each form's first line fits the region and no run crosses the region's end |
| Tokens.WinnerIs | src/prims/tok.rs:192-197 | The winner is the last of the largest positive claims if any is positive, else the last claim made |
| Tokens.NegativeWinnerIff | src/prims/tok.rs:182-197 | With nothing positive claimed the winner is a most negative claim, as the description has it, iff the last claim made is |
| Tokens.LessNegativeWins | src/prims/tok.rs:182-197 | An input where it does not: of claims -5 then -3, -3 wins |
| Tokens.LiteralLenIsLongest | src/prims/tok.rs:550-590 | The length is that of the longest literal at the front, zero iff there is none |
| Tokens.IntegerClaims | src/prims/tok.rs:535-590 | The five-state machine claims the longest literal iff there is one and a further byte follows, scored by its length |
| Tokens.IntRead | src/prims/tok.rs:600-628 | On NUL-free text that begins with a literal, decimal or hex in either case, with a sign or none and any leading zeros, the value read is the number it spells with its sign, wrapped to 64 bits, although the reader parses on its own |
| Tokens.LitReads | src/prims/tok.rs:600-628 | A written literal is the whole of what is taken, and is worth its number |
| Tokens.EndOfInput | src/prims/tok.rs:296-312 | At the end of the input a score already set claims what was consumed with the score's sign; an empty span or no score claims nothing |
| Tokens.CallsInOrder | src/prims/tok.rs:223-294 | An attempt is its calls in order, each from the marks, state, score and world the one before it left; staying keeps the state |
| Tokens.LastCall | src/prims/tok.rs:223-294 | Accepting claims the score, a zero score or a decline nothing, and a raise is passed on |
| Contest.Tape.Try | src/prims/tok.rs:223-325 | One attempt has the outcome of the analyser's machine and leaves the marks and the world it leaves; unless it raised, the cursor is at the retain mark |
| Contest.Tape.Analyse | src/prims/tok.rs:223-325 | When every analyser ends without raising, each from the mark and the world its predecessors left, the winner is as `WinnerIs` says and the cursor is back at the retain mark; otherwise the first that does not decides the result |
| Contest.ClaimsAre | src/prims/tok.rs:296-318 | Each claim in the contest is its analyser's own |
| Contest.AnalyseInteger | src/prims/tok.rs:535-628 | The integer analyser alone wins exactly the longest literal that a byte follows |
| Bytes.ByteRidesAlone | src/heap.rs:98-110 | Writing one byte of a word: it reads back, the other seven stand |
| Bytes.Store.WriteLe | src/heap.rs:172-176 | The low bytes of the value in order, every other byte framed |
| Bytes.Store.WriteThenRead | src/heap.rs:164-176 | At any address in range a read after a write gives the value modulo 256 to the width |
| Bytes.Store.BytesFrom | src/heap.rs:217-229 | Terminates at every address with the bytes up to the first NUL |
| Bytes.Store.StoreBytes | src/heap.rs:196-214 | Stored bytes read back up to their first NUL; nothing stored before changes |
| Bytes.Store.CopyBytes | src/heap.rs:178-183 | Each destination byte's origin, overlap included, every other byte framed |
| Bytes.MoveExactlyWhenClear | src/heap.rs:178-183 | The copy is a true move iff the destination starts at or before the source or past its end |
| Bytes.SpellIsModulo | src/heap.rs:164-176 | Spelling a value in bytes and reading it back is reduction modulo 256 to the width |

## Left out

- Replay.ReplayContinues: a record stands for its frame where what it resumes makes no `def` and no new capture and finds `lit` unshadowed, or is a `def` that binds at the root either way, because the replay rebuilds neither the save row nor the records; live guards and call/ccs are covered while the replay answers values. `Replay.CaptureReplays` and `Sessions.LaterEscapeContinues` inherit it.
- Environments.Envs.SetBase: a root frame is stamped once, on a spine just built, as both callers do; displaced and re-entered bases are not modelled.
- Environments.Envs.Bind: claims nothing after an allocation past the pinned reservation, where the engine aborts; the same holds of every allocating method.
- Collector.Mark: takes a root or a word of an instance that is plausible and carries the magic bit to be the start of a live object. The source relies on it: marking any other word would set a bit of some object's data. Of type words and reference slots it is an invariant, which allocations, writes and collections keep. `Collector.Collect`, `Cells.CollectCells` and `Environments.Envs.Collect` inherit it.
- Buffers.Buffer.Line: the line past a compaction is the true one only if the cursor was not rewound behind the anchor, because the source counts again from the start of the region.
- Reader.ReadForm: over a refilling buffer, claims nothing of a form some run of which lies across the region's end; `Reader.ReadAtom` and `Reader.LostAtom` say what becomes of an atom there. An atom that ends the input there too, where the source moves the cursor past the write mark, is not modelled.
- Reader.ReadAtom: names are bytes; the lossy UTF-8 decoding of a malformed name is not modelled.
- Tokens.IntRead: the product with the sign wraps, as a release build computes it.
- Contest.Tape.Analyse: an analyser may change the marks, the score and the world it can reach, but not the bytes it reads.
- Cells.NewObj: the type word is whatever object the caller stamps; the allocations that build a type on first use are not modelled.
- Native rows that call back into the evaluator, wrapped operatives, library call handlers on types, and foreign callables.
- Captures made during a replay, and sources loaded from inside an evaluation.
- The form reader with macros (src/form.rs), apart from the contest it runs.
- Collector hooks, poison mode, debug walks, and the purge of snapshots and symbol tables.
- Meta-word contents: their room is modelled, what they hold is not.
- Reflective raw writes into objects, and reads of an operand as a kind it is not.
- Symbols as interned strings: in environments a symbol is its address, in the evaluator it is its name.
- Identity and mutation of pairs in the evaluator, where forms are values.
- A read error on the input stream counts as its end.
- Floating point, string primitives, files, processes and foreign calls.
