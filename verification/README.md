# Models of Bun's runtime helpers and scripts

A Dafny 4.11 model of the hardest algorithms in Bun's JavaScript and TypeScript sources, with proofs
about every input, every run or every schedule. `dafny verify dfyconfig.toml` checks all files.

| file | what it models |
|---|---|
| `ModuleInit.dfy` | `__esm` and `__commonJS`: lazily run module bodies over any import graph, with cycles and exceptions |
| `Interop.dfy` | `__toESM`, `__toCommonJS`, `__reExport`: cached namespaces with live getters |
| `Decorators.dfy` | `__decoratorStart`, `__decorateElement`, `__decoratorContext`, `__runInitializers` |
| `Disposal.dfy` | `__using` and `__callDispose`, synchronous and through promises |
| `ContextStack.dfy` | the bundled React server renderer's context snapshots, under any task schedule |
| `ChunkWriter.dfy` | the same renderer's byte writer |
| `UnicodeTable.dfy` | the multi-stage Unicode table generator, its bit packing and the emitted lookup |
| `AddCompletions.dfy`, `LittleEndian.dfy` | the package name table for completions: writer, letter index and reader |
| `BuildTimings.dfy`, `CriticalPath.dfy` | serial windows and the critical path of a cargo build |
| `SourceMapVlq.dfy` | VLQ encoding with 32-bit operators and a dense `mappings` string |
| `ZipTail.dfy` | reading a binary's size from the tail of a zip archive |
| `LambdaRuntime.dfy` | the Lambda runtime's invocation loop with handlers that outlive their deadline |
| `TestTimes.dfy` | durations from CI logs and the worker pool that merges them |
| `Options.dfy` | the optional values the other files share |

State that the source updates in place is a class whose methods are proved equal to a function of the
old state; the promised properties are lemmas about that function. What the source cannot control
(user callbacks, the network, timers, the order in which promises settle) is a parameter: an arbitrary
total function, or an arbitrary list of choices. A statement over all schedules is a lemma or method that
takes any schedule.

Nine promises turned out not to hold as stated. Each is kept as the code has it, with a concrete
failing input and the exact condition under which it holds:

- the Unicode lookup is the predicate if and only if the predicate is false at code point 0, otherwise
  it is the complement (`UnicodeTable.AgreesIffZeroOut`, `UnicodeTable.InvertedTable`);
- for each minimum duration, serial windows are the maximal quiet intervals if and only if no instant
  inside a longer one has events that lift the count above the limit between two counts within it
  (`BuildTimings.ExactIffNoSpike`, `BuildTimings.TiesCanSplit`);
- a unit is on the critical path twice if and only if last blockers lead from the last unit into a
  cycle and around it within the limit; with at most 80 different units, if and only if the path is
  full; a build without a cycle of recorded edges has none (`CriticalPath.RepeatsIffCycle`,
  `CriticalPath.RepeatsIffFull`, `CriticalPath.LoopFillsThePath`);
- the completions reader gives every letter its names if and only if decoding stays within the table,
  first characters are in letter order, and the names that start with a letter are ASCII
  (`AddCompletions.ReaderCorrectIff`, `AddCompletions.ScopedNameBreaksIndex`,
  `AddCompletions.AccentBreaksLetter`);
- a VLQ value is read back if and only if its magnitude is below 2^31 (`SourceMapVlq.RoundTripIff`,
  `SourceMapVlq.TwoTo31IsLost`);
- a scope makes the calls and has the errors of the explicit resource management proposal if and only
  if no `await using` value falls back to a synchronous disposer that returns a rejecting promise, and
  none has null for its asynchronous disposer beside a callable synchronous one
  (`Disposal.AgreesWithProposalIff`, `Disposal.FallbackRejects`, `Disposal.NullIsRefused`);
- a Lambda invocation is reported as timed out if and only if its deadline passed or its own handler,
  for an event that is not HTTP, read a body that was undefined (`LambdaRuntime.TimeoutIff`,
  `LambdaRuntime.ServeUndefinedBody`);
- a Lambda handler that returns undefined goes on with its own upgrade if and only if it made the last
  upgrade of all and no handler left `fetch` since (`LambdaRuntime.OwnUpgradeIff`,
  `LambdaRuntime.BorrowedUpgrade`, `LambdaRuntime.LostUpgrade`);
- `maxMs` is a file's largest total if and only if some platform ends at the highest running total, and
  it is that of `maxPlat` if and only if the platform that first reached it is charged nothing in sum
  afterwards (`TestTimes.LargestIff`, `TestTimes.MaxIff`, `TestTimes.BackwardsLogBreaksMax`).

`__toESM` caches only what `typeof` calls an object: a second conversion gives the same namespace if and
only if the module is one, and a function gets a new namespace every time (`Interop.SameNamespaceIff`,
`Interop.FunctionIsNotCached`).

## Model

| member | source | states |
|---|---|---|
| ModuleInit.Bundle.CallEsm | bun/src/runtime.js:321 | an `__esm` wrapper acts as one call of the specification: the body runs on the first call only, what it throws leaves the wrapper, and later calls give the stored result, which is undefined until the body has ended |
| ModuleInit.Bundle.CallCommonJs | bun/src/runtime.js:110 | the same for `__commonJS`, which hands out the (possibly unfinished) exports object |
| ModuleInit.CallThrowsIff | bun/src/runtime.js:110-321 | a call of a begun module adds nothing to the log and throws nothing; any other begins the body, and throws if and only if it ends in the body's abort |
| ModuleInit.RunIsLawful | bun/src/runtime.js:110-321 | every event of every run is the one that the module graph and the log before it call for: a body goes on after a module that ended or that aborted inside try/catch, aborts at once after one that aborted outside, and skips modules begun before |
| ModuleInit.AbortsIff | bun/src/runtime.js:110-321 | so in every run a body aborts if and only if a module it called outside try/catch has just aborted or it reaches a throw of its own |
| ModuleInit.RunEntries | bun/src/runtime.js:110-321 | any list of entry calls terminates, on any graph, in the state the specification gives |
| ModuleInit.BodiesRunAtMostOnce | bun/src/runtime.js:110-321 | with cycles and exceptions, each body begins at most once, only if reachable, and ends or aborts once for each begin |
| ModuleInit.BodiesRunExactlyOnce | bun/src/runtime.js:110-321 | when no body throws, the bodies that run are exactly the reachable ones, once each |
| ModuleInit.ImportsCloseFirstOrCycle | bun/src/runtime.js:110-321 | when a body ends, each import has ended or aborted, unless it leads back to that body |
| ModuleInit.AcyclicImportsEndFirst | bun/src/runtime.js:110-321 | without cycles every body ends after all bodies it imports |
| ModuleInit.Balance | bun/src/runtime.js:110-321 | in every log begins equal ends plus aborts plus bodies in progress |
| Interop.Runtime.ToEsm | bun/src/runtime.js:59-86 | the memory and namespace of the specification: a cached object gives its cached namespace and changes nothing; anything else gives a new namespace on the heap as it is; functions are not cached |
| Interop.NewNamespace | bun/src/runtime.js:59-86 | for an object, a function, null or a primitive alike, the keys of a new namespace are exactly the module's own names and, when overridden, `default`; each name is a getter to the module but an overridden `default`, which is the module itself exactly in node mode or when "__esModule" does not read something truthy; a value without names has only `default` |
| Interop.NamespaceLasts | bun/src/runtime.js:59-86 | after any run the namespace of any module with names, functions included, still shows it as it stood when it was converted |
| Interop.Runtime.DefineGetters | bun/src/runtime.js:76-82 | the loop adds a getter for each name not yet there, in whatever order, and touches no other property or object |
| Interop.Runtime.ReExport | bun/src/runtime.js:27-48 | the new heap: both targets, which may be the same, get the source's names but `default`, and nothing else changes |
| Interop.Runtime.ToCommonJs | bun/src/runtime.js:91-105 | one exports object per module; a value without names fails |
| Interop.NewExports | bun/src/runtime.js:91-105 | its keys are exactly "__esModule", which is true, and the module's own names, each a getter |
| Interop.SameExports | bun/src/runtime.js:91-105 | after any run a second conversion gives the same exports object and changes nothing |
| Interop.ConvertAgain | bun/src/runtime.js:59-86 | after any run of conversions, re-exports, assignments and deletions the second conversion gives the same namespace; it still shows the module as it stood at the first, `default` being the module itself exactly in node mode or when "__esModule" then read falsy; the other mode's namespace is different |
| Interop.SameNamespaceIff | bun/src/runtime.js:59-86 | for any module and after any run, a second conversion in the same mode gives the same namespace if and only if the module is an object |
| Interop.FunctionIsNotCached | bun/src/runtime.js:59-86 | a function converted twice gets two namespaces: an input where it is not the same |
| Interop.RunApart | bun/src/runtime.js:59-86 | in every run no two modules share a namespace and neither do the two modes |
| Interop.Run | bun/src/runtime.js:27-105 | any run is the run of the specification |
| Interop.RunIsLater | bun/src/runtime.js:27-105 | no run loses an object, a property defined for good or a cache entry |
| Interop.LiveRead | bun/src/runtime.js:18-20 | a getter reads exactly what its source holds at that time |
| Interop.RoundTrip | bun/src/runtime.js:59-105 | ESM to CommonJS and back, then any run: the names are the module's and "__esModule", and every one reads what the module itself holds by then, `default` included, because "__esModule" reads true |
| Interop.FirstSourceWins | bun/src/runtime.js:27-48 | after any re-exports onto an object a name reads from the first source that had it, existing names are untouched, `default` is never added |
| Interop.RunEdits | bun/src/runtime.js:27-48 | after any run each object is what the re-exports onto it, as first or second target or both, and the program's own changes make of it, each source with the names it has when its turn comes |
| Interop.ReExportsOverRuns | bun/src/runtime.js:27-48 | so over any run and for any target, first or second, the first source wins for every name the program itself leaves alone |
| Decorators.Engine.DecorateElement | bun/src/runtime.js:251-319 | it succeeds if and only if there is a chain of values from the original through all decorators, and then value, slots and place are read off that chain; one fresh context for its slot is made per decorator called, all closed on success, and on failure only that of a decorator that threw stays open |
| Decorators.DecorateAlong | bun/src/runtime.js:251-319 | the same of the specification, link by link: a returned function replaces a class, method, getter or setter, a returned object replaces what it has callable of an accessor, a field has no value, undefined keeps everything and anything else throws; a class adds to slot 0, static members to slot 1, others to slot 2, accessors and fields get two slots of their own |
| Decorators.Engine.TryLate | bun/src/runtime.js:239-244 | every attempt of a decorator on a context handed out earlier is refused and changes no slot |
| Decorators.Engine.AddInitializer | bun/src/runtime.js:239-244 | an initialiser is added exactly when the context is still open and it is callable |
| Decorators.DecoratingIsChain | bun/src/runtime.js:264-312 | the fold passes through a chain of values, each decorator given what the ones after it made; initialisers and extra initialisers are read off that chain |
| Decorators.ChainIsDecorating | bun/src/runtime.js:264-312 | conversely every such chain is the fold |
| Decorators.RunInitializers | bun/src/runtime.js:246-250 | all initialisers of a slot are called in order and thread the value |
| Decorators.InitialisersRunInSourceOrder | bun/src/runtime.js:246-319 | a decorated field's or accessor's value passes through the initialisers its decorators gave, in source order |
| Decorators.DecorateExtends | bun/src/runtime.js:251-319 | decorating one element disturbs no earlier slot nor the metadata; shared lists only grow |
| Decorators.ClassSize | bun/src/runtime.js:236-319 | four slots and two for each accessor and field |
| Decorators.OwnSlots | bun/src/runtime.js:251-319 | at the end of a class the n-th accessor or field owns slots 4+2n and 5+2n, with exactly its own initialisers, and slot 3 is the metadata |
| Decorators.DecorateClass | bun/src/runtime.js:236-319 | the slots of a whole class are those of the specification, with one closed context for each decorator, all different |
| Disposal.Scope.Using | bun/src/runtime.bun.js:4-17 | what is refused, with which error, and what is registered otherwise |
| Disposal.Scope.Next | bun/src/runtime.bun.js:24-34 | the loop up to its next await keeps the outcome of the whole unwinding, and shortens the stack if it awaits |
| Disposal.Scope.Resume | bun/src/runtime.bun.js:28 | so does each resumption after a promise settles |
| Disposal.Scope.CallDispose | bun/src/runtime.bun.js:19-36 | the stepwise run through promises makes the calls, awaits and errors of one straight unwinding, and ends in their chain |
| Disposal.RunScope | bun/src/runtime.bun.js:4-36 | any list of declarations and any end of the body: a declaration that is refused counts as the body's error |
| Disposal.AwaitsPerDeclaration | bun/src/runtime.bun.js:9-28 | a scope awaits once for each accepted `await using` value that is null or undefined or whose disposer returns, and for nothing else |
| Disposal.CallsReverseCaptured | bun/src/runtime.bun.js:19-36 | each captured disposer is called exactly once, in reverse order, whatever fails |
| Disposal.NormalIffAllSucceed | bun/src/runtime.bun.js:19-36 | the outcome is normal if and only if the body and all disposers succeed |
| Disposal.ChainKeepsErrors | bun/src/runtime.bun.js:20-23 | the SuppressedError chain can be taken apart into the errors in the order they occurred |
| Disposal.AgreesWithProposalIff | bun/src/runtime.bun.js:4-36 | for any declarations and any end of the body, the disposers called and the errors, those of the body and of a refusal included, are the proposal's if and only if no accepted value falls back to a synchronous disposer that returns a rejecting promise and none that is reached has a null asynchronous disposer beside a callable synchronous one |
| Disposal.FallbackRejects | bun/src/runtime.bun.js:9-28 | a value of the first kind throws where the proposal completes normally: an input where it fails |
| Disposal.NullIsRefused | bun/src/runtime.bun.js:9-12 | a value of the second kind is refused where the proposal calls its synchronous disposer: an input where it fails |
| ContextStack.PopToCommonAncestor | bun/bench/react-hello-world/react-hello-world.workerd.js:26 | between snapshots of equal depth, `i_` leaves every context showing the target and never throws |
| ContextStack.PopPrevious | bun/bench/react-hello-world/react-hello-world.workerd.js:26 | the same from a deeper snapshot (`FT`) |
| ContextStack.PushNext | bun/bench/react-hello-world/react-hello-world.workerd.js:26 | the same to a deeper snapshot (`KT`) |
| ContextStack.Renderer.Switch | bun/bench/react-hello-world/react-hello-world.workerd.js:26 | `ku` between any two snapshots leaves exactly the target's environment |
| ContextStack.Renderer.Render | bun/bench/react-hello-world/react-hello-world.workerd.js:38 | rendering a node fails if and only if an error comes before the task rests, and makes or leaves owed exactly the reads due until then; it restores the context if it completes |
| ContextStack.Renderer.RenderChild | bun/bench/react-hello-world/react-hello-world.workerd.js:38 | `_f`: a suspended child becomes a task of its own and the context is restored |
| ContextStack.Renderer.RunTask | bun/bench/react-hello-world/react-hello-world.workerd.js:38 | resuming a task keeps the account of reads and makes progress |
| ContextStack.Renderer.RenderRoot | bun/bench/react-hello-world/react-hello-world.workerd.js:38 | under any schedule of suspended tasks rendering ends with the same reads and the same number of failed tasks: lexical reads, each once, all but those of siblings after an error; a nested render restores the snapshot it began with, any other stays at that of the task that ran last |
| ContextStack.MadeIsLexical | bun/bench/react-hello-world/react-hello-world.workerd.js:38 | these are all the lexical reads if no node throws, which is so if and only if no task failed |
| ChunkWriter.Writer.Write | bun/bench/react-hello-world/react-hello-world.workerd.js:42 | `A` appends the chunk's bytes to what was written; queued views are never overwritten |
| ChunkWriter.Writer.Flush | bun/bench/react-hello-world/react-hello-world.workerd.js:42 | `Lv` queues all that was written and nothing else |
| ChunkWriter.WriteAll | bun/bench/react-hello-world/react-hello-world.workerd.js:42 | any chunks and a flush: the queue's bytes are the concatenation of the chunks |
| Bits.MaskTestsBit | bun/misctools/gen-unicode-table.ts:50-59 | masking with a power of two is non-zero exactly if that bit is set |
| Bits.BitOfAnd | bun/misctools/gen-unicode-table.ts:50-59 | each bit of `a & b` is set if and only if it is set in both |
| Bits.BitOfOr | bun/misctools/gen-unicode-table.ts:28-34 | each bit of a bitwise or is set if and only if it is set in one of the two |
| BlockStore.BuildReads | bun/misctools/unicode-generator.ts:30-91 | stage 1 and then stage 2 give back every code, with at most 256 distinct blocks |
| BlockStore.BuildDeduplicates | bun/misctools/unicode-generator.ts:30-91 | with whole blocks, places are multiples of 256 within 16 bits, blocks share a place exactly if equal, and stage 2 holds each distinct block once |
| BlockStore.BuildFits | bun/misctools/unicode-generator.ts:68-80 | a block's place fits 16 bits exactly when at most 256 blocks are stored |
| UnicodeTable.Generator.Generate | bun/misctools/unicode-generator.ts:30-91 | it succeeds exactly when elements and blocks fit 16-bit indices, and then gives the specified stages |
| UnicodeTable.StagesGiveElement | bun/misctools/unicode-generator.ts:30-91 | the three stages together give every code point an element equal to its own |
| UnicodeTable.ElementsDistinct | bun/misctools/unicode-generator.ts:41-48 | no two elements of stage 3 are equal |
| UnicodeTable.BitsToU64Array | bun/misctools/gen-unicode-table.ts:26-38 | the words hold exactly the bits, 64 to a word |
| UnicodeTable.LookupReadsCode | bun/misctools/gen-unicode-table.ts:50-59 | the emitted lookup stays in bounds and tells whether a code is non-zero |
| UnicodeTable.AgreesIffZeroOut | bun/misctools/gen-unicode-table.ts:40-68 | the lookup is the predicate if and only if code point 0 is not in it; otherwise it is the complement |
| UnicodeTable.GenerateTable | bun/misctools/gen-unicode-table.ts:40-68 | table generation succeeds exactly with at most 256 blocks, and then answers every code point up to that complement, and no beyond the limit |
| UnicodeTable.InvertedTable | bun/misctools/gen-unicode-table.ts:40-68 | the predicate that is always true gets a table that always says no: an input where it fails |
| BuildTimings.SerialWindows | bun/scripts/rust-timings.ts:145-177 | it reports the windows of the sweep over the stably sorted events, each with the units that overlap it |
| BuildTimings.StableSortIsStable | bun/scripts/rust-timings.ts:152 | sorting keeps the order of events at the same time |
| BuildTimings.RunsAreMaximal | bun/scripts/rust-timings.ts:155-176 | the sweep finds exactly the maximal stretches of low counts, in order |
| BuildTimings.CountAt | bun/scripts/rust-timings.ts:146-160 | the running count between two events is the number of units running |
| BuildTimings.WindowsAreQuiet | bun/scripts/rust-timings.ts:145-177 | at every instant of a reported window at most `maxActive` units run |
| BuildTimings.WindowsCover | bun/scripts/rust-timings.ts:145-177 | with no minimum every quiet instant is in a window |
| BuildTimings.WindowsAreOrdered | bun/scripts/rust-timings.ts:145-177 | windows are in time order and disjoint, whatever the order of tied events |
| BuildTimings.ExactIffNoSpike | bun/scripts/rust-timings.ts:145-177 | for each minimum duration the windows are exactly the maximal quiet intervals longer than it if and only if no spike lies inside one of those |
| BuildTimings.DistinctTimesAreExact | bun/scripts/rust-timings.ts:145-177 | with distinct event times they always are |
| BuildTimings.TiesCanSplit | bun/scripts/rust-timings.ts:145-177 | two units that touch, the later one listed first, are not reported as one window under any minimum below their length: an input where it fails |
| CriticalPath.FindCriticalPath | bun/scripts/rust-timings.ts:120-142 | an error for no units; otherwise the specified walk back from the last unit, reversed |
| CriticalPath.PathIsCritical | bun/scripts/rust-timings.ts:120-142 | that path has 1 to 81 units and ends at one that finishes last, each was the latest eligible blocker of the next, and it starts at one without any unless 81 were taken |
| CriticalPath.LatestIsLatest | bun/scripts/rust-timings.ts:132-137 | the blocker chosen is the latest by the limit, none if and only if there is none |
| CriticalPath.LatestTies | bun/scripts/rust-timings.ts:132-137 | of several at the same time the one recorded first |
| CriticalPath.LastOfTies | bun/scripts/rust-timings.ts:130 | the walk starts at the last of the units that finish last |
| CriticalPath.BuildWaitsOn | bun/scripts/rust-timings.ts:121-129 | the map holds each id's blockers in the order they are recorded |
| CriticalPath.BlockersAreEdges | bun/scripts/rust-timings.ts:104-129 | these are exactly the unblocking edges, inverted: a plain edge at the unit's end, a metadata edge at the end of its first section named "frontend", or at the unit's end if it has none |
| CriticalPath.ChainAdvances | bun/scripts/rust-timings.ts:120-142 | whatever the units, starts along the path advance by at least each unit's time to its first unblocking less the slack |
| CriticalPath.RepeatsIffCycle | bun/scripts/rust-timings.ts:131-141 | a unit is on the path twice if and only if going back from the last unit some number of times, and then at least once more, leads to the same unit within the limit |
| CriticalPath.RepeatsIffFull | bun/scripts/rust-timings.ts:120-142 | with at most 80 different units, a unit is on the path twice if and only if the path has 81 |
| CriticalPath.RepeatingFillsThePath | bun/scripts/rust-timings.ts:131-141 | whatever the units, only the limit of 81 ends a path that has a unit twice |
| CriticalPath.AcyclicEdgesDoNotRepeat | bun/scripts/rust-timings.ts:120-142 | whatever the times, recorded edges without a cycle never put a unit on the path twice |
| CriticalPath.LoopFillsThePath | bun/scripts/rust-timings.ts:120-142 | a unit recorded as unblocking itself is the path 81 times: an input where it fails |
| AddCompletions.SortNames | bun/misctools/generate-add-completions.ts:15-19 | the loop gives the specified list |
| AddCompletions.NamesAreSorted | bun/misctools/generate-add-completions.ts:15-19 | that list is a sorted permutation of the trimmed lines that are not empty |
| AddCompletions.TrimCuts | bun/misctools/generate-add-completions.ts:17 | trimming cuts off white space at both ends and all of it |
| AddCompletions.WhiteIff | bun/misctools/generate-add-completions.ts:17 | white space is what the language lists as such, as a space of Unicode or as a line terminator |
| AddCompletions.GroupNames | bun/misctools/generate-add-completions.ts:22-40 | group sizes per first character and the largest of them |
| AddCompletions.Encode | bun/misctools/generate-add-completions.ts:43-61 | the written bytes, the size counted in UTF-16 units, or a failure exactly when a prefix does not fit its field |
| AddCompletions.ByteCount | bun/misctools/generate-add-completions.ts:55-58 | a name has as many UTF-8 bytes as units if and only if it is ASCII, never fewer |
| AddCompletions.BytesAreUtf8 | bun/misctools/generate-add-completions.ts:55-58 | a reader of UTF-8 gives back every name without lone surrogates |
| AddCompletions.BuildIndex | bun/misctools/generate-add-completions.ts:76-84 | each letter's offset and length |
| AddCompletions.BuildTable | bun/misctools/generate-add-completions.ts:130-152 | the reader's loop is the decoder, on any bytes |
| AddCompletions.Generate | bun/misctools/generate-add-completions.ts:15-110 | from any lines: a table, index and sizes that describe the sorted list, or a failure exactly when it does not fit |
| AddCompletions.RoundTripIff | bun/misctools/generate-add-completions.ts:47-152 | for names in any script, decoding what was written gives all of them back if and only if all are ASCII |
| AddCompletions.AccentIsCut | bun/misctools/generate-add-completions.ts:54-58 | an accented letter is cut in half: an input where it fails |
| AddCompletions.ReaderDecodesIff | bun/misctools/generate-add-completions.ts:114-152 | the emitted size is the table's, and the reader decodes every name, if and only if all are ASCII |
| AddCompletions.ReaderGivesSlice | bun/misctools/generate-add-completions.ts:110-167 | with all names decoded the reader never slices out of bounds and gives at most BIGGEST_LIST names |
| AddCompletions.RankIff | bun/misctools/generate-add-completions.ts:22-84 | a first character belongs to a letter if and only if it is that letter, its capital or, for k, the Kelvin sign |
| AddCompletions.IndexCorrectIff | bun/misctools/generate-add-completions.ts:76-84 | every slice of a sorted list is its letter's group if and only if first characters are in letter order |
| AddCompletions.ReaderCorrectIff | bun/misctools/generate-add-completions.ts:130-167 | the table that the reader decodes gives every letter exactly its names if and only if decoding stays within the table, first characters are in letter order and the names that start with a letter are ASCII |
| AddCompletions.DecodedTracks | bun/misctools/generate-add-completions.ts:130-152 | what is decoded has as many names as were written, and as long as the names before are ASCII the next is cut to as many bytes as it has units |
| AddCompletions.TrailingAccentIsHarmless | bun/misctools/generate-add-completions.ts:47-167 | "a" and "é" are read correctly although not all ASCII |
| AddCompletions.AccentBreaksLetter | bun/misctools/generate-add-completions.ts:47-167 | a name that starts with a letter and is not ASCII: an input where it fails |
| AddCompletions.LowerCaseInOrder | bun/misctools/generate-add-completions.ts:22-40 | names that start with a to z meet it |
| AddCompletions.ScopedNameBreaksIndex | bun/misctools/generate-add-completions.ts:76-84 | a scoped name makes the index wrong: an input where it fails |
| SourceMapVlq.EncodeVlq | bun/bench/sourcemap/append-vlq-bench.ts:17-28 | with 32-bit shifts the text is that of the sign and magnitude modulo 2^31 |
| SourceMapVlq.DecodeEncoded | bun/bench/sourcemap/append-vlq-bench.ts:17-28 | whatever follows it, an encoded value is read back up to wrap-around |
| SourceMapVlq.RoundTripIff | bun/bench/sourcemap/append-vlq-bench.ts:17-28 | exactly if and only if its magnitude is below 2^31 |
| SourceMapVlq.TwoTo31IsLost | bun/bench/sourcemap/append-vlq-bench.ts:17-28 | 2^31 is read back as 0: an input where it fails |
| SourceMapVlq.AtMostSevenDigits | bun/bench/sourcemap/append-vlq-bench.ts:21-27 | one to seven characters for every value |
| DenseMappings.BuildDense | bun/bench/sourcemap/append-vlq-bench.ts:32-54 | the loops give the specified text for any number of lines |
| DenseMappings.DenseRoundTrip | bun/bench/sourcemap/append-vlq-bench.ts:32-54 | for any number of lines a reader finds four positions on each, at columns 3, 7, 12 and 18, with the original lines and running original columns |
| DenseMappings.MappingsBetween | bun/bench/sourcemap/append-vlq-bench.ts:43-48 | the segment from one position to another is read back as the other |
| ZipTail.ZipBinarySize | bun/scripts/binary-size.ts:332-355 | any bytes at all: every read is in bounds, the walk ends, and the outcome is that of the last end record if it is near enough to the end, else that there is none |
| ZipTail.FindEocd | bun/scripts/binary-size.ts:332-338 | the last end record within reach, or none if and only if there is none |
| ZipTail.EntryIsParsed | bun/scripts/binary-size.ts:345-352 | at a well-formed directory entry its size, kind and length are read |
| ZipTail.TailGivesLargest | bun/scripts/binary-size.ts:322-356 | at the archive's own record the outcome is n > 0, the size of a file that no file exceeds, or an error if and only if no file has more than 0 bytes; sizes, lengths and marks are told from the bytes, and other data may stand between directory and record |
| ZipTail.OwnRecordIff | bun/scripts/binary-size.ts:332-338 | the record found is the archive's own if and only if its comment has at most 65535 bytes and no later signature is in the way |
| ZipTail.NoCommentFindsRecord | bun/scripts/binary-size.ts:332-338 | so it always is without a comment |
| ZipTail.SizeOfArchive | bun/scripts/binary-size.ts:322-356 | and so is the result of the whole reader |
| ZipTail.LargestIsMax | bun/scripts/binary-size.ts:349-351 | that size is a maximum over the entries that are not directories |
| LambdaRuntime.Serve | bun/packages/bun-lambda/runtime.ts:816-826 | over everything that can happen the loop is the run of the specification; `pendingRequests` counts the running fetches |
| LambdaRuntime.RunsKeep | bun/packages/bun-lambda/runtime.ts:816-826 | after any run each id received has exactly one post before the next is received, under its own id, with the verdict on its own handler; only the last may be open |
| LambdaRuntime.TraceAlternates | bun/packages/bun-lambda/runtime.ts:816-826 | in that trace the i-th id received is followed at once by its only post |
| LambdaRuntime.Runtime.AcceptAndAnswer | bun/packages/bun-lambda/runtime.ts:502-520 | from the start of the handler to the reply to the post the loop follows the specification |
| LambdaRuntime.Runtime.Race | bun/packages/bun-lambda/runtime.ts:505-518 | the race ends in the specified verdict, while any other handlers run on |
| LambdaRuntime.Runtime.RunTask | bun/packages/bun-lambda/runtime.ts:522-542 | one step of a handler: only its own stage changes, and leaving `fetch` clears the upgrade and the count |
| LambdaRuntime.Runtime.ReceiveRequest | bun/packages/bun-lambda/runtime.ts:194-223 | the id is known as soon as it is received; missing headers and bad JSON end the process |
| LambdaRuntime.Runtime.SendResponse | bun/packages/bun-lambda/runtime.ts:276-284 | a post under the current id, or an exit without one |
| LambdaRuntime.Runtime.SendError | bun/packages/bun-lambda/runtime.ts:118-128 | a post of the error under the current id |
| LambdaRuntime.HandlersSettle | bun/packages/bun-lambda/runtime.ts:522-628 | over every run a handler is moved on at most four times, whatever the others do |
| LambdaRuntime.AnswerIff | bun/packages/bun-lambda/runtime.ts:502-542 | over every run the i-th post is, under the id received before it, the one answer that fits the choice which decided it: the text that was read, with its status around it for an HTTP event, the acceptance of a WebSocket, a timeout, or an error for a malformed event, a failed read or an error callback without a response |
| LambdaRuntime.ReachesIff | bun/packages/bun-lambda/runtime.ts:522-628 | how a handler comes to wait for the error callback, a WebSocket or a body of which status, and what it settles with, told from the stage it reaches |
| LambdaRuntime.HandlerOf | bun/packages/bun-lambda/runtime.ts:194-542 | over every run each handler belongs to one invocation the loop was waiting for, begins as its kind does, stays of that kind and is answered under its id |
| LambdaRuntime.StoppedIff | bun/packages/bun-lambda/runtime.ts:118-284 | a run is over if and only if no request came, it lacked a header or a readable body, or an answer could not be posted |
| LambdaRuntime.ErrorCallbackIff | bun/packages/bun-lambda/runtime.ts:587-628 | there is an error callback if and only if there was one at the start or a reload brought one |
| LambdaRuntime.TimeoutIff | bun/packages/bun-lambda/runtime.ts:505-542 | every answer of every run was decided by one choice, and says timeout if and only if that was the deadline or the invocation's own handler, for an event that is not HTTP, reading a body that was undefined |
| LambdaRuntime.ServeUndefinedBody | bun/packages/bun-lambda/runtime.ts:502-542 | a `Response` whose `text` gives undefined is reported as a timeout by a run without any deadline: an input where it fails |
| LambdaRuntime.UpgradeIff | bun/packages/bun-lambda/runtime.ts:603-650 | over every run from a state without an upgrade, the standing upgrade is handler k's if and only if k made one and no later choice is another upgrade or lets a handler leave `fetch` |
| LambdaRuntime.OwnUpgradeIff | bun/packages/bun-lambda/runtime.ts:603-650 | after any run a handler that returns undefined goes on with its own upgrade if and only if it made that last one, with some upgrade if and only if there is one, and with the error callback or the 500 response otherwise |
| LambdaRuntime.BorrowedUpgrade | bun/packages/bun-lambda/runtime.ts:603-650 | a handler that timed out hands its upgrade to the next invocation: a run where it fails |
| LambdaRuntime.LostUpgrade | bun/packages/bun-lambda/runtime.ts:603-650 | a handler that timed out clears the upgrade of the next invocation when it returns: another run where it fails |
| TestTimes.ParseLog | bun/scripts/ci-slowest-tests.ts:77-98 | the loop gives the specified durations |
| TestTimes.ParsedIsElapsed | bun/scripts/ci-slowest-tests.ts:85-96 | a file's duration is the sum of the gaps after the headers that name it |
| TestTimes.DurationsAddUp | bun/scripts/ci-slowest-tests.ts:85-96 | all durations and the gaps after empty names add up to the time from the first header to the last |
| TestTimes.RunPool | bun/scripts/ci-slowest-tests.ts:115-141 | for any completion order no job is lost or counted twice, and all sixteen workers have returned exactly when every job was handled |
| TestTimes.CollectTimes | bun/scripts/ci-slowest-tests.ts:112-141 | once all workers have returned, whatever the order, every file has on every platform the time that the logs of all jobs there show for it and, without negative durations, the largest as its maximum |
| TestTimes.Pool.Complete | bun/scripts/ci-slowest-tests.ts:119-138 | one worker's stretch between awaits merges its job and takes the next one |
| TestTimes.MergeTotals | bun/scripts/ci-slowest-tests.ts:124-128 | a file's total on a platform is the sum over the jobs that name it |
| TestTimes.TotalIsTimeSpent | bun/scripts/ci-slowest-tests.ts:77-132 | from logs to totals: the gaps after the headers that name the file, over all jobs of the platform whose log could be fetched |
| TestTimes.MaxIsPeak | bun/scripts/ci-slowest-tests.ts:127-132 | whatever the durations, `maxMs` is the highest running total any platform ever had, or 0, and `maxPlat` the platform that first reached it |
| TestTimes.LargestIff | bun/scripts/ci-slowest-tests.ts:127-132 | `maxMs` is the largest final total if and only if some platform, whichever, ends at that highest running total or the file is never named |
| TestTimes.MaxIff | bun/scripts/ci-slowest-tests.ts:127-132 | it is the largest final total and that of `maxPlat` if and only if that platform is charged nothing in sum afterwards (or, if no total was ever positive, some total is 0 or there is none) |
| TestTimes.TiedPlatformKeepsMax | bun/scripts/ci-slowest-tests.ts:124-132 | charges where the first holds and the second does not |
| TestTimes.MaximaAreLargest | bun/scripts/ci-slowest-tests.ts:127-132 | so both always hold without negative durations |
| TestTimes.OrderDoesNotMatter | bun/scripts/ci-slowest-tests.ts:112-141 | any two orders of the same jobs give the same totals and, without negative durations, the same maximum |
| TestTimes.OrderedLogsAreNonNegative | bun/scripts/ci-slowest-tests.ts:77-98 | logs whose times never go back have no negative duration |
| TestTimes.BackwardsLogBreaksMax | bun/scripts/ci-slowest-tests.ts:77-141 | from two logs, one of which goes back in time, through the pool to a `maxMs` that no platform has: an input where it fails |

## Left out

- Matching text with regular expressions (log headers, platform names): headers and the cleaning of names are parameters.
- Compression of the completions table, SHA-256 (block keys are the blocks themselves) and floating-point rounding (times are reals).
- Interop.Runtime.ToEsm: own properties only; prototypes, enumerability and symbols are not modelled; the depth to which getters may nest is a parameter.
- Interop.Run: a program's own changes are assignments and deletions of ordinary properties; redefining properties with `Object.defineProperty` is not modelled.
- Decorators.Engine.DecorateElement: decorators are total functions of the value they are given, which catch what refused attempts on earlier contexts throw; private-name access helpers and the metadata object's contents are not modelled.
- ContextStack.Renderer.Render: of the renderer only contexts, errors, suspension and task order; HTML output, boundaries and client scripts are left out.
- ChunkWriter.Writer.Write: strings are encoded before; the stream's backpressure is only the returned flag.
- BuildTimings.SerialWindows: the engine's stable sort is an insertion sort on values.
- AddCompletions.Generate: what `toLowerCase` makes of characters other than a to z is a parameter.
- ZipTail.ZipBinarySize: the two fetches are parameters, and the buffer may be anything.
- LambdaRuntime.Serve: how events become requests, WebSocket bookkeeping and `init` are left out, and of a formatted HTTP response all but its status and body; the deadline is a timer that may fire at any time, and `Server.stop` is the end of a run.
- The Rust and Zig parts of the repository, its scripts that only call services, and the other benchmarks.
