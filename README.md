# CSL runtime core: garbage collector, source spans, values

A Dafny model of three parts of the CSL scripting-language runtime:

- **The mark-and-sweep garbage collector** (`memory::GarbageCollector`).
  It owns every heap object.
  - `alloc` counts the bytes and registers the new object.
  - `collect` marks from a root set, drains the mark stack, sweeps the registry and clears `shouldCollect`.
  - The compiler's root set is its chain of functions being compiled.
  - The VM's root set is empty in this version.

  The collector is a class whose fields `heapSize`, `heapSizeLimit`, `shouldCollect`, `objects` and `markStack` are updated in place. It has one extra field, `heap`: the records of the objects, giving each object's mark bit, its size and the children its `trace()` hands to `markObj`. Objects are ids, and destroying an object removes its record.
- **Source-file spans and tokens** (`modulesDefs.h`).
  - `Span::getStr` and `Span::getLine` slice a file's text. They follow the `std::string::substr` rules, including the out-of-range exception and the conversion of negative counts to `size_t`.
  - `Token` and `CSLModule` are classes with the source's constructors and origin-pointer setters.
- **Values and line records of the code generator** (`codegenDefs.h`).
  - The tagged union `Value`, its constructors, `nil()` and `equals`.
  - The `codeLine` record.

Files:

- `util.dfy`: `Option`, `Result` and `Distinct`.
- `reach.dfy`: reachability in an object graph.
- `heaps.dfy`: object records, the mark and sweep loop invariants with their step lemmas, and the outcome of a collection.
- `gc.dfy`: the collector class, the compiler's chunk-info chain, and scenarios.
- `modules_defs.dfy`: `File`, `Span`, `Token` and `CSLModule`.
- `codegen_defs.dfy`: `Value` and `CodeLine`.

The main results:

- `MarkLive`: after root marking and the mark loop, the marked objects are exactly those reachable from the compiler's chain, and marks are closed under children.
- `Collect`:
  - the registry keeps exactly the reachable objects, in their old order, each once;
  - their records are unchanged;
  - `heapSize` is their total size;
  - the collector is ready for the next cycle.
- `Mark`: the mark loop terminates, and traces each newly marked object exactly once. This holds even with cycles and self-references.

## Model

| member | source | states |
|---|---|---|
| Memory.GarbageCollector.constructor | src/MemoryManagment/garbageCollector.cpp:14-19 | a new collector has heap size 0, limit 1024 KiB (`HEAP_START_SIZE*1024`), no collection requested and an empty registry |
| Heaps.FreshId | src/MemoryManagment/garbageCollector.cpp:26 | the storage for a new object is distinct from every registered object |
| Memory.GarbageCollector.Alloc | src/MemoryManagment/garbageCollector.cpp:21-35 | heap size grows by `size` before the storage is requested. A collection is requested exactly when the new size exceeds the limit. Without storage it reports a system error naming the size and registers nothing. Otherwise it appends a fresh, unmarked object to the registry. The registry stays consistent |
| Memory.GarbageCollector.AllocAtomic | src/MemoryManagment/garbageCollector.cpp:21-35 | corrected allocation: on a failed request nothing at all changes; on success the same outcome as `Alloc` |
| Memory.FailedAllocScenario | src/MemoryManagment/garbageCollector.cpp:23-31 | a failed 16-byte allocation in a fresh collector leaves heap size 16 with nothing registered |
| Memory.FailedAllocAtomicScenario | src/MemoryManagment/garbageCollector.cpp:23-31 | the same failure with the corrected allocation leaves heap size 0 |
| Memory.GarbageCollector.MarkObj | src/MemoryManagment/garbageCollector.cpp:93-95 | pushes the object on the mark stack and changes nothing else |
| Memory.GarbageCollector.Trace | src/MemoryManagment/garbageCollector.cpp:60 | an object's trace pushes its children on the mark stack, in order |
| Memory.GarbageCollector.Mark | src/MemoryManagment/garbageCollector.cpp:53-62 | the stack ends empty. Only mark bits change, and none is cleared. Every queued object ends marked, and so does every child of an object marked here. Only objects reachable from the queued ones get marked. Each newly marked object is traced exactly once |
| Memory.GarbageCollector.MarkTop | src/MemoryManagment/garbageCollector.cpp:56-61 | one pop keeps the mark-loop invariant. Either an object gets marked, or the stack shrinks with the marks unchanged, so the loop terminates |
| Heaps.MarkInvVisit | src/MemoryManagment/garbageCollector.cpp:59-60 | marking and tracing an unmarked object keeps the mark-loop invariant and reduces the unmarked objects |
| Heaps.MarkInvSkip | src/MemoryManagment/garbageCollector.cpp:58 | dropping an already marked object keeps the mark-loop invariant |
| Memory.GarbageCollector.MarkRoots | src/MemoryManagment/garbageCollector.cpp:68-77 | marks exactly the functions on the compiler's chain (`MarkChain`). It pushes their children in chain order and traces each one once, innermost first. The registry stays consistent |
| Memory.GarbageCollector.MarkRoot | src/MemoryManagment/garbageCollector.cpp:71-72 | sets one function's mark, whatever it was, and traces it |
| Memory.MarkChain | src/MemoryManagment/garbageCollector.cpp:68-77 | root marking changes only mark bits, and afterwards an object is marked iff it was marked before or is on the chain |
| Memory.ChainChildren | src/MemoryManagment/garbageCollector.cpp:68-77 | root marking pushes exactly the children of the functions on the chain |
| Memory.RootsInvStep | src/MemoryManagment/garbageCollector.cpp:70-73 | handling one chain entry and moving to the enclosing one keeps the root-marking invariant |
| Memory.RootsInvLast | src/MemoryManagment/garbageCollector.cpp:75-76 | handling the outermost entry completes root marking |
| Memory.ChainRootsPhase | src/MemoryManagment/garbageCollector.cpp:68-77 | on an unmarked heap, root marking marks exactly the chain and queues exactly its functions' children |
| Heaps.MarkPhaseMarksReachable | src/MemoryManagment/garbageCollector.cpp:46-47 | root marking followed by the mark loop marks exactly the objects reachable from the roots, and the marked objects are closed under children |
| Heaps.MarkPhaseClosed | src/MemoryManagment/garbageCollector.cpp:53-62 | after the mark phase every child of a marked object is marked |
| Heaps.MarkPhaseOnlyReachable | src/MemoryManagment/garbageCollector.cpp:53-62 | the mark phase marks only objects reachable from the roots |
| Memory.GarbageCollector.MarkLive | src/MemoryManagment/garbageCollector.cpp:46-47 | after marking, the marked objects are exactly those reachable from the compiler's chain. The stack is empty and nothing but marks changed |
| Memory.GarbageCollector.Sweep | src/MemoryManagment/garbageCollector.cpp:79-91 | the registry keeps exactly the marked objects, in order, each once. Their records remain with the mark cleared, the others are gone, and heap size is the survivors' total size |
| Memory.GarbageCollector.SweepAt | src/MemoryManagment/garbageCollector.cpp:81-90 | one step at index `i`, from the back, keeps the sweep invariant |
| Heaps.SweepInvDrop | src/MemoryManagment/garbageCollector.cpp:83-86 | destroying and erasing the unmarked object at `i` keeps the sweep invariant |
| Heaps.SweepInvKeep | src/MemoryManagment/garbageCollector.cpp:88-89 | counting the marked object at `i` and clearing its mark keeps the sweep invariant |
| Heaps.SweepInvDone | src/MemoryManagment/garbageCollector.cpp:79-91 | when the loop ends, the registry is the retained marked objects and heap size is their total size |
| Heaps.Retained | src/MemoryManagment/garbageCollector.cpp:83-86 | the objects a sweep keeps are exactly the registered ones that are live, never more than before |
| Heaps.RetainedAppend | src/MemoryManagment/garbageCollector.cpp:80-91 | filtering a registry split in two filters each part, which is why a back-to-front sweep keeps the order |
| Heaps.SweptRegistered | src/MemoryManagment/garbageCollector.cpp:79-91 | when marks are closed under children, sweeping leaves no surviving object pointing at a destroyed one |
| Memory.GarbageCollector.MarkAndSweep | src/MemoryManagment/garbageCollector.cpp:46-48 | a mark from the compiler's chain followed by a sweep keeps exactly the reachable objects. Their records are unchanged, heap size is their total, and the collector is ready for the next cycle |
| Memory.GarbageCollector.Collect | src/MemoryManagment/garbageCollector.cpp:45-51 | the outcome of `MarkAndSweep`, `shouldCollect` cleared and the limit unchanged, as written |
| Memory.GarbageCollector.CollectAdaptive | src/MemoryManagment/garbageCollector.cpp:45-51 | corrected collection: the same outcome, with the limit doubled exactly when the survivors still exceed it |
| Memory.StuckLimitScenario | src/MemoryManagment/garbageCollector.cpp:49 | with 1.5 MiB kept alive, the heap stays over the unchanged 1 MiB limit after a collection, and the next 16-byte allocation requests another collection |
| Memory.DoubledLimitScenario | src/MemoryManagment/garbageCollector.cpp:49 | with the corrected collection, the limit becomes 2 MiB and the next 16-byte allocation does not request a collection |
| Memory.GarbageCollector.CollectVM | src/MemoryManagment/garbageCollector.cpp:37-43 | with no VM roots marked, every object is destroyed, heap size drops to 0, `shouldCollect` is cleared and the limit is unchanged |
| Reach.ReachableInClosed | src/MemoryManagment/garbageCollector.cpp:53-62 | everything reachable from the roots lies in any child-closed set containing them |
| Reach.ReachableThroughParents | src/MemoryManagment/garbageCollector.cpp:68-77 | what a root's children reach, the root reaches |
| ModulesDefs.Substr | src/modulesDefs.h:63 | `substr` throws exactly when the position is past the end. Otherwise it returns the text from that position, at most `count` characters, stopping early only at the end of the text |
| ModulesDefs.ToInt32 | src/modulesDefs.h:62 | converting to `int` reduces modulo 2^32, so it keeps values in range and wraps those from 2^31 to 2^32 |
| ModulesDefs.ToSize | src/modulesDefs.h:63 | converting an `int` to `size_t` keeps non-negative values and adds 2^64 to negative ones |
| ModulesDefs.Span.GetStr | src/modulesDefs.h:61-64 | `getStr` throws iff `lines[line] + column` lies before the start or past the end of the text. Otherwise it gives the `length` characters from there, or the rest of the text when `length` is negative or runs past the end |
| ModulesDefs.Span.GetLine | src/modulesDefs.h:67-78 | `getLine` throws iff the line starts past the end of the text. Otherwise it gives the text from the line's start to the next line's start, or to the end on the last line or when the end is out of order. It removes one trailing newline if present and nothing else |
| ModulesDefs.GetLineInner | src/modulesDefs.h:69-72 | on a line other than the last, `getLine` is the text up to the next line's start, with or without its final newline |
| ModulesDefs.GetLineLast | src/modulesDefs.h:69-72 | on the last line, `getLine` runs to the end of the text, with or without its final newline |
| ModulesDefs.GetLineTrimsOneNewline | src/modulesDefs.h:74-75 | `getLine` drops at most one character, and only a newline at the end; the rest is a prefix of the raw line |
| ModulesDefs.File.constructor | src/modulesDefs.h:44 | a new file holds the given text and name and no line offsets |
| ModulesDefs.Token.constructor | src/modulesDefs.h:90-94 | the default token is a non-synthetic `LEFT_PAREN` with an empty span and null parent |
| ModulesDefs.Token.FromSpan | src/modulesDefs.h:96-101 | a token read from the text keeps its span and type, is not synthetic and has a null parent |
| ModulesDefs.Token.Copy | src/modulesDefs.h:104 | the copy `make_shared<Token>` makes has every field of the original |
| ModulesDefs.Token.Synthetic | src/modulesDefs.h:103-107 | a synthetic token has the given type and an empty span. Its parent is a new token, not the argument, with every field of the argument |
| ModulesDefs.Token.GetLexeme | src/modulesDefs.h:108-111 | an `ERROR` token reads "Unexpected character.", and any other token reads as its span's `getStr` |
| ModulesDefs.Token.SetOriginPointers | src/modulesDefs.h:114-117 | the parent and the macro are set independently, to the two arguments |
| ModulesDefs.Token.SetOriginPointersFromMacro | src/modulesDefs.h:120-123 | parent and macro are both set to the one argument |
| ModulesDefs.CSLModule.constructor | src/modulesDefs.h:137-142 | a new module holds the given tokens and file and no dependencies, and is neither resolved nor traversed |
| CodegenDefs.DefaultValue | src/Codegen/codegenDefs.h:22-25 | the default value is `NIL` with a null object pointer |
| CodegenDefs.NumberValue | src/Codegen/codegenDefs.h:27-30 | a number value is tagged `NUM` and holds the number unchanged |
| CodegenDefs.BoolValue | src/Codegen/codegenDefs.h:32-35 | a boolean value is tagged `BOOL` and holds the boolean unchanged |
| CodegenDefs.ObjectValue | src/Codegen/codegenDefs.h:37-40 | an object value is tagged `OBJ` and holds the pointer unchanged |
| CodegenDefs.Nil | src/Codegen/codegenDefs.h:42-44 | `nil()` is the default value |
| CodegenDefs.WellTaggedIsConstructed | src/Codegen/codegenDefs.h:15-40 | a value whose tag matches its union member is exactly what the matching constructor makes from that member |
| CodegenDefs.ConstructorsDistinct | src/Codegen/codegenDefs.h:22-40 | each constructor is injective, and values from different constructors differ |
| CodegenDefs.Value.Equals | src/Codegen/codegenDefs.h:46-48 | `equals` as written answers false for every pair |
| CodegenDefs.EqualsNotReflexive | src/Codegen/codegenDefs.h:46-48 | so `equals` does not even hold between a value and itself |
| CodegenDefs.DefaultCodeLine | src/Codegen/codegenDefs.h:148-152 | the default line record has line 0, end 0 and an empty name |
| CodegenDefs.CodeLineAt | src/Codegen/codegenDefs.h:153-156 | `codeLine(line, name)` sets line and name; `end` keeps the indeterminate value it had |

## Left out

- The allocation mutex (`allocMtx`): the model is sequential.
- Raw storage: the host's answer to `new byte[size]` is the `storageAvailable` parameter. The system error text is not modelled, only the size it names.
- Objects' own fields are written by their constructors after `alloc` returns, and are outside this model. The model passes an object's size and traced children to `Alloc` and assumes `getSize()` reports the allocated size. `trace()` implementations are not part of this model: an object's trace is the fixed list of children in its record.
- Destroying an object runs its destructor, modelled as the removal of its record. The byte block the source allocated is not released by `sweep`, and the model tracks no raw storage.
- Alloc: does not model 64-bit wrap-around of `heapSize` (`uInt64`), because sizes are unbounded naturals here.
- Memory.GarbageCollector.Alloc: it requires the state between collections (empty mark stack, no marks), which is the only state in which the runtime allocates.
- Memory.GarbageCollector.MarkRoots: the compiler's `CurrentChunkInfo` chain is modelled as an immutable value, since the collector only reads it. Aliasing of chain entries is not captured.
- `markRoots(VM*)` has an empty body, so `MarkRootsVM` has no contract. The VM's roots (stack, frames, upvalues, globals) are not part of this model.
- `Value`'s `double` is kept as its 64-bit pattern: no floating-point arithmetic or IEEE comparison is modelled.
- `Value`'s union: reading a member other than the one last written is not modelled; the payload is the member written.
- ModulesDefs.Span.GetStr: requires the file pointer to be non-null and `line` to index `lines`. The source does not check either; breaking them is undefined behaviour.
- ModulesDefs.Span.GetStr: requires the text and line offsets to be below 2^31 (`FileFits`), so the `uInt`-to-`int` conversions of offsets are the identity. Sources of 2 GiB or more are not modelled.
- ModulesDefs.Span.GetLine: requires the line it takes to be non-empty unless `substr` throws, since `back()` on an empty string is undefined behaviour.
- Tokens are C++ values that `CSLModule` and the token vectors copy. The model makes them objects, so the copies a `vector<Token>` makes are shared references here. The `(type, parentToken)` constructor's copy of its parent is modelled explicitly.
- `shared_ptr` reference counting: tokens are objects and `parentPtr`/`macroPtr` are references, so sharing is modelled but not lifetime.
- `File()` default constructor, `Chunk` and its methods, `OpCode` and `ManagedArray`: not part of this model.

Where the code and the documented design of this runtime differ, the model follows the code:

- A failed allocation is documented as leaving `heapSize` and the registry untouched. The code has already added the size to `heapSize` (see Findings).
- The limit is documented as doubling after a collection that ends over it. The code discards the shifted value (see Findings).
- `equals` is documented as per-kind equality. The code returns `false` for every pair, and the model keeps that.
- VM-sourced collection is documented as marking the VM's roots. `markRoots(VM*)` is empty, so `CollectVM` destroys every object.

## Findings

| source | as written | input that shows it | evidently intended | confidence | as-written member | corrected member |
|---|---|---|---|---|---|---|
| src/MemoryManagment/garbageCollector.cpp:49 | `heapSizeLimit << 1` is evaluated and discarded, so the limit never grows | one live 1.5 MiB function object: after `collect`, heap size 1572864 exceeds the unchanged limit 1048576, and a further 16-byte `alloc` sets `shouldCollect` again | double the limit when the survivors exceed it (`heapSizeLimit <<= 1`) | high, not executed | Memory.StuckLimitScenario | Memory.GarbageCollector.CollectAdaptive |
| src/MemoryManagment/garbageCollector.cpp:23 | `heapSize` is increased before the storage is requested, and is left increased when the request fails | a fresh collector whose host refuses 16 bytes: `alloc` throws, nothing is registered, and heap size is 16 | count the bytes only once the block exists | medium, not executed | Memory.FailedAllocScenario | Memory.GarbageCollector.AllocAtomic |
