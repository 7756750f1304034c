/**
 * The mark-and-sweep collector of the runtime (namespace `memory`).
 *
 * The collector owns every heap object, so the objects' records live in
 * the collector's `heap` map; destroying an object removes its record.
 */
module Memory {
  import opened Util
  import opened Reach
  import opened Heaps

  /** Start size of the heap, in KiB. */
  const HEAP_START_SIZE: nat := 1024

  /** What `alloc` hands back: the new block, or the system error it throws. */
  datatype AllocResult = Block(id: ObjId) | SystemError(requested: nat)

  /**
   * One entry of the compiler's chain of functions being compiled: the
   * function object and the entry of the enclosing function, if any.
   * The collector only reads this chain, so it is a value here.
   */
  datatype ChunkInfo = ChunkInfo(func: ObjId, enclosing: Option<ChunkInfo>)

  /** The functions of an entry and of every enclosing one, innermost first. */
  function Chain(c: ChunkInfo): (r: seq<ObjId>)
    ensures |r| > 0 && r[0] == c.func
    decreases c
  {
    match c.enclosing
    case None => [c.func]
    case Some(e) => [c.func] + Chain(e)
  }

  /** Every function of the chain from c outwards is registered in h. */
  ghost predicate ChainIn(c: ChunkInfo, h: Heap)
  {
    forall f :: f in Chain(c) ==> f in h
  }

  /** h after root marking from c: the mark of each function on the chain is set. */
  function MarkChain(h: Heap, c: ChunkInfo): (r: Heap)
    requires ChainIn(c, h)
    ensures SameShape(h, r)
    ensures forall id :: id in r ==> r[id].marked == (h[id].marked || id in Chain(c))
    decreases c
  {
    var h1 := h[c.func := h[c.func].(marked := true)];
    match c.enclosing
    case None => h1
    case Some(e) => MarkChain(h1, e)
  }

  /** What root marking from c pushes: the children of each function on the chain, in order. */
  function ChainChildren(h: Heap, c: ChunkInfo): (r: seq<ObjId>)
    requires ChainIn(c, h)
    ensures forall x :: x in r <==> exists f :: f in Chain(c) && x in h[f].children
    decreases c
  {
    match c.enclosing
    case None => h[c.func].children
    case Some(e) => h[c.func].children + ChainChildren(h, e)
  }

  /** Root marking from c on an unmarked heap marks exactly the chain and queues its children. */
  lemma ChainRootsPhase(h0: Heap, c: ChunkInfo)
    requires ChildrenRegistered(h0) && (forall id :: id in h0 ==> !h0[id].marked) && ChainIn(c, h0)
    ensures RootsPhase(h0, Elems(Chain(c)), MarkChain(h0, c), ChainChildren(h0, c))
  {
  }

  /**
   * Invariant of root marking started from heap h0, stack s0 and log log0 at
   * entry root, now at entry c: finishing from c gives what finishing from
   * root would have given.
   */
  ghost predicate RootsInv(h0: Heap, s0: seq<ObjId>, log0: seq<ObjId>, root: ChunkInfo,
                           c: ChunkInfo, h: Heap, stack: seq<ObjId>, log: seq<ObjId>)
  {
    ChainIn(root, h0) && ChainIn(c, h0) && SameShape(h0, h) &&
    MarkChain(h, c) == MarkChain(h0, root) &&
    stack + ChainChildren(h0, c) == s0 + ChainChildren(h0, root) &&
    log + Chain(c) == log0 + Chain(root)
  }

  lemma RootsInvInit(h0: Heap, s0: seq<ObjId>, log0: seq<ObjId>, root: ChunkInfo)
    requires ChainIn(root, h0)
    ensures RootsInv(h0, s0, log0, root, root, h0, s0, log0)
  {
  }

  /** Handling entry c and moving to the enclosing one keeps the invariant. */
  lemma RootsInvStep(h0: Heap, s0: seq<ObjId>, log0: seq<ObjId>, root: ChunkInfo,
                     c: ChunkInfo, h: Heap, stack: seq<ObjId>, log: seq<ObjId>)
    requires RootsInv(h0, s0, log0, root, c, h, stack, log) && c.enclosing.Some?
    ensures c.func in h
    ensures RootsInv(h0, s0, log0, root, c.enclosing.value,
                     h[c.func := h[c.func].(marked := true)],
                     stack + h[c.func].children, log + [c.func])
  {
    var e := c.enclosing.value;
    assert Chain(c) == [c.func] + Chain(e);
    assert ChainChildren(h0, c) == h0[c.func].children + ChainChildren(h0, e);
  }

  /** Handling the outermost entry completes root marking. */
  lemma RootsInvLast(h0: Heap, s0: seq<ObjId>, log0: seq<ObjId>, root: ChunkInfo,
                     c: ChunkInfo, h: Heap, stack: seq<ObjId>, log: seq<ObjId>)
    requires RootsInv(h0, s0, log0, root, c, h, stack, log) && c.enclosing.None?
    ensures c.func in h
    ensures h[c.func := h[c.func].(marked := true)] == MarkChain(h0, root)
    ensures stack + h[c.func].children == s0 + ChainChildren(h0, root)
    ensures log + [c.func] == log0 + Chain(root)
  {
    assert Chain(c) == [c.func];
  }

  /** What the collector uses of the compiler: its innermost chunk-info entry. */
  class Compiler {
    const current: ChunkInfo

    constructor (current: ChunkInfo)
      ensures this.current == current
    {
      this.current := current;
    }
  }

  class GarbageCollector {
    var heapSize: nat
    var heapSizeLimit: nat
    var shouldCollect: bool
    /** Every allocated object, in allocation order. */
    var objects: seq<ObjId>
    /** Objects handed to markObj and not yet processed by mark. */
    var markStack: seq<ObjId>
    /** The records of the registered objects. */
    var heap: Heap
    /** Every object traced so far, in order. */
    ghost var traceLog: seq<ObjId>

    /** The registry lists each live object once, and no object points outside it. */
    ghost predicate Wf()
      reads this
    {
      Registry(objects, heap)
    }

    /** The state between collections: no pending work and no mark bit set. */
    ghost predicate Valid()
      reads this
    {
      Wf() && markStack == [] && forall id :: id in heap ==> !heap[id].marked
    }

    constructor ()
      ensures Valid()
      ensures heapSize == 0 && heapSizeLimit == HEAP_START_SIZE * 1024 && !shouldCollect
      ensures objects == [] && heap == map[]
    {
      heapSize := 0;
      heapSizeLimit := HEAP_START_SIZE * 1024;
      shouldCollect := false;
      objects := [];
      markStack := [];
      heap := map[];
      traceLog := [];
    }

    /**
     * Allocates a block of size bytes for an object that will trace children.
     * storageAvailable is the host's answer to the raw allocation.
     */
    method Alloc(size: nat, children: seq<ObjId>, storageAvailable: bool) returns (r: AllocResult)
      requires Valid()
      requires forall c :: c in children ==> c in heap
      modifies this`heapSize, this`shouldCollect, this`objects, this`heap
      ensures Valid()
      ensures heapSize == old(heapSize) + size
      ensures shouldCollect == (old(shouldCollect) || heapSize > heapSizeLimit)
      ensures r.SystemError? <==> !storageAvailable
      ensures r.SystemError? ==> r.requested == size && objects == old(objects) && heap == old(heap)
      ensures r.Block? ==> r.id !in old(heap) && objects == old(objects) + [r.id] &&
                           heap == old(heap)[r.id := ObjRecord(false, size, children)]
    {
      heapSize := heapSize + size;
      if heapSize > heapSizeLimit {
        shouldCollect := true;
      }
      if !storageAvailable {
        return SystemError(size);
      }
      var id := FreshId(objects);
      forall i | 0 <= i < |objects| ensures objects[i] < id {
        assert objects[i] in objects;
      }
      objects := objects + [id];
      heap := heap[id := ObjRecord(false, size, children)];
      r := Block(id);
    }

    /**
     * Allocation that leaves the collector as it was when the host has no
     * storage: heapSize is counted only once the block exists.
     */
    method AllocAtomic(size: nat, children: seq<ObjId>, storageAvailable: bool) returns (r: AllocResult)
      requires Valid()
      requires forall c :: c in children ==> c in heap
      modifies this`heapSize, this`shouldCollect, this`objects, this`heap
      ensures Valid()
      ensures r.SystemError? <==> !storageAvailable
      ensures r.SystemError? ==> r.requested == size && heapSize == old(heapSize) &&
                                 shouldCollect == old(shouldCollect) && objects == old(objects) && heap == old(heap)
      ensures r.Block? ==> heapSize == old(heapSize) + size &&
                           shouldCollect == (old(shouldCollect) || heapSize > heapSizeLimit) &&
                           r.id !in old(heap) && objects == old(objects) + [r.id] &&
                           heap == old(heap)[r.id := ObjRecord(false, size, children)]
    {
      if !storageAvailable {
        return SystemError(size);
      }
      r := Alloc(size, children, true);
    }

    /** Queues an object for mark; it does not look at the mark bit. */
    method MarkObj(obj: ObjId)
      modifies this`markStack
      ensures markStack == old(markStack) + [obj]
    {
      markStack := markStack + [obj];
    }

    /** The object's trace(): markObj on each child, in order. */
    method Trace(obj: ObjId)
      requires obj in heap
      modifies this`markStack, this`traceLog
      ensures markStack == old(markStack) + heap[obj].children
      ensures traceLog == old(traceLog) + [obj]
    {
      var children := heap[obj].children;
      var k := 0;
      while k < |children|
        invariant 0 <= k <= |children|
        invariant markStack == old(markStack) + children[..k]
        invariant traceLog == old(traceLog)
      {
        MarkObj(children[k]);
        assert children[..k + 1] == children[..k] + [children[k]];
        k := k + 1;
      }
      traceLog := traceLog + [obj];
    }

    /**
     * The marking half of a collection during compilation: root marking from
     * the compiler's chain of functions, then the mark loop. Afterwards the
     * marked objects are exactly those reachable from the chain.
     */
    method MarkLive(compiler: Compiler)
      requires Valid() && ChainIn(compiler.current, heap)
      modifies this`markStack, this`heap, this`traceLog
      ensures Wf() && markStack == [] && SameShape(old(heap), heap)
      ensures MarkedIds(heap) == ReachableSet(Edges(old(heap)), Elems(Chain(compiler.current)))
      ensures MarksClosed(heap)
    {
      ghost var h0 := heap;
      ChainRootsPhase(h0, compiler.current);
      MarkRoots(compiler);
      assert markStack == ChainChildren(h0, compiler.current);
      ghost var h1, s1 := heap, markStack;
      Mark();
      assert LoopPhase(h1, s1, heap);
      MarkPhaseMarksReachable(h0, Elems(Chain(compiler.current)), h1, s1, heap);
    }

    /** What both collect overloads share, with the compiler's roots: mark, then sweep. */
    method MarkAndSweep(compiler: Compiler)
      requires Valid() && ChainIn(compiler.current, heap)
      modifies this`heapSize, this`objects, this`markStack, this`heap, this`traceLog
      ensures Valid()
      ensures objects == Retained(old(objects), ReachableSet(Edges(old(heap)), Elems(Chain(compiler.current))))
      ensures forall id :: id in heap <==> id in ReachableSet(Edges(old(heap)), Elems(Chain(compiler.current)))
      ensures forall id :: id in heap ==> heap[id] == old(heap)[id]
      ensures heapSize == LiveBytes(heap, objects)
    {
      ghost var h0 := heap;
      MarkLive(compiler);
      ghost var h2 := heap;
      Sweep();
      SweptRegistered(h2, heap);
      UnmarkedAgain(h0, h2, heap);
    }

    /**
     * Collection during compilation. When the heap is still over the limit
     * the source computes the limit shifted left by one and throws the value
     * away, so the limit stays as it was.
     */
    method Collect(compiler: Compiler)
      requires Valid() && ChainIn(compiler.current, heap)
      modifies this`heapSize, this`shouldCollect, this`objects, this`markStack, this`heap, this`traceLog
      ensures Valid() && !shouldCollect
      ensures heapSizeLimit == old(heapSizeLimit)
      ensures objects == Retained(old(objects), ReachableSet(Edges(old(heap)), Elems(Chain(compiler.current))))
      ensures forall id :: id in heap <==> id in ReachableSet(Edges(old(heap)), Elems(Chain(compiler.current)))
      ensures forall id :: id in heap ==> heap[id] == old(heap)[id]
      ensures heapSize == LiveBytes(heap, objects)
    {
      MarkAndSweep(compiler);
      shouldCollect := false;
    }

    /** Collection with the limit doubled whenever the survivors still exceed it. */
    method CollectAdaptive(compiler: Compiler)
      requires Valid() && ChainIn(compiler.current, heap)
      modifies this`heapSize, this`heapSizeLimit, this`shouldCollect, this`objects, this`markStack, this`heap, this`traceLog
      ensures Valid() && !shouldCollect
      ensures heapSizeLimit == if heapSize > old(heapSizeLimit) then 2 * old(heapSizeLimit) else old(heapSizeLimit)
      ensures objects == Retained(old(objects), ReachableSet(Edges(old(heap)), Elems(Chain(compiler.current))))
      ensures forall id :: id in heap <==> id in ReachableSet(Edges(old(heap)), Elems(Chain(compiler.current)))
      ensures forall id :: id in heap ==> heap[id] == old(heap)[id]
      ensures heapSize == LiveBytes(heap, objects)
    {
      MarkAndSweep(compiler);
      if heapSize > heapSizeLimit {
        heapSizeLimit := heapSizeLimit * 2;
      }
      shouldCollect := false;
    }

    /** Root marking for a collection run by the VM: it marks nothing. */
    method MarkRootsVM()
    {
    }

    /**
     * Collection at run time. With no roots marked, every object is
     * destroyed and the heap size drops to zero; the limit is left as it was.
     */
    method CollectVM()
      requires Valid()
      modifies this`heapSize, this`shouldCollect, this`objects, this`markStack, this`heap, this`traceLog
      ensures Valid() && !shouldCollect
      ensures heapSizeLimit == old(heapSizeLimit)
      ensures objects == [] && heap == map[] && heapSize == 0
    {
      MarkRootsVM();
      ghost var h1 := heap;
      Mark();
      forall id | id in heap
        ensures !heap[id].marked
      {
        if heap[id].marked {
          assert NewlyMarked(h1, heap, id);
          NothingReachable(Edges(h1), id);
        }
      }
      ghost var h2 := heap;
      Sweep();
      NothingRetained(old(objects), h2);
      assert heap.Keys == {};
      shouldCollect := false;
    }

    /**
     * Drains the mark stack: an object popped while unmarked gets marked and
     * traced, one popped while already marked is skipped.
     */
    method Mark()
      requires Wf()
      requires forall v :: v in markStack ==> v in heap
      modifies this`markStack, this`heap, this`traceLog
      ensures Wf()
      ensures markStack == []
      ensures SameShape(old(heap), heap) && MarksGrow(old(heap), heap)
      // every object that was queued is marked
      ensures StartCovered(old(markStack), heap, [])
      // the children of every object marked here are marked
      ensures ChildrenPending(old(heap), heap, [])
      // only objects reachable from the queued ones were marked
      ensures NewlyMarkedReachable(old(heap), old(markStack), heap)
      // the objects traced are exactly those marked here, each once
      ensures TracedOnce(old(heap), old(traceLog), heap, traceLog)
    {
      ghost var h0, s0, log0 := heap, markStack, traceLog;
      MarkInvInit(h0, s0, log0);
      while markStack != []
        invariant MarkInv(h0, s0, log0, heap, markStack, traceLog)
        decreases |UnmarkedIds(heap)|, |markStack|
      {
        MarkTop(h0, s0, log0);
      }
      RegistrySameShape(objects, h0, heap);
    }

    /** One turn of mark's loop: pop the top entry, and mark and trace it unless it is marked. */
    method MarkTop(ghost h0: Heap, ghost s0: seq<ObjId>, ghost log0: seq<ObjId>)
      requires MarkInv(h0, s0, log0, heap, markStack, traceLog) && markStack != []
      modifies this`markStack, this`heap, this`traceLog
      ensures MarkInv(h0, s0, log0, heap, markStack, traceLog)
      ensures |UnmarkedIds(heap)| < |UnmarkedIds(old(heap))| ||
              (UnmarkedIds(heap) == UnmarkedIds(old(heap)) && |markStack| < |old(markStack)|)
    {
      var ptr := markStack[|markStack| - 1];
      assert ptr in markStack;
      if heap[ptr].marked {
        MarkInvSkip(h0, s0, log0, heap, markStack, traceLog);
        markStack := markStack[..|markStack| - 1];
      } else {
        ghost var h, stack, log := heap, markStack, traceLog;
        markStack := markStack[..|markStack| - 1];
        heap := heap[ptr := heap[ptr].(marked := true)];
        Trace(ptr);
        MarkInvVisit(h0, s0, log0, h, stack, log, heap, markStack, traceLog);
      }
    }

    /**
     * Root marking for a collection run during compilation: every function
     * on the chain from the compiler's current entry out to the outermost
     * one is marked and traced.
     */
    method MarkRoots(compiler: Compiler)
      requires Wf()
      requires ChainIn(compiler.current, heap)
      modifies this`markStack, this`heap, this`traceLog
      ensures Wf()
      ensures heap == MarkChain(old(heap), compiler.current)
      ensures markStack == old(markStack) + ChainChildren(old(heap), compiler.current)
      ensures traceLog == old(traceLog) + Chain(compiler.current)
    {
      ghost var h0, s0, log0 := heap, markStack, traceLog;
      RootsInvInit(h0, s0, log0, compiler.current);
      var c := compiler.current;
      while c.enclosing.Some?
        invariant RootsInv(h0, s0, log0, compiler.current, c, heap, markStack, traceLog)
        decreases c
      {
        ghost var h, stack, log := heap, markStack, traceLog;
        RootsInvStep(h0, s0, log0, compiler.current, c, h, stack, log);
        MarkRoot(c.func);
        c := c.enclosing.value;
      }
      ghost var h, stack, log := heap, markStack, traceLog;
      RootsInvLast(h0, s0, log0, compiler.current, c, h, stack, log);
      MarkRoot(c.func);
      RegistrySameShape(objects, h0, heap);
    }

    /** Sets one function's mark and traces it, whether or not it was marked. */
    method MarkRoot(f: ObjId)
      requires f in heap
      modifies this`markStack, this`heap, this`traceLog
      ensures heap == old(heap)[f := old(heap)[f].(marked := true)]
      ensures markStack == old(markStack) + old(heap)[f].children
      ensures traceLog == old(traceLog) + [f]
    {
      heap := heap[f := heap[f].(marked := true)];
      Trace(f);
    }

    /**
     * Walks the registry from the last entry to the first, destroying each
     * unmarked object and clearing the mark of each survivor, and sets
     * heapSize to the survivors' total size.
     */
    method Sweep()
      requires Wf()
      modifies this`heapSize, this`objects, this`heap
      ensures objects == Retained(old(objects), MarkedIds(old(heap)))
      ensures Distinct(objects)
      ensures forall id :: id in heap <==> id in objects
      ensures forall id :: id in heap <==> id in old(heap) && old(heap)[id].marked
      ensures forall id :: id in heap ==> heap[id] == old(heap)[id].(marked := false)
      ensures heapSize == LiveBytes(heap, objects)
    {
      ghost var h0, objs0 := heap, objects;
      SweepInvInit(h0, objs0);
      heapSize := 0;
      var i := |objects| - 1;
      while i >= 0
        invariant SweepInv(h0, objs0, i, heap, objects, heapSize)
        decreases i
      {
        SweepAt(h0, objs0, i);
        i := i - 1;
      }
      SweepInvDone(h0, objs0, i, heap, objects, heapSize);
    }

    /**
     * One turn of sweep's loop at registry index i: destroy and unregister
     * the object there if it is unmarked, otherwise count it and clear its mark.
     */
    method SweepAt(ghost h0: Heap, ghost objs0: seq<ObjId>, i: int)
      requires i >= 0 && SweepInv(h0, objs0, i, heap, objects, heapSize)
      modifies this`heapSize, this`objects, this`heap
      ensures SweepInv(h0, objs0, i - 1, heap, objects, heapSize)
    {
      SweepEntry(h0, objs0, i, heap, objects, heapSize);
      var obj := objects[i];
      if !heap[obj].marked {
        SweepInvDrop(h0, objs0, i, heap, objects, heapSize);
        // obj->~Obj(), then erase it from the registry
        heap := heap - {obj};
        objects := objects[..i] + objects[i + 1..];
      } else {
        SweepInvKeep(h0, objs0, i, heap, objects, heapSize);
        heapSize := heapSize + heap[obj].size;
        heap := heap[obj := heap[obj].(marked := false)];
      }
    }
  }

  /**
   * A compilation whose only function object takes 1.5 MiB: it survives the
   * collection, so the heap stays over the limit, and the next allocation of
   * 16 bytes asks for a collection again. With the limit kept as written this
   * happens on every allocation from here on.
   */
  method StuckLimitScenario() returns (survivors: nat, limit: nat, collectAgain: bool)
    ensures survivors == 3 * 512 * 1024 && limit == HEAP_START_SIZE * 1024
    ensures survivors > limit && collectAgain
  {
    var gc := new GarbageCollector();
    var compiler := OneFunction(gc, 3 * 512 * 1024);
    OneRootSurvives(compiler.current.func, 3 * 512 * 1024);
    gc.Collect(compiler);
    assert gc.objects == [compiler.current.func];
    assert gc.heapSize == LiveBytes(gc.heap, [compiler.current.func]);
    survivors, limit := gc.heapSize, gc.heapSizeLimit;
    var _ := gc.Alloc(16, [], true);
    collectAgain := gc.shouldCollect;
  }

  /** The same compilation with the limit doubled: the next allocation fits. */
  method DoubledLimitScenario() returns (survivors: nat, limit: nat, collectAgain: bool)
    ensures survivors == 3 * 512 * 1024 && limit == 2 * HEAP_START_SIZE * 1024
    ensures survivors <= limit && !collectAgain
  {
    var gc := new GarbageCollector();
    var compiler := OneFunction(gc, 3 * 512 * 1024);
    OneRootSurvives(compiler.current.func, 3 * 512 * 1024);
    gc.CollectAdaptive(compiler);
    assert gc.objects == [compiler.current.func];
    assert gc.heapSize == LiveBytes(gc.heap, [compiler.current.func]);
    survivors, limit := gc.heapSize, gc.heapSizeLimit;
    var _ := gc.Alloc(16, [], true);
    collectAgain := gc.shouldCollect;
  }

  /** Allocates one function object of the given size in a fresh collector and compiles it. */
  method OneFunction(gc: GarbageCollector, size: nat) returns (compiler: Compiler)
    requires gc.Valid() && gc.heap == map[] && gc.objects == []
    modifies gc`heapSize, gc`shouldCollect, gc`objects, gc`heap
    ensures gc.Valid() && ChainIn(compiler.current, gc.heap)
    ensures compiler.current.enclosing.None? && gc.objects == [compiler.current.func]
    ensures gc.heap == map[compiler.current.func := ObjRecord(false, size, [])]
  {
    var r := gc.Alloc(size, [], true);
    compiler := new Compiler(ChunkInfo(r.id, None));
  }

  /** A lone function object that is the compiler's only root survives a collection. */
  lemma OneRootSurvives(id: ObjId, size: nat)
    ensures Retained([id], ReachableSet(Edges(map[id := ObjRecord(false, size, [])]),
                                        Elems(Chain(ChunkInfo(id, None))))) == [id]
  {
    var h := map[id := ObjRecord(false, size, [])];
    assert Chain(ChunkInfo(id, None)) == [id];
    assert id in Elems([id]);
    RootReachable(Edges(h), Elems([id]), id);
  }

  /**
   * A fresh collector whose host cannot supply 16 bytes: the allocation fails
   * and registers nothing, yet the heap size already counts the 16 bytes.
   */
  method FailedAllocScenario() returns (heapSize: nat, registered: nat)
    ensures heapSize == 16 && registered == 0
  {
    var gc := new GarbageCollector();
    var r := gc.Alloc(16, [], false);
    heapSize, registered := gc.heapSize, |gc.objects|;
  }

  /** The same failure with the corrected allocation leaves the heap size at zero. */
  method FailedAllocAtomicScenario() returns (heapSize: nat, registered: nat)
    ensures heapSize == 0 && registered == 0
  {
    var gc := new GarbageCollector();
    var r := gc.AllocAtomic(16, [], false);
    heapSize, registered := gc.heapSize, |gc.objects|;
  }
}
