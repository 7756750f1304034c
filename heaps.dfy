/**
 * The heap objects as the collector sees them, and the facts about heaps
 * that the collector's mark and sweep loops rely on.
 *
 * An object is an id; what the collector sees of it is an `ObjRecord`
 * holding its mark bit, the value its `getSize()` reports and the objects
 * its `trace()` hands to `markObj`, in order.
 */
module Heaps {
  import opened Util
  import opened Reach

  type ObjId = Reach.Id

  datatype ObjRecord = ObjRecord(marked: bool, size: nat, children: seq<ObjId>)

  type Heap = map<ObjId, ObjRecord>

  /** The object graph of a heap: each object's traced children. */
  function Edges(h: Heap): (g: Graph)
    ensures g.Keys == h.Keys
    ensures forall id :: id in g ==> g[id] == h[id].children
  {
    map id | id in h :: h[id].children
  }

  ghost function MarkedIds(h: Heap): set<ObjId>
  {
    set id | id in h && h[id].marked
  }

  ghost function UnmarkedIds(h: Heap): set<ObjId>
  {
    set id | id in h && !h[id].marked
  }

  /** Every child of a registered object is registered: no dangling pointer. */
  ghost predicate ChildrenRegistered(h: Heap)
  {
    forall id, c :: id in h && c in h[id].children ==> c in h
  }

  /** h and h' differ at most in mark bits. */
  ghost predicate SameShape(h: Heap, h': Heap)
  {
    h.Keys == h'.Keys &&
    forall id :: id in h ==> h'[id].size == h[id].size && h'[id].children == h[id].children
  }

  /** No mark bit is cleared going from h to h'. */
  ghost predicate MarksGrow(h: Heap, h': Heap)
  {
    forall id :: id in h && h[id].marked ==> id in h' && h'[id].marked
  }

  /** id was unmarked in h and is marked in h'. */
  ghost predicate NewlyMarked(h: Heap, h': Heap, id: ObjId)
  {
    id in h && id in h' && !h[id].marked && h'[id].marked
  }

  lemma SameShapeEdges(h: Heap, h': Heap)
    requires SameShape(h, h')
    ensures Edges(h) == Edges(h')
  {
  }

  /** Changing only mark bits keeps the heap free of dangling children. */
  lemma SameShapeRegistered(h: Heap, h': Heap)
    requires ChildrenRegistered(h) && SameShape(h, h')
    ensures ChildrenRegistered(h') && forall id :: id in h' <==> id in h
  {
  }

  /** objs lists each recorded object once and nothing else, and no record points outside it. */
  ghost predicate Registry(objs: seq<ObjId>, h: Heap)
  {
    Distinct(objs) && (forall id :: id in h <==> id in objs) && ChildrenRegistered(h)
  }

  /** Changing mark bits keeps a registry consistent. */
  lemma RegistrySameShape(objs: seq<ObjId>, h: Heap, h': Heap)
    requires Registry(objs, h) && SameShape(h, h')
    ensures Registry(objs, h')
  {
    SameShapeRegistered(h, h');
  }

  /** The registered ids in live, in registry order. */
  function Retained(objs: seq<ObjId>, live: set<ObjId>): (r: seq<ObjId>)
    ensures forall x :: x in r <==> x in objs && x in live
    ensures |r| <= |objs|
    decreases |objs|
  {
    if objs == [] then []
    else
      assert objs == [objs[0]] + objs[1..];
      (if objs[0] in live then [objs[0]] else []) + Retained(objs[1..], live)
  }

  /** Filtering distributes over concatenation, so relative order is kept. */
  lemma {:induction false} RetainedAppend(a: seq<ObjId>, b: seq<ObjId>, live: set<ObjId>)
    ensures Retained(a + b, live) == Retained(a, live) + Retained(b, live)
    decreases |a|
  {
    if a == [] {
      assert a + b == b;
    } else {
      assert (a + b)[0] == a[0];
      assert (a + b)[1..] == a[1..] + b;
      RetainedAppend(a[1..], b, live);
      var head := if a[0] in live then [a[0]] else [];
      calc {
        Retained(a + b, live);
        head + Retained(a[1..] + b, live);
        head + (Retained(a[1..], live) + Retained(b, live));
        (head + Retained(a[1..], live)) + Retained(b, live);
        Retained(a, live) + Retained(b, live);
      }
    }
  }

  /** Nothing is filtered out when everything is live. */
  lemma {:induction false} RetainedAllLive(objs: seq<ObjId>, live: set<ObjId>)
    requires forall x :: x in objs ==> x in live
    ensures Retained(objs, live) == objs
    decreases |objs|
  {
    if objs != [] {
      RetainedAllLive(objs[1..], live);
    }
  }

  lemma {:induction false} RetainedDistinct(objs: seq<ObjId>, live: set<ObjId>)
    requires Distinct(objs)
    ensures Distinct(Retained(objs, live))
    decreases |objs|
  {
    if objs != [] {
      RetainedDistinct(objs[1..], live);
      assert objs[0] !in objs[1..] by {
        forall k | 0 <= k < |objs[1..]| ensures objs[1..][k] != objs[0] {
          assert objs[1..][k] == objs[k + 1];
        }
      }
    }
  }

  /** Sum of the getSize() values of the listed objects. */
  function LiveBytes(h: Heap, objs: seq<ObjId>): nat
    requires forall x :: x in objs ==> x in h
    decreases |objs|
  {
    if objs == [] then 0 else h[objs[0]].size + LiveBytes(h, objs[1..])
  }

  lemma {:induction false} LiveBytesSameSizes(h: Heap, h': Heap, objs: seq<ObjId>)
    requires forall x :: x in objs ==> x in h && x in h' && h[x].size == h'[x].size
    ensures LiveBytes(h, objs) == LiveBytes(h', objs)
    decreases |objs|
  {
    if objs != [] {
      LiveBytesSameSizes(h, h', objs[1..]);
    }
  }

  /** An id above every registered one: the fresh block the host hands out. */
  function FreshId(objs: seq<ObjId>): (r: ObjId)
    ensures forall x :: x in objs ==> x < r
    decreases |objs|
  {
    if objs == [] then 0
    else
      assert objs == [objs[0]] + objs[1..];
      var m := FreshId(objs[1..]);
      if objs[0] < m then m else objs[0] + 1
  }

  // ----- The mark loop -----
  // A run of the mark loop that started from heap h0 with stack s0 and
  // trace log log0 and has reached heap h, stack and log.

  /** Everything still queued is registered and reachable from the start stack. */
  ghost predicate QueuedReachable(h0: Heap, s0: seq<ObjId>, h: Heap, stack: seq<ObjId>)
  {
    forall v :: v in stack ==> v in h && Reachable(Edges(h0), Elems(s0), v)
  }

  /** A start entry is marked or still queued. */
  ghost predicate StartCovered(s0: seq<ObjId>, h: Heap, stack: seq<ObjId>)
  {
    forall v :: v in s0 ==> (v in h && h[v].marked) || v in stack
  }

  /** A child of a newly marked object is marked or queued. */
  ghost predicate ChildrenPending(h0: Heap, h: Heap, stack: seq<ObjId>)
  {
    forall id, c :: NewlyMarked(h0, h, id) && c in h[id].children ==>
                    (c in h && h[c].marked) || c in stack
  }

  /** Only objects reachable from the start stack get marked. */
  ghost predicate NewlyMarkedReachable(h0: Heap, s0: seq<ObjId>, h: Heap)
  {
    forall id :: NewlyMarked(h0, h, id) ==> Reachable(Edges(h0), Elems(s0), id)
  }

  /** The objects traced in this run are exactly the newly marked ones, each once. */
  ghost predicate TracedOnce(h0: Heap, log0: seq<ObjId>, h: Heap, log: seq<ObjId>)
  {
    |log| >= |log0| && log[..|log0|] == log0 &&
    Distinct(log[|log0|..]) &&
    (forall id :: id in log[|log0|..] <==> NewlyMarked(h0, h, id))
  }

  /** The mark loop's invariant. */
  ghost predicate MarkInv(h0: Heap, s0: seq<ObjId>, log0: seq<ObjId>,
                          h: Heap, stack: seq<ObjId>, log: seq<ObjId>)
  {
    ChildrenRegistered(h0) &&
    (forall v :: v in s0 ==> v in h0) &&
    SameShape(h0, h) && MarksGrow(h0, h) &&
    QueuedReachable(h0, s0, h, stack) &&
    StartCovered(s0, h, stack) &&
    ChildrenPending(h0, h, stack) &&
    NewlyMarkedReachable(h0, s0, h) &&
    TracedOnce(h0, log0, h, log)
  }

  lemma MarkInvInit(h0: Heap, s0: seq<ObjId>, log0: seq<ObjId>)
    requires ChildrenRegistered(h0)
    requires forall v :: v in s0 ==> v in h0
    ensures MarkInv(h0, s0, log0, h0, s0, log0)
  {
    forall v | v in s0
      ensures Reachable(Edges(h0), Elems(s0), v)
    {
      RootReachable(Edges(h0), Elems(s0), v);
    }
    assert log0[|log0|..] == [];
  }

  /** Popping an object that is already marked keeps the invariant. */
  lemma MarkInvSkip(h0: Heap, s0: seq<ObjId>, log0: seq<ObjId>,
                    h: Heap, stack: seq<ObjId>, log: seq<ObjId>)
    requires MarkInv(h0, s0, log0, h, stack, log)
    requires stack != [] && stack[|stack| - 1] in h && h[stack[|stack| - 1]].marked
    ensures MarkInv(h0, s0, log0, h, stack[..|stack| - 1], log)
  {
    var ptr, rest := stack[|stack| - 1], stack[..|stack| - 1];
    assert stack == rest + [ptr];
  }

  /** Marking one more object: shape kept, marks grow, one fewer unmarked. */
  lemma VisitShape(h0: Heap, h: Heap, ptr: ObjId)
    requires SameShape(h0, h) && MarksGrow(h0, h)
    requires ptr in h && !h[ptr].marked
    ensures var h' := h[ptr := h[ptr].(marked := true)];
            SameShape(h0, h') && MarksGrow(h0, h') &&
            ptr in UnmarkedIds(h) && UnmarkedIds(h') == UnmarkedIds(h) - {ptr} &&
            NewlyMarked(h0, h', ptr) && !NewlyMarked(h0, h, ptr) &&
            forall id :: NewlyMarked(h0, h', id) <==> NewlyMarked(h0, h, id) || id == ptr
  {
    var h' := h[ptr := h[ptr].(marked := true)];
    assert UnmarkedIds(h') == UnmarkedIds(h) - {ptr};
  }

  lemma VisitQueued(h0: Heap, s0: seq<ObjId>, h: Heap, stack: seq<ObjId>)
    requires ChildrenRegistered(h0) && SameShape(h0, h)
    requires QueuedReachable(h0, s0, h, stack)
    requires stack != []
    ensures var ptr := stack[|stack| - 1];
            QueuedReachable(h0, s0, h[ptr := h[ptr].(marked := true)],
                            stack[..|stack| - 1] + h[ptr].children)
  {
    var ptr, rest := stack[|stack| - 1], stack[..|stack| - 1];
    var g0, roots := Edges(h0), Elems(s0);
    assert stack == rest + [ptr];
    assert ptr in stack;
    forall c | c in h[ptr].children
      ensures c in h && Reachable(g0, roots, c)
    {
      assert c in h0[ptr].children;
      StepReachable(g0, roots, ptr, c);
    }
  }

  lemma VisitPending(h0: Heap, s0: seq<ObjId>, h: Heap, stack: seq<ObjId>)
    requires SameShape(h0, h) && MarksGrow(h0, h)
    requires StartCovered(s0, h, stack) && ChildrenPending(h0, h, stack)
    requires stack != [] && stack[|stack| - 1] in h && !h[stack[|stack| - 1]].marked
    ensures var ptr := stack[|stack| - 1];
            var h' := h[ptr := h[ptr].(marked := true)];
            var stack' := stack[..|stack| - 1] + h[ptr].children;
            StartCovered(s0, h', stack') && ChildrenPending(h0, h', stack')
  {
    var ptr, rest := stack[|stack| - 1], stack[..|stack| - 1];
    var h' := h[ptr := h[ptr].(marked := true)];
    assert stack == rest + [ptr];
    VisitShape(h0, h, ptr);
  }

  lemma VisitTraced(h0: Heap, s0: seq<ObjId>, log0: seq<ObjId>, h: Heap, log: seq<ObjId>, ptr: ObjId)
    requires SameShape(h0, h) && MarksGrow(h0, h)
    requires ptr in h && !h[ptr].marked && Reachable(Edges(h0), Elems(s0), ptr)
    requires NewlyMarkedReachable(h0, s0, h) && TracedOnce(h0, log0, h, log)
    ensures var h' := h[ptr := h[ptr].(marked := true)];
            NewlyMarkedReachable(h0, s0, h') && TracedOnce(h0, log0, h', log + [ptr])
  {
    VisitShape(h0, h, ptr);
    var log' := log + [ptr];
    assert log'[..|log0|] == log0;
    assert log'[|log0|..] == log[|log0|..] + [ptr];
  }

  /**
   * Popping an unmarked object ptr, marking it and tracing it (the stack
   * and log reached are stack' and log') keeps the invariant and leaves one
   * fewer unmarked object.
   */
  lemma MarkInvVisit(h0: Heap, s0: seq<ObjId>, log0: seq<ObjId>,
                     h: Heap, stack: seq<ObjId>, log: seq<ObjId>,
                     h': Heap, stack': seq<ObjId>, log': seq<ObjId>)
    requires MarkInv(h0, s0, log0, h, stack, log)
    requires stack != [] && stack[|stack| - 1] in h && !h[stack[|stack| - 1]].marked
    requires h' == h[stack[|stack| - 1] := h[stack[|stack| - 1]].(marked := true)]
    requires stack' == stack[..|stack| - 1] + h[stack[|stack| - 1]].children
    requires log' == log + [stack[|stack| - 1]]
    ensures MarkInv(h0, s0, log0, h', stack', log')
    ensures |UnmarkedIds(h')| < |UnmarkedIds(h)|
  {
    var ptr := stack[|stack| - 1];
    assert ptr in stack;
    VisitShape(h0, h, ptr);
    VisitQueued(h0, s0, h, stack);
    VisitPending(h0, s0, h, stack);
    VisitTraced(h0, s0, log0, h, log, ptr);
  }

  // ----- The sweep loop -----
  // A run of the sweep loop over the registry objs0 and heap h0 it started
  // from, after the entries above index i have been processed.

  /** The unprocessed prefix is untouched; of the rest, the marked entries remain. */
  ghost predicate SweptRegistry(h0: Heap, objs0: seq<ObjId>, i: int, objs: seq<ObjId>)
    requires -1 <= i < |objs0|
  {
    objs == objs0[..i + 1] + Retained(objs0[i + 1..], MarkedIds(h0))
  }

  /** Unprocessed objects keep their records; processed marked ones lost their mark; the rest are gone. */
  ghost predicate SweptHeap(h0: Heap, objs0: seq<ObjId>, i: int, h: Heap)
    requires -1 <= i < |objs0|
  {
    (forall id :: id in h <==> id in h0 && (id in MarkedIds(h0) || id in objs0[..i + 1])) &&
    (forall id :: id in h ==>
       h[id] == if id in objs0[..i + 1] then h0[id] else h0[id].(marked := false))
  }

  /** The bytes counted so far are those of the processed survivors. */
  ghost predicate SweptSize(h0: Heap, objs0: seq<ObjId>, i: int, size: nat)
    requires -1 <= i < |objs0|
    requires forall id :: id in objs0 ==> id in h0
  {
    size == LiveBytes(h0, Retained(objs0[i + 1..], MarkedIds(h0)))
  }

  /** The sweep loop's invariant. */
  ghost predicate SweepInv(h0: Heap, objs0: seq<ObjId>, i: int,
                           h: Heap, objs: seq<ObjId>, size: nat)
  {
    -1 <= i < |objs0| &&
    Distinct(objs0) && (forall id :: id in h0 <==> id in objs0) &&
    SweptRegistry(h0, objs0, i, objs) &&
    SweptHeap(h0, objs0, i, h) &&
    SweptSize(h0, objs0, i, size)
  }

  lemma SweepInvInit(h0: Heap, objs0: seq<ObjId>)
    requires Distinct(objs0) && forall id :: id in h0 <==> id in objs0
    ensures SweepInv(h0, objs0, |objs0| - 1, h0, objs0, 0)
  {
    assert objs0[..|objs0|] == objs0;
    assert objs0[|objs0|..] == [];
  }

  /** Facts about entry i that both sweep steps use. */
  lemma SweepEntry(h0: Heap, objs0: seq<ObjId>, i: int, h: Heap, objs: seq<ObjId>, size: nat)
    requires SweepInv(h0, objs0, i, h, objs, size) && i >= 0
    ensures objs[i] == objs0[i] && objs0[i] in h && h[objs0[i]] == h0[objs0[i]]
    ensures objs0[..i + 1] == objs0[..i] + [objs0[i]]
    ensures objs0[i..] == [objs0[i]] + objs0[i + 1..]
    ensures objs0[i] !in objs0[..i]
  {
    assert objs0[..i + 1] == objs0[..i] + [objs0[i]];
    assert objs0[i..] == [objs0[i]] + objs0[i + 1..];
    forall k | 0 <= k < i
      ensures objs0[..i][k] != objs0[i]
    {
      assert objs0[..i][k] == objs0[k];
    }
  }

  /** Destroying an unmarked entry i and erasing it keeps the invariant. */
  lemma SweepInvDrop(h0: Heap, objs0: seq<ObjId>, i: int, h: Heap, objs: seq<ObjId>, size: nat)
    requires SweepInv(h0, objs0, i, h, objs, size) && i >= 0
    requires objs[i] in h && !h[objs[i]].marked
    ensures SweepInv(h0, objs0, i - 1, h - {objs[i]}, objs[..i] + objs[i + 1..], size)
  {
    SweepEntry(h0, objs0, i, h, objs, size);
    var obj, live := objs0[i], MarkedIds(h0);
    assert obj !in live;
    assert Retained(objs0[i..], live) == Retained(objs0[i + 1..], live);
    assert objs[..i] == objs0[..i];
    assert objs[i + 1..] == Retained(objs0[i + 1..], live);
  }

  /** Keeping a marked entry i, counting its size and clearing its mark keeps the invariant. */
  lemma SweepInvKeep(h0: Heap, objs0: seq<ObjId>, i: int, h: Heap, objs: seq<ObjId>, size: nat)
    requires SweepInv(h0, objs0, i, h, objs, size) && i >= 0
    requires objs[i] in h && h[objs[i]].marked
    ensures SweepInv(h0, objs0, i - 1, h[objs[i] := h[objs[i]].(marked := false)], objs,
                     size + h[objs[i]].size)
  {
    SweepEntry(h0, objs0, i, h, objs, size);
    var obj, live := objs0[i], MarkedIds(h0);
    assert obj in live;
    var rest := Retained(objs0[i + 1..], live);
    assert Retained(objs0[i..], live) == [obj] + rest;
    KeepRegistry(objs0, i, objs, live, rest);
    KeepSize(h0, objs0, i, size, live, rest);
    KeepHeap(h0, objs0, i, h);
  }

  lemma KeepHeap(h0: Heap, objs0: seq<ObjId>, i: int, h: Heap)
    requires 0 <= i < |objs0| && SweptHeap(h0, objs0, i, h)
    requires objs0[i] in MarkedIds(h0) && objs0[i] in h && h[objs0[i]] == h0[objs0[i]]
    requires objs0[..i + 1] == objs0[..i] + [objs0[i]] && objs0[i] !in objs0[..i]
    ensures SweptHeap(h0, objs0, i - 1, h[objs0[i] := h[objs0[i]].(marked := false)])
  {
  }

  lemma KeepRegistry(objs0: seq<ObjId>, i: int, objs: seq<ObjId>, live: set<ObjId>, rest: seq<ObjId>)
    requires 0 <= i < |objs0|
    requires objs == objs0[..i + 1] + rest
    requires objs0[..i + 1] == objs0[..i] + [objs0[i]]
    requires Retained(objs0[i..], live) == [objs0[i]] + rest
    ensures objs == objs0[..i] + Retained(objs0[i..], live)
  {
  }

  lemma KeepSize(h0: Heap, objs0: seq<ObjId>, i: int, size: nat, live: set<ObjId>, rest: seq<ObjId>)
    requires 0 <= i < |objs0| && forall id :: id in objs0 ==> id in h0
    requires rest == Retained(objs0[i + 1..], live)
    requires Retained(objs0[i..], live) == [objs0[i]] + rest
    requires size == LiveBytes(h0, rest)
    ensures size + h0[objs0[i]].size == LiveBytes(h0, Retained(objs0[i..], live))
  {
    assert ([objs0[i]] + rest)[1..] == rest;
  }

  lemma SweepInvDone(h0: Heap, objs0: seq<ObjId>, i: int, h: Heap, objs: seq<ObjId>, size: nat)
    requires SweepInv(h0, objs0, i, h, objs, size) && i < 0
    ensures objs == Retained(objs0, MarkedIds(h0))
    ensures Distinct(objs) && forall id :: id in h <==> id in objs
    ensures forall id :: id in h <==> id in h0 && h0[id].marked
    ensures forall id :: id in h ==> h[id] == h0[id].(marked := false)
    ensures size == LiveBytes(h, objs)
  {
    assert i == -1 && objs0[0..] == objs0;
    RetainedDistinct(objs0, MarkedIds(h0));
    LiveBytesSameSizes(h0, h, objs);
  }

  // ----- What a collection leaves behind -----

  /** Every child of a marked object is marked. */
  ghost predicate MarksClosed(h: Heap)
  {
    forall id, c :: id in h && h[id].marked && c in h[id].children ==> c in h && h[c].marked
  }

  /**
   * What the mark phase of a collection guarantees. h0 is the unmarked heap
   * before root marking, roots the functions root marking marks, h1 and s1
   * the heap and stack it leaves, and h2 the heap the mark loop leaves.
   */
  ghost predicate MarkPhase(h0: Heap, roots: set<ObjId>, h1: Heap, s1: seq<ObjId>, h2: Heap)
  {
    RootsPhase(h0, roots, h1, s1) && LoopPhase(h1, s1, h2)
  }

  /** Root marking took the unmarked heap h0 to h1, marking roots and queuing their children as s1. */
  ghost predicate RootsPhase(h0: Heap, roots: set<ObjId>, h1: Heap, s1: seq<ObjId>)
  {
    ChildrenRegistered(h0) && (forall id :: id in h0 ==> !h0[id].marked) &&
    (forall r :: r in roots ==> r in h0) &&
    SameShape(h0, h1) && (forall id :: id in h1 ==> h1[id].marked == (id in roots)) &&
    (forall x :: x in s1 <==> exists r :: r in roots && x in h0[r].children)
  }

  /** The mark loop took heap h1 with stack s1 to h2 and an empty stack. */
  ghost predicate LoopPhase(h1: Heap, s1: seq<ObjId>, h2: Heap)
  {
    SameShape(h1, h2) && MarksGrow(h1, h2) &&
    StartCovered(s1, h2, []) && ChildrenPending(h1, h2, []) && NewlyMarkedReachable(h1, s1, h2)
  }

  /** After the mark phase the marked objects are closed under children. */
  lemma MarkPhaseClosed(h0: Heap, roots: set<ObjId>, h1: Heap, s1: seq<ObjId>, h2: Heap)
    requires MarkPhase(h0, roots, h1, s1, h2)
    ensures MarksClosed(h2)
  {
    forall x, c | x in h2 && h2[x].marked && c in h2[x].children
      ensures c in h2 && h2[c].marked
    {
      if !h1[x].marked {
        assert NewlyMarked(h1, h2, x);
      } else {
        assert x in roots && c in h0[x].children;
        assert c in s1;
      }
    }
  }

  /** The mark phase marks only objects reachable from the roots. */
  lemma MarkPhaseOnlyReachable(h0: Heap, roots: set<ObjId>, h1: Heap, s1: seq<ObjId>, h2: Heap)
    requires MarkPhase(h0, roots, h1, s1, h2)
    ensures MarkedIds(h2) <= ReachableSet(Edges(h0), roots)
  {
    var g := Edges(h0);
    SameShapeEdges(h0, h1);
    forall v | v in Elems(s1)
      ensures exists r :: r in roots && r in g && v in g[r]
    {
      assert v in s1;
    }
    forall x | x in MarkedIds(h2)
      ensures x in ReachableSet(g, roots)
    {
      if h1[x].marked {
        RootReachable(g, roots, x);
      } else {
        assert NewlyMarked(h1, h2, x);
        ReachableThroughParents(g, roots, Elems(s1), x);
      }
    }
  }

  /** Root marking followed by the mark loop marks exactly the objects reachable from the roots. */
  lemma MarkPhaseMarksReachable(h0: Heap, roots: set<ObjId>, h1: Heap, s1: seq<ObjId>, h2: Heap)
    requires MarkPhase(h0, roots, h1, s1, h2)
    ensures MarkedIds(h2) == ReachableSet(Edges(h0), roots)
    ensures MarksClosed(h2)
  {
    MarkPhaseClosed(h0, roots, h1, s1, h2);
    MarkPhaseOnlyReachable(h0, roots, h1, s1, h2);
    SameShapeEdges(h0, h1);
    SameShapeEdges(h1, h2);
    ReachableInClosed(Edges(h0), roots, MarkedIds(h2));
  }

  /** Sweeping a heap whose marks are closed under children leaves no dangling child. */
  lemma SweptRegistered(h2: Heap, h3: Heap)
    requires MarksClosed(h2)
    requires forall id :: id in h3 <==> id in h2 && h2[id].marked
    requires forall id :: id in h3 ==> h3[id] == h2[id].(marked := false)
    ensures ChildrenRegistered(h3)
  {
  }

  /** A record whose mark is cleared again equals the unmarked record it started as. */
  lemma UnmarkedAgain(h0: Heap, h2: Heap, h3: Heap)
    requires forall id :: id in h0 ==> !h0[id].marked
    requires SameShape(h0, h2)
    requires forall id :: id in h3 ==> id in h2 && h3[id] == h2[id].(marked := false)
    ensures forall id :: id in h3 ==> id in h0 && h3[id] == h0[id]
  {
  }

  /** Nothing is reachable from no roots, so sweeping after marking nothing keeps nothing. */
  lemma NothingRetained(objs: seq<ObjId>, h: Heap)
    requires forall id :: id in h ==> !h[id].marked
    ensures Retained(objs, MarkedIds(h)) == []
  {
  }
}
