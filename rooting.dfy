/*
 * The root registry of components/script/dom/bindings/trace.rs and its two
 * guards, `RootedTraceableBox` and `RootedVec`.
 *
 * The thread-local `ROOTED_TRACEABLES` is one `RootedTraceableSet` object;
 * an erased `*const dyn JSTraceable` is an `Id`, and the memory those
 * pointers refer to is a `NativeHeap` mapping each live address to the
 * traceable value stored there.
 */
module Rooting {
  import opened Wrappers
  import opened Trace

  /** An erased pointer to a rooted value. */
  type Id = nat

  /*
   * Specification of the registry operations on the sequence of entries.
   */

  /** `set.iter().rposition(|x| x == p)`: the index of the last entry equal to `p`. */
  function LastIndexOf(s: seq<Id>, p: Id): (r: Option<nat>)
    ensures r.None? <==> p !in s
    ensures r.Some? ==> r.value < |s| && s[r.value] == p
    ensures r.Some? ==> forall j :: r.value < j < |s| ==> s[j] != p
    decreases |s|
  {
    if s == [] then None
    else if s[|s| - 1] == p then Some(|s| - 1)
    else LastIndexOf(s[..|s| - 1], p)
  }

  /** `set.remove(idx)` at the last match; no match leaves the entries alone (the caller aborts). */
  function RemoveLast(s: seq<Id>, p: Id): (r: seq<Id>)
    ensures p in s ==> |r| == |s| - 1 && multiset(r) == multiset(s) - multiset{p}
    ensures p !in s ==> r == s
  {
    match LastIndexOf(s, p)
    case None => s
    case Some(i) =>
      assert s == s[..i] + [s[i]] + s[i + 1..];
      s[..i] + s[i + 1..]
  }

  /** Removing the last match deletes exactly that entry and keeps the order of all others. */
  lemma RemoveLastKeepsOrder(xs: seq<Id>, p: Id, ys: seq<Id>)
    requires p !in ys
    ensures RemoveLast(xs + [p] + ys, p) == xs + ys
  {
    var s := xs + [p] + ys;
    var i := LastIndexOf(s, p).value;
    assert s[|xs|] == p;
    assert s[..i] == xs;
    assert s[i + 1..] == ys;
  }

  predicate Distinct(s: seq<Id>)
  {
    forall i, j :: 0 <= i < j < |s| ==> s[i] != s[j]
  }

  /** Every entry of `s` except those equal to `p`, in order. */
  function Without(s: seq<Id>, p: Id): (r: seq<Id>)
    ensures p !in r
  {
    if s == [] then []
    else if s[0] == p then Without(s[1..], p)
    else [s[0]] + Without(s[1..], p)
  }

  lemma {:induction false} WithoutAbsent(s: seq<Id>, p: Id)
    requires p !in s
    ensures Without(s, p) == s
    decreases |s|
  {
    if s != [] {
      WithoutAbsent(s[1..], p);
    }
  }

  lemma {:induction false} WithoutAppend(a: seq<Id>, b: seq<Id>, p: Id)
    ensures Without(a + b, p) == Without(a, p) + Without(b, p)
    decreases |a|
  {
    if a == [] {
      assert a + b == b;
    } else {
      assert (a + b)[0] == a[0];
      assert (a + b)[1..] == a[1..] + b;
      WithoutAppend(a[1..], b, p);
      if a[0] != p {
        assert Without(a + b, p) == [a[0]] + (Without(a[1..], p) + Without(b, p));
      }
    }
  }

  lemma WithoutSplit(xs: seq<Id>, p: Id, ys: seq<Id>)
    requires p !in xs && p !in ys
    ensures Without(xs + [p] + ys, p) == xs + ys
  {
    var a := xs + [p];
    WithoutAppend(a, ys, p);
    WithoutAppend(xs, [p], p);
    WithoutAbsent(xs, p);
    WithoutAbsent(ys, p);
    assert [p][1..] == [];
    assert Without([p], p) == Without([], p);
    assert Without(a, p) == xs;
  }

  /** Deleting one entry keeps the others pairwise distinct. */
  lemma DistinctRemoveAt(s: seq<Id>, i: nat)
    requires Distinct(s) && i < |s|
    ensures Distinct(s[..i] + s[i + 1..])
  {
    var r := s[..i] + s[i + 1..];
    forall a, b | 0 <= a < b < |r| ensures r[a] != r[b] {
      var a', b' := if a < i then a else a + 1, if b < i then b else b + 1;
      assert r[a] == s[a'] && r[b] == s[b'];
    }
  }

  /** On an entry list without duplicates, removing the last match is removing the entry. */
  lemma DistinctRemoveLast(s: seq<Id>, p: Id)
    requires Distinct(s) && p in s
    ensures RemoveLast(s, p) == Without(s, p)
    ensures Distinct(RemoveLast(s, p))
  {
    var i := LastIndexOf(s, p).value;
    var xs, ys := s[..i], s[i + 1..];
    assert s == xs + [p] + ys;
    assert p !in xs by {
      forall j | 0 <= j < i ensures xs[j] != p {
        assert xs[j] == s[j];
      }
    }
    assert p !in ys by {
      forall j | 0 <= j < |ys| ensures ys[j] != p {
        assert ys[j] == s[i + 1 + j];
      }
    }
    RemoveLastKeepsOrder(xs, p, ys);
    WithoutSplit(xs, p, ys);
    DistinctRemoveAt(s, i);
  }

  /** The edges of tracing every entry in order: `RootedTraceableSet::trace`. */
  function RegistryEdges(s: seq<Id>, cells: map<Id, Traceable>): seq<Edge>
    requires forall id :: id in s ==> id in cells
    decreases |s|
  {
    if s == [] then [] else RegistryEdges(s[..|s| - 1], cells) + Edges(cells[s[|s| - 1]])
  }

  /** What `RootedTraceableSet::remove` does when nothing matches. */
  datatype RemoveOutcome = Removed | Unreachable

  /** Native memory: each allocated address holds a traceable value. */
  class NativeHeap {
    var cells: map<Id, Traceable>
    var next: Id

    ghost predicate Valid()
      reads this
    {
      forall id :: id in cells ==> id < next
    }

    constructor ()
      ensures Valid() && cells == map[]
    {
      cells := map[];
      next := 0;
    }

    /** `Box::into_raw(Box::new(value))`, or a `RootableVec` placed on the stack. */
    method Alloc(value: Traceable) returns (id: Id)
      requires Valid()
      modifies this
      ensures Valid()
      ensures id !in old(cells) && cells == old(cells)[id := value]
    {
      id := next;
      cells := cells[id := value];
      next := next + 1;
    }

    /** Writing through `DerefMut`. */
    method Write(id: Id, value: Traceable)
      requires Valid() && id in cells
      modifies this
      ensures Valid() && cells == old(cells)[id := value]
    {
      cells := cells[id := value];
    }

    /** `let _ = Box::from_raw(ptr)`: the box is dropped and its memory released. */
    method Free(id: Id)
      requires Valid() && id in cells
      modifies this
      ensures Valid() && cells == old(cells) - {id}
    {
      cells := cells - {id};
    }
  }

  /** `RootedTraceableSet`: the registry of values that must be traced as roots. */
  class RootedTraceableSet {
    var entries: seq<Id>   // the `set` field

    /** `RootedTraceableSet::new`. */
    constructor ()
      ensures entries == []
    {
      entries := [];
    }

    /** `RootedTraceableSet::add`: push the pointer. */
    method Add(p: Id)
      modifies this
      ensures entries == old(entries) + [p]
    {
      entries := entries + [p];
    }

    /** `RootedTraceableSet::remove`: delete the last entry equal to `p`; `unreachable!()` when none is. */
    method Remove(p: Id) returns (outcome: RemoveOutcome)
      modifies this
      ensures outcome == (if p in old(entries) then Removed else Unreachable)
      ensures entries == RemoveLast(old(entries), p)
    {
      var i := |entries|;
      while i > 0 && entries[i - 1] != p
        invariant 0 <= i <= |entries|
        invariant forall j :: i <= j < |entries| ==> entries[j] != p
      {
        i := i - 1;
      }
      if i == 0 {
        assert p !in entries;
        outcome := Unreachable;
      } else {
        var idx := i - 1;
        assert LastIndexOf(entries, p) == Some(idx);
        entries := entries[..idx] + entries[idx + 1..];
        outcome := Removed;
      }
    }

    /** `RootedTraceableSet::trace`: trace every registered value, in registration order. */
    method Trace(heap: NativeHeap) returns (edges: seq<Edge>)
      requires forall id :: id in entries ==> id in heap.cells
      ensures edges == RegistryEdges(entries, heap.cells)
    {
      edges := [];
      var i := 0;
      while i < |entries|
        invariant 0 <= i <= |entries|
        invariant edges == RegistryEdges(entries[..i], heap.cells)
      {
        assert entries[..i + 1][..i] == entries[..i];
        edges := edges + Edges(heap.cells[entries[i]]);
        i := i + 1;
      }
      assert entries[..i] == entries;
    }
  }

  /**
   * The registry refers only to live memory.  A pointer may be registered
   * more than once: a `RootedVec` over the `RootableVec` inside a
   * `RootedTraceableBox` registers the box's own address a second time.
   */
  ghost predicate Rooted(registry: RootedTraceableSet, heap: NativeHeap)
    reads registry, heap
  {
    heap.Valid() && forall id :: id in registry.entries ==> id in heap.cells
  }

  /** `trace_traceables`: the collector's callback tracing the registry. */
  method TraceTraceables(registry: RootedTraceableSet, heap: NativeHeap) returns (edges: seq<Edge>)
    requires forall id :: id in registry.entries ==> id in heap.cells
    ensures edges == RegistryEdges(registry.entries, heap.cells)
  {
    edges := registry.Trace(heap);
  }

  /** `RootedTraceableBox<T>`: a boxed value rooted for the lifetime of the box. */
  class RootedTraceableBox {
    const ptr: Id
    const registry: RootedTraceableSet
    const heap: NativeHeap

    /** `new` / `from_box`: move the value into a fresh box, then register the box. */
    constructor New(value: Traceable, registry: RootedTraceableSet, heap: NativeHeap)
      requires Rooted(registry, heap)
      modifies registry, heap
      ensures this.registry == registry && this.heap == heap
      ensures ptr !in old(heap.cells) && heap.cells == old(heap.cells)[ptr := value]
      ensures registry.entries == old(registry.entries) + [ptr]
      ensures Rooted(registry, heap)
    {
      var id := heap.Alloc(value);
      registry.Add(id);
      ptr := id;
      this.registry := registry;
      this.heap := heap;
    }

    /** `Deref`: the boxed value. */
    function Value(): Traceable
      reads this, heap
      requires ptr in heap.cells
    {
      heap.cells[ptr]
    }

    /** `DerefMut`: replace the boxed value in place. */
    method SetValue(value: Traceable)
      requires Rooted(registry, heap) && ptr in heap.cells
      modifies heap
      ensures heap.cells == old(heap.cells)[ptr := value] && Value() == value
      ensures Rooted(registry, heap)
    {
      heap.Write(ptr, value);
    }

    /**
     * `Drop`: deregister first, then free the box; a missing entry aborts
     * before the free.  Any other guard at the same address borrows the
     * box's contents, so the borrow checker has dropped it already: the
     * box's own entry is the only one left.
     */
    method Drop() returns (outcome: RemoveOutcome)
      requires Rooted(registry, heap) && ptr in heap.cells
      requires multiset(registry.entries)[ptr] <= 1
      modifies registry, heap
      ensures registry.entries == RemoveLast(old(registry.entries), ptr)
      ensures outcome == Removed <==> ptr in old(registry.entries)
      ensures outcome == Removed ==> heap.cells == old(heap.cells) - {ptr} && ptr !in registry.entries
      ensures outcome == Unreachable ==> heap.cells == old(heap.cells)
      ensures Rooted(registry, heap)
    {
      outcome := registry.Remove(ptr);
      if outcome == Removed {
        assert multiset(registry.entries)[ptr] == 0;
        heap.Free(ptr);
      }
    }
  }

  /** `RootableVec<T>`: the storage a `RootedVec` roots; its derived trace traces its `Vec`. */
  class RootableVec {
    const id: Id
    const heap: NativeHeap

    /** `new_unrooted`: an empty vector. */
    constructor NewUnrooted(heap: NativeHeap)
      requires heap.Valid()
      modifies heap
      ensures this.heap == heap && heap.Valid()
      ensures id !in old(heap.cells) && heap.cells == old(heap.cells)[id := Sequence(Vec, [])]
    {
      var a := heap.Alloc(Sequence(Vec, []));
      id := a;
      this.heap := heap;
    }

    function Elements(): seq<Traceable>
      reads this, heap
      requires id in heap.cells && heap.cells[id].Sequence?
    {
      heap.cells[id].elements
    }
  }

  /** `RootedVec<'a, T>`: roots a `RootableVec` for as long as it lives. */
  class RootedVec {
    const root: RootableVec
    const registry: RootedTraceableSet

    ghost predicate Valid()
      reads this, root, root.heap, registry
    {
      Rooted(registry, root.heap) && root.id in root.heap.cells && root.heap.cells[root.id].Sequence?
    }

    /** `RootedVec::new`: register the vector, whatever else is registered at its address. */
    constructor New(root: RootableVec, registry: RootedTraceableSet)
      requires Rooted(registry, root.heap) && root.id in root.heap.cells && root.heap.cells[root.id].Sequence?
      modifies registry
      ensures this.root == root && this.registry == registry && Valid()
      ensures registry.entries == old(registry.entries) + [root.id]
    {
      registry.Add(root.id);
      this.root := root;
      this.registry := registry;
    }

    /** `RootedVec::from_iter`: register the vector, then extend it with the items. */
    constructor FromIter(root: RootableVec, registry: RootedTraceableSet, items: seq<Traceable>)
      requires Rooted(registry, root.heap) && root.id in root.heap.cells && root.heap.cells[root.id].Sequence?
      modifies registry, root.heap
      ensures this.root == root && this.registry == registry && Valid()
      ensures registry.entries == old(registry.entries) + [root.id]
      ensures root.heap.cells == old(root.heap.cells)[root.id := Sequence(Vec, old(root.heap.cells[root.id].elements) + items)]
    {
      registry.Add(root.id);
      root.heap.Write(root.id, Sequence(Vec, root.heap.cells[root.id].elements + items));
      this.root := root;
      this.registry := registry;
    }

    /** `push` through `DerefMut`. */
    method Push(item: Traceable)
      requires Valid()
      modifies root.heap
      ensures Valid()
      ensures root.heap.cells == old(root.heap.cells)[root.id := Sequence(Vec, old(root.Elements()) + [item])]
    {
      root.heap.Write(root.id, Sequence(Vec, root.heap.cells[root.id].elements + [item]));
    }

    /**
     * `Drop`: clear the vector, then deregister it; the storage left behind is
     * empty.  An enclosing `RootedTraceableBox` at the same address keeps its
     * own entry.
     */
    method Drop() returns (outcome: RemoveOutcome)
      requires Valid()
      modifies registry, root.heap
      ensures registry.entries == RemoveLast(old(registry.entries), root.id)
      ensures root.heap.cells == old(root.heap.cells)[root.id := Sequence(Vec, [])]
      ensures outcome == Removed <==> root.id in old(registry.entries)
      ensures Rooted(registry, root.heap)
    {
      root.heap.Write(root.id, Sequence(Vec, []));
      outcome := registry.Remove(root.id);
    }
  }

  /*
   * The registry against the live guards, for any order of creations and drops.
   */

  /** A guard's registration (`new`) or its `Drop`. */
  datatype GuardEvent = Create(ptr: Id) | Drop(ptr: Id)

  /** The registry after replaying `events` through `add` and `remove`. */
  function Registry(events: seq<GuardEvent>): seq<Id>
    decreases |events|
  {
    if events == [] then []
    else
      var before := Registry(events[..|events| - 1]);
      match events[|events| - 1]
      case Create(p) => before + [p]
      case Drop(p) => RemoveLast(before, p)
  }

  /** The pointers of the guards alive after `events`, one per guard. */
  function LiveGuards(events: seq<GuardEvent>): multiset<Id>
    decreases |events|
  {
    if events == [] then multiset{}
    else
      var before := LiveGuards(events[..|events| - 1]);
      match events[|events| - 1]
      case Create(p) => before + multiset{p}
      case Drop(p) => before - multiset{p}
  }

  /**
   * What ownership guarantees: only a live guard is dropped, once.  Guards
   * may share an address and may be dropped in any order (struct fields drop
   * in declaration order, locals in reverse).
   */
  predicate DropsLiveGuards(events: seq<GuardEvent>)
    decreases |events|
  {
    events == [] ||
    (DropsLiveGuards(events[..|events| - 1]) &&
     (events[|events| - 1].Drop? ==> events[|events| - 1].ptr in LiveGuards(events[..|events| - 1])))
  }

  /** No `remove` in the replay reaches `unreachable!()`. */
  predicate NeverUnreachable(events: seq<GuardEvent>)
    decreases |events|
  {
    events == [] ||
    (NeverUnreachable(events[..|events| - 1]) &&
     (events[|events| - 1].Drop? ==> events[|events| - 1].ptr in Registry(events[..|events| - 1])))
  }

  /**
   * After any sequence of guard creations and drops of live guards, the
   * registry holds the live guards' pointers, each as often as live guards
   * hold it; and no drop hits the fatal branch of `remove`.
   */
  lemma {:induction false} RegistryTracksLiveGuards(events: seq<GuardEvent>)
    requires DropsLiveGuards(events)
    ensures multiset(Registry(events)) == LiveGuards(events)
    ensures NeverUnreachable(events)
    decreases |events|
  {
    if events != [] {
      var prefix := events[..|events| - 1];
      RegistryTracksLiveGuards(prefix);
      match events[|events| - 1]
      case Create(p) =>
      case Drop(p) =>
        assert p in multiset(Registry(prefix));
    }
  }

  /** The stack of live guards when each drop is of the most recent live guard. */
  function Stack(events: seq<GuardEvent>): seq<Id>
    decreases |events|
  {
    if events == [] then []
    else
      var before := Stack(events[..|events| - 1]);
      match events[|events| - 1]
      case Create(p) => before + [p]
      case Drop(p) => if before == [] then [] else before[..|before| - 1]
  }

  /** Guards dropped in reverse order of creation, as scoped locals are. */
  predicate Nested(events: seq<GuardEvent>)
    decreases |events|
  {
    events == [] ||
    (Nested(events[..|events| - 1]) &&
     var before := Stack(events[..|events| - 1]);
     (events[|events| - 1].Drop? ==> before != [] && before[|before| - 1] == events[|events| - 1].ptr))
  }

  /** Removing the last match of the top entry pops the stack. */
  lemma PopTop(before: seq<Id>, p: Id)
    requires before != [] && before[|before| - 1] == p
    ensures p in before
    ensures RemoveLast(before, p) == before[..|before| - 1]
    ensures multiset(before[..|before| - 1]) == multiset(before) - multiset{p}
  {
    var rest := before[..|before| - 1];
    assert before == rest + [p] + [];
    RemoveLastKeepsOrder(rest, p, []);
    assert rest + [] == rest;
  }

  /**
   * With nested guards, shared addresses included, the registry is exactly
   * the stack of live guards: `rposition` removes the entry of the guard being
   * dropped.
   */
  lemma {:induction false} NestedRegistryIsStack(events: seq<GuardEvent>)
    requires Nested(events)
    ensures Registry(events) == Stack(events)
    ensures NeverUnreachable(events)
    decreases |events|
  {
    if events != [] {
      var prefix := events[..|events| - 1];
      NestedRegistryIsStack(prefix);
      match events[|events| - 1]
      case Create(p) =>
      case Drop(p) => PopTop(Stack(prefix), p);
    }
  }

  /** Nested drops are drops of live guards, and the stack holds the live guards. */
  lemma {:induction false} NestedDropsLiveGuards(events: seq<GuardEvent>)
    requires Nested(events)
    ensures multiset(Stack(events)) == LiveGuards(events)
    ensures DropsLiveGuards(events)
    decreases |events|
  {
    if events != [] {
      var prefix := events[..|events| - 1];
      NestedDropsLiveGuards(prefix);
      match events[|events| - 1]
      case Create(p) =>
      case Drop(p) =>
        PopTop(Stack(prefix), p);
        assert p in multiset(Stack(prefix));
    }
  }

  /** The pointers of the guards alive after `events`, in creation order. */
  function Live(events: seq<GuardEvent>): seq<Id>
    decreases |events|
  {
    if events == [] then []
    else
      var before := Live(events[..|events| - 1]);
      match events[|events| - 1]
      case Create(p) => before + [p]
      case Drop(p) => Without(before, p)
  }

  /**
   * Guards at pairwise distinct addresses: a new guard roots a pointer no live
   * guard holds, and only a live guard is dropped.  Ownership does not
   * guarantee this (see `Rooted`); it is the case of boxes and vectors that do
   * not share storage.
   */
  predicate DistinctLiveGuards(events: seq<GuardEvent>)
    decreases |events|
  {
    events == [] ||
    (DistinctLiveGuards(events[..|events| - 1]) &&
     match events[|events| - 1]
     case Create(p) => p !in Live(events[..|events| - 1])
     case Drop(p) => p in Live(events[..|events| - 1]))
  }

  /**
   * With guards at distinct addresses the registry holds exactly the live
   * guards, in creation order, each once, whatever the order of the drops.
   */
  lemma {:induction false} DistinctGuardsKeepCreationOrder(events: seq<GuardEvent>)
    requires DistinctLiveGuards(events)
    ensures Registry(events) == Live(events)
    ensures Distinct(Registry(events))
    ensures NeverUnreachable(events)
    decreases |events|
  {
    if events != [] {
      var prefix := events[..|events| - 1];
      DistinctGuardsKeepCreationOrder(prefix);
      match events[|events| - 1]
      case Create(p) =>
      case Drop(p) => DistinctRemoveLast(Registry(prefix), p);
    }
  }

  /** Tracing a concatenation traces one part, then the other. */
  lemma {:induction false} RegistryEdgesAppend(a: seq<Id>, b: seq<Id>, cells: map<Id, Traceable>)
    requires forall id :: id in a ==> id in cells
    requires forall id :: id in b ==> id in cells
    ensures forall id :: id in a + b ==> id in cells
    ensures RegistryEdges(a + b, cells) == RegistryEdges(a, cells) + RegistryEdges(b, cells)
    decreases |b|
  {
    if b == [] {
      assert a + b == a;
    } else {
      var b' := b[..|b| - 1];
      assert (a + b)[..|a + b| - 1] == a + b';
      RegistryEdgesAppend(a, b', cells);
    }
  }

  /** Deleting position `i` removes one copy of `t[i]` from the multiset. */
  lemma RemoveAtMultiset(t: seq<Id>, i: nat)
    requires i < |t|
    ensures t == t[..i] + [t[i]] + t[i + 1..]
    ensures multiset(t[..i] + t[i + 1..]) == multiset(t) - multiset{t[i]}
  {
    assert t == t[..i] + [t[i]] + t[i + 1..];
    assert multiset(t) == multiset(t[..i]) + multiset{t[i]} + multiset(t[i + 1..]);
  }

  /** Tracing `front + [x] + back` records `x`'s edges besides those of `front + back`. */
  lemma RegistryEdgesAround(front: seq<Id>, x: Id, back: seq<Id>, cells: map<Id, Traceable>)
    requires forall id :: id in front + [x] + back ==> id in cells
    ensures forall id :: id in front + back ==> id in cells
    ensures multiset(RegistryEdges(front + [x] + back, cells))
         == multiset(RegistryEdges(front + back, cells)) + multiset(Edges(cells[x]))
  {
    assert forall id :: id in front ==> id in front + [x] + back;
    assert forall id :: id in back ==> id in front + [x] + back;
    RegistryEdgesAppend(front, back, cells);
    RegistryEdgesAppend(front, [x], cells);
    RegistryEdgesAppend(front + [x], back, cells);
    assert RegistryEdges([x], cells) == RegistryEdges([], cells) + Edges(cells[x]);
  }

  /** Tracing the same pointers in another order records the same edges, in another order. */
  lemma {:induction false} PermutedRegistryEdges(s: seq<Id>, t: seq<Id>, cells: map<Id, Traceable>)
    requires multiset(s) == multiset(t)
    requires forall id :: id in s ==> id in cells
    ensures forall id :: id in t ==> id in cells
    ensures multiset(RegistryEdges(s, cells)) == multiset(RegistryEdges(t, cells))
    decreases |s|
  {
    assert forall id :: id in t ==> id in cells by {
      forall id | id in t ensures id in cells {
        assert id in multiset(t);
      }
    }
    if s == [] {
      assert |t| == |multiset(t)| == 0;
    } else {
      var x := s[|s| - 1];
      var s' := s[..|s| - 1];
      var i: nat :| i < |t| && t[i] == x && multiset(s') == multiset(t) - multiset{x} by {
        assert s == s' + [x];
        assert multiset(s) == multiset(s') + multiset{x};
        assert x in multiset(t);
      }
      RemoveAtMultiset(t, i);
      var front, back := t[..i], t[i + 1..];
      PermutedRegistryEdges(s', front + back, cells);
      RegistryEdgesAround(front, x, back, cells);
    }
  }

  /**
   * `trace_traceables` after any sequence of drops of live guards records the
   * edges of the live guards' values, each value once per guard, in any order
   * of the guards.  The order itself is that of `Stack` for nested guards
   * (`NestedRegistryIsStack`) and of creation for distinct addresses
   * (`DistinctGuardsKeepCreationOrder`).
   */
  lemma TraceTracesLiveGuards(events: seq<GuardEvent>, cells: map<Id, Traceable>, order: seq<Id>)
    requires DropsLiveGuards(events)
    requires multiset(order) == LiveGuards(events)
    requires forall id :: id in order ==> id in cells
    ensures forall id :: id in Registry(events) ==> id in cells
    ensures multiset(RegistryEdges(Registry(events), cells)) == multiset(RegistryEdges(order, cells))
  {
    RegistryTracksLiveGuards(events);
    assert forall id :: id in Registry(events) ==> id in multiset(order);
    PermutedRegistryEdges(order, Registry(events), cells);
  }
}
