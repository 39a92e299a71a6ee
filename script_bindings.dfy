/*
 * components/script_bindings/lib.rs: the `unsafe_no_jsmanaged_fields!`
 * macro and the `script_runtime::JSContext` newtype.
 */
module ScriptBindings {
  import opened Trace

  /**
   * One `unsafe impl JSTraceable for $ty` produced by the macro:
   * the type it is for, and the edges its `trace` body records.
   */
  datatype TraceImpl = TraceImpl(forType: string, records: seq<Edge>)

  /**
   * The expansion of `unsafe_no_jsmanaged_fields!($($ty),+)`: the `$(…)+`
   * repetition emits one impl per listed type, in order, each with an empty
   * `trace` body.  The `+` matcher needs at least one type.
   */
  function UnsafeNoJsmanagedFields(types: seq<string>): (impls: seq<TraceImpl>)
    requires |types| >= 1
    ensures |impls| == |types|
    ensures forall i :: 0 <= i < |types| ==> impls[i].forType == types[i]
    ensures forall i :: 0 <= i < |impls| ==> impls[i].records == []
    decreases |types|
  {
    var first := TraceImpl(types[0], []);
    if |types| == 1 then [first] else [first] + UnsafeNoJsmanagedFields(types[1..])
  }

  /**
   * A value of a type given to the macro is an untraced leaf: tracing it,
   * through the generated impl, records nothing.
   */
  lemma ListedTypesRecordNothing(types: seq<string>, i: nat)
    requires |types| >= 1 && i < |types|
    ensures UnsafeNoJsmanagedFields(types)[i].records == Edges(Untraced(types[i])) == []
  {
    var impls := UnsafeNoJsmanagedFields(types);
    assert impls[i].records == [];
    NoTraceRecordsNothing(Untraced(types[i]), types[i]);
  }

  /** The macro expands a list the same way as its two halves invoked separately. */
  lemma {:induction false} ExpansionSplits(front: seq<string>, back: seq<string>)
    requires |front| >= 1 && |back| >= 1
    ensures UnsafeNoJsmanagedFields(front + back) == UnsafeNoJsmanagedFields(front) + UnsafeNoJsmanagedFields(back)
    decreases |front|
  {
    if |front| == 1 {
      assert (front + back)[1..] == back;
    } else {
      assert (front + back)[1..] == front[1..] + back;
      ExpansionSplits(front[1..], back);
    }
  }

  /** A raw `*mut js::jsapi::JSContext`. */
  type RawContextPtr = nat

  /** `script_runtime::JSContext`: a `Copy`, `repr(transparent)` wrapper around the raw pointer. */
  datatype JSContext = JSContext(raw: RawContextPtr)

  /** `Deref`: the wrapped raw pointer. */
  function Deref(cx: JSContext): RawContextPtr
  {
    cx.raw
  }

  /** `JSContext::from_ptr`: wrapping gives back the same pointer on dereference. */
  function FromPtr(p: RawContextPtr): (cx: JSContext)
    ensures Deref(cx) == p
  {
    JSContext(p)
  }

  /** Distinct raw pointers give distinct contexts. */
  lemma FromPtrInjective(p: RawContextPtr, q: RawContextPtr)
    requires FromPtr(p) == FromPtr(q)
    ensures p == q
  {
    assert Deref(FromPtr(p)) == Deref(FromPtr(q));
  }

  /** A `Copy` of a context wraps the same pointer as the original. */
  lemma CopyWrapsSamePointer(cx: JSContext, copy: JSContext)
    requires copy == cx
    ensures Deref(copy) == Deref(cx)
    ensures FromPtr(Deref(copy)) == cx
  {
  }
}
