/*
 * The `JSTraceable` capability of components/script/dom/bindings/trace.rs.
 *
 * A value that may hold garbage-collected JavaScript things is described by
 * the inductive datatype `Traceable`, one constructor per family of
 * `JSTraceable` impls.  The tracer (the visitor handed in by the collector)
 * is modelled as an edge log: `Edges(v)` is the sequence of
 * `Call*Tracer` calls that `v.trace(trc)` makes, in order.
 */
module Trace {
  import opened Wrappers

  /** Identity of a `Heap<T>` cell: the address the tracer receives. */
  type Slot = nat

  /** A GC pointer as stored in a `Heap<*mut T>`; `Null` is the null pointer. */
  datatype GcPtr = Null | Ptr(addr: nat)

  /** `JS::TraceKind`, as passed through `GCTraceKindToAscii`. */
  datatype TraceKind = ObjectKind | StringKind | ScriptKind | SymbolKind | BigIntKind

  /** Which SpiderMonkey entry point receives the edge. */
  datatype Tracer = ObjectTracer | StringTracer | ScriptTracer | ValueTracer

  /** One call `Call*Tracer(trc, slot, GCTraceKindToAscii(kind))`. */
  datatype Edge = Edge(tracer: Tracer, slot: Slot, kind: TraceKind)

  /** A `JSVal`: primitives, or a pointer to a GC thing. */
  datatype JSVal =
    | UndefinedValue
    | NullValue
    | BooleanValue(b: bool)
    | Int32Value(i: int)
    | DoubleValue(bits: nat)
    | ObjectValue(obj: nat)
    | StringValue(str: nat)
    | SymbolValue(sym: nat)
    | BigIntValue(big: nat)

  /** `JSVal::is_markable`: the value points to a GC thing. */
  predicate IsMarkable(v: JSVal)
  {
    v.ObjectValue? || v.StringValue? || v.SymbolValue? || v.BigIntValue?
  }

  /** `JSVal::trace_kind`, defined for markable values. */
  function ValueTraceKind(v: JSVal): TraceKind
    requires IsMarkable(v)
  {
    match v
    case ObjectValue(_) => ObjectKind
    case StringValue(_) => StringKind
    case SymbolValue(_) => SymbolKind
    case BigIntValue(_) => BigIntKind
  }

  /** Element containers whose impl traces every element in iteration order. */
  datatype Collection =
    | Slice | Vec | VecDeque | SmallVec | IndexSet | HashSet
    | AuthorStylesheetSet    // iterates its sheets
    | DocumentStylesheetSet  // iterates (sheet, origin) pairs, traces the sheet only

  /** Maps whose impl traces every key and then its value. */
  datatype MapKind = HashMap | BTreeMap | IndexMap

  /** Wrappers whose impl forwards `trace` to a single referent. */
  datatype Forwarder =
    | Rc | Arc | ServoArc | RwLock | Box
    | Cell | UnsafeCell | RefCell | DomRefCell
    | TypedArray     // traces `underlying_object()`
    | AuthorStyles   // traces `stylesheets`
    | LossyDecoder   // traces `inner_sink()`
    | RootedBox      // `RootedTraceableBox<T>` traces `*ptr`

  /** Structs whose impl destructures every field and traces each in order. */
  datatype RecordShape = Hand | Finger

  /** Number of fields the exhaustive destructuring of each shape names. */
  function FieldCount(shape: RecordShape): nat
  {
    match shape
    case Hand => 9
    case Finger => 5
  }

  datatype Entry = Entry(key: Traceable, value: Traceable)

  datatype Traceable =
    | HeapObject(slot: Slot, obj: GcPtr)        // Heap<*mut JSObject>
    | HeapString(slot: Slot, str: GcPtr)        // Heap<*mut JSString>
    | HeapScript(slot: Slot, script: GcPtr)     // Heap<*mut JSScript>
    | HeapValue(slot: Slot, val: JSVal)         // Heap<JSVal>
    | Untraced(typeName: string)                // unsafe_no_jsmanaged_fields! types, &str, fn(A) -> B, (), Trusted<T>
    | NoTrace(inner: Traceable)                 // NoTrace<T>, whatever T holds
    | OptionOf(opt: Option<Traceable>)          // Option<T>
    | ResultOk(ok: Traceable)                   // Result<T, U>::Ok
    | ResultErr(err: Traceable)                 // Result<T, U>::Err
    | Forward(via: Forwarder, referent: Traceable)
    | Sequence(collection: Collection, elements: seq<Traceable>)
    | Map(kind: MapKind, entries: seq<Entry>)
    | TracedValuesMap(valueEntries: seq<Entry>) // HashMapTracedValues<K, V>
    | Tuple2(a: Traceable, b: Traceable)
    | Tuple3(a: Traceable, b: Traceable, c: Traceable)
    | Tuple4(a: Traceable, b: Traceable, c: Traceable, d: Traceable)
    | Record(shape: RecordShape, fields: seq<Traceable>)

  /** A leaf `Heap<…>` handle. */
  predicate IsHandle(v: Traceable)
  {
    v.HeapObject? || v.HeapString? || v.HeapScript? || v.HeapValue?
  }

  /** `trace_object`: no null check of its own. */
  function TraceObject(slot: Slot): seq<Edge> { [Edge(ObjectTracer, slot, ObjectKind)] }

  /** `trace_string`: no null check of its own. */
  function TraceString(slot: Slot): seq<Edge> { [Edge(StringTracer, slot, StringKind)] }

  /** `trace_script`: no null check of its own. */
  function TraceScript(slot: Slot): seq<Edge> { [Edge(ScriptTracer, slot, ScriptKind)] }

  /** `trace_jsval`: returns early unless the value is markable. */
  function TraceJsval(slot: Slot, val: JSVal): seq<Edge>
  {
    if !IsMarkable(val) then [] else [Edge(ValueTracer, slot, ValueTraceKind(val))]
  }

  /** The edges `v.trace(trc)` records, in order. */
  function Edges(v: Traceable): seq<Edge>
    decreases v
  {
    match v
    case HeapObject(slot, obj) => if obj.Null? then [] else TraceObject(slot)
    case HeapString(slot, str) => if str.Null? then [] else TraceString(slot)
    case HeapScript(slot, script) => if script.Null? then [] else TraceScript(slot)
    case HeapValue(slot, val) => TraceJsval(slot, val)
    case Untraced(_) => []
    case NoTrace(_) => []
    case OptionOf(opt) => if opt.Some? then Edges(opt.value) else []
    case ResultOk(ok) => Edges(ok)
    case ResultErr(err) => Edges(err)
    case Forward(_, referent) => Edges(referent)
    case Sequence(_, elements) => EdgesOfAll(elements)
    case Map(_, entries) => EdgesOfEntries(entries)
    case TracedValuesMap(entries) => EdgesOfValues(entries)
    case Tuple2(a, b) => Edges(a) + Edges(b)
    case Tuple3(a, b, c) => Edges(a) + Edges(b) + Edges(c)
    case Tuple4(a, b, c, d) => Edges(a) + Edges(b) + Edges(c) + Edges(d)
    case Record(_, fields) => EdgesOfAll(fields)
  }

  /** The `for e in self.iter() { e.trace(trc) }` loop. */
  function EdgesOfAll(vs: seq<Traceable>): seq<Edge>
    decreases vs
  {
    if vs == [] then [] else Edges(vs[0]) + EdgesOfAll(vs[1..])
  }

  /** The `for (k, v) in self { k.trace(trc); v.trace(trc) }` loop. */
  function EdgesOfEntries(entries: seq<Entry>): seq<Edge>
    decreases entries
  {
    if entries == [] then [] else EdgesOfEntry(entries[0]) + EdgesOfEntries(entries[1..])
  }

  /** One iteration of the map loop: the key, then its value. */
  function EdgesOfEntry(entry: Entry): seq<Edge>
    decreases entry
  {
    Edges(entry.key) + Edges(entry.value)
  }

  /** The `for v in self.0.values() { v.trace(trc) }` loop. */
  function EdgesOfValues(entries: seq<Entry>): seq<Edge>
    decreases entries
  {
    if entries == [] then [] else EdgesOfValue(entries[0]) + EdgesOfValues(entries[1..])
  }

  /** One iteration of the values loop: the value only. */
  function EdgesOfValue(entry: Entry): seq<Edge>
    decreases entry
  {
    Edges(entry.value)
  }

  /*
   * Reference definitions, independent of the order of the trace calls:
   * which handle occurrences a trace visits, and which direct children a
   * composite hands the tracer to.
   */

  /** `h` is a handle occurrence inside `v` that sits in a traced position. */
  ghost predicate Reaches(v: Traceable, h: Traceable)
    decreases v
  {
    if IsHandle(v) then v == h
    else match v
      case OptionOf(opt) => opt.Some? && Reaches(opt.value, h)
      case ResultOk(ok) => Reaches(ok, h)
      case ResultErr(err) => Reaches(err, h)
      case Forward(_, referent) => Reaches(referent, h)
      case Sequence(_, elements) => exists i :: 0 <= i < |elements| && Reaches(elements[i], h)
      case Map(_, entries) => exists i :: 0 <= i < |entries| && EntryReaches(entries[i], h)
      case TracedValuesMap(entries) => exists i :: 0 <= i < |entries| && ValueReaches(entries[i], h)
      case Tuple2(a, b) => Reaches(a, h) || Reaches(b, h)
      case Tuple3(a, b, c) => Reaches(a, h) || Reaches(b, h) || Reaches(c, h)
      case Tuple4(a, b, c, d) => Reaches(a, h) || Reaches(b, h) || Reaches(c, h) || Reaches(d, h)
      case Record(_, fields) => exists i :: 0 <= i < |fields| && Reaches(fields[i], h)
      case _ => false   // NoTrace and the untraced leaves hide everything
  }

  ghost predicate EntryReaches(entry: Entry, h: Traceable)
    decreases entry
  {
    Reaches(entry.key, h) || Reaches(entry.value, h)
  }

  ghost predicate ValueReaches(entry: Entry, h: Traceable)
    decreases entry
  {
    Reaches(entry.value, h)
  }

  /** Keys and values of a map, in the order its impl visits them. */
  function KeysAndValues(entries: seq<Entry>): (r: seq<Traceable>)
    ensures |r| == 2 * |entries|
    ensures forall i :: 0 <= i < |entries| ==> r[2 * i] == entries[i].key && r[2 * i + 1] == entries[i].value
  {
    if entries == [] then [] else [entries[0].key, entries[0].value] + KeysAndValues(entries[1..])
  }

  /** The values of a map, in iteration order. */
  function Values(entries: seq<Entry>): (r: seq<Traceable>)
    ensures |r| == |entries|
    ensures forall i :: 0 <= i < |entries| ==> r[i] == entries[i].value
  {
    seq(|entries|, i requires 0 <= i < |entries| => entries[i].value)
  }

  /** The values a composite passes to `trace`, one level down. */
  function TracedChildren(v: Traceable): seq<Traceable>
  {
    match v
    case OptionOf(opt) => if opt.Some? then [opt.value] else []
    case ResultOk(ok) => [ok]
    case ResultErr(err) => [err]
    case Forward(_, referent) => [referent]
    case Sequence(_, elements) => elements
    case Map(_, entries) => KeysAndValues(entries)
    case TracedValuesMap(entries) => Values(entries)
    case Tuple2(a, b) => [a, b]
    case Tuple3(a, b, c) => [a, b, c]
    case Tuple4(a, b, c, d) => [a, b, c, d]
    case Record(_, fields) => fields
    case _ => []
  }

  /** A handle records one edge of its own kind when non-null (markable, for a value), and none otherwise. */
  lemma HandleEdges(h: Traceable)
    requires IsHandle(h)
    ensures h.HeapObject? ==> Edges(h) == (if h.obj.Null? then [] else [Edge(ObjectTracer, h.slot, ObjectKind)])
    ensures h.HeapString? ==> Edges(h) == (if h.str.Null? then [] else [Edge(StringTracer, h.slot, StringKind)])
    ensures h.HeapScript? ==> Edges(h) == (if h.script.Null? then [] else [Edge(ScriptTracer, h.slot, ScriptKind)])
    ensures h.HeapValue? ==> Edges(h) == (if IsMarkable(h.val) then [Edge(ValueTracer, h.slot, ValueTraceKind(h.val))] else [])
    ensures |Edges(h)| <= 1 && forall e :: e in Edges(h) ==> e.slot == h.slot
  {
  }

  /** `NoTrace<T>` records nothing, whatever `T` holds; neither do the untraced leaf types. */
  lemma NoTraceRecordsNothing(inner: Traceable, typeName: string)
    ensures Edges(NoTrace(inner)) == []
    ensures Edges(Untraced(typeName)) == []
    ensures forall h :: !Reaches(NoTrace(inner), h)
  {
  }

  lemma {:induction false} EdgesOfAllAppend(a: seq<Traceable>, b: seq<Traceable>)
    ensures EdgesOfAll(a + b) == EdgesOfAll(a) + EdgesOfAll(b)
    decreases |a|
  {
    if a == [] {
      assert a + b == b;
    } else {
      assert (a + b)[1..] == a[1..] + b;
      EdgesOfAllAppend(a[1..], b);
    }
  }

  lemma EdgesOfAllCons(x: Traceable, rest: seq<Traceable>)
    ensures EdgesOfAll([x] + rest) == Edges(x) + EdgesOfAll(rest)
  {
    assert ([x] + rest)[1..] == rest;
  }

  lemma {:induction false} EntriesAsChildren(entries: seq<Entry>)
    ensures EdgesOfEntries(entries) == EdgesOfAll(KeysAndValues(entries))
    decreases |entries|
  {
    if entries != [] {
      var kv := KeysAndValues(entries);
      assert kv == [entries[0].key, entries[0].value] + KeysAndValues(entries[1..]);
      EdgesOfAllAppend([entries[0].key, entries[0].value], KeysAndValues(entries[1..]));
      assert [entries[0].key, entries[0].value][1..] == [entries[0].value];
      assert [entries[0].value][1..] == [];
      EntriesAsChildren(entries[1..]);
    }
  }

  lemma {:induction false} ValuesAsChildren(entries: seq<Entry>)
    ensures EdgesOfValues(entries) == EdgesOfAll(Values(entries))
    decreases |entries|
  {
    if entries != [] {
      assert Values(entries)[1..] == Values(entries[1..]);
      ValuesAsChildren(entries[1..]);
    }
  }

  /** A composite's edges are exactly the concatenation of its children's edges. */
  lemma CompositeIsConcatenation(v: Traceable)
    requires !IsHandle(v)
    ensures Edges(v) == EdgesOfAll(TracedChildren(v))
  {
    match v
    case OptionOf(opt) => if opt.Some? { EdgesOfOne(opt.value); }
    case ResultOk(ok) => EdgesOfOne(ok);
    case ResultErr(err) => EdgesOfOne(err);
    case Forward(_, referent) => EdgesOfOne(referent);
    case Map(_, entries) => EntriesAsChildren(entries);
    case TracedValuesMap(entries) => ValuesAsChildren(entries);
    case Tuple2(a, b) => EdgesOfPair(a, b);
    case Tuple3(a, b, c) => EdgesOfTriple(a, b, c);
    case Tuple4(a, b, c, d) => EdgesOfQuadruple(a, b, c, d);
    case _ =>
  }

  lemma EdgesOfOne(x: Traceable)
    ensures EdgesOfAll([x]) == Edges(x)
  {
    EdgesOfAllCons(x, []);
  }

  lemma EdgesOfPair(x: Traceable, y: Traceable)
    ensures EdgesOfAll([x, y]) == Edges(x) + Edges(y)
  {
    assert [x, y] == [x] + [y];
    EdgesOfAllCons(x, [y]);
    EdgesOfOne(y);
  }

  lemma EdgesOfTriple(x: Traceable, y: Traceable, z: Traceable)
    ensures EdgesOfAll([x, y, z]) == Edges(x) + Edges(y) + Edges(z)
  {
    assert [x, y, z] == [x] + [y, z];
    EdgesOfAllCons(x, [y, z]);
    EdgesOfPair(y, z);
    AppendAssociates3(Edges(x), Edges(y), Edges(z));
  }

  lemma EdgesOfQuadruple(w: Traceable, x: Traceable, y: Traceable, z: Traceable)
    ensures EdgesOfAll([w, x, y, z]) == Edges(w) + Edges(x) + Edges(y) + Edges(z)
  {
    assert [w, x, y, z] == [w] + [x, y, z];
    EdgesOfAllCons(w, [x, y, z]);
    EdgesOfTriple(x, y, z);
    AppendAssociates4(Edges(w), Edges(x), Edges(y), Edges(z));
  }

  lemma AppendAssociates3(a: seq<Edge>, b: seq<Edge>, c: seq<Edge>)
    ensures a + (b + c) == a + b + c
  {
  }

  lemma AppendAssociates4(a: seq<Edge>, b: seq<Edge>, c: seq<Edge>, d: seq<Edge>)
    ensures a + (b + c + d) == a + b + c + d
  {
  }

  /** `HashMapTracedValues` records the edges of its values, and its keys make no difference. */
  lemma {:induction false} TracedValuesIgnoreKeys(entries: seq<Entry>, rekeyed: seq<Entry>)
    requires |entries| == |rekeyed|
    requires forall i :: 0 <= i < |entries| ==> entries[i].value == rekeyed[i].value
    ensures Edges(TracedValuesMap(entries)) == EdgesOfAll(Values(entries))
    ensures Edges(TracedValuesMap(entries)) == Edges(TracedValuesMap(rekeyed))
  {
    ValuesAsChildren(entries);
    ValuesAsChildren(rekeyed);
    assert Values(entries) == Values(rekeyed);
  }

  lemma {:induction false} ElementEdgesIncluded(vs: seq<Traceable>, i: nat)
    requires i < |vs|
    ensures multiset(Edges(vs[i])) <= multiset(EdgesOfAll(vs))
    decreases |vs|
  {
    if i > 0 {
      ElementEdgesIncluded(vs[1..], i - 1);
    }
  }

  lemma {:induction false} EntryEdgesIncluded(entries: seq<Entry>, i: nat)
    requires i < |entries|
    ensures multiset(EdgesOfEntry(entries[i])) <= multiset(EdgesOfEntries(entries))
    decreases |entries|
  {
    if i > 0 {
      EntryEdgesIncluded(entries[1..], i - 1);
    }
  }

  lemma {:induction false} ValueEdgesIncluded(entries: seq<Entry>, i: nat)
    requires i < |entries|
    ensures multiset(EdgesOfValue(entries[i])) <= multiset(EdgesOfValues(entries))
    decreases |entries|
  {
    if i > 0 {
      ValueEdgesIncluded(entries[1..], i - 1);
    }
  }

  /**
   * Completeness: every handle occurrence reached at any depth contributes
   * its edge (one edge when non-null or markable) to the trace, counted with
   * multiplicity.
   */
  lemma {:induction false} Completeness(v: Traceable, h: Traceable)
    requires Reaches(v, h)
    ensures IsHandle(h)
    ensures multiset(Edges(h)) <= multiset(Edges(v))
    decreases v
  {
    if IsHandle(v) {
      return;
    }
    match v
    case OptionOf(opt) => Completeness(opt.value, h);
    case ResultOk(ok) => Completeness(ok, h);
    case ResultErr(err) => Completeness(err, h);
    case Forward(_, referent) => Completeness(referent, h);
    case Sequence(_, elements) =>
      var i :| 0 <= i < |elements| && Reaches(elements[i], h);
      Completeness(elements[i], h);
      ElementEdgesIncluded(elements, i);
    case Record(_, fields) =>
      var i :| 0 <= i < |fields| && Reaches(fields[i], h);
      Completeness(fields[i], h);
      ElementEdgesIncluded(fields, i);
    case Map(_, entries) =>
      var i :| 0 <= i < |entries| && EntryReaches(entries[i], h);
      if Reaches(entries[i].key, h) {
        Completeness(entries[i].key, h);
      } else {
        Completeness(entries[i].value, h);
      }
      EntryEdgesIncluded(entries, i);
    case TracedValuesMap(entries) =>
      var i :| 0 <= i < |entries| && ValueReaches(entries[i], h);
      Completeness(entries[i].value, h);
      ValueEdgesIncluded(entries, i);
    case Tuple2(a, b) =>
      if Reaches(a, h) { Completeness(a, h); } else { Completeness(b, h); }
    case Tuple3(a, b, c) =>
      if Reaches(a, h) { Completeness(a, h); }
      else if Reaches(b, h) { Completeness(b, h); }
      else { Completeness(c, h); }
    case Tuple4(a, b, c, d) =>
      if Reaches(a, h) { Completeness(a, h); }
      else if Reaches(b, h) { Completeness(b, h); }
      else if Reaches(c, h) { Completeness(c, h); }
      else { Completeness(d, h); }
  }

  lemma {:induction false} ElementOfEdge(vs: seq<Traceable>, e: Edge) returns (i: nat)
    requires e in EdgesOfAll(vs)
    ensures i < |vs| && e in Edges(vs[i])
    decreases |vs|
  {
    if e in Edges(vs[0]) {
      i := 0;
    } else {
      var j := ElementOfEdge(vs[1..], e);
      i := j + 1;
    }
  }

  lemma {:induction false} EntryOfEdge(entries: seq<Entry>, e: Edge) returns (i: nat)
    requires e in EdgesOfEntries(entries)
    ensures i < |entries| && e in EdgesOfEntry(entries[i])
    decreases |entries|
  {
    if e in EdgesOfEntry(entries[0]) {
      i := 0;
    } else {
      var j := EntryOfEdge(entries[1..], e);
      i := j + 1;
    }
  }

  lemma {:induction false} ValueOfEdge(entries: seq<Entry>, e: Edge) returns (i: nat)
    requires e in EdgesOfValues(entries)
    ensures i < |entries| && e in EdgesOfValue(entries[i])
    decreases |entries|
  {
    if e in EdgesOfValue(entries[0]) {
      i := 0;
    } else {
      var j := ValueOfEdge(entries[1..], e);
      i := j + 1;
    }
  }

  /** Soundness: every recorded edge comes from a reached handle occurrence. */
  lemma {:induction false} Soundness(v: Traceable, e: Edge) returns (h: Traceable)
    requires e in Edges(v)
    ensures IsHandle(h) && Reaches(v, h) && e in Edges(h)
    decreases v
  {
    if IsHandle(v) {
      h := v;
      return;
    }
    match v
    case OptionOf(opt) => h := Soundness(opt.value, e);
    case ResultOk(ok) => h := Soundness(ok, e);
    case ResultErr(err) => h := Soundness(err, e);
    case Forward(_, referent) => h := Soundness(referent, e);
    case Sequence(_, elements) =>
      var i := ElementOfEdge(elements, e);
      h := Soundness(elements[i], e);
    case Record(_, fields) =>
      var i := ElementOfEdge(fields, e);
      h := Soundness(fields[i], e);
    case Map(_, entries) =>
      var i := EntryOfEdge(entries, e);
      if e in Edges(entries[i].key) {
        h := Soundness(entries[i].key, e);
      } else {
        h := Soundness(entries[i].value, e);
      }
      assert EntryReaches(entries[i], h);
    case TracedValuesMap(entries) =>
      var i := ValueOfEdge(entries, e);
      h := Soundness(entries[i].value, e);
      assert ValueReaches(entries[i], h);
    case Tuple2(a, b) =>
      if e in Edges(a) { h := Soundness(a, e); } else { h := Soundness(b, e); }
    case Tuple3(a, b, c) =>
      if e in Edges(a) { h := Soundness(a, e); }
      else if e in Edges(b) { h := Soundness(b, e); }
      else { h := Soundness(c, e); }
    case Tuple4(a, b, c, d) =>
      if e in Edges(a) { h := Soundness(a, e); }
      else if e in Edges(b) { h := Soundness(b, e); }
      else if e in Edges(c) { h := Soundness(c, e); }
      else { h := Soundness(d, e); }
  }
}
