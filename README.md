# Servo tracing, rooting and neighbouring cores, in Dafny

This project models how Servo's script thread exposes Rust-owned values to
the SpiderMonkey garbage collector. It also models several small,
self-contained components of the same repository.

**Tracing.** `components/script/dom/bindings/trace.rs` gives every type a
`JSTraceable::trace` that hands each GC pointer it holds to the tracer. The
model turns a traced value into an inductive `Traceable` datatype and `trace`
into `Edges(v)`: the sequence of tracer calls (kind, slot) that `v.trace`
makes, in order. The calls are:
- `CallObjectTracer`, `CallStringTracer` and `CallScriptTracer`, for
  non-null `Heap<*mut _>` handles;
- `CallValueTracer`, for markable `Heap<JSVal>` values.

The composites (Option, Result, smart pointers and cells, sequences, maps,
tuples, the stylesheet sets, `Hand`/`Finger`) delegate to their parts.
`NoTrace<T>` and the `unsafe_no_jsmanaged_fields!` types record nothing, and
`HashMapTracedValues` traces its values only.
- Soundness and completeness relate `Edges` to an independent definition: the
  handle occurrences reachable in `v` through traced positions.

**Rooting.** The thread-local `RootedTraceableSet` is a class over a sequence of
erased pointers:
- `add` pushes;
- `remove` deletes the last match;
- `trace` traces every entry in order.

The guards `RootedTraceableBox` and `RootedVec` are classes that register on
creation and deregister on drop, over a small `NativeHeap` of boxed values.
Two live guards may share an address: a `RootedVec` over the `RootableVec`
inside a `RootedTraceableBox` registers the box's address a second time. A
replay of guard events, in which only live guards are dropped but in any order
and at any addresses, shows three things:
- the registry holds the live guards' pointers, each as often as live guards
  hold it;
- with nested (last-in, first-out) drops it is exactly the stack of live
  guards;
- with distinct addresses it is the live guards in creation order.

It follows that `trace_traceables` traces exactly their values.

**Secondary components:**
- `script_bindings`: the `unsafe_no_jsmanaged_fields!` expansion and
  `JSContext`; the DOM ⇄ net/WebGPU enum conversions; `GPUFeatureName::from_str`;
  the html5ever/xml5ever tracer adapters.
- `ExternalUnderlyingSourceController`, the byte source behind native
  ReadableStreams, as a class with its buffer. It is written once and used for
  both copies, in `underlyingsource.rs` and in `readablestream.rs` (lines
  505-633). It sits beside the `ReadableStream` slots, `SetController` and the
  constructor's steps.
- The snapshot pixel-format and alpha-mode decision table
  (`to_target_parameters`) and the `Snapshot` constructors, conversions and
  `transform` bookkeeping.
- `ShaderCompilationInfo::from`: UTF-8 byte locations to UTF-16 code-unit
  positions (UTF-8 as in RFC 3629, UTF-16 as in RFC 2781).
- `GPUCommandsMixin::validate`, the WebGPU "validate the encoder state" step.
- The two CI "try" parsers:
  - `etc/try_parser.py`: a lexer class and the recursive-descent `Config.parse`;
  - `python/try_parser.py`: a preset splitter.
- `python/mach_initialize.py`:
  - `check_for_spaces`, `populate_context` and the settings-path order;
  - the dependency-closure search `commands_to_load` and the module-selection
    rule.
- `python/servo/gstreamer.py`: the Windows DLL and plugin lists, and the plugin
  list dispatch.

Python's `str` operations (`lower`, `isspace`, `isalnum`, `strip`, `in`,
`split(" ")`, `" ".join`) are defined once, in `PyStrings`.

The test file `etc/try_parser_test.py` disagrees with `etc/try_parser.py`:
- lines 17-20 expect a `wpt_layout` key, which the code never produces;
- line 34 expects three jobs for "fail-fast try", for which the code produces
  none.

The model follows the code.

## Model

| member | source | states |
|---|---|---|
| Trace.HandleEdges | components/script/dom/bindings/trace.rs:364-395 | a `Heap<*mut JSObject/JSString/JSScript>` records exactly one edge of its own kind at its own slot when non-null and none when null; `Heap<JSVal>` records one value edge exactly when the value is markable |
| Trace.TraceObject | components/script/dom/bindings/trace.rs:279-288 | `trace_object` makes one object-tracer call at the handle's slot, without a null check of its own |
| Trace.TraceString | components/script/dom/bindings/trace.rs:291-300 | `trace_string` makes one string-tracer call at the handle's slot |
| Trace.TraceScript | components/script/dom/bindings/trace.rs:244-253 | `trace_script` makes one script-tracer call at the handle's slot |
| Trace.TraceJsval | components/script/dom/bindings/trace.rs:256-269 | `trace_jsval` returns early for a non-markable value, else makes one value-tracer call of the value's trace kind |
| Trace.Edges | components/script/dom/bindings/trace.rs:302-539 | `v.trace(trc)`: the tracer calls the impl of `v`'s type makes, in order |
| Trace.NoTraceRecordsNothing | components/script/dom/bindings/trace.rs:110-113 | `NoTrace<T>` records no edge and reaches no handle, whatever `T` holds; an untraced leaf type records nothing |
| Trace.TracedValuesIgnoreKeys | components/script/dom/bindings/trace.rs:224-231 | `HashMapTracedValues` records exactly the edges of its values in order, and changing every key leaves its edges unchanged |
| Trace.CompositeIsConcatenation | components/script/dom/bindings/trace.rs:302-539 | every non-handle value records exactly the concatenation of the edges of the children its impl traces (Option only when Some, each tuple component, every key and value of a map) |
| Trace.EdgesOfAllAppend | components/script/dom/bindings/trace.rs:332-338 | tracing the elements of `a + b` records the edges of `a` followed by those of `b` |
| Trace.EdgesOfAllCons | components/script/dom/bindings/trace.rs:399-406 | tracing a sequence records its first element's edges, then the rest's |
| Trace.EdgesOfOne | components/script/dom/bindings/trace.rs:452-457 | a one-element sequence (such as `Some(x)`) records exactly the edges of that element |
| Trace.EntriesAsChildren | components/script/dom/bindings/trace.rs:469-520 | a map records the edges of key 0, value 0, key 1, value 1, … in iteration order |
| Trace.ValuesAsChildren | components/script/dom/bindings/trace.rs:224-231 | the values-only map records the edges of its values in iteration order |
| Trace.KeysAndValues | components/script/dom/bindings/trace.rs:476-481 | the children a map visits are its keys and values interleaved, two per entry |
| Trace.Values | components/script/dom/bindings/trace.rs:226-230 | the children of `HashMapTracedValues` are its values, one per entry |
| Trace.EdgesOfPair | components/script/dom/bindings/trace.rs:522-529 | a 2-tuple records its first component's edges, then its second's |
| Trace.EdgesOfTriple | components/script/dom/bindings/trace.rs:531-539 | a 3-tuple records its three components' edges in order |
| Trace.EdgesOfQuadruple | components/script/dom/bindings/trace.rs:426-441 | a 4-tuple records its four components' edges in order |
| Trace.ElementEdgesIncluded | components/script/dom/bindings/trace.rs:399-406 | every element's edges are among the edges of the sequence that holds it |
| Trace.EntryEdgesIncluded | components/script/dom/bindings/trace.rs:469-482 | every entry's key and value edges are among the map's edges |
| Trace.ValueEdgesIncluded | components/script/dom/bindings/trace.rs:224-231 | every value's edges are among the values-only map's edges |
| Trace.Completeness | components/script/dom/bindings/trace.rs:302-539 | every handle reachable through traced positions, at any depth, has all its edges recorded by the outermost value (as a sub-multiset) |
| Trace.Soundness | components/script/dom/bindings/trace.rs:302-539 | every recorded edge comes from a reachable handle that records it |
| Trace.ElementOfEdge | components/script/dom/bindings/trace.rs:399-406 | an edge of a traced sequence is an edge of one of its elements |
| Trace.EntryOfEdge | components/script/dom/bindings/trace.rs:469-482 | an edge of a traced map is an edge of one of its entries |
| Trace.ValueOfEdge | components/script/dom/bindings/trace.rs:224-231 | an edge of a values-only map is an edge of one of its values |
| Rooting.LastIndexOf | components/script/dom/bindings/trace.rs:711-719 | `rposition` finds an index holding `p` with no later entry equal to `p`, and finds none exactly when `p` is absent |
| Rooting.RemoveLast | components/script/dom/bindings/trace.rs:709-722 | removing the last match shortens the entries by one and removes one `p` from their multiset; with no match nothing changes |
| Rooting.RemoveLastKeepsOrder | components/script/dom/bindings/trace.rs:709-722 | removing the last `p` from `xs + [p] + ys` (no `p` in `ys`) leaves `xs + ys`: the order of the rest is kept |
| Rooting.DistinctRemoveLast | components/script/dom/bindings/trace.rs:709-722 | on entries without duplicates, removing the last match removes every occurrence and keeps the entries distinct |
| Rooting.Without | components/script/dom/bindings/trace.rs:709-722 | the reference removal of every `p` leaves no `p` behind |
| Rooting.WithoutAbsent | components/script/dom/bindings/trace.rs:709-722 | with no `p` present, dropping `p` changes nothing |
| Rooting.WithoutAppend | components/script/dom/bindings/trace.rs:709-722 | dropping `p` from a concatenation drops it from each part |
| Rooting.WithoutSplit | components/script/dom/bindings/trace.rs:709-722 | with a single `p` between `xs` and `ys`, dropping it leaves `xs + ys` |
| Rooting.DistinctRemoveAt | components/script/dom/bindings/trace.rs:709-722 | removing one position of a registry without duplicates leaves it without duplicates |
| Rooting.RootedTraceableSet.constructor | components/script/dom/bindings/trace.rs:705-707 | the registry starts empty |
| Rooting.RootedTraceableSet.Add | components/script/dom/bindings/trace.rs:724-728 | `add` appends exactly one entry at the end |
| Rooting.RootedTraceableSet.Remove | components/script/dom/bindings/trace.rs:709-722 | `remove` deletes the last matching entry and reports the `unreachable!` abort exactly when nothing matches |
| Rooting.RootedTraceableSet.Trace | components/script/dom/bindings/trace.rs:730-735 | tracing the registry records the edges of every registered value, in registration order |
| Rooting.TraceTraceables | components/script/dom/bindings/trace.rs:891-898 | `trace_traceables` records the registry's edges |
| Rooting.NativeHeap.Alloc | components/script/dom/bindings/trace.rs:761-768 | `Box::into_raw` returns a fresh address holding the value, and nothing else changes |
| Rooting.NativeHeap.Free | components/script/dom/bindings/trace.rs:810-817 | `Box::from_raw` and its drop release exactly that address |
| Rooting.NativeHeap.Write | components/script/dom/bindings/trace.rs:804-808 | a write through the box changes only that address |
| Rooting.RootedTraceableBox.New | components/script/dom/bindings/trace.rs:754-768 | the value goes into a fresh box, whose pointer is appended to the registry; the rooted invariant is kept |
| Rooting.RootedTraceableBox.SetValue | components/script/dom/bindings/trace.rs:804-808 | writing through `DerefMut` replaces only the boxed value |
| Rooting.RootedTraceableBox.Drop | components/script/dom/bindings/trace.rs:810-817 | drop deregisters the last matching entry before freeing; a missing entry aborts before the free; once the guards borrowing the box are gone, the freed address is no longer registered |
| Rooting.RootableVec.NewUnrooted | components/script/dom/bindings/trace.rs:830-835 | an unrooted vector is an empty `Vec` in a fresh cell, not registered |
| Rooting.RootedVec.New | components/script/dom/bindings/trace.rs:843-852 | rooting a vector appends it to the registry, even when another guard already holds its address |
| Rooting.RootedVec.FromIter | components/script/dom/bindings/trace.rs:854-867 | the vector is registered, even at an address already held, then extended by the items in order |
| Rooting.RootedVec.Push | components/script/dom/bindings/trace.rs:884-888 | a push through `DerefMut` appends one element |
| Rooting.RootedVec.Drop | components/script/dom/bindings/trace.rs:869-876 | drop clears the vector, then removes its last registry entry, so the storage left behind is empty |
| Rooting.Registry | components/script/dom/bindings/trace.rs:709-728 | the registry after replaying guard events: `add` on each creation, `remove` on each drop |
| Rooting.RegistryEdges | components/script/dom/bindings/trace.rs:730-735 | the edges `RootedTraceableSet::trace` records: each entry's value traced in entry order |
| Rooting.RegistryTracksLiveGuards | components/script/dom/bindings/trace.rs:709-876 | when only live guards are dropped, in any order and at any addresses, the registry holds each pointer exactly as often as live guards hold it, and no `remove` reaches `unreachable!` |
| Rooting.PopTop | components/script/dom/bindings/trace.rs:711-721 | when the dropped guard's entry is the last one, `rposition` finds it and `remove` pops it |
| Rooting.NestedRegistryIsStack | components/script/dom/bindings/trace.rs:709-876 | with guards dropped in reverse order of creation, shared addresses included, the registry is exactly the stack of live guards, in order, and no `remove` reaches `unreachable!` |
| Rooting.NestedDropsLiveGuards | components/script/dom/bindings/trace.rs:754-876 | nested drops only drop live guards, and the stack holds exactly the live guards |
| Rooting.DistinctGuardsKeepCreationOrder | components/script/dom/bindings/trace.rs:709-876 | with guards at distinct addresses, dropped in any order, the registry is the live guards in creation order, without duplicates |
| Rooting.Live | components/script/dom/bindings/trace.rs:754-876 | the reference list of live guards: each creation appended, each drop removing the pointer |
| Rooting.RegistryEdgesAppend | components/script/dom/bindings/trace.rs:730-735 | tracing a concatenated registry records the first part's edges, then the second's |
| Rooting.RemoveAtMultiset | components/script/dom/bindings/trace.rs:709-722 | deleting one position removes exactly one copy of its entry |
| Rooting.RegistryEdgesAround | components/script/dom/bindings/trace.rs:730-735 | an entry in the middle of the registry contributes its value's edges, wherever it stands |
| Rooting.PermutedRegistryEdges | components/script/dom/bindings/trace.rs:730-735 | registries holding the same pointers in another order record the same edges, each as often |
| Rooting.TraceTracesLiveGuards | components/script/dom/bindings/trace.rs:891-898 | `trace_traceables` after any such sequence records exactly the edges of the live guards' values, each once per guard (as a multiset); the order is given by `NestedRegistryIsStack` and `DistinctGuardsKeepCreationOrder` |
| ScriptBindings.UnsafeNoJsmanagedFields | components/script_bindings/lib.rs:21-33 | the macro emits one impl per listed type, in order, each recording no edge |
| ScriptBindings.ListedTypesRecordNothing | components/script_bindings/lib.rs:21-33 | every listed type's generated `trace` records nothing |
| ScriptBindings.ExpansionSplits | components/script_bindings/lib.rs:22-31 | expanding a list is expanding its parts one after the other |
| ScriptBindings.FromPtr | components/script_bindings/lib.rs:100-102 | dereferencing `JSContext::from_ptr(p)` gives back `p` |
| ScriptBindings.FromPtrInjective | components/script_bindings/lib.rs:98-108 | two contexts built from different pointers differ |
| ScriptBindings.CopyWrapsSamePointer | components/script_bindings/lib.rs:96-98 | a copy of a `JSContext` wraps the same pointer |
| Impls.CacheRoundTrips | components/script_bindings/impls.rs:182-206 | RequestCache → net → DOM and net → DOM → net are both the identity |
| Impls.CacheToNet | components/script_bindings/impls.rs:182-193 | `From<RequestCache>`: each DOM cache mode to the net mode of the same name |
| Impls.CacheFromNet | components/script_bindings/impls.rs:195-206 | `From<NetTraitsRequestCache>`: each net cache mode to the DOM mode of the same name |
| Impls.CredentialsRoundTrip | components/script_bindings/impls.rs:208-226 | RequestCredentials round-trips in both directions |
| Impls.CredentialsToNet | components/script_bindings/impls.rs:208-216 | `From<RequestCredentials>`: same-named net credentials mode |
| Impls.CredentialsFromNet | components/script_bindings/impls.rs:218-226 | `From<NetTraitsRequestCredentials>`: same-named DOM credentials mode |
| Impls.DestinationConversions | components/script_bindings/impls.rs:228-284 | DOM → net → DOM is the identity; net → DOM panics exactly for ServiceWorker, AudioWorklet and PaintWorklet; WebIdentity maps to `_empty`; every other net value round-trips |
| Impls.DestinationToNet | components/script_bindings/impls.rs:228-252 | `From<RequestDestination>`: `_empty` to `None`, every other destination to its net name |
| Impls.DestinationFromNet | components/script_bindings/impls.rs:254-284 | `From<NetTraitsRequestDestination>`: the panic for the three worker destinations, WebIdentity to `_empty` |
| Impls.ModeConversions | components/script_bindings/impls.rs:286-309 | DOM → net → DOM is the identity; converting net `WebSocket` back is unreachable, and every other net mode round-trips |
| Impls.ModeToNet | components/script_bindings/impls.rs:286-295 | `From<RequestMode>`: `cors` to `CorsMode`, the others by name |
| Impls.ModeFromNet | components/script_bindings/impls.rs:297-309 | `From<NetTraitsRequestMode>`: the `unreachable!` for `WebSocket`, the others by name |
| Impls.PolicyConversions | components/script_bindings/impls.rs:311-348 | net → DOM → net is the identity; DOM → net → DOM is the identity except `_empty` → `No_referrer`, the only two DOM values that collide |
| Impls.PolicyToMsg | components/script_bindings/impls.rs:311-329 | `From<ReferrerPolicy>`: `_empty` and `No_referrer` both to `NoReferrer`, the others by name |
| Impls.PolicyFromMsg | components/script_bindings/impls.rs:331-348 | `From<MsgReferrerPolicy>`: each message policy to its DOM name |
| Impls.RedirectRoundTrip | components/script_bindings/impls.rs:350-368 | RequestRedirect round-trips in both directions |
| Impls.RedirectToNet | components/script_bindings/impls.rs:350-358 | `From<RequestRedirect>`: same-named net redirect mode |
| Impls.RedirectFromNet | components/script_bindings/impls.rs:360-368 | `From<NetTraitsRequestRedirect>`: same-named DOM redirect mode |
| Impls.EventOptionsAgree | components/script_bindings/impls.rs:514-533 | a boolean becomes `capture` with `once` false in both unions, and a dictionary is taken as it is |
| Impls.AddOptionsFrom | components/script_bindings/impls.rs:514-524 | a boolean becomes `capture` with `once` false; a dictionary is taken as it is |
| Impls.OptionsFrom | components/script_bindings/impls.rs:526-533 | a boolean becomes `capture`; a dictionary is taken as it is |
| Impls.AsWebgpuInvertsFrom | components/script_bindings/impls.rs:574-582 | `GPUErrorFilter::as_webgpu` and `From<ErrorFilter>` are mutually inverse (`as_webgpu` at lines 845-853) |
| Impls.FilterFromWebgpu | components/script_bindings/impls.rs:574-582 | `From<ErrorFilter>`: each wgpu filter to the DOM filter of the same name |
| Impls.AsWebgpu | components/script_bindings/impls.rs:845-853 | `as_webgpu`: each DOM filter to the wgpu filter of the same name |
| Impls.FeatureFromStr | components/script_bindings/impls.rs:928-938 | `from_str` fails exactly when no key equals the string, and otherwise returns the value of the first pair whose key equals it |
| Impls.TreeBuilderEdges | components/script_bindings/impls.rs:865-885 | the tree builder traces every handle, then its sink, and so records each one's edges |
| Impls.TokenizersTraceTheirTreeBuilder | components/script_bindings/impls.rs:887-919 | the HTML tokenizer and the XML tokenizer both record exactly their tree builder's edges |
| Impls.TokenizerEdges | components/script_bindings/impls.rs:887-895 | the HTML tokenizer traces only its sink, through the tree builder's trace |
| Impls.XmlTokenizerEdges | components/script_bindings/impls.rs:897-919 | the XML tokenizer traces the tree builder's handles, then its sink, inline |
| ExternalSource.MaybeSignalAvailableBytes | components/script/dom/underlyingsource.rs:167-187 | no signal when nothing is available; a signal exactly when wired and the stream answers readable, carrying the count truncated to `u32` |
| ExternalSource.MaybeCloseJsStream | components/script/dom/underlyingsource.rs:189-199 | the stream is closed exactly when wired and it answers readable; otherwise nothing is asked |
| ExternalSource.SplitOffLast | components/script/dom/underlyingsource.rs:233-238 | `split_off` cuts the buffer into a kept front and a last part of exactly `n` bytes, which together give back the buffer |
| ExternalSource.ReadsFollowArrivalOrder | components/script/dom/underlyingsource.rs:206-244 | with chunks enqueued in front and reads taken from the back, bytes are read in the order they arrived |
| ExternalSource.ExternalUnderlyingSourceController.constructor | components/script/dom/underlyingsource.rs:139-150 | only a Memory source is in memory; the buffer starts empty and the source open |
| ExternalSource.ExternalUnderlyingSourceController.GetInMemoryBytes | components/script/dom/underlyingsource.rs:158-163 | a copy of the buffer exactly when the source is in memory |
| ExternalSource.ExternalUnderlyingSourceController.Close | components/script/dom/underlyingsource.rs:201-204 | `close` marks the source closed, keeps the buffer, and maybe closes the JS stream |
| ExternalSource.ExternalUnderlyingSourceController.EnqueueChunk | components/script/dom/underlyingsource.rs:206-214 | the chunk goes in front of the buffer, and the signalled count is the chunk's length plus the old buffer's |
| ExternalSource.Enqueue | components/script/dom/underlyingsource.rs:206-212 | the buffer after `enqueue_chunk`: the chunk, then the bytes already buffered |
| ExternalSource.ExternalUnderlyingSourceController.Pull | components/script/dom/underlyingsource.rs:217-231 | a closed source only maybe-closes the stream without looking at the buffer; an open one signals the buffered count |
| ExternalSource.ExternalUnderlyingSourceController.GetChunkWithLength | components/script/dom/underlyingsource.rs:233-238 | within the bound it returns the last `n` bytes and keeps the rest; past it the `assert!` fails and nothing changes |
| ExternalSource.ExternalUnderlyingSourceController.WriteIntoBuffer | components/script/dom/underlyingsource.rs:240-245 | `dest` receives the buffer's last `dest.len()` bytes, which leave the buffer |
| ExternalSource.WriteIntoReadRequestBuffer | components/script/dom/underlyingsource.rs:67-89 | a non-shared chunk is filled from the back of the buffer and its whole length is reported written; shared memory fails the `assert!` |
| ReadableStreams.ConstructorOutcome | components/script/dom/readablestream.rs:119-182 | a throwing conversion is TypeError("TODO") and a failed one a TypeError with its message; a "bytes" source with a `size` strategy is a RangeError (step 4.1), and without one fails exactly when extracting the high-water mark (default 0) fails; any other source extracts the high-water mark with default 1 and fails with its error, or else has the default controller's setup decide the outcome (steps 5.3-5.4); success needs a converted (or absent) source |
| ReadableStreams.ReadableStream.NewInherited | components/script/dom/readablestream.rs:195-206 | a new stream is Readable, not disturbed, with no controller and no reader |
| ReadableStreams.ReadableStream.SetController | components/script/dom/readablestream.rs:184-186 | the controller slot becomes `Some(controller)` and nothing else changes |
| ReadableStreams.Constructor | components/script/dom/readablestream.rs:119-182 | the constructor fails with the decided error, or returns a fresh readable, undisturbed, unlocked stream |
| SnapshotTypes.AlphaModeQueries | components/shared/snapshot/types.rs:58-77 | `is_premultiplied` is true for Opaque and otherwise the flag; `is_opaque` holds exactly for Opaque and AsOpaque; the default mode is premultiplied and transparent |
| SnapshotTypes.ToTargetParameters | components/shared/snapshot/types.rs:119-156 | swap_rb exactly when the formats differ; clear_alpha exactly when a non-Opaque source goes to Opaque; an Opaque source never multiplies |
| SnapshotTypes.MultiplyReachesTargetPremultiplication | components/shared/snapshot/types.rs:135-151 | between non-Opaque modes the chosen multiply turns the source's premultiplication into the target's: None when equal, PreMultiply when only the target is premultiplied, UnMultiply otherwise |
| SnapshotTypes.ToOpaqueUnmultipliesThenClears | components/shared/snapshot/types.rs:128-134 | to an Opaque target a premultiplied source is unmultiplied, an unmultiplied one left alone, and alpha cleared |
| SnapshotTypes.OpaqueSourceOnlySwaps | components/shared/snapshot/types.rs:119-156 | an Opaque source only ever swaps channels |
| SnapshotTypes.IdentityConversionIsNoOp | components/shared/snapshot/types.rs:119-156 | converting to the same format and alpha mode asks for nothing |
| SnapshotTypes.DefaultFormat | components/shared/snapshot/types.rs:4-25 | a dynamic format defaults to RGBA, a constant one reports its constant |
| SnapshotTypes.DefaultAlpha | components/shared/snapshot/types.rs:58-117 | a dynamic alpha mode defaults to premultiplied Transparent, a constant one reports its constant |
| Snapshots.ToVec | components/shared/snapshot/lib.rs:135-144 | `to_vec` and `data` hand out the stored bytes |
| Snapshots.Empty | components/shared/snapshot/lib.rs:79-86 | `empty()` has zero size and no data |
| Snapshots.Cleared | components/shared/snapshot/lib.rs:88-95 | `cleared(size)` holds width·height·4 bytes, all zero |
| Snapshots.New | components/shared/snapshot/lib.rs:158-174 | `new`/`from_vec` report exactly the given format and alpha mode |
| Snapshots.FromIsm | components/shared/snapshot/lib.rs:176-184 | `from_ism` holds the shared memory's bytes |
| Snapshots.NewConst | components/shared/snapshot/lib.rs:186-212 | the constant-typed constructors report their type's format and alpha mode |
| Snapshots.AsIpc | components/shared/snapshot/lib.rs:97-114 | `as_ipc` keeps the bytes |
| Snapshots.ToOwned | components/shared/snapshot/lib.rs:275-288 | `to_owned` keeps the bytes |
| Snapshots.EraseTypes | components/shared/snapshot/lib.rs:147-154 | the result has dynamic format and alpha-mode types |
| Snapshots.Transform | components/shared/snapshot/lib.rs:116-133 | `transform` keeps the size and byte length, reports the target format and alpha mode, and runs the kernel with the parameters of `to_target_parameters` |
| Snapshots.EmptyIsClearedOfZeroSize | components/shared/snapshot/lib.rs:79-95 | `empty()` is `cleared` of a zero size |
| Snapshots.DefaultsOfDynamicSnapshots | components/shared/snapshot/lib.rs:60-76 | a dynamically typed snapshot reports RGBA and premultiplied Transparent, so is premultiplied and not opaque |
| Snapshots.NewThenToVec | components/shared/snapshot/lib.rs:135-203 | `new`/`from_vec` store exactly the given size, format, alpha mode and data, and `to_vec` returns that data |
| Snapshots.AsIpcToOwnedRoundTrip | components/shared/snapshot/lib.rs:97-114 | `to_owned(as_ipc(s))` is `s` |
| Snapshots.ToOwnedAsIpcRoundTrip | components/shared/snapshot/lib.rs:275-288 | `as_ipc(to_owned(s))` is `s` |
| Snapshots.EraseTypesKeepsWhatIsReported | components/shared/snapshot/lib.rs:146-155 | `erase_types` keeps size, data, the reported format and alpha mode and both queries, and is idempotent |
| Snapshots.TransformToOwnTypeAsksNothing | components/shared/snapshot/lib.rs:116-125 | transforming to the snapshot's own format and alpha mode asks the kernel for nothing |
| Snapshots.TransformToOwnTypeKeepsBytes | components/shared/snapshot/lib.rs:116-133 | with a kernel that does nothing when asked nothing, such a transform keeps the bytes and the erased snapshot |
| ShaderInfo.Utf8Width | components/webgpu/ipc_messages/to_dom.rs:38-40 | a character takes one to four UTF-8 bytes |
| ShaderInfo.Utf16Width | components/webgpu/ipc_messages/to_dom.rs:35-37 | a character takes one or two UTF-16 code units |
| ShaderInfo.Utf8LenAppend | components/webgpu/ipc_messages/to_dom.rs:38-40 | byte lengths add over concatenation |
| ShaderInfo.Utf16LenAppend | components/webgpu/ipc_messages/to_dom.rs:35-37 | `len_utf16` adds over concatenation |
| ShaderInfo.Utf16LenAtMostUtf8Len | components/webgpu/ipc_messages/to_dom.rs:35-37 | a text never has more UTF-16 code units than UTF-8 bytes, and ASCII text has as many of each as characters |
| ShaderInfo.CharIndexOfByte | components/webgpu/ipc_messages/to_dom.rs:38-40 | a byte offset falls on a character boundary exactly when some character prefix has that byte length, which is then found |
| ShaderInfo.CharIndexUnique | components/webgpu/ipc_messages/to_dom.rs:38-40 | the character boundary at a byte offset is unique |
| ShaderInfo.LineStart | components/webgpu/ipc_messages/to_dom.rs:40 | line_start is one past the last '\n' before start, or 0 |
| ShaderInfo.From | components/webgpu/ipc_messages/to_dom.rs:25-54 | with no location every position is 0 and the message is the error's text; with one, slicing panics exactly when start or end is not a character boundary |
| ShaderInfo.Location | components/webgpu/ipc_messages/to_dom.rs:26-30 | the location of a parsing or validation error, none for any other kind |
| ShaderInfo.Message | components/webgpu/ipc_messages/to_dom.rs:46 | `error.to_string()` |
| ShaderInfo.EndFollowsStart | components/webgpu/ipc_messages/to_dom.rs:38-39 | the end boundary is at or after the start, and the slice between holds `length` bytes |
| ShaderInfo.FromReportsUtf16Positions | components/webgpu/ipc_messages/to_dom.rs:38-46 | offset, length and line_pos are the UTF-16 lengths of the prefix, the located slice and the line up to start plus one; line_pos ≥ 1 and offset = UTF-16 length up to line_start + line_pos − 1 |
| ShaderInfo.AsciiPositionsAreByteOffsets | components/webgpu/ipc_messages/to_dom.rs:38-45 | on ASCII source the UTF-16 offset and length equal the byte offset and length |
| GpuCommands.EncoderState | components/script/dom/gpucommandsmixin.rs:33-50 | validation succeeds exactly when Open; Open changes nothing; Locked makes the encoder invalid; Ended reports "Command encoder is already closed" to the current scope and leaves validity alone |
| GpuCommands.EncoderStateAsWritten | components/script/dom/gpucommandsmixin.rs:33-50 | as written, validation succeeds exactly when Open and validity never changes |
| GpuCommands.AsWrittenDiffersOnlyWhenLocked | components/script/dom/gpucommandsmixin.rs:37-40 | the code as written and the intended step differ only in validity, and only for a valid Locked encoder |
| GpuCommands.LockedEncoderStaysValidAsWritten | components/script/dom/gpucommandsmixin.rs:37-40 | as written, a valid Locked encoder stays valid after validation; the intended step makes it invalid |
| GpuCommands.RepeatedValidationKeepsInvalid | components/script/dom/gpucommandsmixin.rs:37-40 | once any validation meets a Locked state, the encoder stays invalid |
| GpuCommands.InvalidStaysInvalid | components/script/dom/gpucommandsmixin.rs:33-50 | no validation makes an invalid encoder valid again |
| GpuCommands.ValidateAll | components/script/dom/gpucommandsmixin.rs:33-50 | a run of `validate` calls adds one "already closed" validation error per Ended state, after the messages already there, and nothing else |
| GpuCommands.GPUCommandEncoder.Validate | components/script/dom/gpucommandsmixin.rs:33-50 | `validate` returns, sets and reports what `EncoderState` decides, and leaves the state alone |
| GpuCommands.GPUCommandEncoder.ValidateAsWritten | components/script/dom/gpucommandsmixin.rs:33-50 | the method as written returns and reports what `EncoderStateAsWritten` decides |
| GpuCommands.GPUCommandEncoder.constructor | components/script/dom/gpucommandsmixin.rs:27-30 | an encoder exposes its state, its valid flag and its device; it starts Open and valid |
| GpuCommands.GPUDevice.constructor | components/script/dom/gpucommandsmixin.rs:42-47 | a device hands out a given scope and has received no message yet |
| GpuCommands.GPUDevice.UseCurrentScope | components/script/dom/gpucommandsmixin.rs:43 | `use_current_scope` returns the device's current scope |
| GpuCommands.GPUDevice.HandleServerMsg | components/script/dom/gpucommandsmixin.rs:44-47 | `handle_server_msg` appends exactly the message received |
| GStreamer.Without | python/servo/gstreamer.py:88-89 | the filter keeps exactly the entries not excluded |
| GStreamer.WithoutAppend | python/servo/gstreamer.py:119-120 | filtering a concatenation is concatenating the filtered parts, so the order is kept |
| GStreamer.WithoutNothingExcluded | python/servo/gstreamer.py:88-89 | a filter that excludes nothing present keeps the list |
| GStreamer.WithSuffix | python/servo/gstreamer.py:90 | every name gets the suffix, in order |
| GStreamer.WindowsDllsDesktop | python/servo/gstreamer.py:82-90 | `windows_dlls(False)` is every GSTREAMER_DYLIBS entry plus "-1.0-0.dll", in order |
| GStreamer.WindowsDllsUwp | python/servo/gstreamer.py:82-90 | `windows_dlls(True)` is that list without gstnet and gstsctp |
| GStreamer.WindowsDlls | python/servo/gstreamer.py:82-90 | `windows_dlls(uwp)`: the suffixed DLL names, without the non-UWP ones when `uwp` |
| GStreamer.WindowsPluginsContents | python/servo/gstreamer.py:93-121 | `windows_plugins` is GSTREAMER_PLUGINS then gstvideoconvert, gstvideoscale, gstwasapi, each plus ".dll"; for UWP exactly the non-NON_UWP_PLUGINS ones, in order |
| GStreamer.WindowsPlugins | python/servo/gstreamer.py:93-121 | `windows_plugins(uwp)`: the suffixed plugins plus the Windows extras, without the non-UWP ones when `uwp` |
| GStreamer.WithSuffixMembership | python/servo/gstreamer.py:121 | a suffixed name is in the list exactly when the name was |
| GStreamer.WithSuffixAppend | python/servo/gstreamer.py:119-121 | suffixing a concatenation is concatenating the suffixed parts |
| GStreamer.PluginList | python/servo/gstreamer.py:168-173 | "apple-" targets use the macOS list; otherwise "-windows-" targets use the Windows plugins, UWP exactly when "-uwp-" is present; any other target gets none |
| GStreamer.GeneratedSource | python/servo/gstreamer.py:174-179 | the generated file starts with the do-not-modify header, ends with the array's closing `];`, and holds every plugin name of the target in double quotes |
| GStreamer.QuotedLinesHoldEveryName | python/servo/gstreamer.py:174-179 | every plugin name appears quoted in the generated list |
| GStreamer.QuotedLines | python/servo/gstreamer.py:177 | `',\n'.join` of the names in double quotes |
| GStreamer.QuotedLinesInGeneratedSource | python/servo/gstreamer.py:174-179 | each quoted name of the joined list appears in the whole generated file |
| PyStrings.Lower | python/try_parser.py:55 | `lower` keeps the length and lowers each ASCII capital |
| PyStrings.LowerIdempotent | python/try_parser.py:55 | lowering twice is lowering once |
| PyStrings.LowerChar | python/try_parser.py:55 | a lowered character is never an ASCII capital, and a non-capital is unchanged |
| PyStrings.Strip | python/try_parser.py:102 | `strip` leaves no space at either end, is empty exactly for all-space input, and is a slice of its input |
| PyStrings.LeadingSpaces | python/try_parser.py:102 | the count of leading whitespace stops at the first non-space |
| PyStrings.TrailingSpaces | python/try_parser.py:102 | the count of trailing whitespace stops at the last non-space |
| PyStrings.IndexOfSpace | python/try_parser.py:107 | the first space, or the end when there is none |
| PyStrings.Split | python/try_parser.py:107 | `split(" ")` yields at least one piece |
| PyStrings.SplitPiecesHaveNoSpace | python/try_parser.py:107 | no piece contains a space |
| PyStrings.JoinSplit | python/try_parser.py:107 | joining the pieces with single spaces gives back the text |
| PyStrings.SplitAfterWord | python/try_parser.py:107 | a space-free word followed by a space splits off as the first piece |
| PyStrings.SplitWithoutSpace | python/try_parser.py:107 | a text without spaces is a single piece |
| TryPresets.LayoutToString | python/try_parser.py:27-35 | both bits give "all", else "2020", else "2013", else "none" — each exactly for its bits |
| TryPresets.PresetIgnoresCase | python/try_parser.py:54-82 | `preset` ignores case and knows exactly the sixteen listed names |
| TryPresets.Preset | python/try_parser.py:54-82 | `preset(s)`: the job of each known lower-cased name, else nothing |
| TryPresets.PresetProfile | python/try_parser.py:54-82 | "webgpu" gives the production profile without unit tests; every other preset gives release with unit tests |
| TryPresets.WebGpuPreset | python/try_parser.py:75-80 | "webgpu" gives layout 2020, wpt "_webgpu", profile "production", unit tests off |
| TryPresets.PresetsComeFromNames | python/try_parser.py:107-112 | every job comes from a recognised name, and there are at most as many jobs as names |
| TryPresets.PresetsAppend | python/try_parser.py:107-112 | the jobs of `a + b` are the jobs of `a` then those of `b` |
| TryPresets.PresetsSnoc | python/try_parser.py:107-112 | one more name adds its job at the end exactly when it is recognised |
| TryPresets.Presets | python/try_parser.py:107-112 | the jobs of the recognised names, in order, the others ignored |
| TryPresets.BlankInputGivesDefaultMatrix | python/try_parser.py:102-105 | blank input gives Linux, MacOS and Windows, release profile, with unit tests |
| TryPresets.DefaultPresetsSplit | python/try_parser.py:105 | the default text splits into "linux", "macos", "windows" |
| TryPresets.DefaultPresets | python/try_parser.py:57-62 | the presets "linux", "macos" and "windows" give the jobs Linux, MacOS and Windows in that order |
| TryPresets.Config.constructor | python/try_parser.py:95-99 | `fail_fast` is off and the matrix holds the presets of `s` when given, else nothing |
| TryPresets.Config.Parse | python/try_parser.py:101-112 | `parse` appends one job per recognised name, in order, and leaves `fail_fast` alone |
| TryPresets.Config.AppendPresets | python/try_parser.py:107-112 | the loop appends exactly the recognised presets' jobs |
| TryLexer.CharAt | etc/try_parser.py:77-80 | `read_char` reads '\0' past the end |
| TryLexer.PySlice | etc/try_parser.py:92 | Python slicing agrees with the sequence slice when in range |
| TryLexer.SkipWs | etc/try_parser.py:82-84 | whitespace is skipped up to the first non-space (or the end) |
| TryLexer.SkipWsStopsAt | etc/try_parser.py:82-84 | skipping from `p` stops exactly at the first non-whitespace position |
| TryLexer.StringEnd | etc/try_parser.py:86-92 | a string runs to the next closing quote or '\0' |
| TryLexer.IdentEnd | etc/try_parser.py:94-98 | an identifier is the maximal run of alphanumerics, '-' and '_' |
| TryLexer.Keyword | etc/try_parser.py:100-108 | "fail-fast", "full" and "try" are keywords, anything else a String |
| TryLexer.Scan | etc/try_parser.py:118-147 | each token strictly advances the position; past the end comes Eof |
| TryLexer.ScanProgresses | etc/try_parser.py:118-147 | lexing keeps the stream well formed and decreases what remains until exhausted |
| TryLexer.TokensFrom | etc/try_parser.py:149-154 | the collected tokens start with the peeked one |
| TryLexer.TokensEndWithOneEof | etc/try_parser.py:149-154 | `collect` ends with exactly one Eof token |
| TryLexer.ScanQuoted | etc/try_parser.py:123-124 | a quoted text lexes to a String without its quotes; an unterminated one runs to the end |
| TryLexer.ScanIdent | etc/try_parser.py:140-142 | an identifier lexes to its keyword type with its text |
| TryLexer.ScanIllegal | etc/try_parser.py:136-139 | a non-alphanumeric, non-punctuation character is a one-character Illegal token, and the lexer advances by one |
| TryLexer.ScanBlank | etc/try_parser.py:118-134 | trailing whitespace lexes to Eof |
| TryLexer.StringEndAt | etc/try_parser.py:86-92 | the string end is the first closing quote or the end |
| TryLexer.IdentEndAt | etc/try_parser.py:94-98 | the identifier end is the first non-identifier character |
| TryLexer.Lexer.constructor | etc/try_parser.py:72-75 | a new lexer has lexed its first token |
| TryLexer.Lexer.ReadChar | etc/try_parser.py:77-80 | `read_char` reads the next character, or '\0' past the end, and moves one on |
| TryLexer.Lexer.SkipWhitespace | etc/try_parser.py:82-84 | the loop stops at the first non-space |
| TryLexer.Lexer.ReadString | etc/try_parser.py:86-92 | the loop stops at the closing quote or '\0' and returns the text between |
| TryLexer.Lexer.ReadIdent | etc/try_parser.py:94-98 | the loop stops after the identifier and returns it |
| TryLexer.Lexer.LexNextToken | etc/try_parser.py:118-147 | `_next_token` leaves the lexer on the next token as `Scan` defines it |
| TryLexer.Lexer.NextToken | etc/try_parser.py:110-113 | returns the peeked token and lexes the next |
| TryLexer.Lexer.PeekToken | etc/try_parser.py:115-116 | returns the peeked token |
| TryLexer.Lexer.Collect | etc/try_parser.py:149-154 | `collect` returns every token up to and including Eof |
| TryConfig.ParseLayout | etc/try_parser.py:163-175 | "none" → none; "all"/"both" → all; containing "legacy"/"2013" → 2013; containing "2020" → 2020; else an error |
| TryConfig.ParseOS | etc/try_parser.py:183-193 | "linux" → linux; containing "mac" → mac; containing "win" → windows; else an error |
| TryConfig.OptionParsersIgnoreCase | etc/try_parser.py:163-193 | both parsers ignore case and fail exactly when no rule applies |
| TryConfig.SubstringSelectsWindows | etc/try_parser.py:189-190 | any text containing "win" (and no earlier rule) is Windows |
| TryConfig.PresetNames | etc/try_parser.py:234-260 | `preset` knows exactly the listed names, ignoring case |
| TryConfig.Preset | etc/try_parser.py:234-260 | `preset(s)`: the job of each known lower-cased name, else nothing |
| TryConfig.Job | etc/try_parser.py:203-210 | `JobConfig(name, os, layout)` with profile "release", unit tests on and no wpt |
| TryConfig.BaseJob | etc/try_parser.py:214-216 | a job starts from its preset, or from JobConfig(name, linux) |
| TryConfig.DictSet | etc/try_parser.py:287-295 | a new key is added at the end; a repeated key is updated in place |
| TryConfig.ApplyOverride | etc/try_parser.py:217-229 | each key sets its field (unit-tests exactly when the value lowers to "true"); any other key raises |
| TryConfig.ApplyOverrides | etc/try_parser.py:217-230 | overrides keep the job's name, and none leave it as it is |
| TryConfig.ParseJob | etc/try_parser.py:212-230 | `JobConfig.parse` applies every override in order to the base job |
| TryConfig.UnknownKeyRaises | etc/try_parser.py:228-229 | an unknown key raises before any later override |
| TryConfig.NoOverrides | etc/try_parser.py:214-216 | without overrides the job is the preset or the Linux default |
| TryConfig.UnitTestsOverride | etc/try_parser.py:226-227 | unit-tests becomes true exactly when the value lowers to "true" |
| TryConfig.ReadTuple | etc/try_parser.py:291-299 | the tuple loop stops at `)` or Eof |
| TryConfig.ReadJob | etc/try_parser.py:288-301 | reading a job's tuple never moves the lexer backwards |
| TryConfig.ParseInput | etc/try_parser.py:278-281 | the text parsed is never empty |
| TryConfig.ParseOnlyAppends | etc/try_parser.py:283-310 | parsing only appends to the matrix and never clears `fail_fast` |
| TryConfig.KeywordSteps | etc/try_parser.py:303-310 | "fail-fast" sets `fail_fast`; "try" and the other tokens are skipped |
| TryConfig.ParseStepJob | etc/try_parser.py:285-302 | a name appends its job or stops with the error |
| TryConfig.FullStep | etc/try_parser.py:305-308 | "full" appends Linux, MacOS and Windows |
| TryConfig.BlankInputIsFull | etc/try_parser.py:278-281 | blank input parses as "full" |
| TryConfig.FullText | etc/try_parser.py:305-308 | "full" gives the jobs Linux, MacOS and Windows in that order |
| TryConfig.Config.Empty | etc/try_parser.py:271-273 | a new config has `fail_fast` off and an empty matrix |
| TryConfig.Config.New | etc/try_parser.py:271-275 | `Config(s)` parses `s` only when it is given and non-empty; it fails with `parse`'s RuntimeError exactly when `parse` raises, and otherwise holds `parse`'s result |
| TryConfig.Config.Parse | etc/try_parser.py:277-310 | `parse` leaves the flag, the matrix and any raised error as the parse of the text decides |
| TryConfig.ReadOverrides | etc/try_parser.py:288-301 | the lexer loop reads the same overrides and stops where the parse does |
| TryConfig.Take | etc/try_parser.py:110-113 | `next_token` moves to the token scanned after the peeked one and never moves back |
| TryConfig.ParseFrom | etc/try_parser.py:283-310 | the outer `while` of `parse`, from a lexer state to its outcome |
| TryConfig.ParseConfig | etc/try_parser.py:277-310 | `Config.parse(s)` from the given fields: stripped input, then the loop |
| MachInitialize.CheckForSpaces | python/mach_initialize.py:78-84 | raises exactly when the path contains a space, with the message naming the path |
| MachInitialize.SpaceMessage | python/mach_initialize.py:80-83 | the message naming the path that contains a space |
| MachInitialize.PopulateContext | python/mach_initialize.py:158-179 | no key gives nothing; a key outside the six known ones raises AttributeError with that key |
| MachInitialize.ContextValues | python/mach_initialize.py:158-179 | each known directory key is answered with its directory |
| MachInitialize.Driver.AddSettingsPaths | python/mach_initialize.py:184-188 | the settings paths become what `SettingsPaths` gives |
| MachInitialize.SettingsPaths | python/mach_initialize.py:184-188 | state_dir is added only to an empty list; topsrcdir always comes last |
| MachInitialize.ClosedHoldsReachable | python/mach_initialize.py:211-228 | a dependency-closed set holding the top command holds everything it reaches |
| MachInitialize.Dependencies | python/mach_initialize.py:223 | `MACH_COMMANDS[command].command_dependencies` of a known command |
| MachInitialize.KnownCommands | python/mach_initialize.py:215 | the commands `MACH_COMMANDS.get` answers with a truthy entry |
| MachInitialize.DependencySearch.FindDownstream | python/mach_initialize.py:214-224 | the search visits the command when known, visits only what it reaches, and leaves the visited set closed under known dependencies |
| MachInitialize.CommandsToLoad | python/mach_initialize.py:211-228 | the result is exactly the known commands the top command reaches, each once; empty when it is unknown or falsy |
| MachInitialize.ModulesToLoad | python/mach_initialize.py:203-240 | every module when the command is absent or needs all; otherwise exactly the entries of the commands it reaches |
| MachInitialize.CycleIsHarmless | python/mach_initialize.py:211-228 | two commands depending on each other reach each other |

## Left out

- The SpiderMonkey entry points (`Call*Tracer`, `GCTraceKindToAscii`) and the collector: each tracer call is an edge appended to a log.
- The `trace!` debug messages and the `description` strings.
- The raw pointers of the guards (`Box::into_raw`/`from_raw`, `*const dyn JSTraceable`): addresses are abstract ids in a `NativeHeap`.
- `thread_local!` and the `RwLock`/`RefCell` borrows: the registry is one single-threaded object.
- All `MallocSizeOf` impls; `Deref`/`Display` glue.
- `Rooting.RootedVec.Drop`: does not promise that the address leaves the registry, because an enclosing `RootedTraceableBox` at the same address keeps its own entry.
- `Rooting.RootedTraceableBox.Drop`: requires the box's address to be registered at most once. A `RootedVec` sharing it borrows the box's contents, so the borrow checker drops it first; the borrow checker itself is not modelled.
- `Rooting.RootedTraceableSet.Remove`: the `unreachable!()` abort is a returned `Unreachable` outcome with the entries unchanged, not a process abort.
- Trace impls of types whose fields are not in the model (stylesheet sets, `LossyDecoder`, `TypedArray`) are forwarders or sequences of their traced part.
- The audio, XR, WebGL, media, layout-type and Bluetooth conversions in `impls.rs`: float field copies and foreign types.
- The `GPUFeatureName` string table is generated code that is not part of this model, so `Impls.FeatureFromStr` takes the pairs as a parameter.
- The JS-facing stream callbacks (`request_data`, `cancel`, `close`, `error`, `finalize`) and `get_read_promise_*`: JSAPI calls.
- The engine calls of the controller: the readability query's answer is an input, and the requested call is an output.
- The other `ReadableStream` methods (`Locked`, `Cancel`, `GetReader`, `from_js`, `new_from_bytes`, `enqueue_native`, reading): they call SpiderMonkey's stream API.
- `extract_highwatermark` and the default-controller setup: inputs to `ReadableStreams.Constructor`.
- The pixel kernel `pixels::transform_inplace`: a parameter of `Snapshots.Transform`, known only to keep the length.
- `Snapshots.Transform`: the kernel's in-place rewrite of the owned buffer is modelled as a value-to-value function. `transform` consumes `self`, so nothing else can observe the buffer in between.
- `Snapshots.Cleared`: the `u64` product width·height·4 is unbounded here; an overflow is not modelled.
- `GPUDevice` beyond `use_current_scope` and `handle_server_msg`: gpudevice.rs is not part of this model.
- `PyStrings.Lower`: `isalnum` and `lower` are modelled on ASCII only; non-ASCII letters and digits are not.
- `TryLexer.IdentEnd` and `TryLexer.Scan`: through the ASCII-only `isalnum`, a non-ASCII letter or digit lexes as an Illegal token here, where Python would continue the identifier.
- `print` notices, `main`, and the JSON output (`toJSON`, `Encoder`) of both try parsers.
- `MachInitialize.CommandsToLoad`: returns a set; the order of `list(visited)` is Python's set order and is not modelled.
- `MachInitialize.PopulateContext`: `get_state_dir` reads the environment and the filesystem, so its result is an input. The "repository" key answers `NoValue` exactly as the source's `resolve_repository()` does: it returns `None` (python/mach_initialize.py:142-143).
- The `CATEGORIES` table and `define_category`, the virtualenv and import hooks, `_create_state_dir` and the `missing_ok` filesystem probe of `mach_initialize.py`.
- `gstreamer.py`'s macOS lists (`macos_lib_dir`, `macos_dylibs`, `macos_plugins`): they depend on the build machine and are a parameter of `GStreamer.PluginList`.
- The `JobConfig.parse` mutation of a fresh job: a job is a value updated field by field.

## Findings

| source | as written | input that shows it | evidently intended | confidence | as-written member | corrected member |
|---|---|---|---|---|---|---|
| components/script/dom/gpucommandsmixin.rs:29-38 | `valid()` returns the `Cell<bool>` by value, so `self.valid().set(false)` sets a temporary copy and the encoder stays valid | an encoder in state Locked with valid = true: after `validate()` returns false, valid is still true | the WebGPU algorithm makes a Locked encoder invalid, so valid becomes false | not executed | GpuCommands.LockedEncoderStaysValidAsWritten | GpuCommands.EncoderState |
