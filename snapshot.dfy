/*
 * `Snapshot<T, P, A>` (components/shared/snapshot/lib.rs): the pixels of a
 * canvas together with their size, pixel format and alpha mode.  `T` is
 * the storage: owned bytes (`Data`) or an IPC shared-memory region; `P` and
 * `A` are the format and alpha-mode type parameters of SnapshotTypes.
 *
 * The pixel kernel `pixels::transform_inplace` is outside this model; it is
 * a parameter of `Transform`, constrained only by what its type guarantees:
 * it rewrites a `&mut [u8]` in place and so cannot change its length.
 */
module Snapshots {
  import opened SnapshotTypes

  type byte = b: int | 0 <= b < 256

  /** `Size2D<u64>`. */
  datatype Size2D = Size2D(width: nat, height: nat)

  function Area(size: Size2D): nat
  {
    size.width * size.height
  }

  /** `Data`: only the `Owned` variant exists (the IPC variant is commented out). */
  datatype Data = Owned(items: seq<byte>)

  /** `IpcSharedMemory`: a region of shared bytes. */
  datatype IpcSharedMemory = SharedMemory(bytes: seq<byte>)

  datatype Snapshot<T> = Snapshot(size: Size2D, data: T, format: FormatParam, alphaMode: AlphaParam)

  /** `Snapshot::format`. */
  function Format<T>(s: Snapshot<T>): PixelFormat
  {
    ReportedFormat(s.format)
  }

  /** `Snapshot::alpha_mode`. */
  function AlphaModeOf<T>(s: Snapshot<T>): AlphaMode
  {
    ReportedAlphaMode(s.alphaMode)
  }

  /** `Snapshot::is_premultiplied` / `Snapshot::is_opaque` delegate to the alpha mode. */
  predicate SnapshotIsPremultiplied<T>(s: Snapshot<T>)
  {
    IsPremultiplied(AlphaModeOf(s))
  }

  predicate SnapshotIsOpaque<T>(s: Snapshot<T>)
  {
    IsOpaque(AlphaModeOf(s))
  }

  /** `Deref for Data` and `Snapshot::data`: the bytes. */
  function Bytes(s: Snapshot<Data>): seq<byte>
  {
    match s.data
    case Owned(items) => items
  }

  /** `Snapshot::to_vec`: hands out the owned bytes. */
  function ToVec(s: Snapshot<Data>): (v: seq<byte>)
    ensures v == Bytes(s)
  {
    match s.data
    case Owned(items) => items
  }

  /** `Snapshot::empty`: zero size, no bytes, default format and alpha mode of the type parameters. */
  function Empty(p: FormatType, a: AlphaType): (s: Snapshot<Data>)
    ensures s.size == Size2D(0, 0) && Bytes(s) == []
    ensures TypeOfFormat(s.format) == p && TypeOfAlpha(s.alphaMode) == a
  {
    Snapshot(Size2D(0, 0), Owned([]), DefaultFormat(p), DefaultAlpha(a))
  }

  function Zeros(n: nat): (z: seq<byte>)
    ensures |z| == n && forall i :: 0 <= i < n ==> z[i] == 0
  {
    seq(n, _ => 0)
  }

  /** `Snapshot::cleared`: `width * height * 4` zero bytes (transparent black in RGBA or BGRA). */
  function Cleared(size: Size2D, p: FormatType, a: AlphaType): (s: Snapshot<Data>)
    ensures s.size == size
    ensures |Bytes(s)| == Area(size) * 4 && forall i :: 0 <= i < |Bytes(s)| ==> Bytes(s)[i] == 0
    ensures TypeOfFormat(s.format) == p && TypeOfAlpha(s.alphaMode) == a
  {
    Snapshot(size, Owned(Zeros(Area(size) * 4)), DefaultFormat(p), DefaultAlpha(a))
  }

  /** `Snapshot::<Data, PixelFormat, AlphaMode>::new`; `from_vec` is the same constructor. */
  function New(size: Size2D, format: PixelFormat, alphaMode: AlphaMode, data: seq<byte>): (s: Snapshot<Data>)
    ensures Format(s) == format && AlphaModeOf(s) == alphaMode
  {
    Snapshot(size, Owned(data), DynamicFormat(format), DynamicAlpha(alphaMode))
  }

  /** `Snapshot::<Data, PixelFormat, AlphaMode>::from_ism`: copies the shared bytes. */
  function FromIsm(size: Size2D, format: PixelFormat, alphaMode: AlphaMode, ism: IpcSharedMemory): (s: Snapshot<Data>)
    ensures Bytes(s) == ism.bytes
  {
    New(size, format, alphaMode, ism.bytes)
  }

  /** `Snapshot::<Data, P, A>::new` / `from_vec` for constant format and alpha-mode types. */
  function NewConst(size: Size2D, data: seq<byte>, format: PixelFormat, alphaMode: AlphaMode): (s: Snapshot<Data>)
    ensures Format(s) == format && AlphaModeOf(s) == alphaMode
    ensures s.format.ConstFormat? && s.alphaMode.ConstAlpha?
  {
    Snapshot(size, Owned(data), DefaultFormat(ConstFormatType(format)), DefaultAlpha(ConstAlphaType(alphaMode)))
  }

  /** `Snapshot::as_ipc`: moves the bytes into shared memory. */
  function AsIpc(s: Snapshot<Data>): (t: Snapshot<IpcSharedMemory>)
    ensures t.data.bytes == Bytes(s)
  {
    Snapshot(s.size, SharedMemory(Bytes(s)), s.format, s.alphaMode)
  }

  /** `Snapshot::to_owned`: copies shared memory back into owned bytes. */
  function ToOwned(s: Snapshot<IpcSharedMemory>): (t: Snapshot<Data>)
    ensures Bytes(t) == s.data.bytes
  {
    Snapshot(s.size, Owned(s.data.bytes), s.format, s.alphaMode)
  }

  /** `Snapshot::to_ipc_shared_memory`. */
  function ToIpcSharedMemory(s: Snapshot<IpcSharedMemory>): IpcSharedMemory
  {
    s.data
  }

  /** `Snapshot::erase_types`: turns type-level format and alpha mode into run-time values. */
  function EraseTypes<T>(s: Snapshot<T>): (t: Snapshot<T>)
    ensures t.format.DynamicFormat? && t.alphaMode.DynamicAlpha?
  {
    Snapshot(s.size, s.data, DynamicFormat(Format(s)), DynamicAlpha(AlphaModeOf(s)))
  }

  /**
   * `pixels::transform_inplace(data, multiply, swap_rb, clear_alpha)`: some
   * rewrite of the bytes in place, so of the same length.
   */
  type Kernel = k: (seq<byte>, Multiply, bool, bool) -> seq<byte>
    | forall d, m, sw, c :: |k(d, m, sw, c)| == |d|
    witness (d: seq<byte>, m: Multiply, sw: bool, c: bool) => d

  /** The parameters `transform` hands to the kernel for a snapshot and a target. */
  function TransformParameters<T>(s: Snapshot<T>, targetFormat: PixelFormat, targetAlphaMode: AlphaMode): TargetParameters
  {
    ToTargetParameters(Format(s), targetFormat, AlphaModeOf(s), targetAlphaMode)
  }

  /**
   * `Snapshot::transform::<TP, TA>`: converts the bytes with the kernel and
   * retypes the snapshot to the constant target format and alpha mode.
   */
  function Transform(s: Snapshot<Data>, targetFormat: PixelFormat, targetAlphaMode: AlphaMode, kernel: Kernel): (t: Snapshot<Data>)
    ensures t.size == s.size && |Bytes(t)| == |Bytes(s)|
    ensures Format(t) == targetFormat && AlphaModeOf(t) == targetAlphaMode
    ensures t.format.ConstFormat? && t.alphaMode.ConstAlpha?
    ensures var params := TransformParameters(s, targetFormat, targetAlphaMode);
      Bytes(t) == kernel(Bytes(s), params.multiply, params.swapRb, params.clearAlpha)
  {
    var params := TransformParameters(s, targetFormat, targetAlphaMode);
    var data := kernel(Bytes(s), params.multiply, params.swapRb, params.clearAlpha);
    Snapshot(s.size, Owned(data), DefaultFormat(ConstFormatType(targetFormat)), DefaultAlpha(ConstAlphaType(targetAlphaMode)))
  }

  /** `empty()` has zero area and so agrees with `cleared` of a zero size. */
  lemma EmptyIsClearedOfZeroSize(p: FormatType, a: AlphaType)
    ensures Empty(p, a) == Cleared(Size2D(0, 0), p, a)
  {
    assert Zeros(0) == [];
  }

  /** Default-typed `empty`/`cleared` report RGBA and Transparent{premultiplied: true}. */
  lemma DefaultsOfDynamicSnapshots(size: Size2D)
    ensures Format(Empty(PixelFormatType, AlphaModeType)) == RGBA
    ensures AlphaModeOf(Cleared(size, PixelFormatType, AlphaModeType)) == Transparent(true)
    ensures SnapshotIsPremultiplied(Cleared(size, PixelFormatType, AlphaModeType))
    ensures !SnapshotIsOpaque(Cleared(size, PixelFormatType, AlphaModeType))
  {
  }

  /** `new`/`from_vec` store what they are given and `to_vec`/`data` return it. */
  lemma NewThenToVec(size: Size2D, format: PixelFormat, alphaMode: AlphaMode, data: seq<byte>)
    ensures var s := New(size, format, alphaMode, data);
      ToVec(s) == data && Bytes(s) == data && s.size == size
      && Format(s) == format && AlphaModeOf(s) == alphaMode
    ensures var s := NewConst(size, data, format, alphaMode);
      ToVec(s) == data && s.size == size && Format(s) == format && AlphaModeOf(s) == alphaMode
  {
  }

  /** `to_owned(as_ipc(s))` gives back `s`: size, format, alpha mode and bytes survive the trip. */
  lemma AsIpcToOwnedRoundTrip(s: Snapshot<Data>)
    ensures ToOwned(AsIpc(s)) == s
  {
    match s.data
    case Owned(items) =>
  }

  /** ...and the other way round for a shared-memory snapshot. */
  lemma ToOwnedAsIpcRoundTrip(s: Snapshot<IpcSharedMemory>)
    ensures AsIpc(ToOwned(s)) == s
  {
  }

  /** `erase_types` keeps size, data and what the snapshot reports, and is idempotent. */
  lemma EraseTypesKeepsWhatIsReported<T>(s: Snapshot<T>)
    ensures var t := EraseTypes(s);
      t.size == s.size && t.data == s.data && Format(t) == Format(s) && AlphaModeOf(t) == AlphaModeOf(s)
      && SnapshotIsPremultiplied(t) == SnapshotIsPremultiplied(s) && SnapshotIsOpaque(t) == SnapshotIsOpaque(s)
    ensures EraseTypes(EraseTypes(s)) == EraseTypes(s)
  {
  }

  /** A snapshot already in the target format and mode is handed to the kernel with (false, None, false). */
  lemma TransformToOwnTypeAsksNothing(s: Snapshot<Data>)
    ensures TransformParameters(s, Format(s), AlphaModeOf(s)) == TargetParameters(false, None, false)
  {
    IdentityConversionIsNoOp(Format(s), AlphaModeOf(s));
  }

  /**
   * With a kernel that does nothing for (false, None, false), transforming to
   * the snapshot's own format and mode keeps its bytes.
   */
  lemma TransformToOwnTypeKeepsBytes(s: Snapshot<Data>, kernel: Kernel)
    requires forall d :: kernel(d, None, false, false) == d
    ensures Bytes(Transform(s, Format(s), AlphaModeOf(s), kernel)) == Bytes(s)
    ensures EraseTypes(Transform(s, Format(s), AlphaModeOf(s), kernel)) == EraseTypes(s)
  {
    TransformToOwnTypeAsksNothing(s);
  }
}
