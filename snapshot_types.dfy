/*
 * Pixel formats and alpha modes of a canvas snapshot, and the decision table
 * `to_target_parameters` that says how to convert pixel data from one
 * (format, alpha mode) pair to another (components/shared/snapshot/types.rs).
 *
 * The Rust code simulates enums at the type level: a snapshot's format is
 * either a run-time `PixelFormat` value or one of the unit structs `RGBA` /
 * `BGRA` whose `PIXEL_FORMAT` constant is the format; alpha modes likewise.
 * `FormatParam` / `AlphaParam` model such a type parameter together with its
 * value, and `FormatType` / `AlphaType` the type alone (what `Default` needs).
 */
module SnapshotTypes {
  datatype PixelFormat = RGBA | BGRA

  /** `#[default]` on `RGBA`. */
  const DEFAULT_PIXEL_FORMAT: PixelFormat := RGBA

  datatype AlphaMode =
    | Opaque
    | AsOpaque(premultiplied: bool)
    | Transparent(premultiplied: bool)

  /** `impl Default for AlphaMode`. */
  const DEFAULT_ALPHA_MODE: AlphaMode := Transparent(true)

  /** `pixels::Multiply`: what to do to the colour channels with respect to alpha. */
  datatype Multiply = None | PreMultiply | UnMultiply

  /** `AlphaMode::is_premultiplied`: opaque data counts as premultiplied. */
  predicate IsPremultiplied(mode: AlphaMode)
  {
    match mode
    case Opaque => true
    case AsOpaque(p) => p
    case Transparent(p) => p
  }

  /** `AlphaMode::is_opaque`. */
  predicate IsOpaque(mode: AlphaMode)
  {
    mode.Opaque? || mode.AsOpaque?
  }

  lemma AlphaModeQueries(mode: AlphaMode)
    ensures IsPremultiplied(mode) <==> mode.Opaque? || mode.premultiplied
    ensures IsOpaque(mode) <==> !mode.Transparent?
    ensures IsOpaque(DEFAULT_ALPHA_MODE) == false && IsPremultiplied(DEFAULT_ALPHA_MODE)
  {
  }

  /** The (swap_rb, multiply, clear_alpha) triple of `to_target_parameters`. */
  datatype TargetParameters = TargetParameters(swapRb: bool, multiply: Multiply, clearAlpha: bool)

  /** `to_target_parameters`. */
  function ToTargetParameters(format: PixelFormat, targetFormat: PixelFormat,
                              alphaMode: AlphaMode, targetAlphaMode: AlphaMode): (r: TargetParameters)
    ensures r.swapRb <==> format != targetFormat
    ensures r.clearAlpha <==> !alphaMode.Opaque? && targetAlphaMode.Opaque?
    ensures alphaMode.Opaque? ==> r.multiply.None?
  {
    var swapRb := !((format.RGBA? && targetFormat.RGBA?) || (format.BGRA? && targetFormat.BGRA?));
    var multiply :=
      if alphaMode.Opaque? then None
      else if targetAlphaMode.Opaque? then
        (if IsPremultiplied(alphaMode) then UnMultiply else None)
      else if alphaMode.premultiplied == targetAlphaMode.premultiplied then None
      else if targetAlphaMode.premultiplied then PreMultiply
      else UnMultiply;
    var clearAlpha := !alphaMode.Opaque? && targetAlphaMode.Opaque?;
    TargetParameters(swapRb, multiply, clearAlpha)
  }

  /**
   * Reference meaning of `Multiply`: whether colour channels are stored
   * premultiplied by alpha after the step, given whether they were before.
   */
  predicate PremultipliedAfter(m: Multiply, before: bool)
  {
    match m
    case None => before
    case PreMultiply => true
    case UnMultiply => false
  }

  /**
   * The table is correct: between two non-opaque modes the data ends up
   * premultiplied exactly when the target mode is, and each step that is
   * taken is needed (None exactly when the flags already agree).
   */
  lemma MultiplyReachesTargetPremultiplication(format: PixelFormat, targetFormat: PixelFormat,
                                               alphaMode: AlphaMode, targetAlphaMode: AlphaMode)
    requires !alphaMode.Opaque? && !targetAlphaMode.Opaque?
    ensures var r := ToTargetParameters(format, targetFormat, alphaMode, targetAlphaMode);
      && PremultipliedAfter(r.multiply, IsPremultiplied(alphaMode)) == IsPremultiplied(targetAlphaMode)
      && (r.multiply.None? <==> IsPremultiplied(alphaMode) == IsPremultiplied(targetAlphaMode))
      && (r.multiply.PreMultiply? <==> !IsPremultiplied(alphaMode) && IsPremultiplied(targetAlphaMode))
      && !r.clearAlpha
  {
  }

  /**
   * Going from a non-opaque mode to `Opaque`: colours are first brought to
   * straight (non-premultiplied) form, then alpha is cleared; UnMultiply is
   * chosen exactly when the source was premultiplied.
   */
  lemma ToOpaqueUnmultipliesThenClears(format: PixelFormat, targetFormat: PixelFormat,
                                       alphaMode: AlphaMode)
    requires !alphaMode.Opaque?
    ensures var r := ToTargetParameters(format, targetFormat, alphaMode, Opaque);
      && !PremultipliedAfter(r.multiply, IsPremultiplied(alphaMode))
      && (r.multiply.UnMultiply? <==> IsPremultiplied(alphaMode))
      && (r.multiply.None? <==> !IsPremultiplied(alphaMode))
      && r.clearAlpha
  {
  }

  /** Opaque data needs nothing but a possible channel swap, whatever the target. */
  lemma OpaqueSourceOnlySwaps(format: PixelFormat, targetFormat: PixelFormat, targetAlphaMode: AlphaMode)
    ensures ToTargetParameters(format, targetFormat, Opaque, targetAlphaMode)
         == TargetParameters(format != targetFormat, None, false)
  {
  }

  /** Converting to the same format and mode does nothing: (false, None, false). */
  lemma IdentityConversionIsNoOp(format: PixelFormat, alphaMode: AlphaMode)
    ensures ToTargetParameters(format, format, alphaMode, alphaMode) == TargetParameters(false, None, false)
  {
  }

  /** A format type parameter `P: PixelFormatTrait`: `PixelFormat` itself, or a `ConstPixelFormat` struct. */
  datatype FormatType = PixelFormatType | ConstFormatType(pixelFormat: PixelFormat)

  /** A value of such a type: a run-time format, or the unit struct of a constant format. */
  datatype FormatParam = DynamicFormat(value: PixelFormat) | ConstFormat(constant: PixelFormat)

  function TypeOfFormat(p: FormatParam): FormatType
  {
    match p
    case DynamicFormat(_) => PixelFormatType
    case ConstFormat(f) => ConstFormatType(f)
  }

  /** `PixelFormatTrait::format`: the value itself, or the type's `PIXEL_FORMAT`. */
  function ReportedFormat(p: FormatParam): PixelFormat
  {
    match p
    case DynamicFormat(f) => f
    case ConstFormat(f) => f
  }

  /** `P::default()`. */
  function DefaultFormat(t: FormatType): (p: FormatParam)
    ensures TypeOfFormat(p) == t
    ensures ReportedFormat(p) == if t.PixelFormatType? then DEFAULT_PIXEL_FORMAT else t.pixelFormat
  {
    match t
    case PixelFormatType => DynamicFormat(DEFAULT_PIXEL_FORMAT)
    case ConstFormatType(f) => ConstFormat(f)
  }

  /** An alpha-mode type parameter `A: AlphaModeTrait`: `AlphaMode` itself, or `Opaque` / `AsOpaque<P>` / `Transparent<P>`. */
  datatype AlphaType = AlphaModeType | ConstAlphaType(alphaMode: AlphaMode)

  datatype AlphaParam = DynamicAlpha(value: AlphaMode) | ConstAlpha(constant: AlphaMode)

  function TypeOfAlpha(p: AlphaParam): AlphaType
  {
    match p
    case DynamicAlpha(_) => AlphaModeType
    case ConstAlpha(a) => ConstAlphaType(a)
  }

  /** `AlphaModeTrait::alpha_mode`: the value itself, or the type's `ALPHA_MODE`. */
  function ReportedAlphaMode(p: AlphaParam): AlphaMode
  {
    match p
    case DynamicAlpha(a) => a
    case ConstAlpha(a) => a
  }

  /** `A::default()`. */
  function DefaultAlpha(t: AlphaType): (p: AlphaParam)
    ensures TypeOfAlpha(p) == t
    ensures ReportedAlphaMode(p) == if t.AlphaModeType? then DEFAULT_ALPHA_MODE else t.alphaMode
  {
    match t
    case AlphaModeType => DynamicAlpha(DEFAULT_ALPHA_MODE)
    case ConstAlphaType(a) => ConstAlpha(a)
  }
}
