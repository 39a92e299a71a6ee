/*
 * `ShaderCompilationInfo::from` (components/webgpu/ipc_messages/to_dom.rs):
 * the shader compiler reports where an error is as a byte offset and byte
 * length into the UTF-8 source, while WebGPU's GPUCompilationMessage wants
 * positions in UTF-16 code units.
 *
 * The source text is a sequence of Unicode scalar values (Dafny `char`);
 * each has a UTF-8 width (RFC 3629, section 3) and a UTF-16 width
 * (RFC 2781, section 2.1).  A byte offset names a position in the text
 * only when it falls on a character boundary: Rust's `&source[a..b]`
 * panics otherwise, or when it runs past the end, and that panic is the
 * `Err(SlicePanic)` outcome here.
 */
module ShaderInfo {
  import opened Wrappers

  /** Bytes UTF-8 needs for one scalar value. */
  function Utf8Width(c: char): (w: nat)
    ensures 1 <= w <= 4
  {
    if c as int < 0x80 then 1
    else if c as int < 0x800 then 2
    else if c as int < 0x1_0000 then 3
    else 4
  }

  /** `char::len_utf16`: code units UTF-16 needs for one scalar value (2 for a surrogate pair). */
  function Utf16Width(c: char): (w: nat)
    ensures 1 <= w <= 2
  {
    if c as int < 0x1_0000 then 1 else 2
  }

  /** `str::len`: the UTF-8 length of a text in bytes. */
  function Utf8Len(s: seq<char>): nat
  {
    if s == [] then 0 else Utf8Width(s[0]) + Utf8Len(s[1..])
  }

  /** `len_utf16`: the sum of the characters' UTF-16 widths. */
  function Utf16Len(s: seq<char>): nat
  {
    if s == [] then 0 else Utf16Width(s[0]) + Utf16Len(s[1..])
  }

  lemma {:induction false} Utf8LenAppend(a: seq<char>, b: seq<char>)
    ensures Utf8Len(a + b) == Utf8Len(a) + Utf8Len(b)
  {
    if a != [] {
      assert (a + b)[0] == a[0];
      assert (a + b)[1..] == a[1..] + b;
      Utf8LenAppend(a[1..], b);
    } else {
      assert a + b == b;
    }
  }

  /** `len_utf16` is additive: the length of a concatenation is the sum of the lengths. */
  lemma {:induction false} Utf16LenAppend(a: seq<char>, b: seq<char>)
    ensures Utf16Len(a + b) == Utf16Len(a) + Utf16Len(b)
  {
    if a != [] {
      assert (a + b)[0] == a[0];
      assert (a + b)[1..] == a[1..] + b;
      Utf16LenAppend(a[1..], b);
    } else {
      assert a + b == b;
    }
  }

  /** A text never needs more UTF-16 code units than UTF-8 bytes, and as many when it is ASCII. */
  lemma {:induction false} Utf16LenAtMostUtf8Len(s: seq<char>)
    ensures Utf16Len(s) <= Utf8Len(s)
    ensures (forall k :: 0 <= k < |s| ==> s[k] as int < 0x80) ==> Utf16Len(s) == Utf8Len(s) == |s|
  {
    if s != [] {
      Utf16LenAtMostUtf8Len(s[1..]);
      if forall k :: 0 <= k < |s| ==> s[k] as int < 0x80 {
        assert forall k :: 0 <= k < |s[1..]| ==> s[1..][k] as int < 0x80 by {
          forall k | 0 <= k < |s[1..]| ensures s[1..][k] as int < 0x80 {
            assert s[1..][k] == s[k + 1];
          }
        }
      }
    }
  }

  /** Splitting a prefix off at its first character. */
  lemma PrefixAfterFirst(s: seq<char>, i: nat)
    requires 1 <= i <= |s|
    ensures s[..i] == [s[0]] + s[1..][..i - 1]
  {
  }

  /**
   * The character index a byte offset names: `Some(i)` when the first `i`
   * characters take exactly `b` bytes, `None` when `b` is not a character
   * boundary of `s` (inside a character or past the end).
   */
  function CharIndexOfByte(s: seq<char>, b: nat): (r: Option<nat>)
    ensures r.Some? ==> r.value <= |s| && Utf8Len(s[..r.value]) == b
    ensures r.None? ==> forall i :: 0 <= i <= |s| ==> Utf8Len(s[..i]) != b
  {
    if b == 0 then
      assert Utf8Len(s[..0]) == 0;
      Some(0)
    else if s == [] then None
    else if b < Utf8Width(s[0]) then
      assert forall i :: 1 <= i <= |s| ==> Utf8Len(s[..i]) != b by {
        forall i | 1 <= i <= |s| ensures Utf8Len(s[..i]) != b {
          PrefixAfterFirst(s, i);
          Utf8LenAppend([s[0]], s[1..][..i - 1]);
        }
      }
      None
    else
      var rest := CharIndexOfByte(s[1..], b - Utf8Width(s[0]));
      if rest.None? then
        assert forall i :: 1 <= i <= |s| ==> Utf8Len(s[..i]) != b by {
          forall i | 1 <= i <= |s| ensures Utf8Len(s[..i]) != b {
            PrefixAfterFirst(s, i);
            Utf8LenAppend([s[0]], s[1..][..i - 1]);
          }
        }
        None
      else
        PrefixAfterFirst(s, rest.value + 1);
        Utf8LenAppend([s[0]], s[1..][..rest.value]);
        Some(rest.value + 1)
  }

  /**
   * `source[0..start].rfind('\n').map(|pos| pos + 1).unwrap_or(0)`, on
   * characters: one past the last newline before character `i`, or 0.  A
   * newline byte never occurs inside a multi-byte UTF-8 sequence, so the
   * byte search and the character search find the same newline.
   */
  function LineStart(s: seq<char>, i: nat): (r: nat)
    requires i <= |s|
    ensures r <= i
    ensures forall k :: r <= k < i ==> s[k] != '\n'
    ensures r == 0 || s[r - 1] == '\n'
  {
    if i == 0 then 0
    else if s[i - 1] == '\n' then i
    else LineStart(s, i - 1)
  }

  /** naga's `SourceLocation`: the compiler's 1-based line number and a byte span. */
  datatype SourceLocation = SourceLocation(lineNumber: nat, offset: nat, length: nat)

  /** `CreateShaderModuleError`: parsing and validation errors may carry a location. */
  datatype CreateShaderModuleError =
    | Parsing(parseLocation: Option<SourceLocation>, parseMessage: string)
    | Validation(validationLocation: Option<SourceLocation>, validationMessage: string)
    | OtherError(otherMessage: string)

  /** The error's `location(source)`, or `None` for the other kinds. */
  function Location(error: CreateShaderModuleError): Option<SourceLocation>
  {
    match error
    case Parsing(loc, _) => loc
    case Validation(loc, _) => loc
    case OtherError(_) => None
  }

  /** `error.to_string()`. */
  function Message(error: CreateShaderModuleError): string
  {
    match error
    case Parsing(_, m) => m
    case Validation(_, m) => m
    case OtherError(m) => m
  }

  datatype ShaderCompilationInfo = ShaderCompilationInfo(
    lineNumber: nat, linePos: nat, offset: nat, length: nat, message: string)

  /** Slicing the source at a byte offset that is not a character boundary. */
  datatype SlicePanic = SlicePanic

  /** `ShaderCompilationInfo::from`. */
  function From(error: CreateShaderModuleError, source: seq<char>): (r: Result<ShaderCompilationInfo, SlicePanic>)
    ensures Location(error).None? ==> r == Ok(ShaderCompilationInfo(0, 0, 0, 0, Message(error)))
    ensures r.Err? <==> (Location(error).Some? &&
                         (CharIndexOfByte(source, Location(error).value.offset).None? ||
                          CharIndexOfByte(source, Location(error).value.offset + Location(error).value.length).None?))
    ensures r.Ok? ==> r.value.message == Message(error)
  {
    match Location(error)
    case None => Ok(ShaderCompilationInfo(0, 0, 0, 0, Message(error)))
    case Some(location) =>
      var startByte := location.offset;
      var endByte := startByte + location.length;
      match CharIndexOfByte(source, startByte)
      case None => Err(SlicePanic)
      case Some(start) =>
        match CharIndexOfByte(source, endByte)
        case None => Err(SlicePanic)
        case Some(end) =>
          Utf8LenMonotone(source, start, end);
          var lineStart := LineStart(source, start);
          Ok(ShaderCompilationInfo(
            location.lineNumber,
            Utf16Len(source[lineStart..start]) + 1,
            Utf16Len(source[..start]),
            Utf16Len(source[start..end]),
            Message(error)))
  }

  /** Byte offsets that both fall on character boundaries. */
  lemma EndFollowsStart(source: seq<char>, start: nat, end: nat, startByte: nat, length: nat)
    requires start <= |source| && end <= |source|
    requires Utf8Len(source[..start]) == startByte && Utf8Len(source[..end]) == startByte + length
    ensures start <= end
    ensures Utf8Len(source[start..end]) == length
  {
    Utf8LenMonotone(source, start, end);
    assert source[..end] == source[..start] + source[start..end];
    Utf8LenAppend(source[..start], source[start..end]);
  }

  /**
   * What the reported positions mean, for a location on character
   * boundaries at characters `start` and `end`: `offset` counts the UTF-16
   * units before the error, `length` those inside it, `line_pos` is the
   * 1-based UTF-16 column after the last newline, and `offset` splits as
   * the units up to the line start plus `line_pos - 1`.
   */
  lemma {:induction false} FromReportsUtf16Positions(error: CreateShaderModuleError, source: seq<char>,
                                                     start: nat, end: nat)
    requires Location(error).Some?
    requires start <= |source| && end <= |source|
    requires Utf8Len(source[..start]) == Location(error).value.offset
    requires Utf8Len(source[..end]) == Location(error).value.offset + Location(error).value.length
    ensures start <= end
    ensures var r := From(error, source);
      var lineStart := LineStart(source, start);
      && r.Ok?
      && r.value.lineNumber == Location(error).value.lineNumber
      && r.value.offset == Utf16Len(source[..start])
      && r.value.length == Utf16Len(source[start..end])
      && r.value.linePos == Utf16Len(source[lineStart..start]) + 1
      && r.value.linePos >= 1
      && r.value.offset == Utf16Len(source[..lineStart]) + r.value.linePos - 1
  {
    var location := Location(error).value;
    EndFollowsStart(source, start, end, location.offset, location.length);
    CharIndexUnique(source, start, location.offset);
    CharIndexUnique(source, end, location.offset + location.length);
    var lineStart := LineStart(source, start);
    var info := ShaderCompilationInfo(location.lineNumber, Utf16Len(source[lineStart..start]) + 1,
                                      Utf16Len(source[..start]), Utf16Len(source[start..end]), Message(error));
    assert From(error, source) == Ok(info);
    assert source[..start] == source[..lineStart] + source[lineStart..start];
    Utf16LenAppend(source[..lineStart], source[lineStart..start]);
  }

  /** The UTF-8 length grows strictly with the prefix, so a boundary names one index. */
  lemma {:induction false} Utf8LenStrictlyMonotone(s: seq<char>, i: nat, j: nat)
    requires i < j <= |s|
    ensures Utf8Len(s[..i]) < Utf8Len(s[..j])
  {
    assert s[..j] == s[..i] + s[i..j];
    Utf8LenAppend(s[..i], s[i..j]);
    assert s[i..j] != [];
  }

  /** Prefixes compare by UTF-8 length exactly as they compare by character count. */
  lemma Utf8LenMonotone(s: seq<char>, i: nat, j: nat)
    requires i <= |s| && j <= |s|
    ensures i < j <==> Utf8Len(s[..i]) < Utf8Len(s[..j])
    ensures i == j <==> Utf8Len(s[..i]) == Utf8Len(s[..j])
  {
    if i < j {
      Utf8LenStrictlyMonotone(s, i, j);
    } else if j < i {
      Utf8LenStrictlyMonotone(s, j, i);
    }
  }

  lemma CharIndexUnique(s: seq<char>, i: nat, b: nat)
    requires i <= |s| && Utf8Len(s[..i]) == b
    ensures CharIndexOfByte(s, b) == Some(i)
  {
    var r := CharIndexOfByte(s, b);
    assert r.Some?;
    Utf8LenMonotone(s, r.value, i);
  }

  /** For an all-ASCII source UTF-16 positions equal byte positions. */
  lemma AsciiPositionsAreByteOffsets(error: CreateShaderModuleError, source: seq<char>)
    requires forall k :: 0 <= k < |source| ==> source[k] as int < 0x80
    requires Location(error).Some?
    requires Location(error).value.offset + Location(error).value.length <= |source|
    ensures var r := From(error, source);
      r.Ok? && r.value.offset == Location(error).value.offset && r.value.length == Location(error).value.length
  {
    var location := Location(error).value;
    var start := location.offset;
    var end := location.offset + location.length;
    AsciiPrefix(source, start);
    AsciiPrefix(source, end);
    FromReportsUtf16Positions(error, source, start, end);
    var r := From(error, source);
    assert r.value.offset == Utf16Len(source[..start]) == start;
    assert source[..end] == source[..start] + source[start..end];
    Utf16LenAppend(source[..start], source[start..end]);
    assert r.value.length == Utf16Len(source[start..end]) == end - start;
  }

  lemma AsciiPrefix(source: seq<char>, i: nat)
    requires forall k :: 0 <= k < |source| ==> source[k] as int < 0x80
    requires i <= |source|
    ensures Utf8Len(source[..i]) == i && Utf16Len(source[..i]) == i
  {
    Utf16LenAtMostUtf8Len(source[..i]);
  }
}
