/** Processing of one file: read its bytes, classify it as empty, binary,
    text or undecodable, and build the record the report is made from.
    Reading the file is an input: either its bytes or the OS error the
    read raised. */
module FileProcessor {
  import opened Common
  import opened Paths
  import opened TextCodecs
  import opened LineEndings

  datatype FileStatus = TextContent | BinaryFile | ReadError | SkippedAccessError

  datatype ProcessedFileData = ProcessedFileData(
    path: Path,
    relativePath: Path,
    status: FileStatus,
    content: Option<string>,
    errorMessage: Option<string>,
    encodingUsed: Option<string>)

  /** An `OSError` raised by the read: its class name and its `str()`. */
  datatype OsError = OsError(kind: string, text: string)

  /** What `process_file` lets escape when `stop_on_error` is set. */
  datatype Raised = RaisedOsError(os: OsError) | RaisedDecodeError(decode: DecodeError)

  datatype Encoding = Utf8 | Cp1252

  const TextEncodingsToTry: seq<Encoding> := [Utf8, Cp1252]
  const BinaryDetectionChunkSize: nat := 4096
  const NullByteThresholdPercent: nat := 10

  function EncodingName(e: Encoding): string
  {
    match e
    case Utf8 => "utf-8"
    case Cp1252 => "cp1252"
  }

  function Decode(e: Encoding, bs: seq<byte>): Result<string, DecodeError>
  {
    match e
    case Utf8 => DecodeUtf8(bs)
    case Cp1252 => DecodeCp1252(bs)
  }

  /** The record is consistent: text has content and an encoding and no
      error; binary files carry nothing; failures carry only a message. */
  predicate WellFormed(d: ProcessedFileData)
  {
    match d.status
    case TextContent => d.content.Some? && d.encodingUsed.Some? && d.errorMessage.None?
    case BinaryFile => d.content.None? && d.encodingUsed.None? && d.errorMessage.None?
    case ReadError => d.content.None? && d.encodingUsed.None? && d.errorMessage.Some?
    case SkippedAccessError => d.content.None? && d.encodingUsed.None? && d.errorMessage.Some?
  }

  // ---------------------------------------------------------------------
  // Binary detection
  // ---------------------------------------------------------------------

  function CountNulls(bs: seq<byte>): (n: nat)
    ensures n <= |bs|
    decreases |bs|
  {
    if bs == [] then 0 else (if bs[0] == 0 then 1 else 0) + CountNulls(bs[1..])
  }

  /** `_is_likely_binary_by_nulls`: more than ten per cent of the bytes are
      NUL. The source divides in floating point; for chunks of at most 4096
      bytes the comparison agrees with this exact one. */
  function IsLikelyBinaryByNulls(chunk: seq<byte>): (r: bool)
    ensures chunk == [] ==> !r
    ensures r <==> 10 * CountNulls(chunk) > |chunk|
  {
    if chunk == [] then false
    else CountNulls(chunk) * 100 > NullByteThresholdPercent * |chunk|
  }

  lemma {:induction false} NoNullsCountZero(bs: seq<byte>)
    requires forall i :: 0 <= i < |bs| ==> bs[i] != 0
    ensures CountNulls(bs) == 0
    decreases |bs|
  {
    if bs != [] {
      NoNullsCountZero(bs[1..]);
    }
  }

  lemma {:induction false} AllNullsCountAll(bs: seq<byte>)
    requires forall i :: 0 <= i < |bs| ==> bs[i] == 0
    ensures CountNulls(bs) == |bs|
    decreases |bs|
  {
    if bs != [] {
      AllNullsCountAll(bs[1..]);
    }
  }

  /** A chunk without NUL bytes never looks binary; a non-empty chunk made
      only of NUL bytes always does. */
  lemma NullExtremes(bs: seq<byte>)
    ensures (forall i :: 0 <= i < |bs| ==> bs[i] != 0) ==> !IsLikelyBinaryByNulls(bs)
    ensures bs != [] && (forall i :: 0 <= i < |bs| ==> bs[i] == 0) ==> IsLikelyBinaryByNulls(bs)
  {
    if forall i :: 0 <= i < |bs| ==> bs[i] != 0 {
      NoNullsCountZero(bs);
    }
    if forall i :: 0 <= i < |bs| ==> bs[i] == 0 {
      AllNullsCountAll(bs);
    }
  }

  /** Exactly ten per cent is not enough: one NUL among ten bytes is text. */
  /** The ten per cent threshold is strict: exactly one NUL in ten bytes is
      not binary, anything above is. */
  lemma ThresholdIsStrict(chunk: seq<byte>)
    ensures 10 * CountNulls(chunk) <= |chunk| ==> !IsLikelyBinaryByNulls(chunk)
    ensures 10 * CountNulls(chunk) > |chunk| ==> IsLikelyBinaryByNulls(chunk)
  {
  }

  /** One NUL among ten bytes is not binary; one among nine is. */
  lemma OneNulInTenOrNine()
    ensures !IsLikelyBinaryByNulls([0, 65, 65, 65, 65, 65, 65, 65, 65, 65])
    ensures IsLikelyBinaryByNulls([0, 65, 65, 65, 65, 65, 65, 65, 65])
  {
    var ten: seq<byte> := [0, 65, 65, 65, 65, 65, 65, 65, 65, 65];
    var nine: seq<byte> := [0, 65, 65, 65, 65, 65, 65, 65, 65];
    NoNullsCountZero(ten[1..]);
    NoNullsCountZero(nine[1..]);
  }

  // ---------------------------------------------------------------------
  // Decoding
  // ---------------------------------------------------------------------

  /** `_try_decode_bytes`: the first encoding that decodes strictly wins and
      its text is returned with line endings normalised; when none does,
      the error of the last attempt is returned. */
  method TryDecodeBytes(fileBytes: seq<byte>) returns (content: Option<string>, encoding: Option<string>, lastError: Option<DecodeError>)
    ensures content.Some? <==> encoding.Some?
    ensures content.Some? ==> lastError.None?
    ensures DecodeUtf8(fileBytes).Ok? ==>
      content == Some(Normalize(DecodeUtf8(fileBytes).value)) && encoding == Some("utf-8")
    ensures DecodeUtf8(fileBytes).Err? && DecodeCp1252(fileBytes).Ok? ==>
      content == Some(Normalize(DecodeCp1252(fileBytes).value)) && encoding == Some("cp1252")
    ensures DecodeUtf8(fileBytes).Err? && DecodeCp1252(fileBytes).Err? ==>
      content.None? && lastError == Some(DecodeCp1252(fileBytes).error)
  {
    lastError := None;
    assert TextEncodingsToTry[0] == Utf8 && TextEncodingsToTry[1] == Cp1252;
    for i := 0 to |TextEncodingsToTry|
      invariant forall j :: 0 <= j < i ==> Decode(TextEncodingsToTry[j], fileBytes).Err?
      invariant lastError == if i == 0 then None else Some(Decode(TextEncodingsToTry[i - 1], fileBytes).error)
    {
      var enc := TextEncodingsToTry[i];
      match Decode(enc, fileBytes) {
        case Ok(decoded) =>
          assert i == 1 ==> DecodeUtf8(fileBytes).Err? && decoded == DecodeCp1252(fileBytes).value;
          return Some(Normalize(decoded)), Some(EncodingName(enc)), None;
        case Err(e) =>
          lastError := Some(e);
      }
    }
    return None, None, lastError;
  }

  /** Text is undecodable only if it is not UTF-8 and holds a byte cp1252
      leaves undefined. */
  lemma UndecodableMeansUndefinedByte(bs: seq<byte>)
    requires DecodeUtf8(bs).Err? && DecodeCp1252(bs).Err?
    ensures exists i :: 0 <= i < |bs| && Cp1252Undefined(bs[i])
  {
    DecodeCp1252Err(bs);
    var p := DecodeCp1252(bs).error.start;
    assert Cp1252Undefined(bs[p]);
  }

  /** The text of a string stored as UTF-8 is that string with its line
      endings normalised. */
  lemma Utf8TextDecodes(s: string)
    ensures DecodeUtf8(EncodeUtf8(s)).Ok?
    ensures Normalize(DecodeUtf8(EncodeUtf8(s)).value) == Normalize(s)
  {
    DecodeEncodeUtf8(s);
  }

  /** `", ".join(TEXT_ENCODINGS_TO_TRY)`. */
  function EncodingsTried(): (r: string)
    ensures r == "utf-8, cp1252"
  {
    var parts := [EncodingName(TextEncodingsToTry[0]), EncodingName(TextEncodingsToTry[1])];
    assert parts[0] == "utf-8" && parts[1..] == ["cp1252"];
    assert Join(parts[1..], ", ") == "cp1252";
    var r := Join(parts, ", ");
    assert r == "utf-8" + ", " + "cp1252";
    assert forall i :: 0 <= i < 13 ==> r[i] == "utf-8, cp1252"[i];
    r
  }

  /** The message of a `read_error` record after every encoding failed. */
  const DecodeFailureHead: string := "Failed to decode as text using [utf-8, cp1252]."

  function DecodeFailureMessage(decodeError: Option<DecodeError>): (m: string)
    ensures StartsWith(m, DecodeFailureHead)
    ensures decodeError.None? ==> m == DecodeFailureHead
    ensures decodeError.Some? ==>
      m == DecodeFailureHead + " Last error (UnicodeDecodeError): " + DecodeErrorText(decodeError.value)
  {
    var head := "Failed to decode as text using [" + EncodingsTried() + "].";
    assert head == "Failed to decode as text using [" + "utf-8, cp1252" + "].";
    assert forall i :: 0 <= i < |DecodeFailureHead| ==> head[i] == DecodeFailureHead[i];
    assert head == DecodeFailureHead;
    var m :=
      if decodeError.Some? then head + " Last error (UnicodeDecodeError): " + DecodeErrorText(decodeError.value)
      else head;
    assert m[..|head|] == head;
    m
  }

  /** `_handle_decode_failure`: re-raise the last decode error when asked
      to stop on errors, otherwise a `read_error` record whose message
      names the encodings tried and, when there is one, the last error. */
  function HandleDecodeFailure(filePath: Path, relative: Path, decodeError: Option<DecodeError>, stopOnError: bool): (r: Result<ProcessedFileData, Raised>)
    ensures stopOnError && decodeError.Some? ==> r == Err(RaisedDecodeError(decodeError.value))
    ensures !(stopOnError && decodeError.Some?) ==>
      r.Ok? && WellFormed(r.value) && r.value.status == ReadError
      && r.value.path == filePath && r.value.relativePath == relative
      && r.value.errorMessage == Some(DecodeFailureMessage(decodeError))
  {
    if stopOnError && decodeError.Some? then Err(RaisedDecodeError(decodeError.value))
    else Ok(ProcessedFileData(filePath, relative, ReadError, None, Some(DecodeFailureMessage(decodeError)), None))
  }

  // ---------------------------------------------------------------------
  // One file
  // ---------------------------------------------------------------------

  /** `file_path.relative_to(cli_project_path)`, or just the file's name
      when it does not lie under the project path. */
  function RelativeTo(filePath: Path, cli: Path): (r: Path)
    ensures StartsWith(filePath, cli) ==> cli + r == filePath
    ensures !StartsWith(filePath, cli) ==> r == [Name(filePath)]
  {
    if StartsWith(filePath, cli) then
      assert filePath == filePath[..|cli|] + filePath[|cli|..];
      filePath[|cli|..]
    else [Name(filePath)]
  }

  function OsErrorMessage(e: OsError): string
  {
    "OS error accessing file: " + e.kind + ": " + e.text
  }

  function Min(a: nat, b: nat): nat
  {
    if a <= b then a else b
  }

  /** `process_file`. `read` is the outcome of reading the whole file. */
  method ProcessFile(filePath: Path, cli: Path, read: Result<seq<byte>, OsError>, stopOnError: bool)
    returns (r: Result<ProcessedFileData, Raised>)
    ensures r.Ok? ==> WellFormed(r.value) && r.value.path == filePath && r.value.relativePath == RelativeTo(filePath, cli)
    ensures read.Err? ==>
      if stopOnError then r == Err(RaisedOsError(read.error))
      else r.Ok? && r.value.status == SkippedAccessError && r.value.errorMessage == Some(OsErrorMessage(read.error))
    ensures read.Ok? && read.value == [] ==>
      r.Ok? && r.value.status == TextContent && r.value.content == Some("") && r.value.encodingUsed == Some("utf-8")
    ensures read.Ok? && read.value != [] ==>
      var bs := read.value;
      if IsLikelyBinaryByNulls(bs[..Min(|bs|, BinaryDetectionChunkSize)]) then
        r.Ok? && r.value.status == BinaryFile
      else if DecodeUtf8(bs).Ok? then
        r.Ok? && r.value.status == TextContent && r.value.content == Some(Normalize(DecodeUtf8(bs).value))
        && r.value.encodingUsed == Some("utf-8")
      else if DecodeCp1252(bs).Ok? then
        r.Ok? && r.value.status == TextContent && r.value.content == Some(Normalize(DecodeCp1252(bs).value))
        && r.value.encodingUsed == Some("cp1252")
      else if stopOnError then
        r == Err(RaisedDecodeError(DecodeCp1252(bs).error))
      else
        r.Ok? && r.value.status == ReadError
        && r.value.errorMessage == Some(DecodeFailureMessage(Some(DecodeCp1252(bs).error)))
  {
    var relative := RelativeTo(filePath, cli);

    // 1. Read the bytes.
    if read.Err? {
      if stopOnError {
        return Err(RaisedOsError(read.error));
      }
      return Ok(ProcessedFileData(filePath, relative, SkippedAccessError, None, Some(OsErrorMessage(read.error)), None));
    }
    var fileBytes := read.value;

    // 2. An empty file is empty text.
    if fileBytes == [] {
      return Ok(ProcessedFileData(filePath, relative, TextContent, Some(""), None, Some(EncodingName(TextEncodingsToTry[0]))));
    }

    // 3. Binary check on the first chunk.
    if IsLikelyBinaryByNulls(fileBytes[..Min(|fileBytes|, BinaryDetectionChunkSize)]) {
      return Ok(ProcessedFileData(filePath, relative, BinaryFile, None, None, None));
    }

    // 4. Decode.
    var content, encodingUsed, decodeError := TryDecodeBytes(fileBytes);
    if content.Some? && encodingUsed.Some? {
      return Ok(ProcessedFileData(filePath, relative, TextContent, content, None, encodingUsed));
    }

    // 5. Decoding failed.
    r := HandleDecodeFailure(filePath, relative, decodeError, stopOnError);
  }
}
