/**
 * The `FileUploadField` component: before handing a chosen file to its
 * parent it rejects files over 50 MiB, files shorter than 132 bytes and
 * files whose bytes 128..131 do not decode to "DICM", then parses the whole
 * file for the patient name.
 */
module FileUploadField {
  import opened Wrappers
  import opened Utf8
  import opened DicomPreamble
  import DicomFileGate

  const MAX_SIZE: nat := 50 * 1024 * 1024

  /** The string "DICM" as code points. */
  const DICM_TEXT: seq<int> := [0x44, 0x49, 0x43, 0x4D]

  const TOO_LARGE_ALERT: string := "El archivo es demasiado grande. El tamaño máximo permitido es 50MB."
  const TOO_SHORT_ALERT: string := "El archivo es demasiado corto y no es un DICOM válido."
  const NO_MARKER_ALERT: string := "El archivo no contiene la marca DICM y no es un archivo DICOM válido."
  const PARSE_ALERT: string := "Error al parsear el archivo. Por favor, intente nuevamente."

  /** A browser `File`: its name and contents (`file.size` is the number of bytes). */
  datatype File = File(name: string, bytes: seq<byte>)

  /** What `dicomParser.parseDicom` does with the whole file: it throws, or yields tag (0010,0010) if present. */
  datatype ParseResult = ParseFailed | Parsed(patientName: Option<string>)

  datatype Verdict = TooLarge | TooShort | NoDicmMarker | ParseError | Accepted(patientName: Option<string>)

  /** The checks of `handleFileChange`, in order, on a selected file. */
  function CheckFile(file: File, parse: ParseResult): (v: Verdict)
    ensures v == TooLarge <==> |file.bytes| > MAX_SIZE
    ensures v.Accepted? ==> parse == Parsed(v.patientName) && |file.bytes| >= PREFIX_END
    ensures v == ParseError ==> parse == ParseFailed
  {
    if |file.bytes| > MAX_SIZE then TooLarge
    else
      var head := Slice(file.bytes, 0, PREFIX_END);  // file.slice(0, 132)
      if |head| < 132 then TooShort
      else if Decode(Slice(head, PREAMBLE_LENGTH, PREFIX_END)) != DICM_TEXT then NoDicmMarker
      else match parse
        case ParseFailed => ParseError
        case Parsed(p) => Accepted(p)
  }

  /** A file passes the size test iff it has at most 50 MiB; exactly 50 MiB passes. */
  lemma SizeLimit(file: File, parse: ParseResult)
    ensures CheckFile(file, parse) == TooLarge <==> |file.bytes| > 50 * 1024 * 1024
  {
  }

  /**
   * Within the size limit, the marker checks of the front end accept exactly
   * the files with the DICOM PS3.10 signature, which are exactly the files the
   * back-end gate accepts.
   */
  lemma MarkerAgreesWithBackEnd(file: File, parse: ParseResult)
    requires |file.bytes| <= MAX_SIZE
    ensures !(CheckFile(file, parse) in {TooShort, NoDicmMarker}) <==> HasDicmPrefix(file.bytes)
    ensures HasDicmPrefix(file.bytes) <==> DicomFileGate.MagicMatches(file.bytes)
  {
    DicomFileGate.MagicMatchesIff(file.bytes);
    var head := Slice(file.bytes, 0, PREFIX_END);
    if |head| >= 132 {
      var marker := Slice(head, PREAMBLE_LENGTH, PREFIX_END);
      assert marker == file.bytes[PREAMBLE_LENGTH..PREFIX_END];
      assert AllAscii(DICM);
      assert AsCodePoints(DICM) == DICM_TEXT;
      DecodeEqualsAsciiIff(marker, DICM);
    }
  }

  /** Only the first 132 bytes decide the marker checks; the rest matters only to the parser. */
  lemma HeadDecides(f1: File, f2: File, parse: ParseResult)
    requires |f1.bytes| == |f2.bytes| <= MAX_SIZE
    requires |f1.bytes| >= PREFIX_END ==> f1.bytes[..PREFIX_END] == f2.bytes[..PREFIX_END]
    ensures CheckFile(f1, parse) == CheckFile(f2, parse)
  {
    if |f1.bytes| >= PREFIX_END {
      assert Slice(f1.bytes, 0, PREFIX_END) == f1.bytes[..PREFIX_END];
      assert Slice(f2.bytes, 0, PREFIX_END) == f2.bytes[..PREFIX_END];
    }
  }

  function AlertFor(v: Verdict): Option<string> {
    match v
    case TooLarge => Some(TOO_LARGE_ALERT)
    case TooShort => Some(TOO_SHORT_ALERT)
    case NoDicmMarker => Some(NO_MARKER_ALERT)
    case ParseError => Some(PARSE_ALERT)
    case Accepted(_) => None
  }

  /** The call `onFileUpload(file, name, patientName)`. */
  datatype Upload = Upload(file: File, fieldName: string, patientName: Option<string>)

  class FileUploadField {
    const name: string
    /** whether the parent passed `onFileRemove` */
    const hasRemoveHandler: bool
    /** the `fileName` state shown next to the input */
    var fileName: string
    /** the file the hidden `<input type="file">` holds; clearing its value empties it */
    var input: Option<File>

    constructor (name: string, hasRemoveHandler: bool)
      ensures this.name == name && this.hasRemoveHandler == hasRemoveHandler
      ensures fileName == "" && input == None
    {
      this.name := name;
      this.hasRemoveHandler := hasRemoveHandler;
      fileName := "";
      input := None;
    }

    /**
     * `handleFileChange` with both FileReader callbacks run to completion.
     * `selection` is `e.target.files`; the browser has already put its first
     * file in the input.
     */
    method HandleFileChange(selection: seq<File>, parse: ParseResult) returns (upload: Option<Upload>, alert: Option<string>)
      modifies this
      ensures selection == [] ==> upload == None && alert == None && fileName == "" && input == None
      ensures selection != [] ==>
        var v := CheckFile(selection[0], parse);
        && alert == AlertFor(v)
        && (v.Accepted? ==> upload == Some(Upload(selection[0], name, v.patientName))
                            && fileName == selection[0].name && input == Some(selection[0]))
        && (!v.Accepted? ==> upload == None && fileName == "" && input == None)
    {
      if |selection| == 0 {
        input := None;
        fileName := "";
        return None, None;
      }
      var file := selection[0];
      input := Some(file);
      if |file.bytes| > MAX_SIZE {
        input := None;
        fileName := "";
        return None, Some(TOO_LARGE_ALERT);
      }
      // first reader: the blob file.slice(0, 132)
      var result := Slice(file.bytes, 0, PREFIX_END);
      if |result| < 132 {
        input := None;
        fileName := "";
        return None, Some(TOO_SHORT_ALERT);
      }
      var preamble := Decode(Slice(result, PREAMBLE_LENGTH, PREFIX_END));
      if preamble != DICM_TEXT {
        input := None;
        fileName := "";
        return None, Some(NO_MARKER_ALERT);
      }
      // second reader: the whole file, then the parser
      match parse
      case ParseFailed =>
        input := None;
        fileName := "";
        return None, Some(PARSE_ALERT);
      case Parsed(patientName) =>
        fileName := file.name;
        return Some(Upload(file, name, patientName)), None;
    }

    /** `handleRemove`: clears the field and reports the removal to the parent when it listens. */
    method HandleRemove() returns (removed: Option<string>)
      modifies this
      ensures fileName == "" && input == None
      ensures removed == if hasRemoveHandler then Some(name) else None
    {
      fileName := "";
      input := None;
      removed := if hasRemoveHandler then Some(name) else None;
    }
  }
}
