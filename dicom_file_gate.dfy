/**
 * The upload gate `validateDICOMFiles`: the four required views must each
 * carry a file whose bytes 128..131 are "DICM" and whose SHA-256 is not a
 * known malicious hash; the optional tomosynthesis file is hash-checked only.
 */
module DicomFileGate {
  import opened Wrappers
  import opened Utf8
  import opened DicomPreamble

  datatype UploadedFile = UploadedFile(fieldname: string, buffer: seq<byte>)

  /**
   * `req.files`: absent, an array (from `upload.array`), or a record from
   * field name to the files uploaded under it.
   */
  datatype Files =
    | NoFiles
    | FileArray(list: seq<UploadedFile>)
    | FileFields(fields: map<string, seq<UploadedFile>>)

  /** The key an error body carries besides `error`, if any. */
  datatype Extra = NoExtra | Details(details: string) | HashOf(hash: string)

  /** A JSON error response `{error, ...extra}` with its status, or a call of `next()`. */
  datatype Verdict =
    | Respond(status: int, error: string, extra: Extra)
    | Next

  const REQUIRED_VIEWS: seq<string> := ["view1", "view2", "view3", "view4"]
  const TOMO: string := "tomo"

  /** SHA-256 is a parameter of the model: a function from file bytes to a hex digest. */
  type Hasher = seq<byte> -> string

  /** `isKnownMaliciousHash`: a placeholder that rejects no hash. */
  function IsKnownMaliciousHash(hash: string): (r: bool)
    ensures !r
  {
    false
  }

  function HexDigit(d: int): (c: char)
    requires 0 <= d < 16
    ensures '0' <= c <= '9' || 'a' <= c <= 'f'
  {
    if d < 10 then ('0' as int + d) as char else ('a' as int + d - 10) as char
  }

  /** `buffer.toString('hex')`: two lower-case hex digits per byte, high nibble first. */
  function Hex(bs: seq<byte>): (h: string)
    ensures |h| == 2 * |bs|
    ensures forall i :: 0 <= i < |h| ==> '0' <= h[i] <= '9' || 'a' <= h[i] <= 'f'
  {
    if bs == [] then ""
    else [HexDigit(bs[0] as int / 16), HexDigit(bs[0] as int % 16)] + Hex(bs[1..])
  }

  /** A file that does carry the signature would be reported as "4449434d". */
  lemma HexOfSignature()
    ensures Hex(DICM) == "4449434d"
  {
    var d, c, i, m: seq<byte> := [0x44], [0x43], [0x49], [0x4D];
    assert Hex(m) == "4d" by { assert HexDigit(4) == '4' && HexDigit(13) == 'd'; }
    assert Hex(c + m) == "43" + Hex(m) by { assert (c + m)[1..] == m; assert HexDigit(3) == '3'; }
    assert Hex(i + c + m) == "49" + Hex(c + m) by { assert (i + c + m)[1..] == c + m; assert HexDigit(9) == '9'; }
    assert Hex(d + i + c + m) == "44" + Hex(i + c + m) by { assert (d + i + c + m)[1..] == i + c + m; }
    assert DICM == d + i + c + m;
  }

  /** What the 400 body's `details` reports for a file without the signature. */
  function MagicDetails(buffer: seq<byte>): string {
    "Magic number encontrado: " + Hex(Slice(buffer, PREAMBLE_LENGTH, PREFIX_END))
  }

  /** `files[view]?.[0]` */
  function FirstFile(fields: map<string, seq<UploadedFile>>, view: string): Option<UploadedFile> {
    if view in fields && |fields[view]| > 0 then Some(fields[view][0]) else None
  }

  /** `fileMagic.equals(DICOM_MAGIC_NUMBER)` with `fileMagic = buffer.slice(128, 132)`. */
  predicate MagicMatches(buffer: seq<byte>) {
    Slice(buffer, PREAMBLE_LENGTH, PREFIX_END) == DICM
  }

  /** The slice comparison accepts exactly the buffers with the PS3.10 signature. */
  lemma MagicMatchesIff(buffer: seq<byte>)
    ensures MagicMatches(buffer) <==> HasDicmPrefix(buffer)
  {
    if |buffer| < PREFIX_END {
      assert |Slice(buffer, PREAMBLE_LENGTH, PREFIX_END)| < 4;
    }
  }

  /** The loop over the required views, from the given position on; the first failing view decides. */
  function CheckViews(fields: map<string, seq<UploadedFile>>, views: seq<string>, sha256: Hasher): (v: Verdict)
    ensures v.Respond? ==> v.status == 400 || v.status == 403
    ensures v.Respond? ==> (v.status == 403 <==> v.extra.HashOf?)
  {
    if views == [] then Next
    else
      var view := views[0];
      match FirstFile(fields, view)
      case None => Respond(400, "Falta archivo para " + view, NoExtra)
      case Some(file) =>
        if !MagicMatches(file.buffer) then Respond(400, "Archivo " + view + " no es un DICOM válido", Details(MagicDetails(file.buffer)))
        else if IsKnownMaliciousHash(sha256(file.buffer)) then Respond(403, "Archivo " + view + " detectado como malicioso", HashOf(sha256(file.buffer)))
        else CheckViews(fields, views[1..], sha256)
  }

  /** `validateDICOMFiles(req, res, next)`: a response, or a call of `next()`. */
  function ValidateDICOMFiles(files: Files, sha256: Hasher): (v: Verdict)
    ensures !files.FileFields? ==> v == Respond(400, "No se subieron archivos", NoExtra)
    ensures v.Respond? ==> v.status == 400 || v.status == 403
  {
    match files
    case NoFiles => Respond(400, "No se subieron archivos", NoExtra)
    case FileArray(_) => Respond(400, "No se subieron archivos", NoExtra)
    case FileFields(fields) =>
      var views := CheckViews(fields, REQUIRED_VIEWS, sha256);
      if views.Respond? then views
      else match FirstFile(fields, TOMO)
        case Some(tomo) =>
          if IsKnownMaliciousHash(sha256(tomo.buffer)) then Respond(403, "Archivo tomografía detectado como malicioso", HashOf(sha256(tomo.buffer)))
          else Next
        case None => Next
  }

  predicate ViewPasses(fields: map<string, seq<UploadedFile>>, view: string) {
    FirstFile(fields, view).Some? && HasDicmPrefix(FirstFile(fields, view).value.buffer)
  }

  /** The loop lets a list of views through iff every one of them has a file with the DICM signature. */
  lemma {:induction false} CheckViewsNextIff(fields: map<string, seq<UploadedFile>>, views: seq<string>, sha256: Hasher)
    ensures CheckViews(fields, views, sha256) == Next <==> forall i :: 0 <= i < |views| ==> ViewPasses(fields, views[i])
  {
    if views != [] {
      CheckViewsNextIff(fields, views[1..], sha256);
      match FirstFile(fields, views[0])
      case None =>
      case Some(file) =>
        MagicMatchesIff(file.buffer);
        assert forall i :: 1 <= i < |views| ==> views[i] == views[1..][i - 1];
    }
  }

  /** The first failing view (in list order) is the one the 400 response names. */
  lemma {:induction false} CheckViewsNamesFirstFailure(fields: map<string, seq<UploadedFile>>, views: seq<string>, sha256: Hasher, k: nat)
    requires k < |views|
    requires forall i :: 0 <= i < k ==> ViewPasses(fields, views[i])
    requires !ViewPasses(fields, views[k])
    ensures CheckViews(fields, views, sha256) ==
      if FirstFile(fields, views[k]).None? then Respond(400, "Falta archivo para " + views[k], NoExtra)
      else Respond(400, "Archivo " + views[k] + " no es un DICOM válido", Details(MagicDetails(FirstFile(fields, views[k]).value.buffer)))
  {
    if k == 0 {
      match FirstFile(fields, views[0])
      case None =>
      case Some(f) => MagicMatchesIff(f.buffer);
    } else {
      var f := FirstFile(fields, views[0]).value;
      assert ViewPasses(fields, views[0]);
      MagicMatchesIff(f.buffer);
      assert CheckViews(fields, views, sha256) == CheckViews(fields, views[1..], sha256);
      forall i | 0 <= i < k - 1 ensures ViewPasses(fields, views[1..][i]) {
        assert views[1..][i] == views[i + 1];
      }
      assert views[1..][k - 1] == views[k];
      CheckViewsNamesFirstFailure(fields, views[1..], sha256, k - 1);
    }
  }

  /** `next()` is reached iff the files come as fields and view1..view4 each have a DICM file. */
  lemma ValidateNextIff(files: Files, sha256: Hasher)
    ensures ValidateDICOMFiles(files, sha256) == Next <==>
      files.FileFields? && forall i :: 0 <= i < |REQUIRED_VIEWS| ==> ViewPasses(files.fields, REQUIRED_VIEWS[i])
  {
    if files.FileFields? {
      CheckViewsNextIff(files.fields, REQUIRED_VIEWS, sha256);
    }
  }

  /** Both 403 branches are unreachable: the placeholder hash check never fires. */
  lemma NeverForbidden(files: Files, sha256: Hasher)
    ensures ValidateDICOMFiles(files, sha256).Respond? ==> ValidateDICOMFiles(files, sha256).status == 400
  {
    if files.FileFields? {
      NoForbiddenView(files.fields, REQUIRED_VIEWS, sha256);
    }
  }

  lemma {:induction false} NoForbiddenView(fields: map<string, seq<UploadedFile>>, views: seq<string>, sha256: Hasher)
    ensures CheckViews(fields, views, sha256).Respond? ==> CheckViews(fields, views, sha256).status == 400
  {
    if views != [] {
      NoForbiddenView(fields, views[1..], sha256);
    }
  }

  /** The tomosynthesis file is never prefix-checked: its contents do not change the verdict. */
  lemma TomoContentsIrrelevant(fields: map<string, seq<UploadedFile>>, tomo: seq<UploadedFile>, sha256: Hasher)
    ensures ValidateDICOMFiles(FileFields(fields[TOMO := tomo]), sha256) ==
            ValidateDICOMFiles(FileFields(fields[TOMO := []]), sha256)
  {
    TomoIrrelevantToViews(fields, tomo, REQUIRED_VIEWS, sha256);
    TomoIrrelevantToViews(fields, [], REQUIRED_VIEWS, sha256);
  }

  lemma {:induction false} TomoIrrelevantToViews(fields: map<string, seq<UploadedFile>>, tomo: seq<UploadedFile>, views: seq<string>, sha256: Hasher)
    requires forall i :: 0 <= i < |views| ==> views[i] != TOMO
    ensures CheckViews(fields[TOMO := tomo], views, sha256) == CheckViews(fields - {TOMO}, views, sha256)
  {
    if views != [] {
      assert FirstFile(fields[TOMO := tomo], views[0]) == FirstFile(fields - {TOMO}, views[0]);
      forall i | 0 <= i < |views| - 1 ensures views[1..][i] != TOMO {
        assert views[1..][i] == views[i + 1];
      }
      TomoIrrelevantToViews(fields, tomo, views[1..], sha256);
    }
  }
}
