/**
 * The multer upload filter and the required-view check of the back end:
 * `fileFilter` admits DICOM MIME types up to 100 MiB and rewrites the file
 * name in place; `validateDicomFiles` lists the missing views.
 */
module DicomUploadFilter {
  import opened Wrappers
  import opened ErrorHandler

  const MAX_FILE_SIZE: nat := 100 * 1024 * 1024
  const ALLOWED_MIME_TYPES: seq<string> := ["application/dicom", "application/octet-stream"]

  const MIME_MESSAGE: string := "Tipo de archivo no permitido. Solo se permiten archivos DICOM."
  const SIZE_MESSAGE: string := "Archivo demasiado grande. El tamaño máximo permitido es 100MB."

  /** The characters the pattern `[^a-zA-Z0-9.-]` leaves alone. */
  predicate AllowedChar(c: char) {
    ('a' <= c <= 'z') || ('A' <= c <= 'Z') || ('0' <= c <= '9') || c == '.' || c == '-'
  }

  /** A character outside the Basic Multilingual Plane is two UTF-16 code units. */
  predicate IsAstral(c: char) {
    c as int > 0xFFFF
  }

  /** `s.length` in JavaScript: UTF-16 code units. */
  function Utf16Length(s: string): nat {
    if s == [] then 0 else (if IsAstral(s[0]) then 2 else 1) + Utf16Length(s[1..])
  }

  /**
   * `s.replace(/[^a-zA-Z0-9.-]/g, '_')`. Without the `u` flag the pattern
   * matches code units, so an astral character becomes two underscores.
   */
  function Sanitize(s: string): (r: string)
    ensures |s| <= |r| <= 2 * |s|
  {
    if s == [] then []
    else (if AllowedChar(s[0]) then [s[0]] else if IsAstral(s[0]) then "__" else "_") + Sanitize(s[1..])
  }

  predicate SanitizedChars(s: string) {
    forall i :: 0 <= i < |s| ==> AllowedChar(s[i]) || s[i] == '_'
  }

  lemma {:induction false} Utf16LengthAppend(a: string, b: string)
    ensures Utf16Length(a + b) == Utf16Length(a) + Utf16Length(b)
  {
    if a == [] {
      assert a + b == b;
    } else {
      assert (a + b)[0] == a[0] && (a + b)[1..] == a[1..] + b;
      Utf16LengthAppend(a[1..], b);
    }
  }

  /** The sanitised name has the same JavaScript length as the original. */
  lemma {:induction false} SanitizeKeepsLength(s: string)
    ensures Utf16Length(Sanitize(s)) == Utf16Length(s)
  {
    if s != [] {
      SanitizeKeepsLength(s[1..]);
      var head := if AllowedChar(s[0]) then [s[0]] else if IsAstral(s[0]) then "__" else "_";
      Utf16LengthAppend(head, Sanitize(s[1..]));
      assert Utf16Length("_") == 1;
      assert Utf16Length("__") == 2;
    }
  }

  /** Only allowed characters and '_' come out. */
  lemma {:induction false} SanitizeOutputChars(s: string)
    ensures SanitizedChars(Sanitize(s))
  {
    if s != [] {
      SanitizeOutputChars(s[1..]);
      var head := if AllowedChar(s[0]) then [s[0]] else if IsAstral(s[0]) then "__" else "_";
      var out := head + Sanitize(s[1..]);
      forall i | 0 <= i < |out| ensures AllowedChar(out[i]) || out[i] == '_' {
        if i >= |head| { assert out[i] == Sanitize(s[1..])[i - |head|]; }
      }
    }
  }

  /** Names made of BMP characters keep their positions: allowed ones unchanged, all others '_'. */
  lemma {:induction false} SanitizeAt(s: string)
    requires forall i :: 0 <= i < |s| ==> !IsAstral(s[i])
    ensures |Sanitize(s)| == |s|
    ensures forall i :: 0 <= i < |s| ==> Sanitize(s)[i] == if AllowedChar(s[i]) then s[i] else '_'
  {
    if s != [] {
      assert forall i :: 0 <= i < |s[1..]| ==> s[1..][i] == s[i + 1];
      SanitizeAt(s[1..]);
      var out := Sanitize(s);
      forall i | 1 <= i < |s| ensures out[i] == if AllowedChar(s[i]) then s[i] else '_' {
        assert out[i] == Sanitize(s[1..])[i - 1];
        assert s[1..][i - 1] == s[i];
      }
    }
  }

  /** A name of allowed characters and '_' is its own sanitised form. */
  lemma {:induction false} SanitizeFixes(s: string)
    requires SanitizedChars(s)
    ensures Sanitize(s) == s
  {
    if s != [] {
      assert SanitizedChars(s[1..]) by {
        forall i | 0 <= i < |s[1..]| ensures AllowedChar(s[1..][i]) || s[1..][i] == '_' {
          assert s[1..][i] == s[i + 1];
        }
      }
      SanitizeFixes(s[1..]);
      assert AllowedChar(s[0]) || s[0] == '_';
    }
  }

  /** Sanitising twice is sanitising once. */
  lemma SanitizeIdempotent(s: string)
    ensures Sanitize(Sanitize(s)) == Sanitize(s)
  {
    SanitizeOutputChars(s);
    SanitizeFixes(Sanitize(s));
  }

  /**
   * The file multer hands to the filter; the filter overwrites `originalname`.
   * Multer runs the filter before the file is stored, so at that point the
   * object has no `size` and `file.size` reads as `undefined` (`None`).
   */
  class MulterFile {
    var originalname: string
    const mimetype: string
    const size: Option<nat>

    constructor (originalname: string, mimetype: string, size: Option<nat>)
      ensures this.originalname == originalname && this.mimetype == mimetype && this.size == size
    {
      this.originalname := originalname;
      this.mimetype := mimetype;
      this.size := size;
    }
  }

  /** `cb(error)` or `cb(null, true)` */
  datatype FilterCallback = Rejected(error: AppError) | Accepted

  /** `file.size > MAX_FILE_SIZE`, where `undefined > n` is false. */
  predicate OverSize(size: Option<nat>) {
    size.Some? && size.value > MAX_FILE_SIZE
  }

  /** The verdict of the two checks, MIME type first. */
  function FilterVerdict(mimetype: string, size: Option<nat>): (r: FilterCallback)
    ensures r == Accepted <==> mimetype in ALLOWED_MIME_TYPES && (size.None? || size.value <= MAX_FILE_SIZE)
    ensures mimetype !in ALLOWED_MIME_TYPES ==> r == Rejected(NewAppError(MIME_MESSAGE, 400))
    ensures mimetype in ALLOWED_MIME_TYPES && size.Some? && size.value > MAX_FILE_SIZE ==> r == Rejected(NewAppError(SIZE_MESSAGE, 400))
  {
    if mimetype !in ALLOWED_MIME_TYPES then Rejected(NewAppError(MIME_MESSAGE, 400))
    else if OverSize(size) then Rejected(NewAppError(SIZE_MESSAGE, 400))
    else Accepted
  }

  /**
   * With the size unknown, as it is when multer calls the filter, the size
   * branch never fires: the MIME type alone decides.
   */
  lemma SizeBranchUnreachable(mimetype: string)
    ensures FilterVerdict(mimetype, None) ==
      if mimetype in ALLOWED_MIME_TYPES then Accepted else Rejected(NewAppError(MIME_MESSAGE, 400))
  {
  }

  /** `fileFilter(req, file, cb)`: an accepted file goes on under its sanitised name. */
  method FileFilter(file: MulterFile) returns (cb: FilterCallback)
    modifies file
    ensures cb == FilterVerdict(file.mimetype, file.size)
    ensures cb.Accepted? ==> file.originalname == Sanitize(old(file.originalname))
    ensures cb.Rejected? ==> file.originalname == old(file.originalname)
  {
    if file.mimetype !in ALLOWED_MIME_TYPES {
      cb := Rejected(NewAppError(MIME_MESSAGE, 400));
      return;
    }
    if OverSize(file.size) {
      cb := Rejected(NewAppError(SIZE_MESSAGE, 400));
      return;
    }
    var sanitizedFilename := Sanitize(file.originalname);
    file.originalname := sanitizedFilename;
    cb := Accepted;
  }

  /**
   * The filter as multer calls it, on a file object that has no size yet: the
   * 100 MiB bound of the filter never rejects, and the MIME type decides.
   */
  method FilterAsMulterCalls(originalname: string, mimetype: string) returns (cb: FilterCallback, stored: string)
    ensures cb == if mimetype in ALLOWED_MIME_TYPES then Accepted else Rejected(NewAppError(MIME_MESSAGE, 400))
    ensures stored == if cb.Accepted? then Sanitize(originalname) else originalname
  {
    var file := new MulterFile(originalname, mimetype, None);
    cb := FileFilter(file);
    SizeBranchUnreachable(mimetype);
    stored := file.originalname;
  }

  /** `req.files` after multer: absent, an array, or a record of field name to files. */
  datatype Files<F> = NoFiles | FileArray(list: seq<F>) | FileFields(fields: map<string, seq<F>>)

  const REQUIRED_VIEWS: seq<string> := ["view1", "view2", "view3", "view4"]
  const NO_FILES_MESSAGE: string := "No se han proporcionado archivos DICOM."
  const MISSING_PREFIX: string := "Faltan vistas requeridas: "

  /** `Object.keys(req.files).length === 0` */
  predicate IsEmptyFiles<F>(files: Files<F>) {
    match files
    case NoFiles => true
    case FileArray(list) => |list| == 0
    case FileFields(fields) => |fields| == 0
  }

  /** `files[view]` is truthy: the field exists (an empty array is still truthy). */
  predicate HasField<F>(files: Files<F>, view: string) {
    files.FileFields? && view in files.fields
  }

  /** `requiredViews.filter(view => !files[view])` */
  function MissingViews<F>(files: Files<F>, views: seq<string>): (r: seq<string>)
    ensures |r| <= |views|
    ensures forall i :: 0 <= i < |r| ==> !HasField(files, r[i])
  {
    if views == [] then []
    else (if HasField(files, views[0]) then [] else [views[0]]) + MissingViews(files, views[1..])
  }

  /** `missingViews.join(', ')` */
  function Join(parts: seq<string>, sep: string): (r: string)
    ensures parts != [] ==> |parts[0]| <= |r| && r[..|parts[0]|] == parts[0]
    ensures |parts| == 1 ==> r == parts[0]
    ensures parts == [] ==> r == ""
  {
    if parts == [] then ""
    else if |parts| == 1 then parts[0]
    else parts[0] + sep + Join(parts[1..], sep)
  }

  /** `validateDicomFiles(req, res, next)`: throws an AppError (handed to the error handler) or calls `next()`. */
  function ValidateDicomFiles<F>(files: Files<F>): (r: Result<(), AppError>)
    ensures IsEmptyFiles(files) ==> r == Err(NewAppError(NO_FILES_MESSAGE, 400))
    ensures r.Err? ==> r.error.statusCode == 400 && r.error.isOperational
    ensures !IsEmptyFiles(files) && MissingViews(files, REQUIRED_VIEWS) != [] ==>
      r == Err(NewAppError(MISSING_PREFIX + Join(MissingViews(files, REQUIRED_VIEWS), ", "), 400))
  {
    if IsEmptyFiles(files) then Err(NewAppError(NO_FILES_MESSAGE, 400))
    else
      var missing := MissingViews(files, REQUIRED_VIEWS);
      if |missing| > 0 then Err(NewAppError(MISSING_PREFIX + Join(missing, ", "), 400))
      else Ok(())
  }

  /** The missing list is an order-keeping filter: the list for `a + b` is the list for `a`, then for `b`. */
  lemma {:induction false} MissingViewsAppend<F>(files: Files<F>, a: seq<string>, b: seq<string>)
    ensures MissingViews(files, a + b) == MissingViews(files, a) + MissingViews(files, b)
  {
    if a != [] {
      assert (a + b)[0] == a[0] && (a + b)[1..] == a[1..] + b;
      MissingViewsAppend(files, a[1..], b);
    } else {
      assert a + b == b;
    }
  }

  /** A single view is listed iff it has no field. */
  lemma MissingViewsSingle<F>(files: Files<F>, v: string)
    ensures MissingViews(files, [v]) == if HasField(files, v) then [] else [v]
  {
    assert [v][1..] == [];
  }

  /** With view2 and view4 absent, both are reported, in order, joined by ", ". */
  lemma TwoViewsMissingMessage<F>(x: seq<F>, y: seq<F>)
    ensures ValidateDicomFiles(FileFields(map["view1" := x, "view3" := y])) ==
      Err(NewAppError("Faltan vistas requeridas: view2, view4", 400))
  {
    var fields := map["view1" := x, "view3" := y];
    var files: Files<F> := FileFields(fields);
    assert !IsEmptyFiles(files) by {
      assert "view1" in fields;
      assert |fields| == |fields.Keys| && fields.Keys != {};
    }
    assert HasField(files, "view1") && HasField(files, "view3");
    assert !HasField(files, "view2") && !HasField(files, "view4");
    assert MissingViews(files, ["view4"]) == ["view4"] by {
      assert ["view4"][1..] == [];
    }
    assert MissingViews(files, ["view3", "view4"]) == ["view4"] by {
      assert ["view3", "view4"][1..] == ["view4"];
    }
    assert MissingViews(files, ["view2", "view3", "view4"]) == ["view2", "view4"] by {
      assert ["view2", "view3", "view4"][1..] == ["view3", "view4"];
    }
    assert MissingViews(files, REQUIRED_VIEWS) == ["view2", "view4"] by {
      assert REQUIRED_VIEWS[0] == "view1" && REQUIRED_VIEWS[1..] == ["view2", "view3", "view4"];
    }
    assert Join(["view2", "view4"], ", ") == "view2, view4" by {
      assert ["view2", "view4"][1..] == ["view4"];
    }
    assert MISSING_PREFIX + "view2, view4" == "Faltan vistas requeridas: view2, view4";
  }

  /** A view is in the missing list iff it is one of the listed views and has no field. */
  lemma {:induction false} MissingViewsMembers<F>(files: Files<F>, views: seq<string>, v: string)
    ensures v in MissingViews(files, views) <==> v in views && !HasField(files, v)
  {
    if views != [] {
      MissingViewsMembers(files, views[1..], v);
      assert views == [views[0]] + views[1..];
    }
  }

  /** The missing list keeps the order of the listed views: it is the views filtered by "no field". */
  lemma {:induction false} MissingViewsInOrder<F>(files: Files<F>, views: seq<string>)
    ensures MissingViews(files, views) == [] <==> forall i :: 0 <= i < |views| ==> HasField(files, views[i])
    ensures forall i :: 0 <= i < |views| && (forall j :: 0 <= j < i ==> HasField(files, views[j])) && !HasField(files, views[i])
              ==> MissingViews(files, views)[0] == views[i]
  {
    if views != [] {
      MissingViewsInOrder(files, views[1..]);
      assert forall i :: 1 <= i < |views| ==> views[i] == views[1..][i - 1];
    }
  }

  /** `next()` runs iff some files came and every required view has a field; every error is a 400 'fail'. */
  lemma ValidateDicomFilesOkIff<F>(files: Files<F>)
    ensures ValidateDicomFiles(files).Ok? <==>
      !IsEmptyFiles(files) && forall i :: 0 <= i < |REQUIRED_VIEWS| ==> HasField(files, REQUIRED_VIEWS[i])
    ensures ValidateDicomFiles(files).Err? ==>
      ValidateDicomFiles(files).error.statusCode == 400 && ValidateDicomFiles(files).error.status == FAIL
  {
    MissingViewsInOrder(files, REQUIRED_VIEWS);
    ClientErrorCodesFail(NO_FILES_MESSAGE, 400);
    ClientErrorCodesFail(MISSING_PREFIX + Join(MissingViews(files, REQUIRED_VIEWS), ", "), 400);
  }

  /** The thrown error reaches `errorHandler`, which answers 400 with status 'fail' and the message. */
  lemma RejectionAnsweredWith400<F>(files: Files<F>)
    requires ValidateDicomFiles(files).Err?
    ensures HandleError(Operational(ValidateDicomFiles(files).error)) ==
      ErrorResponse(400, FAIL, ValidateDicomFiles(files).error.message)
  {
    ValidateDicomFilesOkIff(files);
  }
}
