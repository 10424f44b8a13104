/**
 * The Python metadata service: `extract_metadata` copies nine DICOM
 * attributes out of a parsed dataset, and the `/extract-metadata` route
 * wraps it.
 */
module DicomService {

  const FIELDS: seq<string> := [
    "SOPInstanceUID", "SeriesInstanceUID", "StudyInstanceUID",
    "PatientID", "PatientName", "StudyDate", "Modality",
    "ImageLaterality", "ViewPosition"]

  /** An attribute's value as `ds.get` returns it: `None`, or a value whose `str()` is `text`. */
  datatype PyValue = PyNone | PyVal(text: string)

  /** A parsed dataset, by keyword. A keyword that is not present reads as `None`. */
  type Dataset = map<string, PyValue>

  /** `ds.get(field, None)` */
  function Get(ds: Dataset, field: string): (v: PyValue)
    ensures field !in ds ==> v == PyNone
  {
    if field in ds then ds[field] else PyNone
  }

  /** An ordered dictionary from `str` keys to `str` values. */
  type Metadata = seq<(string, string)>

  /** The metadata that the fields in `fields`, read in order, contribute. */
  function Selected(ds: Dataset, fields: seq<string>): (m: Metadata)
    ensures |m| <= |fields|
    ensures forall i :: 0 <= i < |m| ==> m[i].0 in fields && Get(ds, m[i].0) == PyVal(m[i].1)
    decreases |fields|
  {
    if fields == [] then []
    else
      var last := fields[|fields| - 1];
      Selected(ds, fields[..|fields| - 1]) +
      (match Get(ds, last) case PyNone => [] case PyVal(t) => [(last, t)])
  }

  /** `extract_metadata(ds)`: one insertion per field whose value is not `None`. */
  method ExtractMetadata(ds: Dataset) returns (metadata: Metadata)
    ensures metadata == Selected(ds, FIELDS)
  {
    metadata := [];
    var i := 0;
    while i < |FIELDS|
      invariant 0 <= i <= |FIELDS|
      invariant metadata == Selected(ds, FIELDS[..i])
    {
      var field := FIELDS[i];
      assert FIELDS[..i + 1][..i] == FIELDS[..i];
      var value := Get(ds, field);
      if value.PyVal? {
        metadata := metadata + [(field, value.text)];
      }
      i := i + 1;
    }
    assert FIELDS[..|FIELDS|] == FIELDS;
  }

  /** The keys of an ordered dictionary, in order. */
  function Keys(m: Metadata): (ks: seq<string>)
    ensures |ks| == |m| && forall i :: 0 <= i < |m| ==> ks[i] == m[i].0
  {
    if m == [] then [] else Keys(m[..|m| - 1]) + [m[|m| - 1].0]
  }

  /** `a` is `b` with some elements left out, the rest in their order. */
  predicate IsSubsequence(a: seq<string>, b: seq<string>)
    decreases |b|
  {
    if a == [] then true
    else if b == [] then false
    else if a[|a| - 1] == b[|b| - 1] then IsSubsequence(a[..|a| - 1], b[..|b| - 1])
    else IsSubsequence(a, b[..|b| - 1])
  }

  /**
   * A pair is in the result iff its key is one of the fields and the dataset's
   * value for it is not `None`, with `str` of that value; empty strings are kept.
   */
  lemma {:induction false} SelectedMembers(ds: Dataset, fields: seq<string>, key: string, text: string)
    ensures (key, text) in Selected(ds, fields) <==> key in fields && Get(ds, key) == PyVal(text)
    decreases |fields|
  {
    if fields != [] {
      var init := fields[..|fields| - 1];
      SelectedMembers(ds, init, key, text);
      assert fields == init + [fields[|fields| - 1]];
    }
  }

  /** The result's keys follow the order of the field list. */
  lemma {:induction false} SelectedInOrder(ds: Dataset, fields: seq<string>)
    ensures IsSubsequence(Keys(Selected(ds, fields)), fields)
    decreases |fields|
  {
    if fields != [] {
      var init := fields[..|fields| - 1];
      var last := fields[|fields| - 1];
      SelectedInOrder(ds, init);
      var before := Selected(ds, init);
      if Get(ds, last).PyVal? {
        var after := before + [(last, Get(ds, last).text)];
        assert Keys(after)[..|after| - 1] == Keys(before);
      } else {
        assert Selected(ds, fields) == before;
        SubsequenceOfPrefix(Keys(before), init, last);
        assert init + [last] == fields;
      }
    }
  }

  /** Appending to the longer sequence keeps a subsequence a subsequence. */
  lemma {:induction false} SubsequenceOfPrefix(a: seq<string>, b: seq<string>, x: string)
    requires IsSubsequence(a, b)
    ensures IsSubsequence(a, b + [x])
    decreases |b|, 1
  {
    var bx := b + [x];
    assert bx[..|bx| - 1] == b;
    if a != [] && a[|a| - 1] == x {
      SubsequenceDropLast(a, b);
    }
  }

  /** Dropping the last element of the shorter sequence keeps a subsequence a subsequence. */
  lemma {:induction false} SubsequenceDropLast(a: seq<string>, b: seq<string>)
    requires a != [] && IsSubsequence(a, b)
    ensures IsSubsequence(a[..|a| - 1], b)
    decreases |b|, 0
  {
    var init := a[..|a| - 1];
    if b != [] {
      var binit := b[..|b| - 1];
      if a[|a| - 1] != b[|b| - 1] {
        SubsequenceDropLast(a, binit);
      }
      SubsequenceOfPrefix(init, binit, b[|b| - 1]);
      assert binit + [b[|b| - 1]] == b;
    }
  }

  /** A dataset with none of the nine attributes gives the empty dictionary. */
  lemma {:induction false} NothingSelected(ds: Dataset, fields: seq<string>)
    requires forall i :: 0 <= i < |fields| ==> Get(ds, fields[i]) == PyNone
    ensures Selected(ds, fields) == []
    decreases |fields|
  {
    if fields != [] {
      NothingSelected(ds, fields[..|fields| - 1]);
    }
  }

  // ---- the /extract-metadata route ------------------------------------------

  const NO_FILE: string := "No dicom file provided"

  /** `pydicom.dcmread(..., force=True)`: outside the model, it enters as its result. */
  datatype ReadResult = ReadOk(ds: Dataset) | ReadFailed(message: string)

  datatype Reply =
    | JsonError(status: int, error: string)
    | JsonMetadata(metadata: Metadata)
    | TextAttachment(metadata: Metadata, downloadName: string)

  /**
   * `extract_dicom_metadata()`: `hasFile` is `'dicom_file' in request.files`,
   * `format` the `format` query argument (defaulting to "json").
   */
  method ExtractDicomMetadata(hasFile: bool, format: string, read: ReadResult) returns (reply: Reply)
    ensures !hasFile ==> reply == JsonError(400, NO_FILE)
    ensures hasFile && read.ReadFailed? ==> reply == JsonError(500, read.message)
    ensures hasFile && read.ReadOk? && format == "txt" ==> reply == TextAttachment(Selected(read.ds, FIELDS), "metadata.txt")
    ensures hasFile && read.ReadOk? && format != "txt" ==> reply == JsonMetadata(Selected(read.ds, FIELDS))
  {
    if !hasFile {
      return JsonError(400, NO_FILE);
    }
    match read {
      case ReadFailed(m) =>
        reply := JsonError(500, m);
      case ReadOk(ds) =>
        var metadata := ExtractMetadata(ds);
        if format == "txt" {
          reply := TextAttachment(metadata, "metadata.txt");
        } else {
          reply := JsonMetadata(metadata);
        }
    }
  }
}
