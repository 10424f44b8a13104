/**
 * The `DashboardForm` component: a map from field name to the chosen file,
 * the study name taken from the DICOM patient name, and the FormData posted
 * on submit. Object keys keep insertion order, so the map carries its key
 * order beside it.
 */
module DashboardForm {
  import opened Wrappers
  import opened Js
  import opened Utf8
  import FileUploadField

  type File = FileUploadField.File

  const REQUIRED_VIEWS: seq<string> := ["view1", "view2", "view3", "view4"]

  /** The four `NEXT_PUBLIC_*` settings, absent when unset. */
  datatype Config = Config(projectId: Option<string>, location: Option<string>, datasetId: Option<string>, dicomStoreId: Option<string>)

  datatype FormEntry = FileEntry(field: string, file: File) | TextEntry(field: string, value: string)

  /** `keys` with `k` removed. */
  function Without(keys: seq<string>, k: string): (r: seq<string>)
    ensures forall x :: x in r <==> x in keys && x != k
    ensures |r| <= |keys|
  {
    if keys == [] then []
    else (if keys[0] == k then [] else [keys[0]]) + Without(keys[1..], k)
  }

  predicate Distinct(keys: seq<string>) {
    forall i, j :: 0 <= i < j < |keys| ==> keys[i] != keys[j]
  }

  lemma {:induction false} WithoutDistinct(keys: seq<string>, k: string)
    requires Distinct(keys)
    ensures Distinct(Without(keys, k))
  {
    if keys != [] {
      assert Distinct(keys[1..]) by {
        forall i, j | 0 <= i < j < |keys[1..]| ensures keys[1..][i] != keys[1..][j] {
          assert keys[1..][i] == keys[i + 1] && keys[1..][j] == keys[j + 1];
        }
      }
      WithoutDistinct(keys[1..], k);
      var rest := Without(keys[1..], k);
      assert keys[0] !in rest by {
        forall i | 1 <= i < |keys| ensures keys[i] != keys[0] {}
        assert keys[0] !in keys[1..];
      }
    }
  }

  /** The result of the upload request, as far as `handleSubmit` looks at it. */
  datatype SubmitResponse = Ok | Unauthorized | OtherStatus | NetworkFailure

  /** What `handleSubmit` does next: go to /dashboard, stay, or refresh the session and submit again. */
  datatype SubmitNext = GoToDashboard | Stay | RefreshAndRetry

  class DashboardForm {
    /** the keys of `files` in insertion order */
    var order: seq<string>
    var files: map<string, File>
    var studyName: string
    var isLoading: bool

    ghost predicate Valid()
      reads this
    {
      Distinct(order) && (forall k :: k in files <==> k in order)
    }

    constructor ()
      ensures Valid() && files == map[] && order == [] && studyName == "" && !isLoading
    {
      order := [];
      files := map[];
      studyName := "";
      isLoading := false;
    }

    /**
     * `handleFileUpload(file, fieldName, patientName)`: stores the file under its
     * field and takes a non-empty patient name as the study name.
     */
    method HandleFileUpload(file: File, fieldName: string, patientName: Option<string>)
      requires Valid()
      modifies this
      ensures Valid()
      ensures files == old(files)[fieldName := file]
      ensures order == if fieldName in old(order) then old(order) else old(order) + [fieldName]
      ensures studyName == if patientName.Some? && patientName.value != "" then patientName.value else old(studyName)
      ensures isLoading == old(isLoading)
    {
      files := files[fieldName := file];
      if fieldName !in order {
        order := order + [fieldName];
      }
      // patientName.toLowerCase() !== undefined always holds for a string
      if patientName.Some? && patientName.value != "" {
        studyName := patientName.value;
      }
    }

    /**
     * `handleFileRemove(fieldName)`: drops that field; the study name is
     * cleared iff the map held exactly one entry before the removal.
     */
    method HandleFileRemove(fieldName: string)
      requires Valid()
      modifies this
      ensures Valid()
      ensures files == old(files) - {fieldName}
      ensures order == Without(old(order), fieldName)
      ensures studyName == if |old(files)| == 1 then "" else old(studyName)
      ensures isLoading == old(isLoading)
    {
      var wasSingle := |files| == 1;
      files := files - {fieldName};
      WithoutDistinct(order, fieldName);
      order := Without(order, fieldName);
      if wasSingle {
        studyName := "";
      }
    }

    /** `isFormValid`: a study name that is not blank and the four views; the tomosynthesis is optional. */
    predicate IsFormValid()
      reads this
    {
      Trim(studyName) != "" && forall i :: 0 <= i < |REQUIRED_VIEWS| ==> REQUIRED_VIEWS[i] in files
    }

    /** `disabled={!isFormValid || isLoading}` */
    predicate SubmitDisabled()
      reads this
    {
      !IsFormValid() || isLoading
    }

    /** The FormData of `handleSubmit`: every file under its field name in key order, then the four settings. */
    method BuildFormData(config: Config) returns (fd: seq<FormEntry>)
      requires Valid()
      ensures |fd| == |order| + 4
      ensures forall i :: 0 <= i < |order| ==> fd[i] == FileEntry(order[i], files[order[i]])
      ensures forall k :: k in files ==> exists i :: 0 <= i < |order| && fd[i] == FileEntry(k, files[k])
      ensures fd[|order|..] == [TextEntry("projectId", OrEmpty(config.projectId)),
                                TextEntry("location", OrEmpty(config.location)),
                                TextEntry("datasetId", OrEmpty(config.datasetId)),
                                TextEntry("dicomStoreId", OrEmpty(config.dicomStoreId))]
    {
      fd := [];
      var i := 0;
      while i < |order|
        invariant 0 <= i <= |order|
        invariant |fd| == i
        invariant forall j :: 0 <= j < i ==> fd[j] == FileEntry(order[j], files[order[j]])
      {
        fd := fd + [FileEntry(order[i], files[order[i]])];
        i := i + 1;
      }
      fd := fd + [TextEntry("projectId", OrEmpty(config.projectId))];
      fd := fd + [TextEntry("location", OrEmpty(config.location))];
      fd := fd + [TextEntry("datasetId", OrEmpty(config.datasetId))];
      fd := fd + [TextEntry("dicomStoreId", OrEmpty(config.dicomStoreId))];
      forall k | k in files ensures exists i :: 0 <= i < |order| && fd[i] == FileEntry(k, files[k]) {
        var j :| 0 <= j < |order| && order[j] == k;
        assert fd[j] == FileEntry(k, files[k]);
      }
    }

    /**
     * `handleSubmit` up to the response: loading is on while the request is
     * out and off afterwards (`finally`); the files and study name stay.
     */
    method HandleSubmit(config: Config, response: SubmitResponse) returns (fd: seq<FormEntry>, next: SubmitNext)
      requires Valid()
      modifies this`isLoading
      ensures !isLoading
      ensures |fd| == |order| + 4 && forall i :: 0 <= i < |order| ==> fd[i] == FileEntry(order[i], files[order[i]])
      ensures next == match response
        case Ok => GoToDashboard
        case Unauthorized => RefreshAndRetry
        case _ => Stay
    {
      isLoading := true;
      fd := BuildFormData(config);
      match response {
        case Ok => next := GoToDashboard;
        case Unauthorized => next := RefreshAndRetry;
        case OtherStatus => next := Stay;
        case NetworkFailure => next := Stay;
      }
      isLoading := false;
    }
  }

  /** The form is valid iff the study name has a non-blank character and all four views are chosen. */
  lemma FormValidIff(form: DashboardForm)
    ensures form.IsFormValid() <==>
      (exists i :: 0 <= i < |form.studyName| && !IsJsWhitespace(form.studyName[i]))
      && "view1" in form.files && "view2" in form.files && "view3" in form.files && "view4" in form.files
  {
    TrimEmptyIff(form.studyName);
    var views := REQUIRED_VIEWS;
    assert views[0] == "view1" && views[1] == "view2" && views[2] == "view3" && views[3] == "view4";
  }

  /** The submit button is enabled iff the form is valid and no submission is under way. */
  lemma SubmitEnabledIff(form: DashboardForm)
    ensures !form.SubmitDisabled() <==>
      (exists i :: 0 <= i < |form.studyName| && !IsJsWhitespace(form.studyName[i]))
      && "view1" in form.files && "view2" in form.files && "view3" in form.files && "view4" in form.files
      && !form.isLoading
  {
    FormValidIff(form);
  }
}
