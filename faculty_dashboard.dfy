/**
 * The faculty upload screen (src/pages/FacultyDashboard.jsx): the role
 * guard, the cascading selectors over embedded references, the multipart
 * upload form, and the list of the faculty member's own uploads.
 */
module FacultyDashboard {
  import opened Wrappers
  import opened Seqs
  import opened Refs
  import opened Http
  import opened Taxonomy
  import opened AuthContext

  const SelectAllFields: string := "Please select all fields"
  const SelectFiles: string := "Please select file(s)"
  const UploadDone: string := "Notes uploaded successfully \U{2705}"
  const SessionExpired: string := "Session expired. Please login again."
  const UploadFailed: string := "Upload failed. Try again."

  /** What the guard `!token || user.role !== "faculty"` decides; reading the role of a missing user throws. */
  datatype Access = Allowed | Redirect | Crash

  function AccessOf(token: Option<string>, user: Option<User>): (a: Access)
    ensures a == Redirect <==> token.None? || token.value == "" || (user.Some? && user.value.role != "faculty")
    ensures a == Allowed <==> token.Some? && token.value != "" && user.Some? && user.value.role == "faculty"
    ensures a == Crash <==> token.Some? && token.value != "" && user.None?
  {
    if token.None? || token.value == "" then Redirect
    else if user.None? then Crash
    else if user.value.role != "faculty" then Redirect
    else Allowed
  }

  /** `filteredBranches`: only a branch with an embedded regulation whose `_id` is the selection. */
  function FacultyBranches(branches: seq<Branch>, selectedRegulation: string): (r: seq<Branch>)
    ensures forall i :: 0 <= i < |r| ==> r[i] in branches && EmbeddedIdIs(r[i].regulation, selectedRegulation)
    ensures forall i :: 0 <= i < |branches| && EmbeddedIdIs(branches[i].regulation, selectedRegulation) ==> branches[i] in r
  {
    Filter(branches, (b: Branch) => EmbeddedIdIs(b.regulation, selectedRegulation))
  }

  /** The test of `filteredSubjects`: an embedded branch `_id` and the semester's text. */
  predicate UploadableSubject(s: Subject, selectedBranch: string, selectedSemester: string) {
    EmbeddedIdIs(s.branch, selectedBranch) && SemesterText(s.semester) == selectedSemester
  }

  /** `filteredSubjects`. */
  function FacultySubjects(subjects: seq<Subject>, selectedBranch: string, selectedSemester: string): (r: seq<Subject>)
    ensures forall i :: 0 <= i < |r| ==> r[i] in subjects && UploadableSubject(r[i], selectedBranch, selectedSemester)
    ensures forall i :: 0 <= i < |subjects| && UploadableSubject(subjects[i], selectedBranch, selectedSemester) ==> subjects[i] in r
  {
    Filter(subjects, (s: Subject) => UploadableSubject(s, selectedBranch, selectedSemester))
  }

  /**
   * A record that names its parent by a raw id is never offered here,
   * though the student screen, which also accepts raw ids, offers it.
   */
  lemma RawReferencesNeverOffered(branches: seq<Branch>, subjects: seq<Subject>, b: Branch, s: Subject, sel: string, sem: string)
    requires b.regulation.Raw? && s.branch.Raw?
    ensures b !in FacultyBranches(branches, sel)
    ensures s !in FacultySubjects(subjects, sel, sem)
    ensures b in branches && b.regulation.id == sel ==> b in BranchesOf(branches, sel)
  {
  }

  /** One chosen file. */
  datatype UploadFile = UploadFile(name: string, content: seq<int>)

  /** A multipart form entry: a text field or a file. */
  datatype EntryValue = TextValue(text: string) | FileValue(file: UploadFile)
  datatype Entry = Entry(key: string, value: EntryValue)

  /** The four selections of the form. */
  datatype Selection = Selection(regulation: string, branch: string, semester: string, subject: string) {
    predicate Complete() {
      regulation != "" && branch != "" && semester != "" && subject != ""
    }
  }

  /** The five text entries that open the form. */
  function FormHeader(sel: Selection, uploader: string): seq<Entry> {
    [Entry("regulation", TextValue(sel.regulation)), Entry("branch", TextValue(sel.branch)),
     Entry("semester", TextValue(sel.semester)), Entry("subject", TextValue(sel.subject)),
     Entry("uploadedBy", TextValue(uploader))]
  }

  /** One "files" entry per file, in file order. */
  function FileEntries(files: seq<UploadFile>): seq<Entry> {
    seq(|files|, i requires 0 <= i < |files| => Entry("files", FileValue(files[i])))
  }

  /** The form `handleSubmit` posts: the four selections and the uploader, then the files. */
  function UploadForm(sel: Selection, uploader: string, files: seq<UploadFile>): seq<Entry> {
    FormHeader(sel, uploader) + FileEntries(files)
  }

  /** `formData.get(key)`: the first text value under `key`. */
  function TextField(form: seq<Entry>, key: string): Option<string> {
    if form == [] then None
    else if form[0].key == key && form[0].value.TextValue? then Some(form[0].value.text)
    else TextField(form[1..], key)
  }

  /** `formData.getAll("files")`: the files in form order. */
  function Files(form: seq<Entry>): (r: seq<UploadFile>)
    ensures |r| <= |form|
  {
    if form == [] then []
    else if form[0].key == "files" && form[0].value.FileValue? then [form[0].value.file] + Files(form[1..])
    else Files(form[1..])
  }

  /** Entries appended after a key's first text value do not change what `get` returns. */
  lemma {:induction false} TextFieldAppend(a: seq<Entry>, b: seq<Entry>, key: string)
    requires TextField(a, key).Some?
    ensures TextField(a + b, key) == TextField(a, key)
  {
    assert (a + b)[0] == a[0];
    if !(a[0].key == key && a[0].value.TextValue?) {
      assert (a + b)[1..] == a[1..] + b;
      TextFieldAppend(a[1..], b, key);
    }
  }

  /** `getAll("files")` of a concatenation is the concatenation. */
  lemma {:induction false} FilesAppend(a: seq<Entry>, b: seq<Entry>)
    ensures Files(a + b) == Files(a) + Files(b)
  {
    if a == [] {
      assert a + b == b;
    } else {
      assert (a + b)[0] == a[0];
      assert (a + b)[1..] == a[1..] + b;
      FilesAppend(a[1..], b);
    }
  }

  /** The file entries alone give back the chosen files, in order. */
  lemma {:induction false} FilesOfFileEntries(files: seq<UploadFile>)
    ensures Files(FileEntries(files)) == files
  {
    if files != [] {
      assert FileEntries(files)[1..] == FileEntries(files[1..]);
      FilesOfFileEntries(files[1..]);
      assert [files[0]] + files[1..] == files;
    }
  }

  /** `get` and `getAll` on a form that starts with the entry `e`. */
  lemma FormCons(e: Entry, rest: seq<Entry>, key: string)
    ensures TextField([e] + rest, key) ==
      if e.key == key && e.value.TextValue? then Some(e.value.text) else TextField(rest, key)
    ensures Files([e] + rest) == if e.key == "files" && e.value.FileValue? then [e.value.file] + Files(rest) else Files(rest)
  {
    assert ([e] + rest)[0] == e;
    assert ([e] + rest)[1..] == rest;
  }

  /** The header holds each selection and the uploader under its own key, and no file. */
  lemma FormHeaderReadsBack(sel: Selection, uploader: string)
    ensures var h := FormHeader(sel, uploader);
      TextField(h, "regulation") == Some(sel.regulation) &&
      TextField(h, "branch") == Some(sel.branch) &&
      TextField(h, "semester") == Some(sel.semester) &&
      TextField(h, "subject") == Some(sel.subject) &&
      TextField(h, "uploadedBy") == Some(uploader) &&
      Files(h) == []
  {
    var e1, e2, e3 := Entry("regulation", TextValue(sel.regulation)), Entry("branch", TextValue(sel.branch)),
                      Entry("semester", TextValue(sel.semester));
    var e4, e5 := Entry("subject", TextValue(sel.subject)), Entry("uploadedBy", TextValue(uploader));
    var r4 := [e5];
    var r3 := [e4] + r4;
    var r2 := [e3] + r3;
    var r1 := [e2] + r2;
    assert FormHeader(sel, uploader) == [e1] + r1;
    FormCons(e5, [], "uploadedBy");
    assert r4 == [e5] + [];
    FormCons(e4, r4, "uploadedBy");
    FormCons(e4, r4, "subject");
    FormCons(e3, r3, "uploadedBy");
    FormCons(e3, r3, "subject");
    FormCons(e3, r3, "semester");
    FormCons(e2, r2, "uploadedBy");
    FormCons(e2, r2, "subject");
    FormCons(e2, r2, "semester");
    FormCons(e2, r2, "branch");
    FormCons(e1, r1, "uploadedBy");
    FormCons(e1, r1, "subject");
    FormCons(e1, r1, "semester");
    FormCons(e1, r1, "branch");
    FormCons(e1, r1, "regulation");
  }

  /**
   * The server reads back from the form exactly what was chosen: each
   * selection and the uploader under its own key, and the files in order.
   */
  lemma UploadFormReadsBack(sel: Selection, uploader: string, files: seq<UploadFile>)
    ensures var form := UploadForm(sel, uploader, files);
      TextField(form, "regulation") == Some(sel.regulation) &&
      TextField(form, "branch") == Some(sel.branch) &&
      TextField(form, "semester") == Some(sel.semester) &&
      TextField(form, "subject") == Some(sel.subject) &&
      TextField(form, "uploadedBy") == Some(uploader) &&
      Files(form) == files
  {
    var h, t := FormHeader(sel, uploader), FileEntries(files);
    FormHeaderReadsBack(sel, uploader);
    TextFieldAppend(h, t, "regulation");
    TextFieldAppend(h, t, "branch");
    TextFieldAppend(h, t, "semester");
    TextFieldAppend(h, t, "subject");
    TextFieldAppend(h, t, "uploadedBy");
    FilesAppend(h, t);
    FilesOfFileEntries(files);
  }

  /** The body of `handleSubmit` that fills the form: five appends, then one per file in a `for` loop. */
  method BuildUploadForm(sel: Selection, uploader: string, files: seq<UploadFile>) returns (form: seq<Entry>)
    ensures form == UploadForm(sel, uploader, files)
  {
    form := [];
    form := form + [Entry("regulation", TextValue(sel.regulation))];
    form := form + [Entry("branch", TextValue(sel.branch))];
    form := form + [Entry("semester", TextValue(sel.semester))];
    form := form + [Entry("subject", TextValue(sel.subject))];
    form := form + [Entry("uploadedBy", TextValue(uploader))];
    for i := 0 to |files|
      invariant |form| == 5 + i
      invariant form == UploadForm(sel, uploader, files[..i])
    {
      form := form + [Entry("files", FileValue(files[i]))];
      assert files[..i + 1][..i] == files[..i];
    }
    assert files[..|files|] == files;
  }

  /** What the upload handler did: the posted form, the alerts in order, and whether it logged out. */
  datatype UploadResult = UploadResult(form: Option<seq<Entry>>, alerts: seq<string>, logout: bool)

  /** The state of the upload screen. */
  class FacultyScreen {
    var regulations: seq<RegulationRecord>
    var branches: seq<Branch>
    var subjects: seq<Subject>
    var selection: Selection
    var files: seq<UploadFile>
    var uploads: seq<Note>
    var loading: bool

    constructor ()
      ensures regulations == [] && branches == [] && subjects == []
      ensures selection == Selection("", "", "", "") && files == [] && uploads == [] && !loading
    {
      regulations, branches, subjects := [], [], [];
      selection, files, uploads, loading := Selection("", "", "", ""), [], [], false;
    }

    function BranchOptions(): seq<Branch>
      reads this
    {
      FacultyBranches(branches, selection.regulation)
    }

    function SubjectOptions(): seq<Subject>
      reads this
    {
      FacultySubjects(subjects, selection.branch, selection.semester)
    }

    /**
     * The mount effect: when the guard allows it, the meta lists (fetched
     * one after another, set only when all three arrive) and the uploads
     * are loaded; a failure of either leaves its lists as they were.
     */
    method Mount(token: Option<string>, user: Option<User>,
                 meta: Reply<(seq<RegulationRecord>, seq<Branch>, seq<Subject>)>, mine: Reply<seq<Note>>)
      returns (access: Access)
      modifies this`regulations, this`branches, this`subjects, this`uploads
      ensures access == AccessOf(token, user)
      ensures access == Allowed && meta.Ok? ==>
        regulations == meta.data.0 && branches == meta.data.1 && subjects == meta.data.2
      ensures access != Allowed || meta.Failed? ==>
        regulations == old(regulations) && branches == old(branches) && subjects == old(subjects)
      ensures uploads == if access == Allowed && mine.Ok? then mine.data else old(uploads)
    {
      access := AccessOf(token, user);
      if access != Allowed {
        return;
      }
      if meta.Ok? {
        regulations, branches, subjects := meta.data.0, meta.data.1, meta.data.2;
      }
      if mine.Ok? {
        uploads := mine.data;
      }
    }

    /**
     * `handleSubmit`. Without all four selections, or without files, only
     * an alert is raised. Otherwise the form is posted (`upload` answers
     * it); on success the selections and files are reset and the uploads
     * are fetched again (`refetch` answers that). A 401 from either request
     * logs out; any other failure raises the generic alert.
     */
    method Submit(user: User, upload: Reply<()>, refetch: Reply<seq<Note>>) returns (result: UploadResult)
      modifies this`selection, this`files, this`uploads, this`loading
      ensures !old(selection).Complete() ==>
        result == UploadResult(None, [SelectAllFields], false) &&
        selection == old(selection) && files == old(files) && uploads == old(uploads) && loading == old(loading)
      ensures old(selection).Complete() && old(files) == [] ==>
        result == UploadResult(None, [SelectFiles], false) &&
        selection == old(selection) && files == old(files) && uploads == old(uploads) && loading == old(loading)
      ensures old(selection).Complete() && old(files) != [] ==>
        result.form == Some(UploadForm(old(selection), user.id, old(files))) && !loading
      ensures old(selection).Complete() && old(files) != [] && upload.Ok? ==>
        selection == Selection("", "", "", "") && files == [] &&
        uploads == (if refetch.Ok? then refetch.data else old(uploads)) &&
        result.logout == Unauthorized(refetch) &&
        result.alerts == [UploadDone] +
          (if refetch.Ok? then [] else if Unauthorized(refetch) then [SessionExpired] else [UploadFailed])
      ensures old(selection).Complete() && old(files) != [] && upload.Failed? ==>
        selection == old(selection) && files == old(files) && uploads == old(uploads) &&
        result.logout == Unauthorized(upload) &&
        result.alerts == (if Unauthorized(upload) then [SessionExpired] else [UploadFailed])
    {
      var sel, chosen := selection, files;
      if !sel.Complete() {
        return UploadResult(None, [SelectAllFields], false);
      }
      if chosen == [] {
        return UploadResult(None, [SelectFiles], false);
      }
      var form := BuildUploadForm(sel, user.id, chosen);
      loading := true;
      var failure: Option<Reply<()>> := None;
      var alerts: seq<string> := [];
      if upload.Ok? {
        alerts := [UploadDone];
        selection, files := Selection("", "", "", ""), [];
        if refetch.Ok? {
          uploads := refetch.data;
        } else {
          failure := Some(Failed(refetch.status, refetch.message));
        }
      } else {
        failure := Some(upload);
      }
      var logout := false;
      if failure.Some? {
        if Unauthorized(failure.value) {
          alerts, logout := alerts + [SessionExpired], true;
        } else {
          alerts := alerts + [UploadFailed];
        }
      }
      loading := false;
      result := UploadResult(Some(form), alerts, logout);
    }

    /** The regulation selector: branch and subject are cleared; the semester is kept. */
    method SelectRegulation(value: string)
      modifies this`selection
      ensures selection == old(selection).(regulation := value, branch := "", subject := "")
    {
      selection := selection.(regulation := value, branch := "", subject := "");
    }

    /** The branch selector: the subject is cleared. */
    method SelectBranch(value: string)
      modifies this`selection
      ensures selection == old(selection).(branch := value, subject := "")
    {
      selection := selection.(branch := value, subject := "");
    }

    /** The semester selector: the subject is cleared. */
    method SelectSemester(value: string)
      modifies this`selection
      ensures selection == old(selection).(semester := value, subject := "")
    {
      selection := selection.(semester := value, subject := "");
    }

    /** The subject selector. */
    method SelectSubject(value: string)
      modifies this`selection
      ensures selection == old(selection).(subject := value)
    {
      selection := selection.(subject := value);
    }

    /** The file input: the chosen files replace the list. */
    method ChooseFiles(chosen: seq<UploadFile>)
      modifies this`files
      ensures files == chosen
    {
      files := chosen;
    }
  }
}
