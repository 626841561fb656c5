/**
 * The student's search screen (src/pages/StudentDashboard.jsx): cascading
 * regulation, branch, semester and subject selectors over the raw meta
 * lists, the notes query, and the "download all" archive.
 */
module StudentDashboard {
  import opened Wrappers
  import opened Numbers
  import opened Seqs
  import opened Refs
  import opened Http
  import opened Taxonomy
  import Card

  const SelectAllFields: string := "Please select all fields"
  const MetaFailed: string := "Failed to fetch metadata"
  const NotesFailed: string := "Failed to fetch notes."
  const DownloadAllFailed: string := "Failed to download all notes."
  const ArchiveName: string := "All_Notes.zip"

  /** `filteredBranches`: the branches whose regulation id, embedded or raw, is the selected one. */
  function StudentBranches(branches: seq<Branch>, selectedRegulation: string): (r: seq<Branch>)
    ensures forall i :: 0 <= i < |r| ==> r[i] in branches && RefId(r[i].regulation) == selectedRegulation
    ensures forall i :: 0 <= i < |branches| && RefId(branches[i].regulation) == selectedRegulation ==> branches[i] in r
  {
    BranchesOf(branches, selectedRegulation)
  }

  /** The test of `filteredSubjects`: the branch id and the semester are both compared as strings. */
  predicate OfferedSubject(s: Subject, selectedBranch: string, selectedSemester: string) {
    RefId(s.branch) == selectedBranch && SemesterText(s.semester) == selectedSemester
  }

  /** `filteredSubjects`, over the subjects as the server sent them. */
  function StudentSubjects(subjects: seq<Subject>, selectedBranch: string, selectedSemester: string): (r: seq<Subject>)
    ensures forall i :: 0 <= i < |r| ==> r[i] in subjects && OfferedSubject(r[i], selectedBranch, selectedSemester)
    ensures forall i :: 0 <= i < |subjects| && OfferedSubject(subjects[i], selectedBranch, selectedSemester) ==> subjects[i] in r
  {
    Filter(subjects, (s: Subject) => OfferedSubject(s, selectedBranch, selectedSemester))
  }

  /** The subject options keep the order of the full list. */
  lemma StudentSubjectsInOrder(subjects: seq<Subject>, selectedBranch: string, selectedSemester: string)
    ensures IsSubsequence(StudentSubjects(subjects, selectedBranch, selectedSemester), subjects)
  {
    FilterIsSubsequence(subjects, (s: Subject) => OfferedSubject(s, selectedBranch, selectedSemester));
  }

  /** The semester selector always offers 1 to 8, whatever regulation is chosen. */
  const StudentSemesters: seq<int> := OneTo(8)

  lemma StudentSemestersMembers(k: int)
    ensures |StudentSemesters| == 8
    ensures k in StudentSemesters <==> 1 <= k <= 8
  {
    if 1 <= k <= 8 {
      assert StudentSemesters[k - 1] == k;
    }
  }

  /**
   * Because the semester is compared as text, a subject stored with a
   * numeric semester k is offered under the choice k, while one stored as
   * `"03"` or as an extended-JSON wrapper is offered under no choice.
   */
  lemma SemesterComparedAsText(s: Subject, k: int)
    requires 1 <= k <= 8
    ensures s.semester == SemNumber(k) && RefId(s.branch) == "b" ==> OfferedSubject(s, "b", IntToString(k))
    ensures s.semester == SemText("03") ==> !OfferedSubject(s, RefId(s.branch), IntToString(k))
    ensures s.semester.SemWrapped? ==> !OfferedSubject(s, RefId(s.branch), IntToString(k))
  {
  }

  /** The archive entry of one note: its title (`undefined` when absent) with ".pdf", and the fetched file. */
  datatype ZipEntry = ZipEntry(name: string, content: seq<int>)

  function EntryName(note: Note): string {
    note.title.GetOr("undefined") + ".pdf"
  }

  /** Where `handleDownloadAll` fetches the note's file from. */
  function FileUrl(backend: string, note: Note): string {
    Card.NoteUrl(backend, note.id)
  }

  /** Every fetch of the first `n` notes succeeds. */
  predicate AllFetched(notes: seq<Note>, backend: string, fetch: string -> Reply<seq<int>>, n: int)
    requires 0 <= n <= |notes|
  {
    forall j :: 0 <= j < n ==> fetch(FileUrl(backend, notes[j])).Ok?
  }

  /**
   * The archive the loop builds: one entry per note, in order, when every
   * fetch succeeds; none as soon as one fails.
   */
  function Archive(notes: seq<Note>, backend: string, fetch: string -> Reply<seq<int>>): (r: Option<seq<ZipEntry>>)
    ensures r.Some? <==> AllFetched(notes, backend, fetch, |notes|)
    ensures r.Some? ==> |r.value| == |notes|
    ensures r.Some? ==> forall j :: 0 <= j < |notes| ==>
      r.value[j] == ZipEntry(EntryName(notes[j]), fetch(FileUrl(backend, notes[j])).data)
  {
    if notes == [] then Some([])
    else
      var front := Archive(notes[..|notes| - 1], backend, fetch);
      var last := notes[|notes| - 1];
      var reply := fetch(FileUrl(backend, last));
      if front.None? || reply.Failed? then None
      else Some(front.value + [ZipEntry(EntryName(last), reply.data)])
  }

  /**
   * The loop of `handleDownloadAll`: the notes' files are fetched one after
   * another and added to the archive; the first failed fetch ends the loop.
   * `fetched` lists the requests made, the failing one last.
   */
  method CollectArchive(notes: seq<Note>, backend: string, fetch: string -> Reply<seq<int>>)
    returns (archive: Option<seq<ZipEntry>>, fetched: seq<string>)
    ensures archive == Archive(notes, backend, fetch)
    ensures |fetched| <= |notes|
    ensures forall j :: 0 <= j < |fetched| ==> fetched[j] == FileUrl(backend, notes[j])
    ensures archive.Some? ==> |fetched| == |notes|
    ensures archive.None? ==>
      |fetched| >= 1 && fetch(fetched[|fetched| - 1]).Failed? && AllFetched(notes, backend, fetch, |fetched| - 1)
  {
    var entries: seq<ZipEntry> := [];
    fetched := [];
    var i := 0;
    while i < |notes|
      invariant 0 <= i <= |notes|
      invariant |fetched| == i
      invariant forall j :: 0 <= j < i ==> fetched[j] == FileUrl(backend, notes[j])
      invariant Archive(notes[..i], backend, fetch) == Some(entries)
      invariant AllFetched(notes, backend, fetch, i)
    {
      var url := FileUrl(backend, notes[i]);
      fetched := fetched + [url];
      var reply := fetch(url);
      assert notes[..i + 1][..i] == notes[..i];
      if reply.Failed? {
        assert !AllFetched(notes, backend, fetch, |notes|);
        return None, fetched;
      }
      entries := entries + [ZipEntry(EntryName(notes[i]), reply.data)];
      i := i + 1;
    }
    assert notes[..i] == notes;
    archive := Some(entries);
  }

  /** The state of the search screen. */
  class StudentScreen {
    var regulations: seq<RegulationRecord>
    var branches: seq<Branch>
    var subjects: seq<Subject>
    var selectedRegulation: string
    var selectedBranch: string
    var selectedSemester: string
    var selectedSubject: string
    var filteredNotes: seq<Note>
    var searchDone: bool
    var loading: bool
    var downloadingAll: bool

    constructor ()
      ensures regulations == [] && branches == [] && subjects == []
      ensures selectedRegulation == "" && selectedBranch == "" && selectedSemester == "" && selectedSubject == ""
      ensures filteredNotes == [] && !searchDone && !loading && !downloadingAll
    {
      regulations, branches, subjects := [], [], [];
      selectedRegulation, selectedBranch, selectedSemester, selectedSubject := "", "", "", "";
      filteredNotes, searchDone, loading, downloadingAll := [], false, false, false;
    }

    /** The branch options of the current selection. */
    function BranchOptions(): seq<Branch>
      reads this
    {
      StudentBranches(branches, selectedRegulation)
    }

    /** The subject options of the current selection. */
    function SubjectOptions(): seq<Subject>
      reads this
    {
      StudentSubjects(subjects, selectedBranch, selectedSemester)
    }

    /** The mount fetch: the three lists arrive together or not at all. */
    method LoadMeta(reply: Reply<MetaLists>) returns (alert: Option<string>)
      modifies this`regulations, this`branches, this`subjects
      ensures reply.Ok? ==>
        alert.None? && regulations == reply.data.regulations.GetOr([]) &&
        branches == reply.data.branches.GetOr([]) && subjects == reply.data.subjects.GetOr([])
      ensures reply.Failed? ==>
        alert == Some(MetaFailed) &&
        regulations == old(regulations) && branches == old(branches) && subjects == old(subjects)
    {
      match reply {
        case Ok(lists) =>
          regulations := lists.regulations.GetOr([]);
          branches := lists.branches.GetOr([]);
          subjects := lists.subjects.GetOr([]);
          alert := None;
        case Failed(_, _) =>
          alert := Some(MetaFailed);
      }
    }

    /**
     * `handleGetNotes`: with any selection empty the alert is raised and
     * nothing is requested; otherwise `reply` answers the request for the
     * subject's notes, the results become the returned notes (or none),
     * and the search is marked done whatever the outcome.
     */
    method GetNotes(reply: Reply<Option<seq<Note>>>) returns (path: Option<string>, alert: Option<string>)
      modifies this`filteredNotes, this`searchDone, this`loading
      ensures path.Some? <==>
        selectedRegulation != "" && selectedBranch != "" && selectedSemester != "" && selectedSubject != ""
      ensures path.None? ==>
        alert == Some(SelectAllFields) &&
        filteredNotes == old(filteredNotes) && searchDone == old(searchDone) && loading == old(loading)
      ensures path.Some? ==> path.value == "/notes/subject/" + selectedSubject && searchDone && !loading
      ensures path.Some? && reply.Ok? ==> alert.None? && filteredNotes == reply.data.GetOr([])
      ensures path.Some? && reply.Failed? ==> alert == Some(NotesFailed) && filteredNotes == []
    {
      if selectedRegulation == "" || selectedBranch == "" || selectedSemester == "" || selectedSubject == "" {
        return None, Some(SelectAllFields);
      }
      path := Some("/notes/subject/" + selectedSubject);
      loading := true;
      match reply {
        case Ok(notes) =>
          filteredNotes := notes.GetOr([]);
          alert := None;
        case Failed(_, _) =>
          filteredNotes := [];
          alert := Some(NotesFailed);
      }
      searchDone := true;
      loading := false;
    }

    /**
     * `handleDownloadAll`: nothing happens without results; otherwise the
     * archive of the results is saved, under `savedAs`, when every fetch
     * succeeds, and the failure alert is raised when one does not.
     */
    method DownloadAll(backend: string, fetch: string -> Reply<seq<int>>)
      returns (saved: Option<seq<ZipEntry>>, savedAs: Option<string>, fetched: seq<string>, alert: Option<string>)
      modifies this`downloadingAll
      ensures filteredNotes == [] ==>
        saved.None? && fetched == [] && alert.None? && downloadingAll == old(downloadingAll)
      ensures filteredNotes != [] ==>
        saved == Archive(filteredNotes, backend, fetch) && !downloadingAll &&
        (alert.Some? <==> saved.None?) && (alert.Some? ==> alert.value == DownloadAllFailed)
      ensures savedAs == if saved.Some? then Some(ArchiveName) else None
      ensures forall j :: 0 <= j < |fetched| ==> j < |filteredNotes| && fetched[j] == FileUrl(backend, filteredNotes[j])
    {
      var notes := filteredNotes;
      if notes == [] {
        return None, None, [], None;
      }
      downloadingAll := true;
      saved, fetched := CollectArchive(notes, backend, fetch);
      savedAs := if saved.Some? then Some(ArchiveName) else None;
      alert := if saved.None? then Some(DownloadAllFailed) else None;
      downloadingAll := false;
    }

    /** The regulation selector: everything below it, the results and the search flag are cleared. */
    method SelectRegulation(value: string)
      modifies this`selectedRegulation, this`selectedBranch, this`selectedSemester, this`selectedSubject,
               this`filteredNotes, this`searchDone
      ensures selectedRegulation == value && selectedBranch == "" && selectedSemester == "" && selectedSubject == ""
      ensures filteredNotes == [] && !searchDone
    {
      selectedRegulation, selectedBranch, selectedSemester, selectedSubject := value, "", "", "";
      filteredNotes, searchDone := [], false;
    }

    /** The branch selector: semester, subject, results and the search flag are cleared. */
    method SelectBranch(value: string)
      modifies this`selectedBranch, this`selectedSemester, this`selectedSubject, this`filteredNotes, this`searchDone
      ensures selectedBranch == value && selectedSemester == "" && selectedSubject == ""
      ensures filteredNotes == [] && !searchDone
    {
      selectedBranch, selectedSemester, selectedSubject := value, "", "";
      filteredNotes, searchDone := [], false;
    }

    /** The semester selector: subject, results and the search flag are cleared. */
    method SelectSemester(value: string)
      modifies this`selectedSemester, this`selectedSubject, this`filteredNotes, this`searchDone
      ensures selectedSemester == value && selectedSubject == ""
      ensures filteredNotes == [] && !searchDone
    {
      selectedSemester, selectedSubject := value, "";
      filteredNotes, searchDone := [], false;
    }

    /** The subject selector: nothing else changes, not even the results. */
    method SelectSubject(value: string)
      modifies this`selectedSubject
      ensures selectedSubject == value
    {
      selectedSubject := value;
    }
  }
}
