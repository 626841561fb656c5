/**
 * The administrator's notes screen (src/Components/Admin/NotesManager.jsx):
 * the taxonomy lists loaded once and normalised, four cascading selections,
 * the note query with its guard and client-side filter, and deletion.
 * A call of the session's `logout` is reported as a returned flag.
 */
module NotesManager {
  import opened Wrappers
  import opened Text
  import opened Numbers
  import opened Seqs
  import opened Refs
  import opened Taxonomy
  import opened Http

  /** `branches.filter((b) => String(b.regulation) === String(selectedRegulation))`, with no guard on an empty selection. */
  function NotesBranches(branches: seq<Branch>, selected: string): (r: seq<Branch>)
    ensures forall i :: 0 <= i < |r| ==> r[i] in branches && RefText(r[i].regulation) == selected
    ensures forall i :: 0 <= i < |branches| && RefText(branches[i].regulation) == selected ==> branches[i] in r
  {
    Filter(branches, (b: Branch) => RefText(b.regulation) == selected)
  }

  /** After normalisation no branch's regulation reads as "", so an empty selection offers no branch. */
  lemma NoBranchesBeforeRegulation(raw: seq<Branch>)
    ensures NotesBranches(MapSeq(raw, NormalizeBranch), "") == []
  {
    var bs := MapSeq(raw, NormalizeBranch);
    FilterNone(bs, (b: Branch) => RefText(b.regulation) == "");
  }

  /** The branch options keep the order of the full list. */
  lemma NotesBranchesInOrder(branches: seq<Branch>, selected: string)
    ensures IsSubsequence(NotesBranches(branches, selected), branches)
  {
    FilterIsSubsequence(branches, (b: Branch) => RefText(b.regulation) == selected);
  }

  /**
   * `regulations.find((r) => String(r._id) === String(selectedRegulation))`,
   * on the records as sent: the first record with that id.
   */
  function FindRecord(regulations: seq<RegulationRecord>, selected: string): (r: Option<RegulationRecord>)
    ensures r.None? <==> forall i :: 0 <= i < |regulations| ==> regulations[i].id != selected
    ensures r.Some? ==> r.value in regulations && r.value.id == selected
    ensures r.Some? ==>
      exists i :: 0 <= i < |regulations| && regulations[i] == r.value &&
        forall j :: 0 <= j < i ==> regulations[j].id != selected
  {
    Find(regulations, (x: RegulationRecord) => x.id == selected)
  }

  /**
   * `semesterOptions`: 1, 2, ..., N where N is `Number(numberOfSemesters || 0)`
   * of the selected record; none when no record matches. The `|| 0` only
   * turns a missing count into 0, which offers no semester either way.
   */
  function NotesSemesterOptions(regulations: seq<RegulationRecord>, selected: string): (r: seq<int>)
    ensures FindRecord(regulations, selected).None? ==> r == []
    ensures FindRecord(regulations, selected).Some? ==>
      |r| == SemesterCount(DirectNumber(FindRecord(regulations, selected).value.numberOfSemesters))
    ensures forall i :: 0 <= i < |r| ==> r[i] == i + 1
  {
    match FindRecord(regulations, selected)
    case None => []
    case Some(reg) => OneTo(SemesterCount(DirectNumber(reg.numberOfSemesters)))
  }

  lemma {:induction false} FindRecordNormalized(regulations: seq<RegulationRecord>, selected: string)
    ensures FindRegulation(MapSeq(regulations, NormalizeRegulation), selected) ==
      match FindRecord(regulations, selected)
      case None => None
      case Some(reg) => Some(NormalizeRegulation(reg))
  {
    if regulations != [] {
      var m := MapSeq(regulations, NormalizeRegulation);
      assert m[1..] == MapSeq(regulations[1..], NormalizeRegulation);
      FindRecordNormalized(regulations[1..], selected);
    }
  }

  /**
   * The notes screen reads the raw records and the administrator screen the
   * normalised ones, yet both offer the same semesters for every selection.
   */
  lemma NotesSemesterOptionsMatchAdmin(regulations: seq<RegulationRecord>, selected: string)
    ensures NotesSemesterOptions(regulations, selected) ==
      SemesterOptions(MapSeq(regulations, NormalizeRegulation), selected)
  {
    FindRecordNormalized(regulations, selected);
  }

  /** The four selections of the filter bar. */
  datatype Selection = Selection(regulation: string, branch: string, semester: string, subject: string)
  {
    /** The query guard of `fetchNotes`: every selection is made. */
    predicate Complete() {
      regulation != "" && branch != "" && semester != "" && subject != ""
    }
  }

  const IncompleteSelectionMessage: string := "Please select Regulation, Branch, Semester and Subject"

  /** The client-side filter of `fetchNotes`, on a normalised note. */
  predicate Matches(n: NoteRow, sel: Selection) {
    RefText(n.regulation) == sel.regulation && RefText(n.branch) == sel.branch &&
    NumEq(n.semester, ParseNumber(sel.semester)) && RefText(n.subject) == sel.subject
  }

  /** The notes `fetchNotes` keeps: the normalised notes that match all four selections. */
  function MatchingNotes(notes: seq<Note>, sel: Selection): (r: seq<NoteRow>)
    ensures forall i :: 0 <= i < |r| ==> r[i] in MapSeq(notes, NormalizeNote) && Matches(r[i], sel)
    ensures forall i :: 0 <= i < |notes| && Matches(NormalizeNote(notes[i]), sel) ==> NormalizeNote(notes[i]) in r
  {
    var rows := MapSeq(notes, NormalizeNote);
    assert forall i :: 0 <= i < |notes| ==> rows[i] == NormalizeNote(notes[i]);
    Filter(rows, (n: NoteRow) => Matches(n, sel))
  }

  /** The kept notes appear in the order the server sent them. */
  lemma MatchingNotesInOrder(notes: seq<Note>, sel: Selection)
    ensures IsSubsequence(MatchingNotes(notes, sel), MapSeq(notes, NormalizeNote))
  {
    FilterIsSubsequence(MapSeq(notes, NormalizeNote), (n: NoteRow) => Matches(n, sel));
  }

  /** Each kept row appears as often as among the normalised notes, and a row that does not match never. */
  lemma MatchingNotesCount(notes: seq<Note>, sel: Selection, n: NoteRow)
    ensures multiset(MatchingNotes(notes, sel))[n] ==
      if Matches(n, sel) then multiset(MapSeq(notes, NormalizeNote))[n] else 0
  {
    FilterCount(MapSeq(notes, NormalizeNote), (m: NoteRow) => Matches(m, sel), n);
  }

  /** A note whose references are raw ids and whose semester is the selected number is kept. */
  lemma RawNoteMatches(n: Note, sel: Selection, k: int)
    requires n.regulation == Raw(sel.regulation) && n.branch == Raw(sel.branch) && n.subject == Raw(sel.subject)
    requires n.semester == SemNumber(k) && ParseNumber(sel.semester) == Int(k)
    ensures Matches(NormalizeNote(n), sel)
  {
  }

  /** An embedded reference matches by its `_id`, exactly as the raw id would. */
  lemma EmbeddedNoteMatchesLikeRaw(n: Note, sel: Selection, oid: string)
    requires oid != ""
    ensures Matches(NormalizeNote(n.(subject := Embedded(oid))), sel) == Matches(NormalizeNote(n.(subject := Raw(oid))), sel)
  {
  }

  /** A wrapped semester is never read by `Number(n.semester)`, so such a note matches no selection. */
  lemma WrappedSemesterNoteNeverMatches(n: Note, sel: Selection)
    requires n.semester.SemWrapped?
    ensures !Matches(NormalizeNote(n), sel)
  {
  }

  /** `prev.filter((n) => n._id !== id)`. */
  function WithoutNote(notes: seq<NoteRow>, id: string): (r: seq<NoteRow>)
    ensures |r| <= |notes|
    ensures forall i :: 0 <= i < |r| ==> r[i] in notes && r[i].id != id
    ensures forall i :: 0 <= i < |notes| && notes[i].id != id ==> notes[i] in r
  {
    Filter(notes, (n: NoteRow) => n.id != id)
  }

  /**
   * Deleting removes exactly the notes with that id: every other note is
   * kept, as often as it occurred and in its order, and a list without
   * that id is left as it is.
   */
  lemma WithoutNoteRemovesExactly(notes: seq<NoteRow>, id: string, n: NoteRow)
    ensures IsSubsequence(WithoutNote(notes, id), notes)
    ensures n.id != id ==> multiset(WithoutNote(notes, id))[n] == multiset(notes)[n]
    ensures n.id == id ==> multiset(WithoutNote(notes, id))[n] == 0
    ensures (forall i :: 0 <= i < |notes| ==> notes[i].id != id) ==> WithoutNote(notes, id) == notes
  {
    var p := (x: NoteRow) => x.id != id;
    FilterIsSubsequence(notes, p);
    FilterCount(notes, p, n);
    if forall i :: 0 <= i < |notes| ==> notes[i].id != id {
      FilterAll(notes, p);
    }
  }

  /** The state of the notes screen. */
  class NotesScreen {
    var regulations: seq<RegulationRecord>
    var branches: seq<Branch>
    var subjects: seq<SubjectRow>
    var selectedRegulation: string
    var selectedBranch: string
    var selectedSemester: string
    var selectedSubject: string
    var notes: seq<NoteRow>
    var loadingNotes: bool
    var error: string
    var showDeleteModal: bool
    var noteToDelete: Option<NoteRow>
    var deleting: bool

    constructor ()
      ensures regulations == [] && branches == [] && subjects == []
      ensures Current() == Selection("", "", "", "")
      ensures notes == [] && !loadingNotes && error == ""
      ensures !showDeleteModal && noteToDelete.None? && !deleting
    {
      regulations, branches, subjects := [], [], [];
      selectedRegulation, selectedBranch, selectedSemester, selectedSubject := "", "", "", "";
      notes, loadingNotes, error := [], false, "";
      showDeleteModal, noteToDelete, deleting := false, None, false;
    }

    function Current(): Selection
      reads this
    {
      Selection(selectedRegulation, selectedBranch, selectedSemester, selectedSubject)
    }

    /** `semesterOptions` of the current regulation, over the records as stored. */
    function SemesterOptionsShown(): (r: seq<int>)
      reads this
      ensures r == SemesterOptions(MapSeq(regulations, NormalizeRegulation), selectedRegulation)
      ensures selectedRegulation == "" && (forall i :: 0 <= i < |regulations| ==> regulations[i].id != "") ==> r == []
    {
      NotesSemesterOptionsMatchAdmin(regulations, selectedRegulation);
      NotesSemesterOptions(regulations, selectedRegulation)
    }

    /**
     * The meta fetch on mount: skipped without a token; on success the
     * regulations are kept as sent, the branches and subjects are
     * normalised, and a list that is missing or not an array reads as
     * `[]`; a 401 logs out, any other failure sets the error.
     */
    method LoadMeta(token: Option<string>, reply: Reply<MetaLists>)
      returns (logout: bool)
      modifies this`regulations, this`branches, this`subjects, this`error
      ensures (token.None? || token.value == "") ==>
        !logout && regulations == old(regulations) && branches == old(branches) &&
        subjects == old(subjects) && error == old(error)
      ensures token.Some? && token.value != "" && reply.Ok? ==>
        !logout && error == old(error) &&
        regulations == reply.data.regulations.GetOr([]) &&
        branches == MapSeq(reply.data.branches.GetOr([]), NormalizeBranch) &&
        subjects == MapSeq(reply.data.subjects.GetOr([]), NotesSubjectRow)
      ensures token.Some? && token.value != "" && reply.Failed? ==>
        regulations == old(regulations) && branches == old(branches) && subjects == old(subjects) &&
        logout == Unauthorized(reply) &&
        error == (if Unauthorized(reply) then old(error) else "Failed to load meta data")
    {
      logout := false;
      if token.None? || token.value == "" {
        return;
      }
      match reply {
        case Ok(lists) =>
          regulations := lists.regulations.GetOr([]);
          branches := MapSeq(lists.branches.GetOr([]), NormalizeBranch);
          subjects := MapSeq(lists.subjects.GetOr([]), NotesSubjectRow);
        case Failed(_, _) =>
          if Unauthorized(reply) {
            logout := true;
          } else {
            error := "Failed to load meta data";
          }
      }
    }

    /**
     * `fetchNotes`. With a selection missing nothing is requested and the
     * guard message is shown; otherwise the error is cleared, `reply` is
     * the outcome of the request, and on success the notes are exactly the
     * matching normalised notes, a missing body reading as `[]`; on failure
     * the list is emptied.
     */
    method FetchNotes(reply: Reply<Option<seq<Note>>>) returns (requested: bool, logout: bool)
      modifies this`notes, this`error, this`loadingNotes
      ensures requested == Current().Complete()
      ensures !requested ==>
        !logout && error == IncompleteSelectionMessage && notes == old(notes) && loadingNotes == old(loadingNotes)
      ensures requested && reply.Ok? ==> !logout && error == "" && notes == MatchingNotes(reply.data.GetOr([]), Current())
      ensures requested && reply.Failed? ==>
        notes == [] && logout == Unauthorized(reply) &&
        error == (if Unauthorized(reply) then "" else "Failed to fetch notes")
      ensures requested ==> !loadingNotes
    {
      logout := false;
      if !Current().Complete() {
        error := IncompleteSelectionMessage;
        return false, false;
      }
      requested := true;
      error := "";
      loadingNotes := true;
      match reply {
        case Ok(data) =>
          notes := MatchingNotes(data.GetOr([]), Current());
        case Failed(_, _) =>
          if Unauthorized(reply) {
            logout := true;
          } else {
            error := "Failed to fetch notes";
          }
          notes := [];
      }
      loadingNotes := false;
    }

    /** The reset effect: any change of the four selections empties the notes. */
    method ResetOnChange(before: Selection)
      modifies this`notes
      ensures notes == if before != Current() then [] else old(notes)
    {
      if before != Current() {
        notes := [];
      }
    }

    /** The regulation selector: branch, semester and subject are cleared. */
    method SelectRegulation(value: string)
      modifies this`selectedRegulation, this`selectedBranch, this`selectedSemester, this`selectedSubject, this`notes
      ensures Current() == Selection(value, "", "", "")
      ensures notes == if old(Current()) != Current() then [] else old(notes)
    {
      var before := Current();
      selectedRegulation, selectedBranch, selectedSemester, selectedSubject := value, "", "", "";
      ResetOnChange(before);
    }

    /** The branch selector: semester and subject are cleared, the regulation kept. */
    method SelectBranch(value: string)
      modifies this`selectedBranch, this`selectedSemester, this`selectedSubject, this`notes
      ensures Current() == Selection(old(selectedRegulation), value, "", "")
      ensures notes == if old(Current()) != Current() then [] else old(notes)
    {
      var before := Current();
      selectedBranch, selectedSemester, selectedSubject := value, "", "";
      ResetOnChange(before);
    }

    /** The semester selector: the subject is cleared. */
    method SelectSemester(value: string)
      modifies this`selectedSemester, this`selectedSubject, this`notes
      ensures Current() == Selection(old(selectedRegulation), old(selectedBranch), value, "")
      ensures notes == if old(Current()) != Current() then [] else old(notes)
    {
      var before := Current();
      selectedSemester, selectedSubject := value, "";
      ResetOnChange(before);
    }

    /** The subject selector: nothing else is cleared. */
    method SelectSubject(value: string)
      modifies this`selectedSubject, this`notes
      ensures Current() == old(Current()).(subject := value)
      ensures notes == if old(Current()) != Current() then [] else old(notes)
    {
      var before := Current();
      selectedSubject := value;
      ResetOnChange(before);
    }

    /** The Delete button of a row. */
    method DeleteClick(note: NoteRow)
      modifies this`noteToDelete, this`showDeleteModal
      ensures noteToDelete == Some(note) && showDeleteModal
    {
      noteToDelete := Some(note);
      showDeleteModal := true;
    }

    /** Cancel in the delete dialog: only the dialog closes. */
    method CancelDelete()
      modifies this`showDeleteModal
      ensures !showDeleteModal
    {
      showDeleteModal := false;
    }

    /**
     * `confirmDelete`: with a note named, `reply` is the outcome of the
     * DELETE; success removes the notes with that id, a 401 logs out, any
     * other failure sets the error; the dialog state is reset in every case.
     */
    method ConfirmDelete(reply: Reply<()>) returns (logout: bool)
      modifies this`notes, this`error, this`showDeleteModal, this`noteToDelete, this`deleting
      ensures old(noteToDelete).None? ==>
        !logout && notes == old(notes) && error == old(error) &&
        showDeleteModal == old(showDeleteModal) && noteToDelete.None? && deleting == old(deleting)
      ensures old(noteToDelete).Some? && reply.Ok? ==>
        !logout && notes == WithoutNote(old(notes), old(noteToDelete).value.id) && error == old(error)
      ensures old(noteToDelete).Some? && reply.Failed? ==>
        notes == old(notes) && logout == Unauthorized(reply) &&
        error == (if Unauthorized(reply) then old(error) else "Failed to delete note")
      ensures old(noteToDelete).Some? ==> !deleting && !showDeleteModal && noteToDelete.None?
    {
      logout := false;
      if noteToDelete.None? {
        return;
      }
      var id := noteToDelete.value.id;
      deleting := true;
      match reply {
        case Ok(_) =>
          notes := WithoutNote(notes, id);
        case Failed(_, _) =>
          if Unauthorized(reply) {
            logout := true;
          } else {
            error := "Failed to delete note";
          }
      }
      deleting := false;
      showDeleteModal := false;
      noteToDelete := None;
    }
  }
}
