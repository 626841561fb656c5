/**
 * The records of the note portal -- regulations, branches, subjects and
 * notes -- in the form the server sends them, the normalised rows the
 * screens keep, and the derived option lists several screens share.
 */
module Taxonomy {
  import opened Wrappers
  import opened Text
  import opened Numbers
  import opened Seqs
  import opened Refs

  /** An academic curriculum version, as the server sends it. */
  datatype RegulationRecord = RegulationRecord(id: string, name: string, numberOfSemesters: Semester)

  /** A regulation as the administrator screen keeps it: the count read through `Number`. */
  datatype Regulation = Regulation(id: string, name: string, numberOfSemesters: Num)

  /** A department under a regulation. */
  datatype Branch = Branch(id: string, name: string, code: string, regulation: Ref)

  /** A course of a branch in one semester, as the server sends it. */
  datatype Subject = Subject(id: string, name: string, code: string, branch: Ref, semester: Semester)

  /** A subject after normalisation: the branch reference reduced to an id, the semester to a number. */
  datatype SubjectRow = SubjectRow(id: string, name: string, code: string, branch: Ref, semester: Num)

  /** An uploaded note, as the server sends it. */
  datatype Note = Note(
    id: string, title: Option<string>, filename: Option<string>,
    regulation: Ref, branch: Ref, subject: Ref, semester: Semester)

  /** A note after normalisation: references reduced to ids, the semester to a number. */
  datatype NoteRow = NoteRow(id: string, title: Option<string>, regulation: Ref, branch: Ref, subject: Ref, semester: Num)

  /** `Array.from({ length: n || 0 }, ...)` takes a NaN or negative length as 0. */
  function SemesterCount(n: Num): (c: nat)
    ensures n.Int? && n.value > 0 ==> c == n.value
    ensures !(n.Int? && n.value > 0) ==> c == 0
  {
    if n.Int? && n.value > 0 then n.value else 0
  }

  /** `branches.filter((b) => String(b.regulation?._id || b.regulation) === regulationId)`. */
  function BranchesOf(branches: seq<Branch>, regulationId: string): (r: seq<Branch>)
    ensures forall i :: 0 <= i < |r| ==> r[i] in branches && RefId(r[i].regulation) == regulationId
    ensures forall i :: 0 <= i < |branches| && RefId(branches[i].regulation) == regulationId ==> branches[i] in r
  {
    Filter(branches, (b: Branch) => RefId(b.regulation) == regulationId)
  }

  /** The branches of a regulation keep their order. */
  lemma BranchesOfInOrder(branches: seq<Branch>, regulationId: string)
    ensures IsSubsequence(BranchesOf(branches, regulationId), branches)
  {
    FilterIsSubsequence(branches, (x: Branch) => RefId(x.regulation) == regulationId);
  }

  /** A branch joins its regulation's list whether its reference is embedded or raw. */
  lemma BranchesOfAppend(branches: seq<Branch>, regulationId: string, b: Branch)
    requires b.regulation == Embedded(regulationId) || b.regulation == Raw(regulationId)
    requires regulationId != ""
    ensures BranchesOf(branches + [b], regulationId) == BranchesOf(branches, regulationId) + [b]
  {
    var p := (x: Branch) => RefId(x.regulation) == regulationId;
    FilterAppend(branches, [b], p);
    assert Filter([b], p) == [b];
  }

  /** `regulations.find((r) => r._id === id)`: the first regulation with that id. */
  function FindRegulation(regulations: seq<Regulation>, id: string): (r: Option<Regulation>)
    ensures r.None? <==> forall i :: 0 <= i < |regulations| ==> regulations[i].id != id
    ensures r.Some? ==> r.value in regulations && r.value.id == id
    ensures r.Some? ==>
      exists i :: 0 <= i < |regulations| && regulations[i] == r.value &&
        forall j :: 0 <= j < i ==> regulations[j].id != id
  {
    Find(regulations, (x: Regulation) => x.id == id)
  }

  /**
   * The semester choices for the selected regulation: 1, 2, ..., N where N is
   * that regulation's `numberOfSemesters`; none when no regulation has the
   * selected id or N is 0.
   */
  function SemesterOptions(regulations: seq<Regulation>, selected: string): (r: seq<int>)
    ensures FindRegulation(regulations, selected).None? ==> r == []
    ensures FindRegulation(regulations, selected).Some? ==>
      |r| == SemesterCount(FindRegulation(regulations, selected).value.numberOfSemesters)
    ensures forall i :: 0 <= i < |r| ==> r[i] == i + 1
  {
    match FindRegulation(regulations, selected)
    case None => []
    case Some(reg) => OneTo(SemesterCount(reg.numberOfSemesters))
  }

  /** A semester k is offered exactly when 1 <= k <= N for the selected regulation. */
  lemma SemesterOptionsMembers(regulations: seq<Regulation>, selected: string, k: int)
    ensures k in SemesterOptions(regulations, selected) <==>
      FindRegulation(regulations, selected).Some? &&
      1 <= k <= SemesterCount(FindRegulation(regulations, selected).value.numberOfSemesters)
  {
    var r := SemesterOptions(regulations, selected);
    if 1 <= k <= |r| {
      assert r[k - 1] == k;
    }
  }

  /** `{ ...r, numberOfSemesters: Number(r.numberOfSemesters) }` (`MetaManager.fetchData`). */
  function NormalizeRegulation(r: RegulationRecord): (n: Regulation)
    ensures n.id == r.id && n.name == r.name
    ensures r.numberOfSemesters.SemNumber? ==> n.numberOfSemesters == Int(r.numberOfSemesters.n)
    ensures r.numberOfSemesters.SemText? ==> n.numberOfSemesters == ParseNumber(r.numberOfSemesters.s)
    ensures r.numberOfSemesters.SemWrapped? || r.numberOfSemesters.SemMissing? ==> n.numberOfSemesters == NaN
  {
    Regulation(r.id, r.name, DirectNumber(r.numberOfSemesters))
  }

  /** The branch record with its regulation reference normalised. */
  function NormalizeBranch(b: Branch): (n: Branch)
    ensures n.id == b.id && n.name == b.name && n.code == b.code
    ensures b.regulation != Raw("") ==> RefText(n.regulation) == RefId(b.regulation)
  {
    b.(regulation := Normalize(b.regulation))
  }

  /** The administrator screen's subject row (`MetaManager.fetchData`). */
  function MetaSubjectRow(s: Subject): (r: SubjectRow)
    ensures r.id == s.id && r.name == s.name && r.code == s.code
    ensures r.semester == MetaSemester(s.semester)
    ensures s.semester.SemNumber? ==> r.semester == Int(s.semester.n)
    ensures s.semester.SemMissing? || s.semester == SemText("") ==> r.semester == Int(0)
    ensures s.branch != Raw("") ==> RefText(r.branch) == RefId(s.branch)
  {
    SubjectRow(s.id, s.name, s.code, Normalize(s.branch), MetaSemester(s.semester))
  }

  /** The notes screen's subject row (`NotesManager`'s meta fetch). */
  function NotesSubjectRow(s: Subject): (r: SubjectRow)
    ensures r.id == s.id && r.name == s.name && r.code == s.code
    ensures r.semester == NotesSemester(s.semester)
    ensures s.semester.SemNumber? ==> r.semester == Int(s.semester.n)
    ensures s.semester.SemMissing? ==> r.semester == Int(0)
    ensures s.branch != Raw("") ==> RefText(r.branch) == RefId(s.branch)
  {
    SubjectRow(s.id, s.name, s.code, Normalize(s.branch), NotesSemester(s.semester))
  }

  /**
   * The three meta lists as the server sends them. `None` is a body that is
   * not an array (`Array.isArray(..) ? .. : []`) or is missing
   * (`.. || []`); either reads as `[]`.
   */
  datatype MetaLists = MetaLists(regulations: Option<seq<RegulationRecord>>,
                                 branches: Option<seq<Branch>>, subjects: Option<seq<Subject>>)

  /** A note with its references and semester normalised (`NotesManager.fetchNotes`). */
  function NormalizeNote(n: Note): (r: NoteRow)
    ensures r.id == n.id && r.title == n.title
    ensures RefText(r.regulation) == RefId(n.regulation)
    ensures RefText(r.branch) == RefId(n.branch)
    ensures RefText(r.subject) == RefId(n.subject)
  {
    NoteRow(n.id, n.title, NormalizeNoteRef(n.regulation), NormalizeNoteRef(n.branch),
            NormalizeNoteRef(n.subject), DirectNumber(n.semester))
  }

  /**
   * The subject options of the administrator screens (`filteredSubjects`):
   * the rows whose branch text is the selected branch and whose semester
   * number equals `Number(selectedSemester)`, in order.
   */
  function FilteredSubjects(subjects: seq<SubjectRow>, selectedBranch: string, selectedSemester: string): (r: seq<SubjectRow>)
    ensures forall i :: 0 <= i < |r| ==>
      r[i] in subjects && RefText(r[i].branch) == selectedBranch && NumEq(r[i].semester, ParseNumber(selectedSemester))
    ensures forall i ::
      (0 <= i < |subjects| && RefText(subjects[i].branch) == selectedBranch &&
       NumEq(subjects[i].semester, ParseNumber(selectedSemester))) ==> subjects[i] in r
  {
    Filter(subjects, (s: SubjectRow) => RefText(s.branch) == selectedBranch && NumEq(s.semester, ParseNumber(selectedSemester)))
  }

  /** The subject options keep the order of the full list. */
  lemma FilteredSubjectsInOrder(subjects: seq<SubjectRow>, selectedBranch: string, selectedSemester: string)
    ensures IsSubsequence(FilteredSubjects(subjects, selectedBranch, selectedSemester), subjects)
  {
    FilterIsSubsequence(subjects, (s: SubjectRow) => RefText(s.branch) == selectedBranch && NumEq(s.semester, ParseNumber(selectedSemester)));
  }

  /** `xs.map(f)` for the normalisations above. */
  function MapSeq<A, B>(xs: seq<A>, f: A -> B): (ys: seq<B>)
    ensures |ys| == |xs|
    ensures forall i :: 0 <= i < |xs| ==> ys[i] == f(xs[i])
  {
    seq(|xs|, i requires 0 <= i < |xs| => f(xs[i]))
  }
}
