/**
 * The administrator's taxonomy screen (src/Components/Admin/MetaManager.jsx):
 * tables of regulations, branches and subjects, cascading filters over them,
 * an edit dialog whose save is guarded by required-field and scoped
 * duplicate checks, and a delete confirmation.
 */
module MetaManager {
  import opened Wrappers
  import opened Text
  import opened Numbers
  import opened Seqs
  import opened Refs
  import opened Taxonomy
  import opened Http

  /** Which table the screen shows. */
  datatype Subsection = Regulations | Branches | Subjects

  /** The path segment of a subsection in the admin API. */
  function SubsectionPath(s: Subsection): string {
    match s
    case Regulations => "regulations"
    case Branches => "branches"
    case Subjects => "subjects"
  }

  // ---------------------------------------------------------------------
  // Duplicate checks of the edit path: the record itself is excluded by id.
  // ---------------------------------------------------------------------

  /** `isDuplicateRegulation`: another regulation has the same trimmed, lower-cased name. */
  function IsDuplicateRegulation(regulations: seq<Regulation>, item: Regulation): (b: bool)
    ensures b <==>
      exists i :: 0 <= i < |regulations| &&
        Fold(regulations[i].name) == Fold(item.name) && regulations[i].id != item.id
  {
    Any(regulations, (r: Regulation) => Fold(r.name) == Fold(item.name) && r.id != item.id)
  }

  /** `isDuplicateBranch`: another branch of the same regulation has the same name; codes are not compared. */
  function IsDuplicateBranch(branches: seq<Branch>, item: Branch): (b: bool)
    ensures b <==>
      exists i :: 0 <= i < |branches| &&
        Fold(branches[i].name) == Fold(item.name) &&
        RefId(branches[i].regulation) == RefId(item.regulation) &&
        branches[i].id != item.id
  {
    Any(branches, (x: Branch) =>
      Fold(x.name) == Fold(item.name) && RefId(x.regulation) == RefId(item.regulation) && x.id != item.id)
  }

  /** `isDuplicateSubject`: another subject of the same branch and numeric semester has the same name. */
  function IsDuplicateSubject(subjects: seq<SubjectRow>, item: SubjectRow): (b: bool)
    ensures b <==>
      exists i :: 0 <= i < |subjects| &&
        Fold(subjects[i].name) == Fold(item.name) &&
        RefText(subjects[i].branch) == RefText(item.branch) &&
        NumEq(subjects[i].semester, item.semester) &&
        subjects[i].id != item.id
  {
    Any(subjects, (s: SubjectRow) =>
      Fold(s.name) == Fold(item.name) && RefText(s.branch) == RefText(item.branch) &&
      NumEq(s.semester, item.semester) && s.id != item.id)
  }

  /** A record never conflicts with itself: records sharing its id can be added without changing the verdict. */
  lemma RegulationNeverConflictsWithItself(regulations: seq<Regulation>, same: seq<Regulation>, item: Regulation)
    requires forall i :: 0 <= i < |same| ==> same[i].id == item.id
    ensures IsDuplicateRegulation(regulations + same, item) == IsDuplicateRegulation(regulations, item)
  {
    var all := regulations + same;
    if IsDuplicateRegulation(all, item) {
      var i :| 0 <= i < |all| && Fold(all[i].name) == Fold(item.name) && all[i].id != item.id;
      assert i < |regulations| && all[i] == regulations[i];
    }
    if IsDuplicateRegulation(regulations, item) {
      var i :| 0 <= i < |regulations| && Fold(regulations[i].name) == Fold(item.name) && regulations[i].id != item.id;
      assert all[i] == regulations[i];
    }
  }

  /** A name differing from another regulation's only in case is a duplicate. */
  lemma RegulationDuplicateIgnoresCase(regulations: seq<Regulation>, i: nat, item: Regulation)
    requires i < |regulations| && regulations[i].id != item.id
    requires regulations[i].name == Lower(item.name)
    ensures IsDuplicateRegulation(regulations, item)
  {
    FoldIgnoresCase(item.name);
  }

  /** Branches of other regulations never make a branch name a duplicate, whatever their names. */
  lemma BranchDuplicateScopedToRegulation(branches: seq<Branch>, others: seq<Branch>, item: Branch)
    requires forall i :: 0 <= i < |others| ==> RefId(others[i].regulation) != RefId(item.regulation)
    ensures IsDuplicateBranch(branches + others, item) == IsDuplicateBranch(branches, item)
  {
    var all := branches + others;
    if IsDuplicateBranch(all, item) {
      var i :| 0 <= i < |all| && Fold(all[i].name) == Fold(item.name) &&
        RefId(all[i].regulation) == RefId(item.regulation) && all[i].id != item.id;
      assert i < |branches| && all[i] == branches[i];
    }
    if IsDuplicateBranch(branches, item) {
      var i :| 0 <= i < |branches| && Fold(branches[i].name) == Fold(item.name) &&
        RefId(branches[i].regulation) == RefId(item.regulation) && branches[i].id != item.id;
      assert all[i] == branches[i];
    }
  }

  /** Subjects of another branch or another semester never make a subject name a duplicate. */
  lemma SubjectDuplicateScopedToBranchAndSemester(subjects: seq<SubjectRow>, others: seq<SubjectRow>, item: SubjectRow)
    requires forall i :: 0 <= i < |others| ==>
      RefText(others[i].branch) != RefText(item.branch) || !NumEq(others[i].semester, item.semester)
    ensures IsDuplicateSubject(subjects + others, item) == IsDuplicateSubject(subjects, item)
  {
    var all := subjects + others;
    if IsDuplicateSubject(all, item) {
      var i :| 0 <= i < |all| && Fold(all[i].name) == Fold(item.name) &&
        RefText(all[i].branch) == RefText(item.branch) && NumEq(all[i].semester, item.semester) && all[i].id != item.id;
      assert i < |subjects| && all[i] == subjects[i];
    }
    if IsDuplicateSubject(subjects, item) {
      var i :| 0 <= i < |subjects| && Fold(subjects[i].name) == Fold(item.name) &&
        RefText(subjects[i].branch) == RefText(item.branch) && NumEq(subjects[i].semester, item.semester) &&
        subjects[i].id != item.id;
      assert all[i] == subjects[i];
    }
  }

  // ---------------------------------------------------------------------
  // Derived lists.
  // ---------------------------------------------------------------------

  /** `filteredBranches`: nothing until a regulation is chosen, then the branches of that regulation. */
  function FilteredBranches(branches: seq<Branch>, selectedReg: string): (r: seq<Branch>)
    ensures selectedReg == "" ==> r == []
    ensures forall i :: 0 <= i < |r| ==> r[i] in branches && RefId(r[i].regulation) == selectedReg
    ensures selectedReg != "" ==> forall i :: 0 <= i < |branches| && RefId(branches[i].regulation) == selectedReg ==> branches[i] in r
  {
    if selectedReg == "" then [] else BranchesOf(branches, selectedReg)
  }

  // ---------------------------------------------------------------------
  // The edit dialog.
  // ---------------------------------------------------------------------

  /**
   * The record open in the edit dialog, with the keys of the JavaScript
   * object in their order. On a key the record type does not have, the
   * value is `undefined`.
   */
  datatype EditItem =
    | EditRegulation(keys: seq<string>, reg: Regulation)
    | EditBranch(keys: seq<string>, branch: Branch)
    | EditSubject(keys: seq<string>, subject: SubjectRow)
  {
    function Kind(): Subsection {
      match this
      case EditRegulation(_, _) => Regulations
      case EditBranch(_, _) => Branches
      case EditSubject(_, _) => Subjects
    }

    function Id(): string {
      match this
      case EditRegulation(_, r) => r.id
      case EditBranch(_, b) => b.id
      case EditSubject(_, s) => s.id
    }
  }

  /** The keys whose values must not be blank. */
  const RequiredKeys: seq<string> := ["name", "code", "numberOfSemesters", "regulation"]

  /**
   * `!String(editItem[key]).trim()`, for the required keys each kind of
   * record carries; a key the record lacks renders as "undefined", which is
   * never blank.
   */
  predicate FieldBlank(item: EditItem, key: string) {
    match item
    case EditRegulation(_, r) =>
      (key == "name" && IsBlank(r.name)) ||
      (key == "numberOfSemesters" && IsBlank(NumText(r.numberOfSemesters)))
    case EditBranch(_, b) =>
      (key == "name" && IsBlank(b.name)) || (key == "code" && IsBlank(b.code)) ||
      (key == "regulation" && IsBlank(RefText(b.regulation)))
    case EditSubject(_, s) => (key == "name" && IsBlank(s.name)) || (key == "code" && IsBlank(s.code))
  }

  /** `Number(editItem.numberOfSemesters) <= 0`. */
  predicate SemestersNonPositive(item: EditItem) {
    item.EditRegulation? && NonPositive(item.reg.numberOfSemesters)
  }

  function EmptyFieldMessage(key: string): string {
    "Field \"" + key + "\" cannot be empty."
  }

  const NonPositiveSemestersMessage: string := "Number of semesters must be greater than 0."

  /** The verdict of one iteration of the key loop of `handleEditSave`. */
  function KeyError(item: EditItem, key: string): Option<string> {
    if key in RequiredKeys && FieldBlank(item, key) then Some(EmptyFieldMessage(key))
    else if key == "numberOfSemesters" && SemestersNonPositive(item) then Some(NonPositiveSemestersMessage)
    else None
  }

  /** The message of the first key, in key order, that fails; none when every key passes. */
  function FirstKeyError(item: EditItem, keys: seq<string>): (r: Option<string>)
    ensures r.None? <==> forall i :: 0 <= i < |keys| ==> KeyError(item, keys[i]).None?
    ensures r.Some? ==>
      exists i :: 0 <= i < |keys| && KeyError(item, keys[i]) == r &&
        forall j :: 0 <= j < i ==> KeyError(item, keys[j]).None?
  {
    if keys == [] then None
    else if KeyError(item, keys[0]).Some? then KeyError(item, keys[0])
    else
      var r := FirstKeyError(item, keys[1..]);
      assert forall i :: 0 <= i < |keys| - 1 ==> keys[1..][i] == keys[i + 1];
      r
  }

  /** One step of `FirstKeyError` from position i on. */
  lemma FirstKeyErrorFrom(item: EditItem, keys: seq<string>, i: nat)
    requires i < |keys|
    ensures FirstKeyError(item, keys[i..]) ==
      if KeyError(item, keys[i]).Some? then KeyError(item, keys[i]) else FirstKeyError(item, keys[i + 1..])
  {
    assert keys[i..][0] == keys[i];
    assert keys[i..][1..] == keys[i + 1..];
  }

  /**
   * The key loop of `handleEditSave`: the keys are visited in order and the
   * first that is blank, or is a non-positive `numberOfSemesters`, stops it.
   */
  method CheckKeys(item: EditItem) returns (e: Option<string>)
    ensures e == FirstKeyError(item, item.keys)
  {
    var keys := item.keys;
    var i := 0;
    while i < |keys|
      invariant 0 <= i <= |keys|
      invariant FirstKeyError(item, keys) == FirstKeyError(item, keys[i..])
    {
      FirstKeyErrorFrom(item, keys, i);
      if keys[i] in RequiredKeys && FieldBlank(item, keys[i]) {
        return Some(EmptyFieldMessage(keys[i]));
      }
      if keys[i] == "numberOfSemesters" && SemestersNonPositive(item) {
        return Some(NonPositiveSemestersMessage);
      }
      i := i + 1;
    }
    assert keys[i..] == [];
    return None;
  }

  /** The duplicate check of the current subsection, and only that one. */
  function DuplicateError(subsection: Subsection, item: EditItem, regulations: seq<Regulation>,
                          branches: seq<Branch>, subjects: seq<SubjectRow>): Option<string>
  {
    match item
    case EditRegulation(_, r) =>
      if subsection == Regulations && IsDuplicateRegulation(regulations, r) then Some("Regulation name already exists.") else None
    case EditBranch(_, b) =>
      if subsection == Branches && IsDuplicateBranch(branches, b) then Some("Branch name already exists in this regulation.") else None
    case EditSubject(_, s) =>
      if subsection == Subjects && IsDuplicateSubject(subjects, s) then Some("Subject already exists in this branch and semester.") else None
  }

  /** Why `handleEditSave` refuses to send the update, if it does. */
  function SaveError(subsection: Subsection, item: EditItem, regulations: seq<Regulation>,
                     branches: seq<Branch>, subjects: seq<SubjectRow>): Option<string>
  {
    match FirstKeyError(item, item.keys)
    case Some(m) => Some(m)
    case None => DuplicateError(subsection, item, regulations, branches, subjects)
  }

  /** The first blank required key, in key order, blocks the save with its own message. */
  lemma FirstBlankKeyBlocksSave(subsection: Subsection, item: EditItem, regulations: seq<Regulation>,
                                branches: seq<Branch>, subjects: seq<SubjectRow>, i: nat)
    requires i < |item.keys| && item.keys[i] in RequiredKeys && FieldBlank(item, item.keys[i])
    requires forall j :: 0 <= j < i ==> KeyError(item, item.keys[j]).None?
    ensures SaveError(subsection, item, regulations, branches, subjects) == Some(EmptyFieldMessage(item.keys[i]))
  {
    FirstFailingKey(item, item.keys, i);
  }

  /** The first key that fails decides `FirstKeyError`. */
  lemma {:induction false} FirstFailingKey(item: EditItem, keys: seq<string>, i: nat)
    requires i < |keys| && KeyError(item, keys[i]).Some?
    requires forall j :: 0 <= j < i ==> KeyError(item, keys[j]).None?
    ensures FirstKeyError(item, keys) == KeyError(item, keys[i])
  {
    if i > 0 {
      assert KeyError(item, keys[0]).None?;
      assert keys[1..][i - 1] == keys[i];
      assert forall j :: 0 <= j < i - 1 ==> keys[1..][j] == keys[j + 1];
      FirstFailingKey(item, keys[1..], i - 1);
    }
  }

  /**
   * `String(Number(..))` is never blank, so `numberOfSemesters` can only
   * fail the positivity test.
   */
  lemma SemestersNeverBlank(item: EditItem)
    ensures !FieldBlank(item, "numberOfSemesters")
    ensures KeyError(item, "numberOfSemesters") ==
      if SemestersNonPositive(item) then Some(NonPositiveSemestersMessage) else None
  {
  }

  /** A regulation may not be saved with zero or a negative number of semesters. */
  lemma NonPositiveSemestersBlockSave(subsection: Subsection, keys: seq<string>, reg: Regulation,
                                      regulations: seq<Regulation>, branches: seq<Branch>, subjects: seq<SubjectRow>)
    requires "numberOfSemesters" in keys && NonPositive(reg.numberOfSemesters)
    ensures SaveError(subsection, EditRegulation(keys, reg), regulations, branches, subjects).Some?
  {
    var item := EditRegulation(keys, reg);
    var i :| 0 <= i < |keys| && keys[i] == "numberOfSemesters";
    assert KeyError(item, keys[i]).Some?;
  }

  /** Only the current subsection's duplicate check runs: the other two lists never matter. */
  lemma SaveErrorIgnoresOtherLists(item: EditItem, regulations: seq<Regulation>, regulations': seq<Regulation>,
                                  branches: seq<Branch>, branches': seq<Branch>,
                                  subjects: seq<SubjectRow>, subjects': seq<SubjectRow>)
    ensures item.EditRegulation? ==>
      SaveError(Regulations, item, regulations, branches, subjects) == SaveError(Regulations, item, regulations, branches', subjects')
    ensures item.EditBranch? ==>
      SaveError(Branches, item, regulations, branches, subjects) == SaveError(Branches, item, regulations', branches, subjects')
    ensures item.EditSubject? ==>
      SaveError(Subjects, item, regulations, branches, subjects) == SaveError(Subjects, item, regulations', branches', subjects)
  {
  }

  /** `{ ...item, key: v }` keeps the key's place, or appends it when it is new. */
  function SetKey(keys: seq<string>, key: string): (r: seq<string>)
    ensures key in r
    ensures forall k :: k in keys ==> k in r
    ensures key in keys ==> r == keys
  {
    if key in keys then keys else keys + [key]
  }

  /** The record named by the delete dialog. */
  datatype DeleteTarget = DeleteTarget(kind: Subsection, name: string, id: string)

  /** The state of the taxonomy screen. */
  class MetaManagerScreen {
    const subsection: Subsection
    var regulations: seq<Regulation>
    var branches: seq<Branch>
    var subjects: seq<SubjectRow>
    var loading: bool
    var error: string
    var selectedReg: string
    var selectedBranch: string
    var selectedSemester: string
    var editItem: Option<EditItem>
    var editError: string
    var showSubjects: bool
    var showDeleteModal: bool
    var deleteItem: Option<DeleteTarget>

    /** The dialog only ever edits a record of the table on show. */
    ghost predicate Valid()
      reads this
    {
      editItem.Some? ==> editItem.value.Kind() == subsection
    }

    constructor (subsection: Subsection)
      ensures Valid()
      ensures this.subsection == subsection
      ensures regulations == [] && branches == [] && subjects == []
      ensures !loading && error == ""
      ensures selectedReg == "" && selectedBranch == "" && selectedSemester == ""
      ensures editItem.None? && editError == "" && !showSubjects
      ensures !showDeleteModal && deleteItem.None?
    {
      this.subsection := subsection;
      regulations, branches, subjects := [], [], [];
      loading, error := false, "";
      selectedReg, selectedBranch, selectedSemester := "", "", "";
      editItem, editError, showSubjects := None, "", false;
      showDeleteModal, deleteItem := false, None;
    }

    /**
     * `fetchData`: on success the three lists are replaced, the semester
     * counts read through `Number` and each subject's branch and semester
     * normalised; on failure the error message is set.
     */
    method FetchData(reply: Reply<(seq<RegulationRecord>, seq<Branch>, seq<Subject>)>)
      requires Valid()
      modifies this
      ensures Valid()
      ensures reply.Ok? ==>
        regulations == MapSeq(reply.data.0, NormalizeRegulation) && branches == reply.data.1 &&
        subjects == MapSeq(reply.data.2, MetaSubjectRow) && error == old(error)
      ensures reply.Failed? ==>
        regulations == old(regulations) && branches == old(branches) &&
        subjects == old(subjects) && error == FailureMessage(reply, "Failed to fetch data")
      ensures !loading
      ensures selectedReg == old(selectedReg) && selectedBranch == old(selectedBranch) && selectedSemester == old(selectedSemester)
      ensures editItem == old(editItem) && editError == old(editError) && showSubjects == old(showSubjects)
      ensures showDeleteModal == old(showDeleteModal) && deleteItem == old(deleteItem)
    {
      loading := true;
      match reply {
        case Ok((regs, bs, subs)) =>
          regulations := MapSeq(regs, NormalizeRegulation);
          branches := bs;
          subjects := MapSeq(subs, MetaSubjectRow);
        case Failed(_, _) =>
          error := FailureMessage(reply, "Failed to fetch data");
      }
      loading := false;
    }

    /** The regulation filter of the branches table: only the selection changes. */
    method SelectRegulationForBranches(value: string)
      requires Valid()
      modifies this`selectedReg
      ensures Valid()
      ensures selectedReg == value
    {
      selectedReg := value;
    }

    /** The regulation filter of the subjects table: branch, semester and the table are reset. */
    method SelectRegulationForSubjects(value: string)
      requires Valid()
      modifies this`selectedReg, this`selectedBranch, this`selectedSemester, this`showSubjects
      ensures Valid()
      ensures selectedReg == value && selectedBranch == "" && selectedSemester == "" && !showSubjects
    {
      selectedReg := value;
      selectedBranch := "";
      selectedSemester := "";
      showSubjects := false;
    }

    /** The branch filter: semester and the table are reset, the regulation kept. */
    method SelectBranch(value: string)
      requires Valid()
      modifies this`selectedBranch, this`selectedSemester, this`showSubjects
      ensures Valid()
      ensures selectedBranch == value && selectedSemester == "" && !showSubjects
    {
      selectedBranch := value;
      selectedSemester := "";
      showSubjects := false;
    }

    /** The semester filter: nothing else changes. */
    method SelectSemester(value: string)
      requires Valid()
      modifies this`selectedSemester
      ensures Valid()
      ensures selectedSemester == value
    {
      selectedSemester := value;
    }

    /** "Show Subjects", which is enabled only once all three filters are chosen. */
    method ShowSubjects()
      requires Valid()
      modifies this`showSubjects
      ensures Valid()
      ensures showSubjects == (old(showSubjects) || (selectedReg != "" && selectedBranch != "" && selectedSemester != ""))
    {
      if selectedReg != "" && selectedBranch != "" && selectedSemester != "" {
        showSubjects := true;
      }
    }

    /** `handleClearFilters`. */
    method ClearFilters()
      requires Valid()
      modifies this`selectedReg, this`selectedBranch, this`selectedSemester, this`showSubjects
      ensures Valid()
      ensures selectedReg == "" && selectedBranch == "" && selectedSemester == "" && !showSubjects
    {
      selectedReg, selectedBranch, selectedSemester := "", "", "";
      showSubjects := false;
    }

    /** The Edit button of a row: the dialog opens on that record; an earlier error message stays. */
    method StartEdit(item: EditItem)
      requires Valid() && item.Kind() == subsection
      modifies this`editItem
      ensures Valid()
      ensures editItem == Some(item)
    {
      editItem := Some(item);
    }

    /** Cancel in the edit dialog. */
    method CancelEdit()
      requires Valid()
      modifies this`editItem
      ensures Valid()
      ensures editItem.None?
    {
      editItem := None;
    }

    /** Typing in the name field of the dialog. */
    method EditName(value: string)
      requires Valid()
      modifies this`editItem
      ensures Valid()
      ensures old(editItem).None? ==> editItem.None?
      ensures old(editItem).Some? ==>
        editItem.Some? && editItem.value.Kind() == old(editItem).value.Kind() &&
        editItem.value.Id() == old(editItem).value.Id() && editItem.value.keys == SetKey(old(editItem).value.keys, "name")
      ensures match editItem
        case Some(EditRegulation(_, r)) => r == old(editItem).value.reg.(name := value)
        case Some(EditBranch(_, b)) => b == old(editItem).value.branch.(name := value)
        case Some(EditSubject(_, s)) => s == old(editItem).value.subject.(name := value)
        case None => true
    {
      match editItem
      case Some(EditRegulation(keys, r)) => editItem := Some(EditRegulation(SetKey(keys, "name"), r.(name := value)));
      case Some(EditBranch(keys, b)) => editItem := Some(EditBranch(SetKey(keys, "name"), b.(name := value)));
      case Some(EditSubject(keys, s)) => editItem := Some(EditSubject(SetKey(keys, "name"), s.(name := value)));
      case None =>
    }

    /** Typing in the code field, offered for branches and subjects. */
    method EditCode(value: string)
      requires Valid()
      modifies this`editItem
      ensures Valid()
      ensures old(editItem).None? || old(editItem).value.EditRegulation? ==> editItem == old(editItem)
      ensures match old(editItem)
        case Some(EditBranch(keys, b)) => editItem == Some(EditBranch(SetKey(keys, "code"), b.(code := value)))
        case Some(EditSubject(keys, s)) => editItem == Some(EditSubject(SetKey(keys, "code"), s.(code := value)))
        case _ => true
    {
      match editItem
      case Some(EditBranch(keys, b)) => editItem := Some(EditBranch(SetKey(keys, "code"), b.(code := value)));
      case Some(EditSubject(keys, s)) => editItem := Some(EditSubject(SetKey(keys, "code"), s.(code := value)));
      case _ =>
    }

    /** The number-of-semesters field of a regulation: `Number(e.target.value)`. */
    method EditSemesters(input: string)
      requires Valid()
      modifies this`editItem
      ensures Valid()
      ensures match old(editItem)
        case Some(EditRegulation(keys, r)) =>
          editItem == Some(EditRegulation(SetKey(keys, "numberOfSemesters"), r.(numberOfSemesters := ParseNumber(input))))
        case _ => editItem == old(editItem)
    {
      match editItem
      case Some(EditRegulation(keys, r)) =>
        editItem := Some(EditRegulation(SetKey(keys, "numberOfSemesters"), r.(numberOfSemesters := ParseNumber(input))));
      case _ =>
    }

    /** The regulation selector of a branch: the reference becomes the chosen raw id. */
    method EditBranchRegulation(value: string)
      requires Valid()
      modifies this`editItem
      ensures Valid()
      ensures match old(editItem)
        case Some(EditBranch(keys, b)) => editItem == Some(EditBranch(SetKey(keys, "regulation"), b.(regulation := Raw(value))))
        case _ => editItem == old(editItem)
    {
      match editItem
      case Some(EditBranch(keys, b)) => editItem := Some(EditBranch(SetKey(keys, "regulation"), b.(regulation := Raw(value))));
      case _ =>
    }

    /**
     * `handleEditSave`. The keys are checked in order and the first failure
     * is reported; then the current subsection's duplicate check; only when
     * everything passes is the PUT sent, to `path` with the edited record
     * as `body`, and `reply` is its outcome. The path names the current
     * subsection and the record's id. The reload after a successful save is
     * a separate `FetchData`.
     */
    method EditSave(reply: Reply<()>) returns (sent: bool, path: Option<string>, body: Option<EditItem>)
      requires Valid()
      modifies this`editItem, this`editError
      ensures Valid()
      ensures sent <==> path.Some?
      ensures sent <==> body.Some?
      ensures sent ==>
        old(editItem).Some? &&
        path == Some("/admin/" + SubsectionPath(subsection) + "/" + old(editItem).value.Id()) &&
        body == old(editItem)
      ensures old(editItem).None? ==> !sent && editItem == old(editItem) && editError == old(editError)
      ensures old(editItem).Some? ==>
        (sent <==> SaveError(subsection, old(editItem).value, regulations, branches, subjects).None?)
      ensures old(editItem).Some? && !sent ==>
        editItem == old(editItem) &&
        editError == SaveError(subsection, old(editItem).value, regulations, branches, subjects).value
      ensures sent && reply.Ok? ==> editItem.None? && editError == ""
      ensures sent && reply.Failed? ==> editItem == old(editItem) && editError == FailureMessage(reply, "Update failed")
    {
      if editItem.None? {
        return false, None, None;
      }
      var item := editItem.value;
      var keyError := CheckKeys(item);
      if keyError.Some? {
        editError := keyError.value;
        return false, None, None;
      }
      var dup := DuplicateError(subsection, item, regulations, branches, subjects);
      if dup.Some? {
        editError := dup.value;
        return false, None, None;
      }
      sent, path, body := true, Some("/admin/" + SubsectionPath(subsection) + "/" + item.Id()), Some(item);
      match reply
      case Ok(_) =>
        editItem := None;
        editError := "";
      case Failed(_, _) =>
        editError := FailureMessage(reply, "Update failed");
    }

    /** The Delete button of a row. */
    method DeleteClick(kind: Subsection, name: string, id: string)
      requires Valid()
      modifies this`deleteItem, this`showDeleteModal
      ensures Valid()
      ensures deleteItem == Some(DeleteTarget(kind, name, id)) && showDeleteModal
    {
      deleteItem := Some(DeleteTarget(kind, name, id));
      showDeleteModal := true;
    }

    /**
     * `handleConfirmDelete`: with a record named, the DELETE is sent to the
     * returned path, `reply` is its outcome and, whatever that is, the dialog
     * closes. `reload` says whether the lists are fetched again (a separate
     * `FetchData`); a failure instead raises `alert`, the server's message
     * or "Delete failed".
     */
    method ConfirmDelete(reply: Reply<()>) returns (path: Option<string>, reload: bool, alert: Option<string>)
      requires Valid()
      modifies this`deleteItem, this`showDeleteModal
      ensures Valid()
      ensures old(deleteItem).None? ==>
        path.None? && !reload && alert.None? && showDeleteModal == old(showDeleteModal) && deleteItem.None?
      ensures old(deleteItem).Some? ==>
        path == Some("/admin/" + SubsectionPath(old(deleteItem).value.kind) + "/" + old(deleteItem).value.id) &&
        reload == reply.Ok? && !showDeleteModal && deleteItem.None? &&
        alert == (if reply.Ok? then None else Some(FailureMessage(reply, "Delete failed")))
    {
      if deleteItem.None? {
        return None, false, None;
      }
      path := Some("/admin/" + SubsectionPath(deleteItem.value.kind) + "/" + deleteItem.value.id);
      reload := reply.Ok?;
      alert := if reply.Ok? then None else Some(FailureMessage(reply, "Delete failed"));
      showDeleteModal := false;
      deleteItem := None;
    }

    /** Cancel in the delete dialog. */
    method CancelDelete()
      requires Valid()
      modifies this`deleteItem, this`showDeleteModal
      ensures Valid()
      ensures !showDeleteModal && deleteItem.None?
    {
      showDeleteModal := false;
      deleteItem := None;
    }
  }
}
