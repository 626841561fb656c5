/**
 * The "Add Subject" dialog (src/Components/Admin/AddSubjectModal.jsx):
 * regulation, branch and semester selectors with cascading resets, name and
 * code inputs, a validator that builds a field-to-message object, and the POST.
 */
module AddSubjectModal {
  import opened Wrappers
  import opened Text
  import opened Numbers
  import opened Seqs
  import opened Refs
  import opened Taxonomy
  import opened Http
  import opened Forms

  const RegulationRequired: string := "Please select regulation"
  const BranchRequired: string := "Please select branch"
  const SemesterRequired: string := "Please select semester"
  const NameRequired: string := "Subject name is required"
  const CodeRequired: string := "Subject code is required"
  const NameTaken: string := "Subject with this name already exists in selected branch & semester"
  const CodeTaken: string := "Subject with this code already exists in selected branch & semester"
  const AddFailed: string := "Failed to add subject"

  /** The dialog's five inputs. */
  datatype SubjectInput = SubjectInput(regulationId: string, branchId: string, semester: string, name: string, code: string)

  const EmptyInput: SubjectInput := SubjectInput("", "", "", "", "")

  /** `sameBranchSem`: the subjects of the chosen branch whose semester number equals `Number(semester)`. */
  function SameBranchSemester(subjects: seq<SubjectRow>, branchId: string, semester: string): seq<SubjectRow> {
    FilteredSubjects(subjects, branchId, semester)
  }

  /** Some subject in scope has the same trimmed, lower-cased name. */
  predicate NameInUse(subjects: seq<SubjectRow>, branchId: string, semester: string, name: string) {
    Any(SameBranchSemester(subjects, branchId, semester), (s: SubjectRow) => Fold(s.name) == Fold(name))
  }

  /** Some subject in scope has the same trimmed, lower-cased code. */
  predicate CodeInUse(subjects: seq<SubjectRow>, branchId: string, semester: string, code: string) {
    Any(SameBranchSemester(subjects, branchId, semester), (s: SubjectRow) => Fold(s.code) == Fold(code))
  }

  /**
   * The error object of `validate`: an entry for each empty selection and
   * each blank text field, and for a name or code already used in scope;
   * a duplicate message takes the place of the required-field message.
   */
  function SubjectErrors(subjects: seq<SubjectRow>, input: SubjectInput): (e: Errors)
    ensures e.(regulationId := None, branchId := None, semester := None, name := None, code := None) == NoErrors
    ensures e.name.Some? <==> IsBlank(input.name) || NameInUse(subjects, input.branchId, input.semester, input.name)
    ensures e.code.Some? <==> IsBlank(input.code) || CodeInUse(subjects, input.branchId, input.semester, input.code)
    ensures e.name == Some(NameTaken) <==> NameInUse(subjects, input.branchId, input.semester, input.name)
    ensures e.code == Some(CodeTaken) <==> CodeInUse(subjects, input.branchId, input.semester, input.code)
  {
    var SubjectInput(regulationId, branchId, semester, name, code) := input;
    NoErrors.(
      regulationId := if regulationId == "" then Some(RegulationRequired) else None,
      branchId := if branchId == "" then Some(BranchRequired) else None,
      semester := if semester == "" then Some(SemesterRequired) else None,
      name := if NameInUse(subjects, branchId, semester, name) then Some(NameTaken)
              else if IsBlank(name) then Some(NameRequired) else None,
      code := if CodeInUse(subjects, branchId, semester, code) then Some(CodeTaken)
              else if IsBlank(code) then Some(CodeRequired) else None)
  }

  /** Each empty selection has its own entry, and every entry carries its field's message. */
  lemma SubjectErrorMessages(subjects: seq<SubjectRow>, regulationId: string, branchId: string,
                             semester: string, name: string, code: string)
    ensures var e := SubjectErrors(subjects, SubjectInput(regulationId, branchId, semester, name, code));
      (e.regulationId.Some? <==> regulationId == "") &&
      (e.branchId.Some? <==> branchId == "") &&
      (e.semester.Some? <==> semester == "") &&
      (e.regulationId.Some? ==> e.regulationId == Some(RegulationRequired)) &&
      (e.branchId.Some? ==> e.branchId == Some(BranchRequired)) &&
      (e.semester.Some? ==> e.semester == Some(SemesterRequired)) &&
      (e.name.Some? && e.name != Some(NameTaken) ==> e.name == Some(NameRequired)) &&
      (e.code.Some? && e.code != Some(CodeTaken) ==> e.code == Some(CodeRequired))
  {
  }

  /** The form is valid exactly when every field is filled and neither name nor code is taken in scope. */
  lemma SubjectFormValid(subjects: seq<SubjectRow>, regulationId: string, branchId: string,
                         semester: string, name: string, code: string)
    ensures SubjectErrors(subjects, SubjectInput(regulationId, branchId, semester, name, code)).IsEmpty() <==>
      regulationId != "" && branchId != "" && semester != "" && !IsBlank(name) && !IsBlank(code) &&
      !NameInUse(subjects, branchId, semester, name) && !CodeInUse(subjects, branchId, semester, code)
  {
  }

  /** A subject of another branch, or of another semester, never makes a name or code taken. */
  lemma SubjectScope(subjects: seq<SubjectRow>, others: seq<SubjectRow>, regulationId: string, branchId: string,
                     semester: string, name: string, code: string)
    requires forall i :: 0 <= i < |others| ==>
      RefText(others[i].branch) != branchId || !NumEq(others[i].semester, ParseNumber(semester))
    ensures SubjectErrors(subjects + others, SubjectInput(regulationId, branchId, semester, name, code)) ==
            SubjectErrors(subjects, SubjectInput(regulationId, branchId, semester, name, code))
  {
    var p := (s: SubjectRow) => RefText(s.branch) == branchId && NumEq(s.semester, ParseNumber(semester));
    FilterAppend(subjects, others, p);
    FilterNone(others, p);
    assert SameBranchSemester(subjects + others, branchId, semester) == SameBranchSemester(subjects, branchId, semester);
  }

  /**
   * The body of `validate`: the object is filled test by test, the duplicate
   * checks overwriting the name and code entries.
   */
  method CollectSubjectErrors(subjects: seq<SubjectRow>, input: SubjectInput) returns (e: Errors, ok: bool)
    ensures e == SubjectErrors(subjects, input)
    ensures ok <==> e.IsEmpty()
  {
    var SubjectInput(regulationId, branchId, semester, name, code) := input;
    e := NoErrors;
    if regulationId == "" { e := e.(regulationId := Some(RegulationRequired)); }
    if branchId == "" { e := e.(branchId := Some(BranchRequired)); }
    if semester == "" { e := e.(semester := Some(SemesterRequired)); }
    if IsBlank(name) { e := e.(name := Some(NameRequired)); }
    if IsBlank(code) { e := e.(code := Some(CodeRequired)); }
    if NameInUse(subjects, branchId, semester, name) { e := e.(name := Some(NameTaken)); }
    if CodeInUse(subjects, branchId, semester, code) { e := e.(code := Some(CodeTaken)); }
    ok := e.IsEmpty();
  }

  /** What `handleSubmit` posts: trimmed name and code, the branch id, the semester number. */
  datatype SubjectPayload = SubjectPayload(name: string, code: string, branch: string, semester: Num)

  /** The payload for the given inputs. */
  function SubjectPayloadOf(input: SubjectInput): SubjectPayload {
    SubjectPayload(Trim(input.name), Trim(input.code), input.branchId, ParseNumber(input.semester))
  }

  /**
   * `handleSubmit` on values: nothing is posted unless the validation object
   * is empty; `reply` is the outcome of the POST. On success the dialog
   * closes; a failure replaces the whole object with a single `server` entry.
   */
  method SubmitSubject(subjects: seq<SubjectRow>, input: SubjectInput, reply: Reply<()>)
    returns (errors: Errors, posted: Option<SubjectPayload>, closed: bool)
    ensures posted.None? <==> !SubjectErrors(subjects, input).IsEmpty()
    ensures posted.None? ==> !closed && errors == SubjectErrors(subjects, input)
    ensures posted.Some? ==>
      posted.value == SubjectPayloadOf(input) && closed == reply.Ok? &&
      errors == (if reply.Ok? then NoErrors else ServerError(FailureMessage(reply, AddFailed)))
  {
    var ok;
    errors, ok := CollectSubjectErrors(subjects, input);
    if !ok {
      return errors, None, false;
    }
    posted := Some(SubjectPayloadOf(input));
    match reply {
      case Ok(_) =>
        closed := true;
      case Failed(_, _) =>
        errors := ServerError(FailureMessage(reply, AddFailed));
        closed := false;
    }
  }

  /** The state of the dialog; the three lists are its properties. */
  class AddSubjectForm {
    const regulations: seq<Regulation>
    const branches: seq<Branch>
    const subjects: seq<SubjectRow>
    var input: SubjectInput
    var errors: Errors
    var submitting: bool

    constructor (regulations: seq<Regulation>, branches: seq<Branch>, subjects: seq<SubjectRow>)
      ensures this.regulations == regulations && this.branches == branches && this.subjects == subjects
      ensures input == EmptyInput && errors == NoErrors && !submitting
    {
      this.regulations, this.branches, this.subjects := regulations, branches, subjects;
      input, errors, submitting := EmptyInput, NoErrors, false;
    }

    /** `branchesForReg`. */
    function BranchOptions(): (r: seq<Branch>)
      reads this
      ensures forall i :: 0 <= i < |r| ==> r[i] in branches && RefId(r[i].regulation) == input.regulationId
      ensures forall i :: 0 <= i < |branches| && RefId(branches[i].regulation) == input.regulationId ==> branches[i] in r
    {
      BranchesOf(branches, input.regulationId)
    }

    /** `semOptions`: 1..N for the chosen regulation, nothing when none is chosen. */
    function SemesterChoices(): (r: seq<int>)
      reads this
      ensures input.regulationId == "" && (forall i :: 0 <= i < |regulations| ==> regulations[i].id != "") ==> r == []
      ensures FindRegulation(regulations, input.regulationId).None? ==> r == []
      ensures FindRegulation(regulations, input.regulationId).Some? ==>
        |r| == SemesterCount(FindRegulation(regulations, input.regulationId).value.numberOfSemesters)
      ensures forall i :: 0 <= i < |r| ==> r[i] == i + 1
    {
      SemesterOptions(regulations, input.regulationId)
    }

    /** `validate`: the error object replaces the old one; the result says whether it is empty. */
    method Validate() returns (ok: bool)
      modifies this`errors
      ensures errors == SubjectErrors(subjects, input)
      ensures ok <==> errors.IsEmpty()
    {
      errors, ok := CollectSubjectErrors(subjects, input);
    }

    /**
     * `handleSubmit`: nothing is posted unless `validate` passes; `reply` is
     * the outcome of the POST. On success the dialog closes; a failure
     * replaces the whole object with a single `server` entry.
     */
    method Submit(reply: Reply<()>) returns (posted: Option<SubjectPayload>, closed: bool)
      modifies this`errors, this`submitting
      ensures posted.None? <==> !SubjectErrors(subjects, old(input)).IsEmpty()
      ensures posted.None? ==> !closed && submitting == old(submitting) && errors == SubjectErrors(subjects, old(input))
      ensures posted.Some? ==>
        posted.value == SubjectPayloadOf(old(input)) && closed == reply.Ok? && !submitting &&
        errors == (if reply.Ok? then NoErrors else ServerError(FailureMessage(reply, AddFailed)))
    {
      errors, posted, closed := SubmitSubject(subjects, input, reply);
      if posted.Some? {
        submitting := true;
        submitting := false;
      }
    }

    /** The regulation selector: branch and semester are cleared, and the regulation's error. */
    method SelectRegulation(value: string)
      modifies this`input, this`errors
      ensures input == old(input).(regulationId := value, branchId := "", semester := "")
      ensures errors == old(errors).(regulationId := None)
    {
      input := input.(regulationId := value, branchId := "", semester := "");
      errors := errors.(regulationId := None);
    }

    /** The branch selector: the semester is cleared, and the branch's error. */
    method SelectBranch(value: string)
      modifies this`input, this`errors
      ensures input == old(input).(branchId := value, semester := "")
      ensures errors == old(errors).(branchId := None)
    {
      input := input.(branchId := value, semester := "");
      errors := errors.(branchId := None);
    }

    /** The semester selector: nothing else changes, not even the errors. */
    method SelectSemester(value: string)
      modifies this`input
      ensures input == old(input).(semester := value)
    {
      input := input.(semester := value);
    }

    /** Typing a name: nothing else changes. */
    method EditName(value: string)
      modifies this`input
      ensures input == old(input).(name := value)
    {
      input := input.(name := value);
    }

    /** Typing a code: nothing else changes. */
    method EditCode(value: string)
      modifies this`input
      ensures input == old(input).(code := value)
    {
      input := input.(code := value);
    }
  }
}
