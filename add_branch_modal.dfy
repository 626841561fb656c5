/**
 * The "Add Branch" dialog (src/Components/Admin/AddBranchModal.jsx): a
 * regulation selector, name and code inputs, a validator that builds a
 * field-to-message object, and the POST.
 */
module AddBranchModal {
  import opened Wrappers
  import opened Text
  import opened Seqs
  import opened Refs
  import opened Taxonomy
  import opened Http
  import opened Forms

  const RegulationRequired: string := "Please select a regulation"
  const NameRequired: string := "Branch name is required"
  const CodeRequired: string := "Branch code is required"
  const NameTaken: string := "A branch with this name already exists in this regulation"
  const CodeTaken: string := "A branch with this code already exists in this regulation"
  const AddFailed: string := "Failed to add branch"

  /** The dialog's three inputs. */
  datatype BranchInput = BranchInput(regulationId: string, name: string, code: string)

  const EmptyInput: BranchInput := BranchInput("", "", "")

  /** Some branch of the regulation has the same trimmed, lower-cased name. */
  predicate NameInUse(branches: seq<Branch>, regulationId: string, name: string) {
    Any(BranchesOf(branches, regulationId), (b: Branch) => Fold(b.name) == Fold(name))
  }

  /** Some branch of the regulation has the same trimmed, lower-cased code. */
  predicate CodeInUse(branches: seq<Branch>, regulationId: string, code: string) {
    Any(BranchesOf(branches, regulationId), (b: Branch) => Fold(b.code) == Fold(code))
  }

  /**
   * The error object of `validate`: an entry for an empty selection and for
   * each blank text field, and for a name or code already used in the
   * regulation; a duplicate message takes the place of the required-field
   * message.
   */
  function BranchErrors(branches: seq<Branch>, input: BranchInput): (e: Errors)
    ensures e.(regulationId := None, name := None, code := None) == NoErrors
    ensures e.regulationId.Some? <==> input.regulationId == ""
    ensures e.name.Some? <==> IsBlank(input.name) || NameInUse(branches, input.regulationId, input.name)
    ensures e.code.Some? <==> IsBlank(input.code) || CodeInUse(branches, input.regulationId, input.code)
  {
    NoErrors.(
      regulationId := if input.regulationId == "" then Some(RegulationRequired) else None,
      name := if NameInUse(branches, input.regulationId, input.name) then Some(NameTaken)
              else if IsBlank(input.name) then Some(NameRequired) else None,
      code := if CodeInUse(branches, input.regulationId, input.code) then Some(CodeTaken)
              else if IsBlank(input.code) then Some(CodeRequired) else None)
  }

  /** Each entry carries its field's message, the duplicate one exactly when the value is taken. */
  lemma BranchErrorMessages(branches: seq<Branch>, input: BranchInput)
    ensures var e := BranchErrors(branches, input);
      (e.regulationId.Some? ==> e.regulationId == Some(RegulationRequired)) &&
      (e.name == Some(NameTaken) <==> NameInUse(branches, input.regulationId, input.name)) &&
      (e.code == Some(CodeTaken) <==> CodeInUse(branches, input.regulationId, input.code)) &&
      (e.name.Some? && e.name != Some(NameTaken) ==> e.name == Some(NameRequired)) &&
      (e.code.Some? && e.code != Some(CodeTaken) ==> e.code == Some(CodeRequired))
  {
  }

  /** The form is valid exactly when every field is filled and neither name nor code is taken in the regulation. */
  lemma BranchFormValid(branches: seq<Branch>, regulationId: string, name: string, code: string)
    ensures BranchErrors(branches, BranchInput(regulationId, name, code)).IsEmpty() <==>
      regulationId != "" && !IsBlank(name) && !IsBlank(code) &&
      !NameInUse(branches, regulationId, name) && !CodeInUse(branches, regulationId, code)
  {
  }

  /** A branch of another regulation never makes a name or code taken. */
  lemma BranchScope(branches: seq<Branch>, others: seq<Branch>, input: BranchInput)
    requires forall i :: 0 <= i < |others| ==> RefId(others[i].regulation) != input.regulationId
    ensures BranchErrors(branches + others, input) == BranchErrors(branches, input)
  {
    var p := (b: Branch) => RefId(b.regulation) == input.regulationId;
    FilterAppend(branches, others, p);
    FilterNone(others, p);
    assert BranchesOf(branches + others, input.regulationId) == BranchesOf(branches, input.regulationId);
  }

  /** A name differing from a taken one only in case or surrounding blanks is taken too. */
  lemma NameTakenIgnoresCase(branches: seq<Branch>, regulationId: string, name: string)
    ensures NameInUse(branches, regulationId, Lower(name)) <==> NameInUse(branches, regulationId, name)
  {
    FoldIgnoresCase(name);
  }

  /**
   * The body of `validate`: the object is filled test by test, the duplicate
   * checks overwriting the name and code entries.
   */
  method CollectBranchErrors(branches: seq<Branch>, input: BranchInput) returns (e: Errors, ok: bool)
    ensures e == BranchErrors(branches, input)
    ensures ok <==> e.IsEmpty()
  {
    e := NoErrors;
    if input.regulationId == "" { e := e.(regulationId := Some(RegulationRequired)); }
    if IsBlank(input.name) { e := e.(name := Some(NameRequired)); }
    if IsBlank(input.code) { e := e.(code := Some(CodeRequired)); }
    if NameInUse(branches, input.regulationId, input.name) { e := e.(name := Some(NameTaken)); }
    if CodeInUse(branches, input.regulationId, input.code) { e := e.(code := Some(CodeTaken)); }
    ok := e.IsEmpty();
  }

  /** What `handleSubmit` posts: trimmed name and code, and the regulation id. */
  datatype BranchPayload = BranchPayload(name: string, code: string, regulation: string)

  function BranchPayloadOf(input: BranchInput): BranchPayload {
    BranchPayload(Trim(input.name), Trim(input.code), input.regulationId)
  }

  /**
   * `handleSubmit` on values: nothing is posted unless the validation object
   * is empty; `reply` is the outcome of the POST. On success the dialog
   * closes; a failure replaces the whole object with a single `server` entry.
   */
  method SubmitBranch(branches: seq<Branch>, input: BranchInput, reply: Reply<()>)
    returns (errors: Errors, posted: Option<BranchPayload>, closed: bool)
    ensures posted.None? <==> !BranchErrors(branches, input).IsEmpty()
    ensures posted.None? ==> !closed && errors == BranchErrors(branches, input)
    ensures posted.Some? ==>
      posted.value == BranchPayloadOf(input) && closed == reply.Ok? &&
      errors == (if reply.Ok? then NoErrors else ServerError(FailureMessage(reply, AddFailed)))
  {
    var ok;
    errors, ok := CollectBranchErrors(branches, input);
    if !ok {
      return errors, None, false;
    }
    posted := Some(BranchPayloadOf(input));
    match reply {
      case Ok(_) =>
        closed := true;
      case Failed(_, _) =>
        errors := ServerError(FailureMessage(reply, AddFailed));
        closed := false;
    }
  }

  /** The state of the dialog; the two lists are its properties. */
  class AddBranchForm {
    const regulations: seq<Regulation>
    const branches: seq<Branch>
    var input: BranchInput
    var errors: Errors
    var submitting: bool

    constructor (regulations: seq<Regulation>, branches: seq<Branch>)
      ensures this.regulations == regulations && this.branches == branches
      ensures input == EmptyInput && errors == NoErrors && !submitting
    {
      this.regulations, this.branches := regulations, branches;
      input, errors, submitting := EmptyInput, NoErrors, false;
    }

    /** `validate`: the error object replaces the old one; the result says whether it is empty. */
    method Validate() returns (ok: bool)
      modifies this`errors
      ensures errors == BranchErrors(branches, input)
      ensures ok <==> errors.IsEmpty()
    {
      errors, ok := CollectBranchErrors(branches, input);
    }

    /**
     * `handleSubmit`: nothing is posted unless `validate` passes; `reply` is
     * the outcome of the POST. On success the dialog closes; a failure
     * replaces the whole object with a single `server` entry.
     */
    method Submit(reply: Reply<()>) returns (posted: Option<BranchPayload>, closed: bool)
      modifies this`errors, this`submitting
      ensures posted.None? <==> !BranchErrors(branches, old(input)).IsEmpty()
      ensures posted.None? ==> !closed && submitting == old(submitting) && errors == BranchErrors(branches, old(input))
      ensures posted.Some? ==>
        posted.value == BranchPayloadOf(old(input)) && closed == reply.Ok? && !submitting &&
        errors == (if reply.Ok? then NoErrors else ServerError(FailureMessage(reply, AddFailed)))
    {
      errors, posted, closed := SubmitBranch(branches, input, reply);
      if posted.Some? {
        submitting := true;
        submitting := false;
      }
    }

    /** The regulation selector: only its own error is cleared. */
    method SelectRegulation(value: string)
      modifies this`input, this`errors
      ensures input == old(input).(regulationId := value)
      ensures errors == old(errors).(regulationId := None)
    {
      input := input.(regulationId := value);
      errors := errors.(regulationId := None);
    }

    /** Typing a name: only the name's error is cleared. */
    method EditName(value: string)
      modifies this`input, this`errors
      ensures input == old(input).(name := value)
      ensures errors == old(errors).(name := None)
    {
      input := input.(name := value);
      errors := errors.(name := None);
    }

    /** Typing a code: only the code's error is cleared. */
    method EditCode(value: string)
      modifies this`input, this`errors
      ensures input == old(input).(code := value)
      ensures errors == old(errors).(code := None)
    {
      input := input.(code := value);
      errors := errors.(code := None);
    }
  }
}
