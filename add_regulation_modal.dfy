/**
 * The "Add Regulation" dialog (src/Components/Admin/AddRegulationModal.jsx):
 * name and semester-count inputs, the list of existing regulations it
 * fetches for the duplicate check, a validator and the POST.
 */
module AddRegulationModal {
  import opened Wrappers
  import opened Text
  import opened Numbers
  import opened Seqs
  import opened Taxonomy
  import opened Http
  import opened Forms

  const NameRequired: string := "Name is required"
  const SemestersRequired: string := "Number of semesters is required"
  const SemestersNotPositive: string := "Must be a positive number"
  const NameTaken: string := "A regulation with this name already exists"
  const AddFailed: string := "Failed to add regulation"

  /** The dialog's two text inputs. */
  datatype RegulationInput = RegulationInput(name: string, numberOfSemesters: string)

  const EmptyInput: RegulationInput := RegulationInput("", "")

  /** Some existing regulation has the same trimmed, lower-cased name; the comparison spans every regulation. */
  predicate NameInUse(existing: seq<RegulationRecord>, name: string) {
    Any(existing, (r: RegulationRecord) => Fold(r.name) == Fold(name))
  }

  /** `isNaN(Number(x)) || Number(x) <= 0`. */
  predicate NotPositive(n: Num) {
    n.NaN? || NonPositive(n)
  }

  /**
   * The error object of `validate`. A blank name is required; a name in use
   * is reported only when it is not blank. An empty count is required; any
   * other count must read as a positive number.
   */
  function RegulationErrors(existing: seq<RegulationRecord>, input: RegulationInput): (e: Errors)
    ensures e.(name := None, numberOfSemesters := None) == NoErrors
    ensures e.name.Some? <==> IsBlank(input.name) || NameInUse(existing, input.name)
    ensures e.numberOfSemesters.Some? <==>
      input.numberOfSemesters == "" || NotPositive(ParseNumber(input.numberOfSemesters))
  {
    NoErrors.(
      name := if IsBlank(input.name) then Some(NameRequired)
              else if NameInUse(existing, input.name) then Some(NameTaken) else None,
      numberOfSemesters :=
        if input.numberOfSemesters == "" then Some(SemestersRequired)
        else if NotPositive(ParseNumber(input.numberOfSemesters)) then Some(SemestersNotPositive)
        else None)
  }

  /** Which message each entry carries: the required-field message takes precedence over the others. */
  lemma RegulationErrorMessages(existing: seq<RegulationRecord>, input: RegulationInput)
    ensures var e := RegulationErrors(existing, input);
      (e.name == Some(NameRequired) <==> IsBlank(input.name)) &&
      (e.name == Some(NameTaken) <==> !IsBlank(input.name) && NameInUse(existing, input.name)) &&
      (e.numberOfSemesters == Some(SemestersRequired) <==> input.numberOfSemesters == "") &&
      (e.numberOfSemesters == Some(SemestersNotPositive) <==>
         input.numberOfSemesters != "" && NotPositive(ParseNumber(input.numberOfSemesters)))
  {
  }

  /** The form is valid exactly when the name is filled and new and the count reads as a positive number. */
  lemma RegulationFormValid(existing: seq<RegulationRecord>, name: string, numberOfSemesters: string)
    ensures RegulationErrors(existing, RegulationInput(name, numberOfSemesters)).IsEmpty() <==>
      !IsBlank(name) && !NameInUse(existing, name) &&
      ParseNumber(numberOfSemesters).Int? && ParseNumber(numberOfSemesters).value > 0
  {
    if numberOfSemesters == "" {
      assert ParseNumber(numberOfSemesters) == Int(0);
    }
  }

  /** A blank count reads as 0, so it is refused as not positive rather than as missing. */
  lemma BlankCountNotPositive(existing: seq<RegulationRecord>, name: string, numberOfSemesters: string)
    requires IsBlank(numberOfSemesters) && numberOfSemesters != ""
    ensures RegulationErrors(existing, RegulationInput(name, numberOfSemesters)).numberOfSemesters ==
            Some(SemestersNotPositive)
  {
  }

  /** Typing the decimal form of any positive count gives no count error, and that count is what is posted. */
  lemma PositiveCountAccepted(existing: seq<RegulationRecord>, name: string, n: int)
    requires n > 0
    ensures RegulationErrors(existing, RegulationInput(name, IntToString(n))).numberOfSemesters.None?
    ensures RegulationPayloadOf(RegulationInput(name, IntToString(n))).numberOfSemesters == Int(n)
  {
    ParseIntToString(n);
  }

  /**
   * The body of `validate`: the object is filled test by test; the duplicate
   * test runs only when the name has no entry yet.
   */
  method CollectRegulationErrors(existing: seq<RegulationRecord>, input: RegulationInput) returns (e: Errors, ok: bool)
    ensures e == RegulationErrors(existing, input)
    ensures ok <==> e.IsEmpty()
  {
    e := NoErrors;
    if IsBlank(input.name) { e := e.(name := Some(NameRequired)); }
    if input.numberOfSemesters == "" {
      e := e.(numberOfSemesters := Some(SemestersRequired));
    } else if NotPositive(ParseNumber(input.numberOfSemesters)) {
      e := e.(numberOfSemesters := Some(SemestersNotPositive));
    }
    var duplicate := NameInUse(existing, input.name);
    if e.name.None? && duplicate { e := e.(name := Some(NameTaken)); }
    ok := e.IsEmpty();
  }

  /** What `handleSubmit` posts: the trimmed name and the count read through `Number`. */
  datatype RegulationPayload = RegulationPayload(name: string, numberOfSemesters: Num)

  function RegulationPayloadOf(input: RegulationInput): RegulationPayload {
    RegulationPayload(Trim(input.name), ParseNumber(input.numberOfSemesters))
  }

  /**
   * `handleSubmit` on values: nothing is posted unless the validation object
   * is empty; `reply` is the outcome of the POST. On success the dialog
   * closes; a failure replaces the whole object with a single `server` entry.
   */
  method SubmitRegulation(existing: seq<RegulationRecord>, input: RegulationInput, reply: Reply<()>)
    returns (errors: Errors, posted: Option<RegulationPayload>, closed: bool)
    ensures posted.None? <==> !RegulationErrors(existing, input).IsEmpty()
    ensures posted.None? ==> !closed && errors == RegulationErrors(existing, input)
    ensures posted.Some? ==>
      posted.value == RegulationPayloadOf(input) && closed == reply.Ok? &&
      errors == (if reply.Ok? then NoErrors else ServerError(FailureMessage(reply, AddFailed)))
  {
    var ok;
    errors, ok := CollectRegulationErrors(existing, input);
    if !ok {
      return errors, None, false;
    }
    posted := Some(RegulationPayloadOf(input));
    match reply {
      case Ok(_) =>
        closed := true;
      case Failed(_, _) =>
        errors := ServerError(FailureMessage(reply, AddFailed));
        closed := false;
    }
  }

  /** The state of the dialog. */
  class AddRegulationForm {
    var existing: seq<RegulationRecord>
    var input: RegulationInput
    var errors: Errors
    var submitting: bool

    /** The dialog opens empty; the existing regulations arrive later. */
    constructor ()
      ensures existing == [] && input == EmptyInput && errors == NoErrors && !submitting
    {
      existing, input, errors, submitting := [], EmptyInput, NoErrors, false;
    }

    /** The mount-time fetch of the existing regulations (`res.data || []`); a failure keeps the current list. */
    method LoadExisting(reply: Reply<Option<seq<RegulationRecord>>>)
      modifies this`existing
      ensures existing == if reply.Ok? then reply.data.GetOr([]) else old(existing)
    {
      if reply.Ok? {
        existing := reply.data.GetOr([]);
      }
    }

    /** `validate`: the error object replaces the old one; the result says whether it is empty. */
    method Validate() returns (ok: bool)
      modifies this`errors
      ensures errors == RegulationErrors(existing, input)
      ensures ok <==> errors.IsEmpty()
    {
      errors, ok := CollectRegulationErrors(existing, input);
    }

    /**
     * `handleSubmit`: nothing is posted unless `validate` passes; `reply` is
     * the outcome of the POST. On success the dialog closes; a failure
     * replaces the whole object with a single `server` entry.
     */
    method Submit(reply: Reply<()>) returns (posted: Option<RegulationPayload>, closed: bool)
      modifies this`errors, this`submitting
      ensures posted.None? <==> !RegulationErrors(old(existing), old(input)).IsEmpty()
      ensures posted.None? ==> !closed && submitting == old(submitting) && errors == RegulationErrors(old(existing), old(input))
      ensures posted.Some? ==>
        posted.value == RegulationPayloadOf(old(input)) && closed == reply.Ok? && !submitting &&
        errors == (if reply.Ok? then NoErrors else ServerError(FailureMessage(reply, AddFailed)))
    {
      errors, posted, closed := SubmitRegulation(existing, input, reply);
      if posted.Some? {
        submitting := true;
        submitting := false;
      }
    }

    /** Typing a name clears the name's entry when there is one. */
    method EditName(value: string)
      modifies this`input, this`errors
      ensures input == old(input).(name := value)
      ensures errors == old(errors).(name := None)
    {
      input := input.(name := value);
      if errors.name.Some? {
        errors := errors.(name := None);
      }
    }

    /** Typing a count clears the count's entry when there is one. */
    method EditSemesters(value: string)
      modifies this`input, this`errors
      ensures input == old(input).(numberOfSemesters := value)
      ensures errors == old(errors).(numberOfSemesters := None)
    {
      input := input.(numberOfSemesters := value);
      if errors.numberOfSemesters.Some? {
        errors := errors.(numberOfSemesters := None);
      }
    }
  }
}
