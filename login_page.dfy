/**
 * The login and student-registration page (src/pages/Login.jsx): the
 * role-based redirect, the registration validator, and the state changes of
 * submitting and of switching tabs.
 */
module LoginPage {
  import opened Wrappers
  import opened Text
  import opened Http
  import opened AuthContext

  /** The page a signed-in user is sent to; any other role stays put. */
  function RouteFor(user: Option<User>): (r: Option<string>)
    ensures r.Some? <==> user.Some? && user.value.role in ["admin", "faculty", "student"]
    ensures r.Some? ==> r.value == "/" + user.value.role
  {
    if user.None? then None
    else if user.value.role == "admin" then Some("/admin")
    else if user.value.role == "faculty" then Some("/faculty")
    else if user.value.role == "student" then Some("/student")
    else None
  }

  /** No whitespace in `s[i..j]`. */
  predicate NoSpaceIn(s: string, i: int, j: int)
    requires 0 <= i <= j <= |s|
  {
    forall k :: i <= k < j ==> !IsSpace(s[k])
  }

  /**
   * A match of `\S+@\S+\.\S+` with its "@" at `at` and its "." at `dot`:
   * a non-space before the "@", only non-spaces (at least one) up to the
   * ".", and a non-space after it.
   */
  predicate EmailAt(s: string, at: int, dot: int) {
    0 < at < |s| && at + 1 < dot < |s| - 1 && s[at] == '@' && s[dot] == '.' &&
    !IsSpace(s[at - 1]) && NoSpaceIn(s, at + 1, dot) && !IsSpace(s[dot + 1])
  }

  /** `/\S+@\S+\.\S+/.test(s)`: the pattern matches somewhere in `s`. */
  predicate EmailLike(s: string) {
    exists at, dot :: 0 <= at < |s| && 0 <= dot < |s| && EmailAt(s, at, dot)
  }

  /** The test looks for a match anywhere, so text around an address never spoils it. */
  lemma EmailLikeInContext(p: string, s: string, q: string)
    requires EmailLike(s)
    ensures EmailLike(p + s + q)
  {
    var at, dot :| EmailAt(s, at, dot);
    assert EmailAt(s, at, dot);
    assert 0 < at < |s| && at + 1 < dot < |s| - 1;
    var t := p + s + q;
    assert |t| == |p| + |s| + |q|;
    assert forall k :: 0 <= k < |s| ==> t[|p| + k] == s[k];
    assert t[|p| + at] == '@' && t[|p| + dot] == '.';
    assert t[|p| + at - 1] == s[at - 1] && t[|p| + dot + 1] == s[dot + 1];
    assert forall k :: |p| + at + 1 <= k < |p| + dot ==> t[k] == s[k - |p|];
    assert EmailAt(t, |p| + at, |p| + dot);
  }

  /** A match needs an "@", a "." after it, and at least five characters. */
  lemma EmailLikeNeeds(s: string)
    ensures EmailLike(s) ==> '@' in s && '.' in s && |s| >= 5
  {
    if EmailLike(s) {
      var at, dot :| 0 <= at < |s| && 0 <= dot < |s| && EmailAt(s, at, dot);
      assert s[at] == '@' && s[dot] == '.';
    }
  }

  /** Every `user@host.tld` whose three parts are non-empty and free of whitespace passes. */
  lemma EmailLikeAddress(user: string, host: string, tld: string)
    requires user != [] && host != [] && tld != []
    requires forall k :: 0 <= k < |user| ==> !IsSpace(user[k])
    requires forall k :: 0 <= k < |host| ==> !IsSpace(host[k])
    requires forall k :: 0 <= k < |tld| ==> !IsSpace(tld[k])
    ensures EmailLike(user + "@" + host + "." + tld)
  {
    var s := user + "@" + host + "." + tld;
    var at, dot := |user|, |user| + 1 + |host|;
    assert s[at] == '@' && s[dot] == '.';
    assert s[at - 1] == user[|user| - 1];
    assert s[dot + 1] == tld[0];
    assert forall k :: at + 1 <= k < dot ==> s[k] == host[k - at - 1];
    assert EmailAt(s, at, dot);
  }

  const NameRequired: string := "Full name is required"
  const EmailRequired: string := "Email is required"
  const EmailInvalid: string := "Invalid email format"
  const RollRequired: string := "Roll number is required"
  const BranchRequired: string := "Branch is required"
  const PasswordRequired: string := "Password is required"
  const PasswordTooShort: string := "Password must be at least 6 characters"
  const PasswordsDiffer: string := "Passwords do not match"

  /** The registration form's error object: one optional message per key. */
  datatype RegisterErrorSet = RegisterErrorSet(
    name: Option<string>, email: Option<string>, id: Option<string>, branch: Option<string>,
    password: Option<string>, confirmPassword: Option<string>)
  {
    /** `Object.keys(newErrors).length === 0`. */
    predicate IsEmpty() {
      name.None? && email.None? && id.None? && branch.None? && password.None? && confirmPassword.None?
    }
  }

  /** `{}`. */
  const NoRegisterErrors: RegisterErrorSet := RegisterErrorSet(None, None, None, None, None, None)

  /** The page's six inputs. */
  datatype LoginFields = LoginFields(id: string, password: string, confirmPassword: string,
                                     name: string, email: string, branch: string)

  const EmptyFields: LoginFields := LoginFields("", "", "", "", "", "")

  /**
   * The error object of `validateRegister`. The email format is checked on
   * the text as typed; only an empty password is "required", any shorter
   * than 6 UTF-16 code units is too short; the confirmation is compared
   * independently.
   */
  function RegisterErrors(f: LoginFields): (e: RegisterErrorSet)
    ensures e.name.Some? <==> IsBlank(f.name)
    ensures e.email.Some? <==> IsBlank(f.email) || !EmailLike(f.email)
    ensures e.id.Some? <==> IsBlank(f.id)
    ensures e.branch.Some? <==> f.branch == ""
    ensures e.password.Some? <==> Utf16Length(f.password) < 6
    ensures e.confirmPassword.Some? <==> f.password != f.confirmPassword
  {
    NoRegisterErrors.(
      name := if IsBlank(f.name) then Some(NameRequired) else None,
      email := if IsBlank(f.email) then Some(EmailRequired)
               else if !EmailLike(f.email) then Some(EmailInvalid) else None,
      id := if IsBlank(f.id) then Some(RollRequired) else None,
      branch := if f.branch == "" then Some(BranchRequired) else None,
      password := if f.password == "" then Some(PasswordRequired)
                  else if Utf16Length(f.password) < 6 then Some(PasswordTooShort) else None,
      confirmPassword := if f.password != f.confirmPassword then Some(PasswordsDiffer) else None)
  }

  /** Which message each entry carries. */
  lemma RegisterErrorMessages(f: LoginFields)
    ensures var e := RegisterErrors(f);
      (e.name.Some? ==> e.name == Some(NameRequired)) &&
      (e.email == Some(EmailRequired) <==> IsBlank(f.email)) &&
      (e.email == Some(EmailInvalid) <==> !IsBlank(f.email) && !EmailLike(f.email)) &&
      (e.id.Some? ==> e.id == Some(RollRequired)) &&
      (e.branch.Some? ==> e.branch == Some(BranchRequired)) &&
      (e.password == Some(PasswordRequired) <==> f.password == "") &&
      (e.password == Some(PasswordTooShort) <==> 0 < Utf16Length(f.password) < 6) &&
      (e.confirmPassword.Some? ==> e.confirmPassword == Some(PasswordsDiffer))
  {
  }

  /** Registration proceeds exactly when every field is filled, the email is well formed and the passwords agree. */
  lemma RegisterValid(f: LoginFields)
    ensures RegisterErrors(f).IsEmpty() <==>
      !IsBlank(f.name) && !IsBlank(f.email) && EmailLike(f.email) && !IsBlank(f.id) && f.branch != "" &&
      Utf16Length(f.password) >= 6 && f.confirmPassword == f.password
  {
  }

  /** The body of `validateRegister`: the object is filled test by test. */
  method CollectRegisterErrors(f: LoginFields) returns (e: RegisterErrorSet, ok: bool)
    ensures e == RegisterErrors(f)
    ensures ok <==> e.IsEmpty()
  {
    ghost var r := RegisterErrors(f);
    e := NoRegisterErrors;
    if IsBlank(f.name) { e := e.(name := Some(NameRequired)); }
    assert e == NoRegisterErrors.(name := r.name);
    if IsBlank(f.email) {
      e := e.(email := Some(EmailRequired));
    } else if !EmailLike(f.email) {
      e := e.(email := Some(EmailInvalid));
    }
    assert e == NoRegisterErrors.(name := r.name, email := r.email);
    if IsBlank(f.id) { e := e.(id := Some(RollRequired)); }
    if f.branch == "" { e := e.(branch := Some(BranchRequired)); }
    assert e == NoRegisterErrors.(name := r.name, email := r.email, id := r.id, branch := r.branch);
    if f.password == "" {
      e := e.(password := Some(PasswordRequired));
    } else if Utf16Length(f.password) < 6 {
      e := e.(password := Some(PasswordTooShort));
    }
    if f.password != f.confirmPassword { e := e.(confirmPassword := Some(PasswordsDiffer)); }
    ok := e.IsEmpty();
  }

  /** The registration body, fields as typed. */
  datatype Registration = Registration(name: string, email: string, rollNumber: string, password: string, branch: string)

  /** The registration body of the given inputs; the id is the roll number. */
  function RegistrationOf(f: LoginFields): Registration {
    Registration(f.name, f.email, f.id, f.password, f.branch)
  }

  /** `${REACT_APP_BACKEND_URL.replace(/\/$/, "")}/auth/student/register`. */
  function RegisterUrl(backendUrl: string): string {
    StripTrailingSlash(backendUrl) + "/auth/student/register"
  }

  const RegistrationDone: string := "Registration successful! Please login."

  /** What a submit sends: a call to `login`, a registration POST, or nothing. */
  datatype Request = NoRequest | LoginCall(id: string, password: string) | RegisterPost(url: string, body: Registration)

  /**
   * The register branch of `handleSubmit` on the page's values: the new
   * error object, the request, and the new inputs, tab and failure flag.
   */
  method RegisterStep(f: LoginFields, backendUrl: Option<string>, registerReply: Reply<()>)
    returns (errors: RegisterErrorSet, request: Request, fields: LoginFields, isLogin: bool, invalidLogin: bool,
             alert: Option<string>)
    ensures errors == RegisterErrors(f)
    ensures !errors.IsEmpty() ==> request == NoRequest && !isLogin && !invalidLogin && fields == f
    ensures errors.IsEmpty() ==>
      fields == EmptyFields &&
      (backendUrl.None? ==> request == NoRequest && !isLogin && invalidLogin) &&
      (backendUrl.Some? ==>
        request == RegisterPost(RegisterUrl(backendUrl.value), RegistrationOf(f)) &&
        isLogin == registerReply.Ok? && invalidLogin == registerReply.Failed?)
    ensures alert == if request.RegisterPost? && registerReply.Ok? then Some(RegistrationDone) else None
  {
    var ok;
    errors, ok := CollectRegisterErrors(f);
    fields, isLogin, invalidLogin, alert := f, false, false, None;
    if !ok {
      return errors, NoRequest, fields, isLogin, invalidLogin, alert;
    }
    fields := EmptyFields;
    if backendUrl.None? {
      return errors, NoRequest, fields, false, true, None;
    }
    request := RegisterPost(RegisterUrl(backendUrl.value), RegistrationOf(f));
    isLogin, invalidLogin := registerReply.Ok?, registerReply.Failed?;
    if registerReply.Ok? {
      alert := Some(RegistrationDone);
    }
  }

  /** The state of the page. */
  class LoginScreen {
    var isLogin: bool
    var fields: LoginFields
    var invalidLogin: bool
    var errors: RegisterErrorSet

    constructor ()
      ensures isLogin && fields == EmptyFields && !invalidLogin && errors == NoRegisterErrors
    {
      isLogin, fields, invalidLogin, errors := true, EmptyFields, false, NoRegisterErrors;
    }

    /** `clearFields`: all six inputs become empty. */
    method ClearFields()
      modifies this`fields
      ensures fields == EmptyFields
    {
      fields := EmptyFields;
    }

    /** The Login tab: the failure flag and the errors go; the inputs stay. */
    method ShowLoginTab()
      modifies this`isLogin, this`invalidLogin, this`errors
      ensures isLogin && !invalidLogin && errors == NoRegisterErrors
    {
      isLogin, invalidLogin, errors := true, false, NoRegisterErrors;
    }

    /** The Register tab: the failure flag and the errors go; the inputs stay. */
    method ShowRegisterTab()
      modifies this`isLogin, this`invalidLogin, this`errors
      ensures !isLogin && !invalidLogin && errors == NoRegisterErrors
    {
      isLogin, invalidLogin, errors := false, false, NoRegisterErrors;
    }

    /**
     * `handleSubmit`. In login mode the raw id and password go to `login`,
     * whose outcome is `loginOutcome`; a failure flags the page and clears
     * the inputs. In register mode nothing is sent unless `validateRegister`
     * passes; `registerReply` is the outcome of the POST, and an unset
     * backend URL fails before any request. Success returns to the login tab
     * with cleared inputs and the success alert; any failure flags the page
     * and clears the inputs.
     */
    method Submit(loginOutcome: LoginOutcome, backendUrl: Option<string>, registerReply: Reply<()>)
      returns (request: Request, alert: Option<string>)
      modifies this
      ensures old(isLogin) ==>
        request == LoginCall(old(fields).id, old(fields).password) && isLogin && errors == old(errors) &&
        invalidLogin == loginOutcome.Failure? &&
        fields == if loginOutcome.Failure? then EmptyFields else old(fields)
      ensures !old(isLogin) ==> errors == RegisterErrors(old(fields))
      ensures !old(isLogin) && !RegisterErrors(old(fields)).IsEmpty() ==>
        request == NoRequest && !isLogin && !invalidLogin && fields == old(fields)
      ensures !old(isLogin) && RegisterErrors(old(fields)).IsEmpty() ==>
        fields == EmptyFields &&
        (backendUrl.None? ==> request == NoRequest && !isLogin && invalidLogin) &&
        (backendUrl.Some? ==>
          request == RegisterPost(RegisterUrl(backendUrl.value), RegistrationOf(old(fields))) &&
          isLogin == registerReply.Ok? && invalidLogin == registerReply.Failed?)
      ensures alert == if request.RegisterPost? && registerReply.Ok? then Some(RegistrationDone) else None
    {
      var f := fields;
      invalidLogin, alert := false, None;
      if isLogin {
        request := LoginCall(f.id, f.password);
        if loginOutcome.Failure? {
          invalidLogin := true;
          ClearFields();
        }
      } else {
        var e, cleared, tab, failed;
        e, request, cleared, tab, failed, alert := RegisterStep(f, backendUrl, registerReply);
        errors, fields, isLogin, invalidLogin := e, cleared, tab, failed;
      }
    }
  }
}
