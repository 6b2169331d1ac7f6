/** The login page (src/pages/Login.tsx): the NIP and password schema, the
    per-field error map filled from the schema's issues, the submit handler's
    state changes, and where a signed-in user is sent. */
module Login {
  import opened Common
  import opened Auth

  const NipRequired := "NIP harus diisi"
  const NipDigitsOnly := "NIP hanya boleh berisi angka"
  const PasswordTooShort := "Password minimal 6 karakter"
  const MinPasswordLength := 6
  const DefaultTarget := "/dashboard"

  /** `\d` without the unicode flag: an ASCII decimal digit. */
  predicate IsDigit(c: char) {
    '0' <= c <= '9'
  }

  /** The NIP rule: `min(1)` and `/^\d+$/`. */
  predicate NipValid(nip: string) {
    |nip| >= 1 && forall i :: 0 <= i < |nip| ==> IsDigit(nip[i])
  }

  /** The password rule: `min(6)`. */
  predicate PasswordValid(password: string) {
    |password| >= MinPasswordLength
  }

  datatype Field = NipField | PasswordField

  datatype Issue = Issue(path: Field, message: string)

  /** The issues `safeParse` reports, in order: the NIP's checks in
      declaration order (an empty NIP fails both), then the password's. */
  function SchemaIssues(nip: string, password: string): (issues: seq<Issue>)
    ensures issues == [] <==> NipValid(nip) && PasswordValid(password)
    ensures forall i :: 0 <= i < |issues| && issues[i].path == PasswordField ==>
      issues[i].message == PasswordTooShort && i == |issues| - 1
  {
    (if |nip| < 1 then [Issue(NipField, NipRequired)] else [])
    + (if !(|nip| >= 1 && forall i :: 0 <= i < |nip| ==> IsDigit(nip[i])) then [Issue(NipField, NipDigitsOnly)] else [])
    + (if !PasswordValid(password) then [Issue(PasswordField, PasswordTooShort)] else [])
  }

  /** The per-field messages shown under the inputs. */
  datatype FieldErrors = FieldErrors(nip: Option<string>, password: Option<string>)

  /** The message of the last issue on `field`: a later issue on the same
      field overwrites an earlier one. */
  function LastMessage(issues: seq<Issue>, field: Field): Option<string> {
    if issues == [] then None
    else if issues[|issues| - 1].path == field then Some(issues[|issues| - 1].message)
    else LastMessage(issues[..|issues| - 1], field)
  }

  lemma {:induction false} NoIssueOn(issues: seq<Issue>, field: Field)
    requires forall i :: 0 <= i < |issues| ==> issues[i].path != field
    ensures LastMessage(issues, field) == None
  {
    if issues != [] {
      NoIssueOn(issues[..|issues| - 1], field);
    }
  }

  /** The `forEach` over the issues that fills the error object. */
  method CollectErrors(issues: seq<Issue>) returns (errors: FieldErrors)
    ensures errors.nip == LastMessage(issues, NipField)
    ensures errors.password == LastMessage(issues, PasswordField)
  {
    errors := FieldErrors(None, None);
    var i := 0;
    while i < |issues|
      invariant 0 <= i <= |issues|
      invariant errors.nip == LastMessage(issues[..i], NipField)
      invariant errors.password == LastMessage(issues[..i], PasswordField)
    {
      assert issues[..i + 1][..i] == issues[..i];
      if issues[i].path == NipField {
        errors := errors.(nip := Some(issues[i].message));
      }
      if issues[i].path == PasswordField {
        errors := errors.(password := Some(issues[i].message));
      }
      i := i + 1;
    }
    assert issues[..i] == issues;
  }

  /** What the form shows for a pair of inputs: a field has a message
      exactly when its rule fails; a bad NIP always shows the digits-only
      message, because that issue comes last for the NIP. */
  lemma {:induction false} ErrorsOfSchema(nip: string, password: string)
    ensures var issues := SchemaIssues(nip, password);
      && (LastMessage(issues, NipField).Some? <==> !NipValid(nip))
      && (!NipValid(nip) ==> LastMessage(issues, NipField) == Some(NipDigitsOnly))
      && (LastMessage(issues, PasswordField).Some? <==> !PasswordValid(password))
      && (!PasswordValid(password) ==> LastMessage(issues, PasswordField) == Some(PasswordTooShort))
  {
    var a := if |nip| < 1 then [Issue(NipField, NipRequired)] else [];
    var b := if !NipValid(nip) then [Issue(NipField, NipDigitsOnly)] else [];
    var c := if !PasswordValid(password) then [Issue(PasswordField, PasswordTooShort)] else [];
    assert SchemaIssues(nip, password) == a + b + c;
    if !PasswordValid(password) {
      assert LastMessage(a + b + c, PasswordField) == Some(PasswordTooShort);
      assert (a + b + c)[..|a + b|] == a + b;
    } else {
      assert a + b + c == a + b;
      NoIssueOn(a + b, PasswordField);
    }
    if |nip| < 1 {
      assert (a + b)[..1] == a;
    }
  }

  /** The form's state. */
  class LoginForm {
    var error: Option<string>
    var validationErrors: FieldErrors
    var isLoading: bool

    constructor ()
      ensures error == None && validationErrors == FieldErrors(None, None) && !isLoading
    {
      error := None;
      validationErrors := FieldErrors(None, None);
      isLoading := false;
    }

    /** `handleSubmit`. `signInResult` is what `signIn` would return (None
        for success); it is consulted only when the inputs pass the schema,
        which `calledSignIn` reports. An empty message is falsy and is
        treated like success. */
    method HandleSubmit(nip: string, password: string, signInResult: Option<string>) returns (calledSignIn: bool)
      modifies this
      ensures calledSignIn <==> NipValid(nip) && PasswordValid(password)
      ensures !calledSignIn ==>
        && validationErrors.nip.Some? == !NipValid(nip)
        && validationErrors.password.Some? == !PasswordValid(password)
        && error == None && isLoading == old(isLoading)
      ensures !calledSignIn ==>
        validationErrors == FieldErrors(LastMessage(SchemaIssues(nip, password), NipField),
                                        LastMessage(SchemaIssues(nip, password), PasswordField))
      ensures calledSignIn ==> validationErrors == FieldErrors(None, None)
      ensures calledSignIn ==> (error.Some? <==> signInResult.Some? && signInResult.value != "")
      ensures calledSignIn && error.Some? ==> error == signInResult
      ensures calledSignIn ==> (isLoading <==> error.None?)
    {
      error := None;
      validationErrors := FieldErrors(None, None);
      var issues := SchemaIssues(nip, password);
      if issues != [] {
        var errors := CollectErrors(issues);
        ErrorsOfSchema(nip, password);
        validationErrors := errors;
        return false;
      }
      isLoading := true;
      if signInResult.Some? && signInResult.value != "" {
        error := signInResult;
        isLoading := false;
      }
      return true;
    }
  }

  /** `location.state?.from?.pathname || '/dashboard'`. */
  function RedirectTarget(from: Option<string>): (target: string)
    ensures target != ""
    ensures target == DefaultTarget <==> from.None? || from.value == "" || from.value == DefaultTarget
    ensures target != DefaultTarget ==> from == Some(target)
  {
    if from.Some? && from.value != "" then from.value else DefaultTarget
  }

  /** The navigation effect: once a user is present, go to the target. */
  function AutoNavigate(user: Option<AuthUser>, from: Option<string>): (to: Option<string>)
    ensures to.Some? <==> user.Some?
    ensures to.Some? ==> to.value == RedirectTarget(from)
  {
    if user.Some? then Some(RedirectTarget(from)) else None
  }
}
