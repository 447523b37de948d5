/** frontend1/src/pages/UserSignup.js: the user signup form, its client-side checks and
    what it sends to `POST /auth/signup`. */
module UserSignupPage {
  import opened Base
  import opened Schema
  import opened Validators
  import opened Tables
  import opened Text
  import AuthController

  /** The form's inputs, by their `name` attributes. */
  datatype Field = Name | Email | Address | Password

  const Fields: set<Field> := {Name, Email, Address, Password}

  /** `form[key]`; an absent key fails every check below exactly as the empty text does. */
  function FieldOf(form: map<Field, string>, key: Field): string
  {
    if key in form then form[key] else ""
  }

  /** A key as the spread `{ ...form }` sends it: absent keys are not sent. */
  function Lookup(form: map<Field, string>, key: Field): Option<string>
  {
    if key in form then Some(form[key]) else None
  }

  /** The message `validate` records for one field, if that field fails. */
  function FieldError(form: map<Field, string>, key: Field): Option<string>
  {
    if key == Name then
      if FieldOf(form, Name) == "" then Some("Name is required.") else None
    else if key == Email then
      if !LooksLikeEmail(FieldOf(form, Email)) then Some("Invalid email.") else None
    else if key == Address then
      if FieldOf(form, Address) == "" then Some("Address required.") else None
    else if key == Password then
      if !IsValidPassword(FieldOf(form, Password)) then Some(AuthController.PasswordMessage) else None
    else None
  }

  /** The error object `validate` builds: one entry per failing field. */
  function FormErrors(form: map<Field, string>): (e: map<Field, string>)
    ensures e.Keys <= Fields
  {
    map k | k in Fields && FieldError(form, k).Some? :: FieldError(form, k).value
  }

  /** `e[key] = message` when a check failed. */
  function Record(e: map<Field, string>, failure: Option<string>, key: Field): map<Field, string>
  {
    if failure.Some? then e[key := failure.value] else e
  }

  /** The error object is what recording each field's failure in turn produces. */
  lemma FormErrorsRecorded(form: map<Field, string>)
    ensures FormErrors(form) ==
      Record(Record(Record(Record(map[], FieldError(form, Name), Name),
                           FieldError(form, Email), Email),
                    FieldError(form, Address), Address),
             FieldError(form, Password), Password)
  {
  }

  /** The client's checks: a name, an email matching the pattern, an address and a password
      meeting the policy. There is no length limit on the name or the address. */
  predicate ClientAccepts(form: map<Field, string>)
  {
    && FieldOf(form, Name) != ""
    && LooksLikeEmail(FieldOf(form, Email))
    && FieldOf(form, Address) != ""
    && IsValidPassword(FieldOf(form, Password))
  }

  /** A field carries an error exactly when its own check fails, and the form has no error
      exactly when the client accepts it. */
  lemma FormErrorsSpec(form: map<Field, string>)
    ensures Name in FormErrors(form) <==> FieldOf(form, Name) == ""
    ensures Email in FormErrors(form) <==> !LooksLikeEmail(FieldOf(form, Email))
    ensures Address in FormErrors(form) <==> FieldOf(form, Address) == ""
    ensures Password in FormErrors(form) <==> !IsValidPassword(FieldOf(form, Password))
    ensures |FormErrors(form)| == 0 <==> ClientAccepts(form)
  {
    if !ClientAccepts(form) {
      if FieldOf(form, Name) == "" {
        assert Name in FormErrors(form);
      } else if !LooksLikeEmail(FieldOf(form, Email)) {
        assert Email in FormErrors(form);
      } else if FieldOf(form, Address) == "" {
        assert Address in FormErrors(form);
      } else {
        assert Password in FormErrors(form);
      }
    }
  }

  /** The body `handleSubmit` posts: the form with the role forced to USER. */
  function Submitted(form: map<Field, string>): UserRequest
  {
    UserRequest(Lookup(form, Name), Lookup(form, Email), Lookup(form, Address),
                Lookup(form, Password), Some("USER"))
  }

  /** A form the client accepts passes every backend check as well once its name is at most
      20 characters, its address at most 400 and its email free. */
  lemma ClientAcceptedSignupPasses(form: map<Field, string>, users: seq<User>)
    requires Fields <= form.Keys && ClientAccepts(form)
    requires |form[Name]| <= AuthController.MaxNameLength && |form[Address]| <= AuthController.MaxAddressLength
    requires !EmailTaken(users, form[Email])
    ensures AuthController.SignupAccepted(Submitted(form), users)
  {
  }

  /** The form of `ClientAcceptedSignupRefused` passes every client check. */
  lemma LongNameFormAccepted()
    ensures ClientAccepts(map[Name := "Abcdefghijklmnopqrstu", Email := "a@b.co",
                              Address := "Main Street", Password := "Passw0rd!"])
  {
    assert EmailMatchAt("a@b.co", 1, 3);
    assert IsUpper("Passw0rd!"[0]) && IsSpecial("Passw0rd!"[8]);
  }

  /** The client does not bound the name: a 21-character name passes the form and is refused
      by the server. */
  lemma ClientAcceptedSignupRefused()
    ensures var form := map[Name := "Abcdefghijklmnopqrstu", Email := "a@b.co",
                            Address := "Main Street", Password := "Passw0rd!"];
      && ClientAccepts(form)
      && FirstFailure(AuthController.SignupGuards(Submitted(form), [])) == Some("Invalid name length")
  {
    var form := map[Name := "Abcdefghijklmnopqrstu", Email := "a@b.co",
                    Address := "Main Street", Password := "Passw0rd!"];
    LongNameFormAccepted();
    AuthController.AccountGuardsOrder(Some("Abcdefghijklmnopqrstu"), Some("a@b.co"), Some("Main Street"), Some("Passw0rd!"));
    AuthController.SignupGuardsSpec(Submitted(form), []);
  }

  /** The page's state: the form fields and the error messages shown under them. */
  class SignupForm {
    var form: map<Field, string>
    var errors: map<Field, string>

    ghost predicate Valid()
      reads this
    {
      Fields <= form.Keys
    }

    constructor ()
      ensures Valid()
      ensures form == map[Name := "", Email := "", Address := "", Password := ""]
      ensures errors == map[]
    {
      form := map[Name := "", Email := "", Address := "", Password := ""];
      errors := map[];
    }

    /** `validate`: record an error for each failing field, store the errors, and report
        whether there were none. */
    method Validate() returns (ok: bool)
      modifies this
      ensures form == old(form)
      ensures errors == FormErrors(form)
      ensures ok <==> ClientAccepts(form)
    {
      var f := form;
      var e: map<Field, string> := map[];
      if FieldOf(f, Name) == "" {
        e := e[Name := "Name is required."];
      }
      if !LooksLikeEmail(FieldOf(f, Email)) {
        e := e[Email := "Invalid email."];
      }
      if FieldOf(f, Address) == "" {
        e := e[Address := "Address required."];
      }
      if !IsValidPassword(FieldOf(f, Password)) {
        e := e[Password := AuthController.PasswordMessage];
      }
      FormErrorsRecorded(form);
      FormErrorsSpec(form);
      errors := e;
      ok := |e| == 0;
    }

    /** `handleChange`: store the new value of the named field and blank that field's error
        if it showed one. */
    method HandleChange(name: Field, value: string)
      modifies this
      ensures form == old(form)[name := value]
      ensures errors == if name in old(errors) && old(errors)[name] != "" then old(errors)[name := ""] else old(errors)
      ensures old(Valid()) ==> Valid()
    {
      form := form[name := value];
      if name in errors && errors[name] != "" {
        errors := errors[name := ""];
      }
    }

    /** `handleSubmit`: nothing is sent unless `validate` passes; otherwise the form goes out
        with role USER. */
    method HandleSubmit() returns (sent: Option<UserRequest>)
      modifies this
      ensures form == old(form) && errors == FormErrors(form)
      ensures sent.Some? <==> ClientAccepts(form)
      ensures sent.Some? ==> sent.value == Submitted(form) && sent.value.role == Some("USER")
    {
      var ok := Validate();
      if !ok {
        return None;
      }
      sent := Some(Submitted(form));
    }
  }
}
