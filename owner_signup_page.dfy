/** frontend1/src/pages/OwnerSignup.js: the owner signup form, with the owner's account
    fields and the store's fields, and what it sends to `POST /auth/owner/signup`. */
module OwnerSignupPage {
  import opened Base
  import opened Schema
  import opened Text
  import opened Validators
  import opened Tables
  import AuthController
  import OwnerAuthController
  import UserSignupPage

  /** The form's inputs, by their `name` attributes. */
  datatype Field = Name | Email | Address | Password | StoreName | StoreAddress | StoreEmail

  const Fields: set<Field> := {Name, Email, Address, Password, StoreName, StoreAddress, StoreEmail}

  /** `form[key]`; an absent key fails every check below exactly as the empty text does. */
  function FieldOf(form: map<Field, string>, key: Field): string
  {
    if key in form then form[key] else ""
  }

  /** A key as `api.post(..., form)` sends it: absent keys are not sent. */
  function Lookup(form: map<Field, string>, key: Field): Option<string>
  {
    if key in form then Some(form[key]) else None
  }

  /** The message `validate` records for one field, if that field fails. */
  function FieldError(form: map<Field, string>, key: Field): Option<string>
  {
    if key == Name then
      if FieldOf(form, Name) == "" then Some("Owner name is required.") else None
    else if key == Email then
      if !LooksLikeEmail(FieldOf(form, Email)) then Some("Invalid email.") else None
    else if key == Address then
      if FieldOf(form, Address) == "" then Some("Address is required.") else None
    else if key == Password then
      if !IsValidPassword(FieldOf(form, Password)) then Some(AuthController.PasswordMessage) else None
    else if key == StoreName then
      if FieldOf(form, StoreName) == "" then Some("Store name is required.") else None
    else if key == StoreAddress then
      if FieldOf(form, StoreAddress) == "" then Some("Store address is required.") else None
    else if key == StoreEmail then
      if !LooksLikeEmail(FieldOf(form, StoreEmail)) then Some("Invalid store email.") else None
    else None
  }

  /** The error object `validate` builds: one entry per failing field. */
  function FormErrors(form: map<Field, string>): (e: map<Field, string>)
    ensures e.Keys <= Fields
  {
    map k | k in Fields && FieldError(form, k).Some? :: FieldError(form, k).value
  }

  /** `e[key] = message` when a check failed. */
  function Record(e: map<Field, string>, failure: Option<string>, key: Field): map<Field, string>
  {
    if failure.Some? then e[key := failure.value] else e
  }

  /** The owner part of the error object, as recorded field by field. */
  function OwnerErrors(form: map<Field, string>): map<Field, string>
  {
    Record(Record(Record(Record(map[], FieldError(form, Name), Name),
                         FieldError(form, Email), Email),
                  FieldError(form, Address), Address),
           FieldError(form, Password), Password)
  }

  const OwnerFields: set<Field> := {Name, Email, Address, Password}

  /** `m` is the error object for the fields `ks`: an entry for exactly the failing fields
      among them, each with its message. */
  ghost predicate RecordedFor(m: map<Field, string>, form: map<Field, string>, ks: set<Field>)
  {
    && (forall k :: k in m <==> k in ks && FieldError(form, k).Some?)
    && (forall k | k in m :: m[k] == FieldError(form, k).value)
  }

  /** Recording one more field's verdict extends the object to that field. */
  lemma RecordStep(m: map<Field, string>, form: map<Field, string>, ks: set<Field>, key: Field, ks': set<Field>)
    requires RecordedFor(m, form, ks) && ks' == ks + {key}
    ensures RecordedFor(Record(m, FieldError(form, key), key), form, ks')
  {
  }

  /** The object recorded for every field is the error object. */
  lemma RecordedForAll(m: map<Field, string>, form: map<Field, string>)
    requires RecordedFor(m, form, Fields)
    ensures m == FormErrors(form)
  {
  }

  /** Recording the owner fields in turn gives the error object for the owner fields. */
  lemma OwnerErrorsRecorded(form: map<Field, string>)
    ensures RecordedFor(OwnerErrors(form), form, OwnerFields)
  {
    var m0: map<Field, string> := map[];
    var m1 := Record(m0, FieldError(form, Name), Name);
    var m2 := Record(m1, FieldError(form, Email), Email);
    var m3 := Record(m2, FieldError(form, Address), Address);
    RecordStep(m0, form, {}, Name, {Name});
    RecordStep(m1, form, {Name}, Email, {Name, Email});
    RecordStep(m2, form, {Name, Email}, Address, {Name, Email, Address});
    RecordStep(m3, form, {Name, Email, Address}, Password, OwnerFields);
  }

  /** The error object is what recording each field's failure in turn produces. */
  lemma FormErrorsRecorded(form: map<Field, string>)
    ensures FormErrors(form) ==
      Record(Record(Record(OwnerErrors(form), FieldError(form, StoreName), StoreName),
                    FieldError(form, StoreAddress), StoreAddress),
             FieldError(form, StoreEmail), StoreEmail)
  {
    var m4 := OwnerErrors(form);
    var m5 := Record(m4, FieldError(form, StoreName), StoreName);
    var m6 := Record(m5, FieldError(form, StoreAddress), StoreAddress);
    var m7 := Record(m6, FieldError(form, StoreEmail), StoreEmail);
    OwnerErrorsRecorded(form);
    RecordStep(m4, form, OwnerFields, StoreName, OwnerFields + {StoreName});
    RecordStep(m5, form, OwnerFields + {StoreName}, StoreAddress, OwnerFields + {StoreName, StoreAddress});
    RecordStep(m6, form, OwnerFields + {StoreName, StoreAddress}, StoreEmail, Fields);
    RecordedForAll(m7, form);
  }

  /** The client's checks: an owner name, address and store name and address, two emails
      matching the pattern, and a password meeting the policy. No length is bounded. */
  predicate ClientAccepts(form: map<Field, string>)
  {
    && FieldOf(form, Name) != ""
    && LooksLikeEmail(FieldOf(form, Email))
    && FieldOf(form, Address) != ""
    && IsValidPassword(FieldOf(form, Password))
    && FieldOf(form, StoreName) != ""
    && FieldOf(form, StoreAddress) != ""
    && LooksLikeEmail(FieldOf(form, StoreEmail))
  }

  /** Each store field carries an error exactly when its own check fails, and the form has
      no error exactly when the client accepts it. */
  lemma FormErrorsSpec(form: map<Field, string>)
    ensures StoreName in FormErrors(form) <==> FieldOf(form, StoreName) == ""
    ensures StoreAddress in FormErrors(form) <==> FieldOf(form, StoreAddress) == ""
    ensures StoreEmail in FormErrors(form) <==> !LooksLikeEmail(FieldOf(form, StoreEmail))
    ensures |FormErrors(form)| == 0 <==> ClientAccepts(form)
  {
    if !ClientAccepts(form) {
      if FieldOf(form, Name) == "" {
        assert Name in FormErrors(form);
      } else if !LooksLikeEmail(FieldOf(form, Email)) {
        assert Email in FormErrors(form);
      } else if FieldOf(form, Address) == "" {
        assert Address in FormErrors(form);
      } else if !IsValidPassword(FieldOf(form, Password)) {
        assert Password in FormErrors(form);
      } else if FieldOf(form, StoreName) == "" {
        assert StoreName in FormErrors(form);
      } else if FieldOf(form, StoreAddress) == "" {
        assert StoreAddress in FormErrors(form);
      } else {
        assert StoreEmail in FormErrors(form);
      }
    }
  }

  /** The owner fields follow the rules of the user signup form: given the same texts, each
      owner field carries an error exactly when the matching user field does, and the email
      and password errors read the same. */
  lemma SameRulesAsUserSignup(form: map<Field, string>, userForm: map<UserSignupPage.Field, string>)
    requires FieldOf(form, Name) == UserSignupPage.FieldOf(userForm, UserSignupPage.Name)
    requires FieldOf(form, Email) == UserSignupPage.FieldOf(userForm, UserSignupPage.Email)
    requires FieldOf(form, Address) == UserSignupPage.FieldOf(userForm, UserSignupPage.Address)
    requires FieldOf(form, Password) == UserSignupPage.FieldOf(userForm, UserSignupPage.Password)
    ensures Name in FormErrors(form) <==> UserSignupPage.Name in UserSignupPage.FormErrors(userForm)
    ensures Email in FormErrors(form) <==> UserSignupPage.Email in UserSignupPage.FormErrors(userForm)
    ensures Address in FormErrors(form) <==> UserSignupPage.Address in UserSignupPage.FormErrors(userForm)
    ensures Password in FormErrors(form) <==> UserSignupPage.Password in UserSignupPage.FormErrors(userForm)
    ensures Email in FormErrors(form) ==>
      FormErrors(form)[Email] == UserSignupPage.FormErrors(userForm)[UserSignupPage.Email]
    ensures Password in FormErrors(form) ==>
      FormErrors(form)[Password] == UserSignupPage.FormErrors(userForm)[UserSignupPage.Password]
  {
    UserSignupPage.FormErrorsSpec(userForm);
  }

  /** The body `handleSubmit` posts: the form as it stands. */
  function Submitted(form: map<Field, string>): OwnerAuthController.OwnerSignupRequest
  {
    OwnerAuthController.OwnerSignupRequest(
      Lookup(form, Name), Lookup(form, Email), Lookup(form, Address), Lookup(form, Password),
      Lookup(form, StoreName), Lookup(form, StoreAddress), Lookup(form, StoreEmail))
  }

  /** A form the client accepts passes every backend check as well once the owner's name is
      at most 20 characters, the address at most 400 and the email free. */
  lemma ClientAcceptedSignupPasses(form: map<Field, string>, users: seq<User>)
    requires Fields <= form.Keys && ClientAccepts(form)
    requires |form[Name]| <= AuthController.MaxNameLength && |form[Address]| <= AuthController.MaxAddressLength
    requires !EmailTaken(users, form[Email])
    ensures OwnerAuthController.OwnerSignupAccepted(Submitted(form), users)
  {
  }

  /** The client does not bound the address: a form it accepts whose owner name is short
      enough but whose address exceeds 400 characters is refused by the server. */
  lemma ClientAcceptedSignupRefused(form: map<Field, string>, users: seq<User>)
    requires Fields <= form.Keys && ClientAccepts(form)
    requires |form[Name]| <= AuthController.MaxNameLength && |form[Address]| > AuthController.MaxAddressLength
    ensures FirstFailure(OwnerAuthController.OwnerSignupGuards(Submitted(form), users)) == Some("Invalid address")
  {
    AuthController.AccountGuardsOrder(Lookup(form, Name), Lookup(form, Email), Lookup(form, Address),
                                      Lookup(form, Password));
    OwnerAuthController.OwnerSignupGuardsSpec(Submitted(form), users);
  }

  /** The page's state: the form fields and the error messages shown under them. */
  class SignupForm {
    var form: map<Field, string>
    var errors: map<Field, string>

    ghost predicate Valid()
      reads this
    {
      Fields <= form.Keys
    }

    constructor ()
      ensures Valid()
      ensures form == map[Name := "", Email := "", Address := "", Password := "",
                          StoreName := "", StoreAddress := "", StoreEmail := ""]
      ensures errors == map[]
    {
      form := map[Name := "", Email := "", Address := "", Password := "",
                  StoreName := "", StoreAddress := "", StoreEmail := ""];
      errors := map[];
    }

    /** The owner half of `validate`: an error for each failing owner field. */
    method OwnerChecks() returns (e: map<Field, string>)
      ensures e == OwnerErrors(form)
    {
      e := map[];
      if FieldOf(form, Name) == "" {
        e := e[Name := "Owner name is required."];
      }
      if !LooksLikeEmail(FieldOf(form, Email)) {
        e := e[Email := "Invalid email."];
      }
      if FieldOf(form, Address) == "" {
        e := e[Address := "Address is required."];
      }
      if !IsValidPassword(FieldOf(form, Password)) {
        e := e[Password := AuthController.PasswordMessage];
      }
    }

    /** The store half of `validate`: on top of the owner errors `e`, an error for each
        failing store field. */
    method StoreChecks(e: map<Field, string>) returns (e': map<Field, string>)
      ensures e' == Record(Record(Record(e, FieldError(form, StoreName), StoreName),
                                  FieldError(form, StoreAddress), StoreAddress),
                           FieldError(form, StoreEmail), StoreEmail)
    {
      e' := e;
      if FieldOf(form, StoreName) == "" {
        e' := e'[StoreName := "Store name is required."];
      }
      if FieldOf(form, StoreAddress) == "" {
        e' := e'[StoreAddress := "Store address is required."];
      }
      if !LooksLikeEmail(FieldOf(form, StoreEmail)) {
        e' := e'[StoreEmail := "Invalid store email."];
      }
    }

    /** `validate`: record an error for each failing owner field, then for each failing
        store field, store the errors, and report whether there were none. */
    method Validate() returns (ok: bool)
      modifies this
      ensures form == old(form)
      ensures errors == FormErrors(form)
      ensures ok <==> ClientAccepts(form)
    {
      var e := OwnerChecks();
      e := StoreChecks(e);
      FormErrorsRecorded(form);
      FormErrorsSpec(form);
      errors := e;
      ok := |e| == 0;
    }

    /** `handleChange`: store the new value of the named field and blank that field's error
        if it showed one. */
    method HandleChange(name: Field, value: string)
      modifies this
      ensures form == old(form)[name := value]
      ensures errors == if name in old(errors) && old(errors)[name] != "" then old(errors)[name := ""] else old(errors)
      ensures old(Valid()) ==> Valid()
    {
      form := form[name := value];
      if name in errors && errors[name] != "" {
        errors := errors[name := ""];
      }
    }

    /** `handleSubmit`: nothing is sent unless `validate` passes; otherwise the whole form
        goes out, role not among its fields. */
    method HandleSubmit() returns (sent: Option<OwnerAuthController.OwnerSignupRequest>)
      modifies this
      ensures form == old(form) && errors == FormErrors(form)
      ensures sent.Some? <==> ClientAccepts(form)
      ensures sent.Some? ==> sent.value == Submitted(form)
    {
      var ok := Validate();
      if !ok {
        return None;
      }
      sent := Some(Submitted(form));
    }
  }
}
