/**
 * frontend/src/pages/Register.tsx: the sign-up form. `validateForm` fills an
 * error object field by field, `handleChange` writes one field and blanks its
 * error, and a submit dispatches `register` only for a form without errors.
 * Messages are the Turkish defaults the translation calls fall back to.
 */
module RegisterPage {
  import opened Text

  const RequiredText: string := "Bu alan zorunludur"
  const InvalidEmailText: string := "Geçerli bir e-posta adresi giriniz"
  const PasswordLengthText: string := "Şifre en az 6 karakter olmalıdır"
  const PasswordMismatchText: string := "Şifreler eşleşmiyor"

  /** `\S`: any code point outside JavaScript's white-space class. */
  predicate NonSpace(c: char) { !IsJsSpace(c) }

  /**
   * `/\S+@\S+\.\S+/.test(s)`: somewhere in `s` an '@' at `p` and a '.' at `d`
   * with a non-space just before the '@', only non-spaces from the '@' to the
   * '.', at least one of them, and a non-space just after the '.'.
   */
  predicate EmailShape(s: string) {
    exists p, d :: 0 < p && p + 1 < d && d + 1 < |s| && AtAndDot(s, p, d)
  }

  /** The pattern matched with its '@' at `p` and its '.' at `d`. */
  predicate AtAndDot(s: string, p: int, d: int)
    requires 0 < p && p + 1 < d && d + 1 < |s|
  {
    s[p] == '@' && s[d] == '.' && NonSpace(s[p - 1]) && NonSpace(s[d + 1])
    && forall q :: p < q < d ==> NonSpace(s[q])
  }

  /** A matching text has an '@', a '.' after it and at least five characters. */
  lemma EmailShapeNeeds(s: string)
    requires EmailShape(s)
    ensures |s| >= 5
    ensures exists p, d :: 0 <= p < d < |s| && s[p] == '@' && s[d] == '.'
  {
    var p, d :| 0 < p && p + 1 < d && d + 1 < |s| && AtAndDot(s, p, d);
    assert 0 <= p < d < |s| && s[p] == '@' && s[d] == '.';
  }

  /** "a@b.c" and " x a@b.c" match (the test searches), "a@b" and "@b.c" and "a@.c" do not. */
  lemma EmailExamples()
    ensures EmailShape("a@b.c") && EmailShape(" x a@b.c")
    ensures !EmailShape("a@b") && !EmailShape("@b.c") && !EmailShape("a@.c")
  {
    assert AtAndDot("a@b.c", 1, 3);
    var t := " x a@b.c";
    assert t[4] == '@' && t[6] == '.' && t[3] == 'a' && t[5] == 'b' && t[7] == 'c';
    assert AtAndDot(t, 4, 6);
    NoAtAfterStart("@b.c");
    var u := "a@.c";
    assert u[2] == '.' && u[3] == 'c';
    assert forall p :: 0 < p < |u| && u[p] == '@' ==> p == 1;
  }

  /** `formData[k]`; the four form fields are always present, so the default is never used for them. */
  function Field(form: map<string, string>, k: string): string {
    if k in form then form[k] else ""
  }

  /** The outcome of each test `validateForm` makes, in source order. */
  datatype Checks = Checks(usernameBlank: bool, emailBlank: bool, emailMatches: bool,
                           passwordEmpty: bool, passwordShort: bool, mismatch: bool)

  function ChecksOf(form: map<string, string>): Checks {
    var email, password := Field(form, "email"), Field(form, "password");
    Checks(Trim(Field(form, "username")) == "", Trim(email) == "", EmailShape(email),
           password == "", |password| < 6, password != Field(form, "confirmPassword"))
  }

  /** The error object built from the tests' outcomes (lines 38-58), one step per field. */
  function ErrorsOf(c: Checks): map<string, string> {
    ConfirmStep(c, PasswordStep(c, EmailStep(c, UsernameStep(c, map[]))))
  }

  function UsernameStep(c: Checks, e: map<string, string>): map<string, string> {
    if c.usernameBlank then e["username" := RequiredText] else e
  }

  function EmailStep(c: Checks, e: map<string, string>): map<string, string> {
    if c.emailBlank then e["email" := RequiredText]
    else if !c.emailMatches then e["email" := InvalidEmailText] else e
  }

  function PasswordStep(c: Checks, e: map<string, string>): map<string, string> {
    if c.passwordEmpty then e["password" := RequiredText]
    else if c.passwordShort then e["password" := PasswordLengthText] else e
  }

  function ConfirmStep(c: Checks, e: map<string, string>): map<string, string> {
    if c.mismatch then e["confirmPassword" := PasswordMismatchText] else e
  }

  /** The error object `validateForm` builds for a form. */
  function FormErrors(form: map<string, string>): map<string, string> {
    ErrorsOf(ChecksOf(form))
  }

  /**
   * Each test decides its own key, both ways: 'required' for a blank field,
   * else the field's own message exactly when its second test fails; the
   * confirmation's key depends on the mismatch alone; no other key is set.
   */
  lemma ErrorsOfFacts(c: Checks)
    ensures var e := ErrorsOf(c);
      ("username" in e <==> c.usernameBlank) && ("username" in e ==> e["username"] == RequiredText)
    ensures var e := ErrorsOf(c);
      (c.emailBlank ==> "email" in e && e["email"] == RequiredText)
      && (!c.emailBlank ==> ("email" in e <==> !c.emailMatches) && ("email" in e ==> e["email"] == InvalidEmailText))
    ensures var e := ErrorsOf(c);
      (c.passwordEmpty ==> "password" in e && e["password"] == RequiredText)
      && (!c.passwordEmpty ==> ("password" in e <==> c.passwordShort) && ("password" in e ==> e["password"] == PasswordLengthText))
    ensures var e := ErrorsOf(c);
      ("confirmPassword" in e <==> c.mismatch) && ("confirmPassword" in e ==> e["confirmPassword"] == PasswordMismatchText)
    ensures forall k :: k in ErrorsOf(c) ==> k in {"username", "email", "password", "confirmPassword"}
    ensures |ErrorsOf(c)| == 0 <==>
      !c.usernameBlank && !c.emailBlank && c.emailMatches && !c.passwordEmpty && !c.passwordShort && !c.mismatch
  {
    var e := ErrorsOf(c);
    if |e| == 0 {
      assert e == map[];
    } else {
      var k :| k in e;
    }
  }

  /**
   * Each field's error, both ways: the username has one exactly when it trims
   * to nothing; the email is 'required' when blank, else invalid exactly when
   * it does not match the pattern; the password is 'required' when empty, else
   * too short exactly below six characters; the confirmation has one exactly
   * when it differs from the password, whatever the other checks say.
   */
  lemma FormErrorsFacts(form: map<string, string>)
    ensures var e := FormErrors(form);
      ("username" in e <==> Trim(Field(form, "username")) == "")
      && ("username" in e ==> e["username"] == RequiredText)
    ensures var e := FormErrors(form);
      (Trim(Field(form, "email")) == "" ==> "email" in e && e["email"] == RequiredText)
      && (Trim(Field(form, "email")) != "" ==>
        ("email" in e <==> !EmailShape(Field(form, "email"))) && ("email" in e ==> e["email"] == InvalidEmailText))
    ensures var e := FormErrors(form);
      (Field(form, "password") == "" ==> "password" in e && e["password"] == RequiredText)
      && (Field(form, "password") != "" ==>
        ("password" in e <==> |Field(form, "password")| < 6) && ("password" in e ==> e["password"] == PasswordLengthText))
    ensures var e := FormErrors(form);
      ("confirmPassword" in e <==> Field(form, "password") != Field(form, "confirmPassword"))
      && ("confirmPassword" in e ==> e["confirmPassword"] == PasswordMismatchText)
  {
    ErrorsOfFacts(ChecksOf(form));
  }

  /** A form passes exactly when all four fields pass. */
  lemma PassesExactly(form: map<string, string>)
    ensures |FormErrors(form)| == 0 <==>
      Trim(Field(form, "username")) != "" && EmailShape(Field(form, "email"))
      && |Field(form, "password")| >= 6 && Field(form, "password") == Field(form, "confirmPassword")
  {
    ErrorsOfFacts(ChecksOf(form));
    if Trim(Field(form, "email")) == "" {
      NoShapeWhenBlank(Field(form, "email"));
    }
  }

  /** A text of white space only has no '@' with a non-space before it. */
  lemma NoShapeWhenBlank(s: string)
    requires Trim(s) == ""
    ensures !EmailShape(s)
  {
    assert forall i :: 0 <= i < |s| ==> IsJsSpace(s[i]);
  }

  lemma NoAtAfterStart(s: string)
    requires forall i :: 0 < i < |s| ==> s[i] != '@'
    ensures !EmailShape(s)
  {
  }

  /** The body of `validateForm` (lines 38-58): the error object filled field by field. */
  method BuildErrors(c: Checks) returns (errors: map<string, string>)
    ensures errors == ErrorsOf(c)
  {
    errors := map[];
    if c.usernameBlank {
      errors := errors["username" := RequiredText];
    }
    assert errors == UsernameStep(c, map[]);
    ghost var e1 := errors;
    if c.emailBlank {
      errors := errors["email" := RequiredText];
    } else if !c.emailMatches {
      errors := errors["email" := InvalidEmailText];
    }
    assert errors == EmailStep(c, e1);
    ghost var e2 := errors;
    if c.passwordEmpty {
      errors := errors["password" := RequiredText];
    } else if c.passwordShort {
      errors := errors["password" := PasswordLengthText];
    }
    assert errors == PasswordStep(c, e2);
    ghost var e3 := errors;
    if c.mismatch {
      errors := errors["confirmPassword" := PasswordMismatchText];
    }
    assert errors == ConfirmStep(c, e3);
  }

  /** The page's state: the form, the error object and the forms sent to `register`. */
  class RegisterView {
    var formData: map<string, string>
    var validationErrors: map<string, string>
    var registered: seq<map<string, string>>

    constructor ()
      ensures formData == map["username" := "", "email" := "", "password" := "", "confirmPassword" := ""]
      ensures validationErrors == map[] && registered == []
    {
      formData := map["username" := "", "email" := "", "password" := "", "confirmPassword" := ""];
      validationErrors := map[];
      registered := [];
    }

    /** `validateForm` (lines 37-62): the checks in source order, one error key each. */
    method ValidateForm() returns (ok: bool)
      modifies this
      ensures validationErrors == FormErrors(formData) && ok == (|validationErrors| == 0)
      ensures formData == old(formData) && registered == old(registered)
    {
      var c := ChecksOf(formData);
      var errors := BuildErrors(c);
      validationErrors := errors;
      ok := |errors| == 0;
    }

    /** `handleChange` (lines 64-77): the named field takes the value and a non-empty error of it is blanked. */
    method HandleChange(name: string, value: string)
      modifies this
      ensures formData == old(formData)[name := value]
      ensures name in old(validationErrors) && old(validationErrors)[name] != "" ==>
        validationErrors == old(validationErrors)[name := ""]
      ensures !(name in old(validationErrors) && old(validationErrors)[name] != "") ==>
        validationErrors == old(validationErrors)
      ensures registered == old(registered)
    {
      formData := formData[name := value];
      if name in validationErrors && validationErrors[name] != "" {
        validationErrors := validationErrors[name := ""];
      }
    }

    /** `handleSubmit` (lines 79-89): `register` is dispatched with the form exactly when it validates. */
    method HandleSubmit() returns (dispatched: bool)
      modifies this
      ensures dispatched <==> |FormErrors(old(formData))| == 0
      ensures dispatched ==> registered == old(registered) + [old(formData)]
      ensures !dispatched ==> registered == old(registered)
      ensures formData == old(formData) && validationErrors == FormErrors(formData)
    {
      var ok := ValidateForm();
      if ok {
        registered := registered + [formData];
      }
      dispatched := ok;
    }
  }

  /** A change touches only its own field and its own error: every other field and error is as before. */
  lemma ChangeIsLocal(form: map<string, string>, errors: map<string, string>, name: string, value: string, other: string)
    requires other != name
    ensures Field(form[name := value], other) == Field(form, other)
    ensures (other in errors[name := ""] <==> other in errors) && (other in errors ==> errors[name := ""][other] == errors[other])
  {
  }
}
