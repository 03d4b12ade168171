/** frontend/src/pages/Login.jsx: the form's validation (`validateForm`),
    the per-field update (`handleChange`) and the submit gate. */
module Login {

  const EmailRequired := "Email is required"
  const EmailInvalid := "Please enter a valid email"
  const PasswordRequired := "Password is required"
  const PasswordTooShort := "Password must be at least 6 characters"

  /** What JavaScript's `\s` matches: the ECMAScript white space and line terminators. */
  predicate IsSpace(c: char)
  {
    var n := c as int;
    (0x09 <= n <= 0x0D) || n == 0x20 || n == 0xA0 || n == 0x1680 ||
    (0x2000 <= n <= 0x200A) || n == 0x2028 || n == 0x2029 || n == 0x202F ||
    n == 0x205F || n == 0x3000 || n == 0xFEFF
  }

  /** Every character of `s` is matched by `\S`. */
  predicate NonSpace(s: string)
  {
    forall k :: 0 <= k < |s| ==> !IsSpace(s[k])
  }

  /** `/\S+@\S+\.\S+/.test(s)` as the regular expression reads: somewhere in `s`
      (the pattern is not anchored) a non-empty run of non-space characters,
      an '@', another non-empty run, a '.', and a third non-empty run. */
  ghost predicate MatchesEmailRegex(s: string)
  {
    exists a, p, q, e :: RegexMatchAt(s, a, p, q, e)
  }

  /** The regular expression matches `s[a..e]`, with its '@' at p and its '.' at q. */
  ghost predicate RegexMatchAt(s: string, a: int, p: int, q: int, e: int)
  {
    0 <= a < p && p + 1 < q && q + 1 < e <= |s| &&
    NonSpace(s[a..p]) && s[p] == '@' && NonSpace(s[p + 1..q]) && s[q] == '.' && NonSpace(s[q + 1..e])
  }

  /** The test as computed: an '@' at p and a '.' at q with one non-space
      character before the '@', only non-space characters (at least one)
      between them, and one non-space character after the '.'. */
  predicate EmailPatternAt(s: string, p: int, q: int)
  {
    1 <= p && p + 1 < q && q + 1 < |s| &&
    s[p] == '@' && s[q] == '.' && !IsSpace(s[p - 1]) && !IsSpace(s[q + 1]) && NonSpace(s[p + 1..q])
  }

  predicate LooksLikeEmail(s: string)
  {
    exists p, q | 0 <= p < |s| && 0 <= q < |s| :: EmailPatternAt(s, p, q)
  }

  /** The shortest-window test accepts exactly what the regular expression accepts. */
  lemma EmailTestIsTheRegex(s: string)
    ensures LooksLikeEmail(s) <==> MatchesEmailRegex(s)
  {
    if LooksLikeEmail(s) {
      var p, q :| 0 <= p < |s| && 0 <= q < |s| && EmailPatternAt(s, p, q);
      WindowIsAMatch(s, p, q);
    }
    if MatchesEmailRegex(s) {
      var a, p, q, e :| RegexMatchAt(s, a, p, q, e);
      MatchHasAWindow(s, a, p, q, e);
    }
  }

  lemma WindowIsAMatch(s: string, p: int, q: int)
    requires EmailPatternAt(s, p, q)
    ensures RegexMatchAt(s, p - 1, p, q, q + 2)
  {
    assert s[p - 1..p] == [s[p - 1]];
    assert s[q + 1..q + 2] == [s[q + 1]];
  }

  lemma MatchHasAWindow(s: string, a: int, p: int, q: int, e: int)
    requires RegexMatchAt(s, a, p, q, e)
    ensures EmailPatternAt(s, p, q)
  {
    assert s[a..p][p - 1 - a] == s[p - 1];
    assert s[q + 1..e][0] == s[q + 1];
  }

  /** The email branch of validateForm: required first, then the format. */
  function EmailError(email: string): (r: string)
    ensures email == "" ==> r == EmailRequired
    ensures email != "" ==> (r == "" <==> LooksLikeEmail(email)) && (r != "" ==> r == EmailInvalid)
  {
    if email == "" then EmailRequired
    else if !LooksLikeEmail(email) then EmailInvalid
    else ""
  }

  /** The password branch: required first, then at least 6 characters. */
  function PasswordError(password: string): (r: string)
    ensures password == "" ==> r == PasswordRequired
    ensures 1 <= |password| <= 5 ==> r == PasswordTooShort
    ensures r == "" <==> |password| >= 6
  {
    if password == "" then PasswordRequired
    else if |password| < 6 then PasswordTooShort
    else ""
  }

  /** A form field as read by `formData.email`: a missing key reads as ''. */
  function Field(form: map<string, string>, name: string): string
  {
    if name in form then form[name] else ""
  }

  /** The `newErrors` object validateForm builds: a key per failing field. */
  function FormErrors(email: string, password: string): (r: map<string, string>)
    ensures "email" in r <==> EmailError(email) != ""
    ensures "password" in r <==> PasswordError(password) != ""
    ensures forall k :: k in r ==> (k == "email" || k == "password") && r[k] != ""
    ensures "email" in r ==> r["email"] == EmailError(email)
    ensures "password" in r ==> r["password"] == PasswordError(password)
  {
    var withEmail := if EmailError(email) != "" then map["email" := EmailError(email)] else map[];
    if PasswordError(password) != "" then withEmail["password" := PasswordError(password)] else withEmail
  }

  /** The form is valid exactly when the email is present and well-formed and the password has at least 6 characters. */
  lemma ValidIffBothFieldsPass(email: string, password: string)
    ensures FormErrors(email, password) == map[] <==> email != "" && LooksLikeEmail(email) && |password| >= 6
  {
    if FormErrors(email, password) == map[] {
      assert "email" !in FormErrors(email, password);
    } else {
      var k :| k in FormErrors(email, password);
    }
  }

  /** `handleChange`'s error update: a set error on the typed-in field becomes
      ''; every other entry stays, and no key is added or removed. */
  function ClearFieldError(errors: map<string, string>, name: string): (r: map<string, string>)
    ensures r.Keys == errors.Keys
    ensures forall k :: k in errors && k != name ==> r[k] == errors[k]
    ensures name in r ==> r[name] == ""
  {
    if name in errors && errors[name] != "" then errors[name := ""] else errors
  }

  class LoginForm {
    var formData: map<string, string>
    var errors: map<string, string>

    constructor ()
      ensures formData == map["email" := "", "password" := ""] && errors == map[]
    {
      formData := map["email" := "", "password" := ""];
      errors := map[];
    }

    /** validateForm: rebuilds the error object and reports whether it is empty. */
    method ValidateForm() returns (valid: bool)
      modifies this
      ensures formData == old(formData)
      ensures errors == FormErrors(Field(formData, "email"), Field(formData, "password"))
      ensures valid <==> errors == map[]
    {
      var newErrors: map<string, string> := map[];
      var email := Field(formData, "email");
      var password := Field(formData, "password");
      if email == "" {
        newErrors := newErrors["email" := EmailRequired];
      } else if !LooksLikeEmail(email) {
        newErrors := newErrors["email" := EmailInvalid];
      }
      if password == "" {
        newErrors := newErrors["password" := PasswordRequired];
      } else if |password| < 6 {
        newErrors := newErrors["password" := PasswordTooShort];
      }
      errors := newErrors;
      valid := |newErrors.Keys| == 0;
      assert newErrors == FormErrors(email, password);
    }

    /** handleChange: writes the one field, and clears that field's error if it had one. */
    method HandleChange(name: string, value: string)
      modifies this
      ensures formData == old(formData)[name := value]
      ensures errors == ClearFieldError(old(errors), name)
    {
      formData := formData[name := value];
      if name in errors && errors[name] != "" {
        errors := errors[name := ""];
      }
    }

    /** handleSubmit up to the network call: the login request is sent only when validation passes. */
    method HandleSubmit() returns (sendsLogin: bool)
      modifies this
      ensures formData == old(formData)
      ensures errors == FormErrors(Field(formData, "email"), Field(formData, "password"))
      ensures sendsLogin <==> Field(formData, "email") != "" && LooksLikeEmail(Field(formData, "email")) &&
                              |Field(formData, "password")| >= 6
    {
      var valid := ValidateForm();
      ValidIffBothFieldsPass(Field(formData, "email"), Field(formData, "password"));
      if !valid {
        return false;
      }
      sendsLogin := true;
    }
  }
}
