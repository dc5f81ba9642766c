/** The login form of the front end: the per-field validation, the in-place
    array helper it uses, the `touched` bookkeeping and the submit button's
    disabled condition. */
module LoginForm {

  // ---------------------------------------------------------------------------
  // JavaScript arrays
  // ---------------------------------------------------------------------------

  /** `Array.prototype.indexOf`: the first position of `v`, or -1. */
  function IndexOf<T(==)>(s: seq<T>, v: T): (i: int)
    ensures -1 <= i < |s|
    ensures i == -1 <==> v !in s
    ensures 0 <= i ==> s[i] == v && v !in s[..i]
  {
    if s == [] then -1
    else if s[0] == v then 0
    else
      var i := IndexOf(s[1..], v);
      if i == -1 then -1 else i + 1
  }

  /** Where `splice` starts for a possibly negative `start` (counted from the
      end, and clamped to the array). */
  function SpliceStart(len: nat, start: int): (k: nat)
    ensures k <= len
  {
    if start < 0 then (if len + start < 0 then 0 else len + start)
    else if start > len then len
    else start
  }

  /** The elements left by `splice(start, deleteCount)`. */
  function Spliced<T>(s: seq<T>, start: int, deleteCount: nat): seq<T> {
    var k := SpliceStart(|s|, start);
    var d := if deleteCount < |s| - k then deleteCount else |s| - k;
    s[..k] + s[k + d..]
  }

  /** An array object whose elements `push` and `splice` change in place. */
  class JsArray<T> {
    var elems: seq<T>

    constructor (elems: seq<T>)
      ensures this.elems == elems
    {
      this.elems := elems;
    }

    method Push(v: T)
      modifies this
      ensures elems == old(elems) + [v]
    {
      elems := elems + [v];
    }

    method Splice(start: int, deleteCount: nat)
      modifies this
      ensures elems == Spliced(old(elems), start, deleteCount)
    {
      elems := Spliced(elems, start, deleteCount);
    }
  }

  /** What `removeElFromArrByValue` leaves in the array: `if (index)` skips the
      splice only for index 0, so a value at the front stays and an absent value
      (index -1) costs the array its last element. */
  function RemoveByValue<T(==)>(s: seq<T>, v: T): (r: seq<T>)
    ensures s != [] && s[0] == v ==> r == s
    ensures v !in s ==> r == if s == [] then [] else s[..|s| - 1]
    ensures forall i :: 0 < i < |s| && s[i] == v && v !in s[..i] ==> r == s[..i] + s[i + 1..]
  {
    var index := IndexOf(s, v);
    if index != 0 then Spliced(s, index, 1) else s
  }

  /** On a list of at most one element that lacks the value, the helper
      leaves nothing: the splice at -1 takes the last (only) element. */
  lemma RemoveAbsentFromShortList<T>(s: seq<T>, v: T)
    requires |s| <= 1 && v !in s
    ensures RemoveByValue(s, v) == []
  {
  }

  // ---------------------------------------------------------------------------
  // The form
  // ---------------------------------------------------------------------------

  /** JavaScript's `.length` of a string: UTF-16 code units, two for a
      character outside the Basic Multilingual Plane and one otherwise. */
  function Utf16Length(s: string): (n: nat)
    ensures |s| <= n <= 2 * |s|
    ensures (forall i :: 0 <= i < |s| ==> s[i] as int <= 0xFFFF) ==> n == |s|
  {
    if s == [] then 0
    else Utf16Length(s[1..]) + (if s[0] as int > 0xFFFF then 2 else 1)
  }

  /** The messages of `frontEndValidationErrorsLogin`, assumed distinct. */
  datatype ValidationError = EmailRequired | EmailMustBeCorrect | PasswordRequired | PasswordMin

  /** The e-mail errors `checkValidation` ends with, `accepted` being the
      e-mail pattern's verdict on the e-mail: none iff the pattern accepts,
      `mustBeCorrect` iff it rejects, `required` (and first) only for a
      rejected empty e-mail, each at most once. */
  function EmailErrors(email: string, accepted: bool): (errs: seq<ValidationError>)
    ensures errs == [] <==> accepted
    ensures EmailMustBeCorrect in errs <==> !accepted
    ensures EmailRequired in errs <==> email == "" && !accepted
    ensures EmailRequired in errs ==> errs[0] == EmailRequired
    ensures forall i, j :: 0 <= i < j < |errs| ==> errs[i] != errs[j]
    ensures forall e :: e in errs ==> e == EmailRequired || e == EmailMustBeCorrect
  {
    if accepted then []
    else if email == "" then [EmailRequired, EmailMustBeCorrect]
    else [EmailMustBeCorrect]
  }

  /** The password errors `checkValidation` ends with: none iff the password
      has at least 6 UTF-16 code units, `min` iff it has fewer, `required`
      (and first) only for the empty password, each at most once. */
  function PasswordErrors(password: string): (errs: seq<ValidationError>)
    ensures errs == [] <==> Utf16Length(password) >= 6
    ensures PasswordMin in errs <==> Utf16Length(password) < 6
    ensures PasswordRequired in errs <==> password == ""
    ensures PasswordRequired in errs ==> errs[0] == PasswordRequired
    ensures forall i, j :: 0 <= i < j < |errs| ==> errs[i] != errs[j]
    ensures forall e :: e in errs ==> e == PasswordRequired || e == PasswordMin
  {
    if password == "" then [PasswordRequired, PasswordMin]
    else if Utf16Length(password) < 6 then [PasswordMin]
    else []
  }

  /** The empty e-mail is judged by the pattern alone: accepted, it loses its
      `required` error to the splice at -1; rejected, it gets both errors. */
  lemma EmailValidity(accepted: bool)
    ensures EmailErrors("", accepted) == if accepted then [] else [EmailRequired, EmailMustBeCorrect]
  {
  }

  /** The length test counts UTF-16 code units: three emoji make a valid
      6-unit password, while five ASCII letters are too short. */
  lemma PasswordValidity()
    ensures PasswordErrors("\U{1F600}\U{1F600}\U{1F600}") == []
    ensures PasswordErrors("abcde") == [PasswordMin]
    ensures PasswordErrors("") == [PasswordRequired, PasswordMin]
  {
    assert Utf16Length("\U{1F600}\U{1F600}\U{1F600}") == 6;
  }

  class LoginFormComponent {
    /** `emailRegExp.test`: the e-mail pattern, defined outside this component. */
    const emailRegExp: string -> bool

    var email: string
    var password: string
    var isEmailValid: bool
    var isPasswordValid: bool
    var emailErrors: seq<ValidationError>
    var passwordErrors: seq<ValidationError>
    var touched: map<string, bool>

    constructor (emailRegExp: string -> bool, email: string, password: string,
                 isEmailValid: bool, isPasswordValid: bool,
                 emailErrors: seq<ValidationError>, passwordErrors: seq<ValidationError>, touched: map<string, bool>)
      ensures this.emailRegExp == emailRegExp && this.email == email && this.password == password
      ensures this.isEmailValid == isEmailValid && this.isPasswordValid == isPasswordValid
      ensures this.emailErrors == emailErrors && this.passwordErrors == passwordErrors && this.touched == touched
    {
      this.emailRegExp := emailRegExp;
      this.email := email;
      this.password := password;
      this.isEmailValid := isEmailValid;
      this.isPasswordValid := isPasswordValid;
      this.emailErrors := emailErrors;
      this.passwordErrors := passwordErrors;
      this.touched := touched;
    }

    /** The validity flags agree with the error lists. */
    predicate FlagsAgree()
      reads this
    {
      (isEmailValid <==> emailErrors == []) && (isPasswordValid <==> passwordErrors == [])
    }

    /** `removeElFromArrByValue`: splices the array it is given and returns it. */
    method RemoveElFromArrByValue<T(==)>(arr: JsArray<T>, value: T) returns (r: JsArray<T>)
      modifies arr
      ensures r == arr
      ensures arr.elems == RemoveByValue(old(arr.elems), value)
    {
      var index := IndexOf(arr.elems, value);
      if index != 0 {
        arr.Splice(index, 1);
      }
      r := arr;
    }

    /** The first half of `checkValidation`: the e-mail errors, built by
        `push` and `removeElFromArrByValue` on a fresh array. */
    method BuildEmailErrors() returns (emailErrs: JsArray<ValidationError>)
      ensures fresh(emailErrs)
      ensures emailErrs.elems == EmailErrors(email, emailRegExp(email))
    {
      emailErrs := new JsArray<ValidationError>([]);

      if email == "" {
        emailErrs.Push(EmailRequired);
      } else {
        RemoveAbsentFromShortList(emailErrs.elems, EmailRequired);
        emailErrs := RemoveElFromArrByValue(emailErrs, EmailRequired);
      }
      assert emailErrs.elems == if email == "" then [EmailRequired] else [];

      if !emailRegExp(email) {
        emailErrs.Push(EmailMustBeCorrect);
      } else {
        RemoveAbsentFromShortList(emailErrs.elems, EmailMustBeCorrect);
        emailErrs := RemoveElFromArrByValue(emailErrs, EmailMustBeCorrect);
      }
    }

    /** The second half of `checkValidation`: the password errors. */
    method BuildPasswordErrors() returns (passwordErrs: JsArray<ValidationError>)
      ensures fresh(passwordErrs)
      ensures passwordErrs.elems == PasswordErrors(password)
    {
      passwordErrs := new JsArray<ValidationError>([]);

      if password == "" {
        passwordErrs.Push(PasswordRequired);
      } else {
        RemoveAbsentFromShortList(passwordErrs.elems, PasswordRequired);
        passwordErrs := RemoveElFromArrByValue(passwordErrs, PasswordRequired);
      }
      assert passwordErrs.elems == if password == "" then [PasswordRequired] else [];

      if Utf16Length(password) < 6 {
        passwordErrs.Push(PasswordMin);
      } else {
        RemoveAbsentFromShortList(passwordErrs.elems, PasswordMin);
        passwordErrs := RemoveElFromArrByValue(passwordErrs, PasswordMin);
      }
    }

    /** `checkValidation`: rebuilds both error lists and sets the flags. */
    method CheckValidation()
      modifies this`isEmailValid, this`isPasswordValid, this`emailErrors, this`passwordErrors
      ensures emailErrors == EmailErrors(email, emailRegExp(email))
      ensures passwordErrors == PasswordErrors(password)
      ensures FlagsAgree()
      ensures SubmitDisabled() <==> !emailRegExp(email) || Utf16Length(password) < 6
    {
      var emailErrs := BuildEmailErrors();
      var passwordErrs := BuildPasswordErrors();

      isEmailValid := |emailErrs.elems| <= 0;
      isPasswordValid := |passwordErrs.elems| <= 0;
      emailErrors, passwordErrors := emailErrs.elems, passwordErrs.elems;
    }

    /** `onBlur(field)`: marks the field touched, then validates. */
    method OnBlur(field: string)
      modifies this`touched, this`isEmailValid, this`isPasswordValid, this`emailErrors, this`passwordErrors
      ensures touched == old(touched)[field := true]
      ensures forall f :: f in old(touched) && f != field ==> f in touched && touched[f] == old(touched)[f]
      ensures emailErrors == EmailErrors(email, emailRegExp(email))
      ensures passwordErrors == PasswordErrors(password)
      ensures FlagsAgree()
    {
      touched := touched[field := true];
      CheckValidation();
    }

    /** `disabled` of the login button. */
    function SubmitDisabled(): (disabled: bool)
      reads this
      ensures FlagsAgree() ==> (disabled <==> emailErrors != [] || passwordErrors != [])
    {
      !isEmailValid || !isPasswordValid
    }
  }
}
