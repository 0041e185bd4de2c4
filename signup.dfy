/**
 * The first sign-up page: name, address, password, birth date (three
 * selects), phone number and location consent. Every field is validated as
 * it changes, the form is kept in the session, and the submit refuses only
 * when a required field is blank; validation messages are shown but do not
 * stop the account from being created.
 */
module Signup {
  import opened Wrappers
  import Text
  import Validations

  const EMAIL_REQUIRED := "이메일을 입력해주세요."
  const NOTHING_ENTERED := "아무것도 입력되지 않았습니다. 다시 입력해주세요."
  const ENTER_SUFFIX := " 항목을 입력해주세요."
  const SIGNUP_FAILED := "회원가입 실패: "
  const NO_CURRENT_USER := "회원 정보가 없습니다. 다시 시도해주세요."
  const CONSENT_PROMPT := "위치정보 제공 약관에 동의하시겠습니까?"

  /** The entries of `InfoAccount`, in display order. */
  datatype Field = Name | Email | Password | Birth | Tel | AgreeLocation

  /** The form's user record before an account exists (`Omit<User, "uid">`). */
  datatype User = User(name: string, email: string, password: string, birth: string, tel: string, agreeLocation: bool)

  const EMPTY_USER := User("", "", "", "", "", false)

  /** Position of a field in `InfoAccount`. */
  function Rank(f: Field): nat
  {
    match f
    case Name => 0
    case Email => 1
    case Password => 2
    case Birth => 3
    case Tel => 4
    case AgreeLocation => 5
  }

  /** Fields that are filled from a text input. */
  predicate IsText(f: Field) { f != Birth && f != AgreeLocation }

  /** The text of a text field. */
  function TextOf(u: User, f: Field): string
    requires f != AgreeLocation
  {
    match f
    case Name => u.name
    case Email => u.email
    case Password => u.password
    case Birth => u.birth
    case Tel => u.tel
  }

  /** `setUser(prev => ({ ...prev, [name]: value }))` for a text field. */
  function WithText(u: User, f: Field, value: string): (r: User)
    requires IsText(f)
    ensures TextOf(r, f) == value && r.agreeLocation == u.agreeLocation && r.birth == u.birth
    ensures forall g :: g != AgreeLocation && g != f ==> TextOf(r, g) == TextOf(u, g)
  {
    match f
    case Name => u.(name := value)
    case Email => u.(email := value)
    case Password => u.(password := value)
    case Tel => u.(tel := value)
  }

  /**
   * `validateField`. `isDuplicate` is what the address lookup would answer;
   * the lookup is never made for an empty address, and birth has no rule.
   */
  function ValidateField(f: Field, u: User, isDuplicate: bool): (r: Option<string>)
    ensures f == Birth ==> r.None?
    ensures f == Email && u.email == "" ==> r == Some(EMAIL_REQUIRED)
    ensures f == Email && u.email != "" ==> r == Validations.ValidateEmail(u.email, true, isDuplicate).error
    ensures f == Name ==> r == Validations.ValidateName(u.name)
    ensures f == Password ==> r == Validations.ValidatePassword(u.password)
    ensures f == Tel ==> r == Validations.ValidatePhone(u.tel)
    ensures f == AgreeLocation ==> (r.None? <==> u.agreeLocation)
  {
    match f
    case Name => Validations.ValidateName(u.name)
    case Email =>
      if u.email == "" then Some(EMAIL_REQUIRED)
      else Validations.ValidateEmail(u.email, true, isDuplicate).error
    case Password => Validations.ValidatePassword(u.password)
    case Birth => None
    case Tel => Validations.ValidatePhone(u.tel)
    case AgreeLocation => Validations.ValidateLocation(u.agreeLocation)
  }

  /** The empty address is refused without asking the store whether it is taken. */
  lemma EmptyEmailIgnoresLookup(u: User)
    requires u.email == ""
    ensures ValidateField(Email, u, true) == ValidateField(Email, u, false) == Some(EMAIL_REQUIRED)
  {
  }

  /** `InfoAccount`'s fields in display order. */
  const INFO_ACCOUNT: seq<Field> := [Name, Email, Password, Birth, Tel, AgreeLocation]

  /** The messages of the failing fields among `fields`. */
  function ErrorsOf(u: User, isDuplicate: bool, fields: seq<Field>): map<Field, string>
  {
    map f | f in fields && ValidateField(f, u, isDuplicate).Some? :: ValidateField(f, u, isDuplicate).value
  }

  /** The errors object built on mount and on submit: a message for each failing field only. */
  function NewErrors(u: User, isDuplicate: bool): (r: map<Field, string>)
    ensures forall f :: f in r <==> ValidateField(f, u, isDuplicate).Some?
    ensures forall f :: f in r ==> r[f] == ValidateField(f, u, isDuplicate).value
    ensures Birth !in r
  {
    assert forall f: Field :: f in INFO_ACCOUNT by {
      forall f: Field ensures f in INFO_ACCOUNT {
        assert INFO_ACCOUNT[Rank(f)] == f;
      }
    }
    ErrorsOf(u, isDuplicate, INFO_ACCOUNT)
  }

  lemma ErrorsOfSnoc(u: User, isDuplicate: bool, fields: seq<Field>, f: Field)
    ensures ValidateField(f, u, isDuplicate).Some? ==>
              ErrorsOf(u, isDuplicate, fields + [f]) == ErrorsOf(u, isDuplicate, fields)[f := ValidateField(f, u, isDuplicate).value]
    ensures ValidateField(f, u, isDuplicate).None? ==>
              ErrorsOf(u, isDuplicate, fields + [f]) == ErrorsOf(u, isDuplicate, fields)
  {
    var a := ErrorsOf(u, isDuplicate, fields + [f]);
    var b := ErrorsOf(u, isDuplicate, fields);
    assert forall g :: g in fields + [f] <==> g in fields || g == f;
    if ValidateField(f, u, isDuplicate).None? {
      assert a.Keys == b.Keys;
    } else {
      assert a.Keys == b.Keys + {f};
    }
  }

  /**
   * The loop of `validateAllFieldsOnMount` (and the `forEach` of
   * `handleSubmit`): each field is validated in turn and only a message is
   * recorded.
   */
  method CollectErrors(u: User, isDuplicate: bool) returns (errors: map<Field, string>)
    ensures errors == NewErrors(u, isDuplicate)
  {
    errors := map[];
    for i := 0 to |INFO_ACCOUNT|
      invariant errors == ErrorsOf(u, isDuplicate, INFO_ACCOUNT[..i])
    {
      var f := INFO_ACCOUNT[i];
      var message := ValidateField(f, u, isDuplicate);
      assert INFO_ACCOUNT[..i + 1] == INFO_ACCOUNT[..i] + [f];
      ErrorsOfSnoc(u, isDuplicate, INFO_ACCOUNT[..i], f);
      if message.Some? {
        errors := errors[f := message.value];
      }
    }
    assert INFO_ACCOUNT[..|INFO_ACCOUNT|] == INFO_ACCOUNT;
  }

  /** `message ?? ""`. */
  function ErrorText(e: Option<string>): string { e.GetOr("") }

  // ----- birth date -----

  /** The birth effect: the date is composed only when year, month and day are all chosen. */
  function ComposeBirth(year: string, month: string, day: string): (r: Option<string>)
    ensures r.Some? <==> year != "" && month != "" && day != ""
  {
    if year != "" && month != "" && day != "" then
      Some(year + "-" + month + "-" + day)
    else None
  }

  /** Session restore: the stored birth split on '-', a missing part read as "". */
  function SplitBirth(birth: string): (r: (string, string, string))
    ensures Text.Excludes(birth, '-') ==> r == (birth, "", "")
  {
    var parts := Text.Split(birth, "-");
    if Text.Excludes(birth, '-') then
      Text.NoFirstCharNoOccurrence(birth, "-");
      assert parts == [birth];
      (birth, "", "")
    else
      (parts[0], if |parts| > 1 then parts[1] else "", if |parts| > 2 then parts[2] else "")
  }

  lemma SplitComposed(year: string, month: string, day: string)
    requires Text.Excludes(year, '-') && Text.Excludes(month, '-') && Text.Excludes(day, '-')
    ensures Text.Split(year + "-" + month + "-" + day, "-") == [year, month, day]
  {
    var parts := [year, month, day];
    assert Text.Join(parts[1..], "-") == month + "-" + day by {
      assert parts[1..][1..] == [day];
    }
    assert Text.Join(parts, "-") == year + "-" + month + "-" + day;
    Text.SplitJoin(parts, "-");
  }

  /** A date composed from dash-free parts splits back into those parts. */
  lemma BirthRoundTrip(year: string, month: string, day: string)
    requires year != "" && month != "" && day != ""
    requires Text.Excludes(year, '-') && Text.Excludes(month, '-') && Text.Excludes(day, '-')
    ensures SplitBirth(ComposeBirth(year, month, day).value) == (year, month, day)
  {
    var b := year + "-" + month + "-" + day;
    SplitComposed(year, month, day);
    assert b[|year|] == '-';
  }

  // ----- submit -----

  /** `fieldLabels`. */
  function Label(f: Field): string
  {
    match f
    case Name => "이름"
    case Email => "이메일"
    case Password => "비밀번호"
    case Birth => "생년월일"
    case Tel => "전화번호"
    case AgreeLocation => "위치정보 동의"
  }

  const REQUIRED: seq<Field> := [Name, Email, Password, Tel]

  /** A required field is missing when its trimmed text is empty (see `Text.TrimEmptyIffBlank`). */
  predicate Missing(u: User, f: Field)
    requires f != AgreeLocation
  {
    Text.IsBlank(TextOf(u, f))
  }

  /** The required fields kept by the filter, given which of them are blank. */
  function Kept(name: bool, email: bool, password: bool, tel: bool): (r: seq<Field>)
    ensures forall f :: f in r <==> (f == Name && name) || (f == Email && email) || (f == Password && password) || (f == Tel && tel)
    ensures forall i, j :: 0 <= i < j < |r| ==> Rank(r[i]) < Rank(r[j])
    ensures |r| == |REQUIRED| <==> name && email && password && tel
  {
    (if name then [Name] else []) + (if email then [Email] else [])
    + (if password then [Password] else []) + (if tel then [Tel] else [])
  }

  /** `requiredFields.filter(...)`: the blank required fields, in form order. */
  function MissingFields(u: User): (r: seq<Field>)
    ensures forall f :: f in r <==> f in REQUIRED && Missing(u, f)
    ensures forall i, j :: 0 <= i < j < |r| ==> Rank(r[i]) < Rank(r[j])
    ensures |r| == |REQUIRED| <==> forall f :: f in REQUIRED ==> Missing(u, f)
  {
    Kept(Missing(u, Name), Missing(u, Email), Missing(u, Password), Missing(u, Tel))
  }

  /** The labels of the missing fields, in order. */
  function Labels(fields: seq<Field>): (r: seq<string>)
    ensures |r| == |fields|
    ensures forall k :: 0 <= k < |r| ==> r[k] == Label(fields[k])
  {
    if fields == [] then [] else [Label(fields[0])] + Labels(fields[1..])
  }

  /** The alert text for a non-empty list of missing fields. */
  function MissingMessage(missing: seq<Field>): (r: string)
    requires |missing| > 0
    ensures |missing| == |REQUIRED| ==> r == NOTHING_ENTERED
    ensures |missing| != |REQUIRED| ==> r == Text.Join(Labels(missing), ", ") + ENTER_SUFFIX
  {
    if |missing| == |REQUIRED| then NOTHING_ENTERED
    else Text.Join(Labels(missing), ", ") + ENTER_SUFFIX
  }

  /** `signup(user, password)`'s answer. */
  datatype SignupResult = SignupResult(success: bool, message: string)

  datatype Outcome =
    | AskFor(message: string, focus: Field)   // missing fields: the alert and the field focused on confirm
    | Failed(message: string)                 // the account could not be created
    | NoCurrentUser                           // created, but no signed-in user to read the uid from
    | Proceed(uid: string)                    // go on to the profile page

  /**
   * The decision `handleSubmit` takes once the fields are validated.
   * `currentUid` is the uid of `authService.currentUser`, if any.
   */
  function Decide(u: User, signup: SignupResult, currentUid: Option<string>): (r: Outcome)
    ensures r.AskFor? <==> MissingFields(u) != []
    ensures r.AskFor? ==> r == AskFor(MissingMessage(MissingFields(u)), MissingFields(u)[0])
    ensures r.Failed? <==> MissingFields(u) == [] && !signup.success
    ensures r.Failed? ==> r.message == SIGNUP_FAILED + signup.message
    ensures r.Proceed? <==> MissingFields(u) == [] && signup.success && currentUid.Some?
    ensures r.Proceed? ==> r.uid == currentUid.value
  {
    var missing := MissingFields(u);
    if missing != [] then AskFor(MissingMessage(missing), missing[0])
    else if !signup.success then Failed(SIGNUP_FAILED + signup.message)
    else if currentUid.None? then NoCurrentUser
    else Proceed(currentUid.value)
  }

  /** The focus after a missing-field alert is the first blank required field in form order. */
  lemma FocusIsFirstMissing(u: User, signup: SignupResult, currentUid: Option<string>)
    requires MissingFields(u) != []
    ensures Decide(u, signup, currentUid).focus in REQUIRED
    ensures Missing(u, Decide(u, signup, currentUid).focus)
    ensures forall g :: g in REQUIRED && Rank(g) < Rank(Decide(u, signup, currentUid).focus) ==> !Missing(u, g)
  {
    var r := MissingFields(u);
  }

  /** Validation messages never block: with all required fields filled, a created account proceeds. */
  lemma ErrorsDoNotBlock(u: User, isDuplicate: bool, uid: string)
    requires forall f :: f in REQUIRED ==> !Missing(u, f)
    ensures Decide(u, SignupResult(true, ""), Some(uid)) == Proceed(uid)
  {
    assert MissingFields(u) == [];
  }

  /** The page state and its `signupUser` session entry. */
  class Page {
    var user: User
    var birthYear: string
    var birthMonth: string
    var birthDay: string
    var errors: map<Field, string>
    var loaded: bool
    /** The session's `signupUser` entry, and the uid stored with it once the account exists. */
    var stored: Option<User>
    var storedUid: Option<string>

    constructor (session: Option<User>)
      ensures user == EMPTY_USER && birthYear == "" && birthMonth == "" && birthDay == ""
      ensures errors == map[] && !loaded && stored == session && storedUid.None?
    {
      user := EMPTY_USER;
      birthYear, birthMonth, birthDay := "", "", "";
      errors := map[];
      loaded := false;
      stored := session;
      storedUid := None;
    }

    /**
     * The restore effect, followed by the effect that saves the user once
     * loaded: a stored record is taken over with its birth split into the
     * three selects.
     */
    method Restore()
      modifies this`user, this`birthYear, this`birthMonth, this`birthDay, this`loaded, this`stored
      ensures loaded
      ensures old(stored).Some? ==> user == old(stored).value && (birthYear, birthMonth, birthDay) == SplitBirth(user.birth)
      ensures old(stored).None? ==> user == old(user) && birthYear == old(birthYear) && birthMonth == old(birthMonth) && birthDay == old(birthDay)
      ensures stored == Some(user)
    {
      if stored.Some? {
        user := stored.value;
        var parts := SplitBirth(user.birth);
        birthYear, birthMonth, birthDay := parts.0, parts.1, parts.2;
      }
      loaded := true;
      stored := Some(user);
    }

    /** The mount validation: every field is checked and only failing ones keep a message. */
    method ValidateAll(isDuplicate: bool)
      modifies this`errors
      ensures errors == NewErrors(user, isDuplicate)
    {
      errors := CollectErrors(user, isDuplicate);
    }

    /** `handleChange` for a text input: store the value, save, and validate that field alone. */
    method ChangeText(f: Field, value: string, isDuplicate: bool)
      requires IsText(f) && loaded
      modifies this`user, this`errors, this`stored
      ensures user == WithText(old(user), f, value) && stored == Some(user)
      ensures errors == old(errors)[f := ErrorText(ValidateField(f, user, isDuplicate))]
    {
      user := WithText(user, f, value);
      stored := Some(user);
      errors := errors[f := ErrorText(ValidateField(f, user, isDuplicate))];
    }

    /** `handleChange` for the consent box: checking it opens the consent prompt. */
    method ChangeConsent(checked: bool) returns (prompt: Option<string>)
      requires loaded
      modifies this`user, this`errors, this`stored
      ensures user == old(user).(agreeLocation := checked) && stored == Some(user)
      ensures errors == old(errors)[AgreeLocation := ErrorText(Validations.ValidateLocation(checked))]
      ensures prompt.Some? <==> checked
      ensures prompt.Some? ==> prompt.value == CONSENT_PROMPT
    {
      user := user.(agreeLocation := checked);
      stored := Some(user);
      errors := errors[AgreeLocation := ErrorText(ValidateField(AgreeLocation, user, false))];
      prompt := if checked then Some(CONSENT_PROMPT) else None;
    }

    /** The prompt's decline button: consent is withdrawn. */
    method DeclineConsent()
      requires loaded
      modifies this`user, this`stored
      ensures user == old(user).(agreeLocation := false) && stored == Some(user)
    {
      user := user.(agreeLocation := false);
      stored := Some(user);
    }

    /**
     * A birth select (0 year, 1 month, 2 day), then the effect that composes
     * the date once all three are chosen.
     */
    method SelectBirth(part: nat, value: string)
      requires part < 3 && loaded
      modifies this`birthYear, this`birthMonth, this`birthDay, this`user, this`stored
      ensures birthYear == (if part == 0 then value else old(birthYear))
      ensures birthMonth == (if part == 1 then value else old(birthMonth))
      ensures birthDay == (if part == 2 then value else old(birthDay))
      ensures ComposeBirth(birthYear, birthMonth, birthDay).Some? ==>
                user == old(user).(birth := ComposeBirth(birthYear, birthMonth, birthDay).value) && stored == Some(user)
      ensures ComposeBirth(birthYear, birthMonth, birthDay).None? ==> user == old(user) && stored == old(stored)
    {
      if part == 0 {
        birthYear := value;
      } else if part == 1 {
        birthMonth := value;
      } else {
        birthDay := value;
      }
      var composed := ComposeBirth(birthYear, birthMonth, birthDay);
      if composed.Some? {
        user := user.(birth := composed.value);
        stored := Some(user);
      }
    }

    /**
     * `handleSubmit`. `signedUp` says whether the account creation was
     * attempted; `currentUid` is the signed-in user's uid right after it.
     * On success the record is stored with its uid for the profile page.
     */
    method Submit(isDuplicate: bool, signup: SignupResult, currentUid: Option<string>)
      returns (outcome: Outcome, signedUp: bool)
      modifies this`errors, this`storedUid
      ensures errors == NewErrors(user, isDuplicate)
      ensures outcome == Decide(user, signup, currentUid)
      ensures signedUp <==> MissingFields(user) == []
      ensures outcome.Proceed? ==> storedUid == Some(outcome.uid)
      ensures !outcome.Proceed? ==> storedUid == old(storedUid)
    {
      errors := CollectErrors(user, isDuplicate);
      var missing := MissingFields(user);
      if missing != [] {
        return AskFor(MissingMessage(missing), missing[0]), false;
      }
      signedUp := true;
      if !signup.success {
        return Failed(SIGNUP_FAILED + signup.message), signedUp;
      }
      if currentUid.None? {
        return NoCurrentUser, signedUp;
      }
      storedUid := currentUid;
      outcome := Proceed(currentUid.value);
    }
  }
}
