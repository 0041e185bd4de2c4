/**
 * The find-my-id page: the user enters a name and a phone number, asks for
 * a six-digit code, types it back, and the page looks up the accounts with
 * that name and phone number. It shows their addresses masked, one joined
 * list of them, and on submit maps the chosen masked address back to the
 * real one stored beside it in the session.
 */
module IdFind {
  import opened Wrappers
  import Text
  import Validations

  const ALL_MISSING := "이름, 전화번호, 인증번호를 입력해주세요."
  const PHONE_CODE_MISSING := "전화번호와 인증번호를 입력해주세요."
  const NAME_CODE_MISSING := "이름과 인증번호를 입력해주세요."
  const NAME_PHONE_MISSING := "이름과 전화번호를 입력해주세요."
  const CODE_MISSING := "인증번호를 입력해주세요."
  const PHONE_MISSING := "전화번호를 입력해주세요."
  const NAME_MISSING := "이름을 입력해주세요."
  const CODE_INVALID := "인증번호가 올바르지 않습니다."
  const VERIFY_FIRST := "먼저 인증확인을 완료해주세요."
  const SELECT_ID := "아이디를 선택해주세요."
  const EMAIL_NOT_FOUND := "선택한 이메일을 찾을 수 없습니다."
  const VERIFY_INPUT := "이름, 전화번호, 인증번호를 모두 정확히 입력해주세요."
  const NO_ACCOUNT := "일치하는 계정이 없습니다."
  const LOOKUP_FAILED := "이메일 조회 중 오류가 발생했습니다."
  const CODE_SENT := "인증번호가 전송되었습니다: "
  const CODE_RESENT := "인증번호가 재전송되었습니다: "
  const SEND_FIRST := "먼저 인증번호찾기를 눌러주세요."

  /** The input fields an alert can focus: 0 name, 1 phone, 2 code. */
  const NAME_INPUT: nat := 0
  const PHONE_INPUT: nat := 1
  const CODE_INPUT: nat := 2

  /** An alert: its message and the input focused when it is dismissed. */
  datatype Alert = Alert(message: string, target: Option<nat>)

  function Stars(n: nat): (r: string)
    ensures |r| == n && forall k :: 0 <= k < n ==> r[k] == '*'
  {
    seq(n, _ => '*')
  }

  /** The id part with everything after its third character replaced by `*`. */
  function MaskId(id: string): (r: string)
    ensures |r| == |id|
    ensures forall k :: 0 <= k < |id| ==> r[k] == (if k < 3 then id[k] else '*')
  {
    if |id| <= 3 then id else id[..3] + Stars(|id| - 3)
  }

  /**
   * `maskEmail`: the text before the first `@` and the text between it and
   * the next `@`; when either is empty the address is returned as it is.
   */
  function MaskEmail(email: string): string {
    var parts := Text.Split(email, "@");
    var id := parts[0];
    var domain := if |parts| > 1 then parts[1] else "";
    if id == "" || domain == "" then email else MaskId(id) + "@" + domain
  }

  /** An address with one `@` splits into its two parts. */
  lemma SplitAt(id: string, domain: string)
    requires Text.Excludes(id, '@') && Text.Excludes(domain, '@')
    ensures Text.Split(id + "@" + domain, "@") == [id, domain]
  {
    Text.SplitJoin([id, domain], "@");
    assert Text.Join([id, domain], "@") == id + "@" + domain;
  }

  /**
   * For one `@` and non-empty parts the mask keeps the length, the domain
   * and the first `min(3, |id|)` characters, and stars the rest of the id.
   */
  lemma MaskEmailSpec(id: string, domain: string)
    requires Text.Excludes(id, '@') && Text.Excludes(domain, '@') && id != "" && domain != ""
    ensures var r := MaskEmail(id + "@" + domain);
            |r| == |id + "@" + domain|
            && r[|id|..] == "@" + domain
            && (forall k :: 0 <= k < |id| && k < 3 ==> r[k] == id[k])
            && (forall k :: 3 <= k < |id| ==> r[k] == '*')
  {
    SplitAt(id, domain);
    var r := MaskEmail(id + "@" + domain);
    assert r == MaskId(id) + "@" + domain;
  }

  /** An address without `@` is unchanged. */
  lemma MaskNoAt(email: string)
    requires Text.Excludes(email, '@')
    ensures MaskEmail(email) == email
  {
    Text.NoFirstCharNoOccurrence(email, "@");
  }

  /** An empty id part leaves the address unchanged. */
  lemma MaskEmptyId(rest: string)
    ensures MaskEmail("@" + rest) == "@" + rest
  {
    Text.FirstOccurrenceAfter("", "@", rest);
    assert "" + "@" + rest == "@" + rest;
    assert ("@" + rest)[..0] == "";
  }

  /** An empty domain part leaves the address unchanged. */
  lemma MaskEmptyDomain(id: string)
    requires Text.Excludes(id, '@')
    ensures MaskEmail(id + "@") == id + "@"
  {
    Text.FirstOccurrenceAfter(id, "@", "");
    Text.NoFirstCharNoOccurrence("", "@");
    var s := id + "@";
    assert s == id + "@" + "";
    assert s[..|id|] == id;
    assert s[|id| + 1..] == "";
    assert Text.Split("", "@") == [""];
    assert Text.Split(s, "@") == [id] + Text.Split("", "@");
  }

  /** Text after a second `@` is dropped. */
  lemma MaskDropsAfterSecondAt(id: string, domain: string, rest: string)
    requires Text.Excludes(id, '@') && Text.Excludes(domain, '@') && id != "" && domain != ""
    ensures MaskEmail(id + "@" + domain + "@" + rest) == MaskId(id) + "@" + domain
  {
    var tail := domain + "@" + rest;
    var s := id + "@" + tail;
    assert s == id + "@" + domain + "@" + rest;
    Text.FirstOccurrenceAfter(id, "@", tail);
    Text.FirstOccurrenceAfter(domain, "@", rest);
    assert s[..|id|] == id;
    assert s[|id| + 1..] == tail;
    assert tail[..|domain|] == domain;
    var parts := Text.Split(s, "@");
    assert parts == [id] + Text.Split(tail, "@");
    assert Text.Split(tail, "@") == [domain] + Text.Split(tail[|domain| + 1..], "@");
    assert parts[0] == id && parts[1] == domain;
  }

  /** Masking an already masked single-`@` address changes nothing. */
  lemma MaskIdempotent(id: string, domain: string)
    requires Text.Excludes(id, '@') && Text.Excludes(domain, '@')
    ensures MaskEmail(MaskEmail(id + "@" + domain)) == MaskEmail(id + "@" + domain)
  {
    SplitAt(id, domain);
    if id != "" && domain != "" {
      var m := MaskId(id);
      assert Text.Excludes(m, '@');
      SplitAt(m, domain);
      assert MaskId(m) == m;
    }
  }

  /** The characters of a mask come from the address, `*` and `@`. */
  lemma MaskExcludes(email: string, c: char)
    requires Text.Excludes(email, c) && c != '*' && c != '@'
    ensures Text.Excludes(MaskEmail(email), c)
  {
    Text.SplitExcludes(email, "@", c);
  }

  /** `code.length === 6 && code === generatedCode`. */
  predicate CodeValid(code: string, generated: string) {
    |code| == 6 && code == generated
  }

  /** A code is accepted only if it is the generated one, so nothing is accepted before a code was sent. */
  lemma CodeValidIff(code: string, generated: string)
    ensures CodeValid(code, generated) <==> code == generated && |generated| == 6
    ensures !CodeValid(code, "")
  {
  }

  /** `Math.floor(100000 + Math.random() * 900000).toString()` for the integer drawn. */
  function NewCode(drawn: nat): (c: string)
    requires 100000 <= drawn <= 999999
    ensures |c| == 6 && Text.AllDigits(c)
  {
    SixDigits(drawn);
    Text.NatToString(drawn)
  }

  lemma DigitCount(n: nat)
    ensures |Text.NatToString(n)| == if n < 10 then 1 else 1 + |Text.NatToString(n / 10)|
  {
  }

  lemma SixDigits(n: nat)
    requires 100000 <= n <= 999999
    ensures |Text.NatToString(n)| == 6
  {
    DigitCount(n);
    DigitCount(n / 10);
    DigitCount(n / 100);
    DigitCount(n / 1000);
    DigitCount(n / 10000);
    DigitCount(n / 100000);
    assert n / 10 / 10 == n / 100;
    assert n / 100 / 10 == n / 1000;
    assert n / 1000 / 10 == n / 10000;
    assert n / 10000 / 10 == n / 100000;
  }

  /** A code just sent, typed back as shown, is valid. */
  lemma SentCodeAccepted(drawn: nat)
    requires 100000 <= drawn <= 999999
    ensures CodeValid(NewCode(drawn), NewCode(drawn))
  {
  }

  /**
   * The alerts for missing fields (trimmed name, trimmed phone, raw code),
   * one per combination with at least one field missing.
   */
  function MissingAlert(nameMissing: bool, phoneMissing: bool, codeMissing: bool): (r: Option<Alert>)
    ensures r.None? <==> !nameMissing && !phoneMissing && !codeMissing
    ensures r.Some? ==> r.value.target == Some(if nameMissing then NAME_INPUT else if phoneMissing then PHONE_INPUT else CODE_INPUT)
  {
    if nameMissing && phoneMissing && codeMissing then Some(Alert(ALL_MISSING, Some(NAME_INPUT)))
    else if !nameMissing && phoneMissing && codeMissing then Some(Alert(PHONE_CODE_MISSING, Some(PHONE_INPUT)))
    else if nameMissing && !phoneMissing && codeMissing then Some(Alert(NAME_CODE_MISSING, Some(NAME_INPUT)))
    else if nameMissing && phoneMissing && !codeMissing then Some(Alert(NAME_PHONE_MISSING, Some(NAME_INPUT)))
    else if !nameMissing && !phoneMissing && codeMissing then Some(Alert(CODE_MISSING, Some(CODE_INPUT)))
    else if !nameMissing && phoneMissing && !codeMissing then Some(Alert(PHONE_MISSING, Some(PHONE_INPUT)))
    else if nameMissing && !phoneMissing && !codeMissing then Some(Alert(NAME_MISSING, Some(NAME_INPUT)))
    else None
  }

  /** Each combination of missing fields has its own message. */
  lemma MissingMessagesDistinct(n1: bool, p1: bool, c1: bool, n2: bool, p2: bool, c2: bool)
    requires MissingAlert(n1, p1, c1).Some? && MissingAlert(n2, p2, c2).Some?
    requires MissingAlert(n1, p1, c1).value.message == MissingAlert(n2, p2, c2).value.message
    ensures n1 == n2 && p1 == p2 && c1 == c2
  {
  }

  /** `findIndex` with equality. */
  function FindIndex(list: seq<string>, x: string): (r: int)
    ensures -1 <= r < |list|
    ensures r >= 0 ==> list[r] == x && forall k :: 0 <= k < r ==> list[k] != x
    ensures r == -1 <==> x !in list
  {
    if list == [] then -1
    else if list[0] == x then 0
    else
      var r := FindIndex(list[1..], x);
      if r == -1 then -1 else r + 1
  }

  /** `sessionStorage.getItem("realEmail")?.split(",") || []`. */
  function RealEmails(realEmail: Option<string>): seq<string> {
    match realEmail
    case None => []
    case Some(s) => Text.Split(s, ",")
  }

  /** The chosen masked address: not in the list, or found, with the real address at its index if there is one. */
  datatype Selection = NotFound | Selected(realEmail: Option<string>)

  /** The selected index in the masked list, looked up in the real list. */
  function SelectReal(foundEmail: string, realEmail: Option<string>, selected: string): Selection {
    var idx := FindIndex(Text.Split(foundEmail, ", "), selected);
    var reals := RealEmails(realEmail);
    if idx == -1 then NotFound
    else if idx < |reals| then Selected(Some(reals[idx]))
    else Selected(None)
  }

  /** The masked addresses, in account order. */
  function Masks(emails: seq<string>): (r: seq<string>)
    ensures |r| == |emails| && forall i :: 0 <= i < |emails| ==> r[i] == MaskEmail(emails[i])
  {
    seq(|emails|, i requires 0 <= i < |emails| => MaskEmail(emails[i]))
  }

  /** The masked list the page shows splits back into the masks when no address has a comma. */
  lemma MasksSplitBack(emails: seq<string>)
    requires |emails| > 0
    requires forall i :: 0 <= i < |emails| ==> Text.Excludes(emails[i], ',')
    ensures Text.Split(Text.Join(Masks(emails), ", "), ", ") == Masks(emails)
  {
    var masks := Masks(emails);
    forall i | 0 <= i < |masks| ensures Text.Excludes(masks[i], ", "[0]) {
      MaskExcludes(emails[i], ',');
    }
    Text.SplitJoin(masks, ", ");
  }

  /**
   * After a lookup that found `emails` (none containing a comma), choosing
   * the masked address of account `j`, where no earlier account has the same
   * mask, selects the real address of account `j`.
   */
  lemma MaskedMapsToReal(emails: seq<string>, j: nat)
    requires j < |emails|
    requires forall i :: 0 <= i < |emails| ==> Text.Excludes(emails[i], ',')
    requires forall i :: 0 <= i < j ==> MaskEmail(emails[i]) != MaskEmail(emails[j])
    ensures SelectReal(Text.Join(Masks(emails), ", "), Some(Text.Join(emails, ",")), MaskEmail(emails[j]))
         == Selected(Some(emails[j]))
  {
    var masks := Masks(emails);
    MasksSplitBack(emails);
    Text.SplitJoin(emails, ",");
    var x := MaskEmail(emails[j]);
    assert FindIndex(masks, x) == j by {
      FindIndexFirst(masks, x, j);
    }
    assert RealEmails(Some(Text.Join(emails, ","))) == emails;
  }

  /** The index of the first occurrence is found. */
  lemma {:induction false} FindIndexFirst(list: seq<string>, x: string, j: nat)
    requires j < |list| && list[j] == x
    requires forall i :: 0 <= i < j ==> list[i] != x
    ensures FindIndex(list, x) == j
  {
    if j > 0 {
      assert list[0] != x;
      FindIndexFirst(list[1..], x, j - 1);
    }
  }

  /** A selection that is none of the masked addresses is not found. */
  lemma UnknownSelectionNotFound(emails: seq<string>, selected: string)
    requires |emails| > 0
    requires forall i :: 0 <= i < |emails| ==> Text.Excludes(emails[i], ',')
    requires forall i :: 0 <= i < |emails| ==> MaskEmail(emails[i]) != selected
    ensures SelectReal(Text.Join(Masks(emails), ", "), Some(Text.Join(emails, ",")), selected) == NotFound
  {
    MasksSplitBack(emails);
  }

  /**
   * After a lookup that found `emails` (none containing a comma), the index
   * of any masked address found in the shown list is within the real list,
   * so a found selection always carries a real address.
   */
  lemma SelectionHasReal(emails: seq<string>, selected: string)
    requires |emails| > 0
    requires forall i :: 0 <= i < |emails| ==> Text.Excludes(emails[i], ',')
    ensures SelectReal(Text.Join(Masks(emails), ", "), Some(Text.Join(emails, ",")), selected) != Selected(None)
  {
    var masks := Masks(emails);
    MasksSplitBack(emails);
    Text.SplitJoin(emails, ",");
    assert RealEmails(Some(Text.Join(emails, ","))) == emails;
    var idx := FindIndex(masks, selected);
    assert idx < |masks| == |emails|;
  }

  /** What a submit does: show an alert, or go on with the selected real address. */
  datatype Outcome = Shown(alert: Alert) | Proceed(selectedRealEmail: Option<string>)

  /**
   * The checks of `handleSubmit` before the mapping: the missing-field
   * table, then code validity, then completed verification, then a
   * selection. A trimmed field is empty exactly when the field is blank
   * (`Text.TrimEmptyIffBlank`).
   */
  function Precheck(name: string, phone: string, code: string, generated: string, foundEmail: string,
                    isVerified: bool, selectedEmail: string): (r: Option<Alert>)
    ensures r.None? <==>
              !Text.IsBlank(name) && !Text.IsBlank(phone) && code != ""
              && CodeValid(code, generated) && foundEmail != "" && isVerified && selectedEmail != ""
    ensures (Text.IsBlank(name) || Text.IsBlank(phone) || code == "") ==>
              r == MissingAlert(Text.IsBlank(name), Text.IsBlank(phone), code == "")
    ensures !Text.IsBlank(name) && !Text.IsBlank(phone) && code != "" && !CodeValid(code, generated) ==>
              r == Some(Alert(CODE_INVALID, Some(CODE_INPUT)))
  {
    var missing := MissingAlert(Text.IsBlank(name), Text.IsBlank(phone), code == "");
    if missing.Some? then missing
    else if !CodeValid(code, generated) then Some(Alert(CODE_INVALID, Some(CODE_INPUT)))
    else if foundEmail == "" || !isVerified then Some(Alert(VERIFY_FIRST, None))
    else if selectedEmail == "" then Some(Alert(SELECT_ID, None))
    else None
  }

  /** `handleSubmit`: the checks, then the mapping of the selection to the real address. */
  function Submit(name: string, phone: string, code: string, generated: string, foundEmail: string,
                  isVerified: bool, selectedEmail: string, realEmail: Option<string>): (o: Outcome)
    ensures o.Proceed? <==>
              Precheck(name, phone, code, generated, foundEmail, isVerified, selectedEmail).None?
              && selectedEmail in Text.Split(foundEmail, ", ")
    ensures o.Proceed? ==> o.selectedRealEmail == SelectReal(foundEmail, realEmail, selectedEmail).realEmail
  {
    var pre := Precheck(name, phone, code, generated, foundEmail, isVerified, selectedEmail);
    if pre.Some? then Shown(pre.value)
    else match SelectReal(foundEmail, realEmail, selectedEmail)
      case NotFound => Shown(Alert(EMAIL_NOT_FOUND, None))
      case Selected(r) => Proceed(r)
  }

  /** `validateName(v) || ""`: the error text kept for a field. */
  function ErrorText(e: Option<string>): string { e.GetOr("") }

  /** The page's state and the session entries it reads and writes. */
  class Page {
    var name: string
    var phone: string
    var code: string
    var generatedCode: string
    var nameError: string
    var phoneError: string
    var showCode: bool
    var codeRequested: bool
    var codeSentOnce: bool
    var foundEmail: string
    var selectedEmail: string
    var isVerified: bool
    /** The session's `realEmail` entry. */
    var realEmail: Option<string>
    /** The session's `selectedRealEmail` entry. */
    var selectedRealEmail: Option<string>

    constructor ()
      ensures name == "" && phone == "" && code == "" && generatedCode == ""
      ensures nameError == "" && phoneError == ""
      ensures !showCode && !codeRequested && !codeSentOnce
      ensures foundEmail == "" && selectedEmail == "" && !isVerified
      ensures realEmail.None? && selectedRealEmail.None?
    {
      name, phone, code, generatedCode := "", "", "", "";
      nameError, phoneError := "", "";
      showCode, codeRequested, codeSentOnce := false, false, false;
      foundEmail, selectedEmail, isVerified := "", "", false;
      realEmail, selectedRealEmail := None, None;
    }

    /** `handleNameChange`: the value and its validation message. */
    method ChangeName(value: string)
      modifies this`name, this`nameError
      ensures name == value && nameError == ErrorText(Validations.ValidateName(value))
    {
      name := value;
      nameError := ErrorText(Validations.ValidateName(value));
    }

    /** `handlePhoneChange`. */
    method ChangePhone(value: string)
      modifies this`phone, this`phoneError
      ensures phone == value && phoneError == ErrorText(Validations.ValidatePhone(value))
    {
      phone := value;
      phoneError := ErrorText(Validations.ValidatePhone(value));
    }

    method ChangeCode(value: string)
      modifies this`code
      ensures code == value
    {
      code := value;
    }

    method Select(email: string)
      modifies this`selectedEmail
      ensures selectedEmail == email
    {
      selectedEmail := email;
    }

    /**
     * `handleCodeSend` with `drawn` the integer the random draw produces: a
     * code is generated and the code input shown only when the name and
     * the phone number pass their validators.
     */
    method SendCode(drawn: nat) returns (alert: Option<Alert>)
      requires 100000 <= drawn <= 999999
      modifies this`nameError, this`phoneError, this`generatedCode, this`showCode, this`codeRequested, this`codeSentOnce
      ensures nameError == ErrorText(Validations.ValidateName(name))
      ensures phoneError == ErrorText(Validations.ValidatePhone(phone))
      ensures var ok := Validations.ValidateName(name).None? && Validations.ValidatePhone(phone).None?;
              (!ok ==> alert.None? && generatedCode == old(generatedCode) && showCode == old(showCode)
                         && codeRequested == old(codeRequested) && codeSentOnce == old(codeSentOnce))
              && (ok ==> generatedCode == NewCode(drawn) && showCode && codeRequested && codeSentOnce
                         && alert == Some(Alert(CODE_SENT + NewCode(drawn), None)))
    {
      var nameErr := Validations.ValidateName(name);
      var phoneErr := Validations.ValidatePhone(phone);
      nameError, phoneError := ErrorText(nameErr), ErrorText(phoneErr);
      if nameErr.Some? || phoneErr.Some? {
        return None;
      }
      var newCode := NewCode(drawn);
      generatedCode := newCode;
      showCode, codeRequested, codeSentOnce := true, true, true;
      alert := Some(Alert(CODE_SENT + newCode, None));
    }

    /** `handleResend`: refused until a code was sent once. */
    method Resend(drawn: nat) returns (alert: Alert)
      requires 100000 <= drawn <= 999999
      modifies this`generatedCode, this`showCode
      ensures !codeSentOnce ==> alert == Alert(SEND_FIRST, None) && generatedCode == old(generatedCode) && showCode == old(showCode)
      ensures codeSentOnce ==> generatedCode == NewCode(drawn) && showCode && alert == Alert(CODE_RESENT + NewCode(drawn), None)
    {
      if !codeSentOnce {
        return Alert(SEND_FIRST, None);
      }
      var newCode := NewCode(drawn);
      generatedCode := newCode;
      showCode := true;
      alert := Alert(CODE_RESENT + newCode, None);
    }

    /**
     * `handleVerifyCode`. `accounts` is the query's answer, the addresses of
     * the users with this name and phone number, or `None` when the query
     * throws.
     */
    method VerifyCode(accounts: Option<seq<string>>) returns (alert: Option<Alert>)
      modifies this`nameError, this`phoneError, this`realEmail, this`foundEmail, this`isVerified
      ensures nameError == ErrorText(Validations.ValidateName(name))
      ensures phoneError == ErrorText(Validations.ValidatePhone(phone))
      ensures var ok := Validations.ValidateName(name).None? && Validations.ValidatePhone(phone).None?
                        && CodeValid(code, generatedCode);
              var found := ok && accounts.Some? && accounts.value != [];
              (!found ==> realEmail == old(realEmail) && foundEmail == old(foundEmail) && isVerified == old(isVerified))
              && (!ok ==> alert == Some(Alert(VERIFY_INPUT, None)))
              && (ok && accounts.None? ==> alert == Some(Alert(LOOKUP_FAILED, None)))
              && (ok && accounts == Some([]) ==> alert == Some(Alert(NO_ACCOUNT, None)))
              && (found ==> alert.None? && isVerified
                            && realEmail == Some(Text.Join(accounts.value, ","))
                            && foundEmail == Text.Join(Masks(accounts.value), ", "))
    {
      var nameErr := Validations.ValidateName(name);
      var phoneErr := Validations.ValidatePhone(phone);
      var codeValid := |code| == 6 && code == generatedCode;
      nameError, phoneError := ErrorText(nameErr), ErrorText(phoneErr);
      if nameErr.Some? || phoneErr.Some? || !codeValid {
        return Some(Alert(VERIFY_INPUT, None));
      }
      if accounts.None? {
        return Some(Alert(LOOKUP_FAILED, None));
      }
      if accounts.value == [] {
        return Some(Alert(NO_ACCOUNT, None));
      }
      realEmail := Some(Text.Join(accounts.value, ","));
      foundEmail := Text.Join(Masks(accounts.value), ", ");
      isVerified := true;
      alert := None;
    }

    /**
     * `handleSubmit`: on success the real address is stored for the result
     * page and the lookup state is cleared.
     */
    method SubmitForm() returns (outcome: Outcome)
      modifies this`selectedRealEmail, this`realEmail, this`foundEmail, this`selectedEmail, this`isVerified
      ensures outcome == Submit(name, phone, code, generatedCode, old(foundEmail), old(isVerified), old(selectedEmail), old(realEmail))
      ensures outcome.Shown? ==>
                (selectedRealEmail == old(selectedRealEmail) && realEmail == old(realEmail)
                 && foundEmail == old(foundEmail) && selectedEmail == old(selectedEmail) && isVerified == old(isVerified))
      ensures outcome.Proceed? ==>
                (selectedRealEmail == outcome.selectedRealEmail && realEmail.None?
                 && foundEmail == "" && selectedEmail == "" && !isVerified)
    {
      outcome := Submit(name, phone, code, generatedCode, foundEmail, isVerified, selectedEmail, realEmail);
      if outcome.Proceed? {
        selectedRealEmail := outcome.selectedRealEmail;
        realEmail := None;
        foundEmail, selectedEmail, isVerified := "", "", false;
      }
    }
  }
}
