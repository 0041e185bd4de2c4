/**
 * The sign-up field validators. Each returns `None` for an accepted value
 * and otherwise the message for the first check that fails; the checks run
 * in the order the validator lists them.
 */
module Validations {
  import opened Wrappers
  import Text

  const NAME_EMPTY := "이름을 입력해주세요"
  const NAME_LENGTH := "이름을 2~7글자로 입력해주세요"
  const NAME_TOO_LONG := "이름이 너무 깁니다"
  const EMAIL_NO_AT := "email@email.com 형식으로 입력해주세요"
  const EMAIL_INVALID := "잘못된 이메일 형식입니다"
  const EMAIL_DUPLICATE := "중복되었습니다."
  const ONLY_DIGITS := "숫자만 입력해주세요"
  const BIRTH_LENGTH := "생년월일을 8자리 입력하세요"
  const PHONE_EMPTY := "- 없이 숫자만 입력해주세요"
  const PHONE_LENGTH := "전화번호는 11자리로 입력해주세요"
  const PASSWORD_EMPTY := "비밀번호를 입력해주세요"
  const PASSWORD_LENGTH := "비밀번호를 8자리 이상 12자리 미만으로 설정해주세요"
  const LOCATION_REQUIRED := "위치정보 제공에 동의해주세요"
  const NICKNAME_EMPTY := "닉네임을 입력해주세요"
  const NICKNAME_CHARS := "닉네임은 영어와 숫자만 사용할 수 있습니다"
  const NICKNAME_LENGTH := "닉네임은 18글자 미만으로만 입력가능합니다"
  const BIO_LENGTH := "소개글은 100글자 이내로 작성해주세요"

  /**
   * `validateName`: the message asks for 2 to 7 characters, but only the
   * empty name, length exactly 8 and length above 10 are refused.
   */
  function ValidateName(name: string): (r: Option<string>)
    ensures r.None? <==> |name| > 0 && |name| != 8 && |name| <= 10
    ensures name == [] ==> r == Some(NAME_EMPTY)
    ensures |name| == 8 ==> r == Some(NAME_LENGTH)
    ensures |name| > 10 ==> r == Some(NAME_TOO_LONG)
  {
    if name == [] then Some(NAME_EMPTY)
    else if |name| == 8 then Some(NAME_LENGTH)
    else if |name| > 10 then Some(NAME_TOO_LONG)
    else None
  }

  /** `[a-zA-Z0-9._-]`. */
  predicate LocalChar(c: char) { Text.IsAsciiAlnum(c) || c == '.' || c == '_' || c == '-' }

  /** `[a-zA-Z0-9.-]`. */
  predicate DomainChar(c: char) { Text.IsAsciiAlnum(c) || c == '.' || c == '-' }

  /**
   * `s` splits as `local @ domain . tld` at positions `i` (the `@`) and `j`
   * (the last `.`), with each part in its character class and the top-level
   * domain 2 to 4 letters long.
   */
  predicate EmailSplit(s: string, i: int, j: int) {
    0 < i && i + 1 < j && j < |s| && s[i] == '@' && s[j] == '.'
    && 2 <= |s| - j - 1 <= 4
    && (forall k :: 0 <= k < i ==> LocalChar(s[k]))
    && (forall k :: i < k < j ==> DomainChar(s[k]))
    && (forall k :: j < k < |s| ==> Text.IsAsciiLetter(s[k]))
  }

  /** `/^[a-zA-Z0-9._-]+@[a-zA-Z0-9.-]+\.[a-zA-Z]{2,4}$/`, as the set of strings it matches. */
  ghost predicate EmailPattern(s: string) {
    exists i, j :: EmailSplit(s, i, j)
  }

  /** The first index of `c`, or -1. */
  function FirstIndex(s: string, c: char): (r: int)
    ensures -1 <= r < |s|
    ensures r >= 0 ==> s[r] == c && forall k :: 0 <= k < r ==> s[k] != c
    ensures r == -1 ==> forall k :: 0 <= k < |s| ==> s[k] != c
  {
    if s == [] then -1
    else if s[0] == c then 0
    else
      var r := FirstIndex(s[1..], c);
      if r == -1 then -1 else r + 1
  }

  /** The last index of `c`, or -1. */
  function LastIndex(s: string, c: char): (r: int)
    ensures -1 <= r < |s|
    ensures r >= 0 ==> s[r] == c && forall k :: r < k < |s| ==> s[k] != c
    ensures r == -1 ==> forall k :: 0 <= k < |s| ==> s[k] != c
  {
    if s == [] then -1
    else if s[|s| - 1] == c then |s| - 1
    else LastIndex(s[..|s| - 1], c)
  }

  /** The regular expression's test, decided at the first `@` and the last `.`. */
  predicate EmailRegex(s: string) {
    EmailSplit(s, FirstIndex(s, '@'), LastIndex(s, '.'))
  }

  /** The decision procedure matches exactly the strings of the pattern. */
  lemma EmailRegexMatchesPattern(s: string)
    ensures EmailRegex(s) <==> EmailPattern(s)
  {
    if EmailPattern(s) {
      var i, j :| EmailSplit(s, i, j);
      var fi, lj := FirstIndex(s, '@'), LastIndex(s, '.');
      assert !LocalChar('@') && !Text.IsAsciiLetter('.');
      assert fi == i;
      assert lj == j;
    }
  }

  /** An accepted address contains exactly one `@`. */
  lemma EmailRegexOneAt(s: string)
    requires EmailRegex(s)
    ensures forall k :: 0 <= k < |s| && s[k] == '@' ==> k == FirstIndex(s, '@')
  {
    var i, j := FirstIndex(s, '@'), LastIndex(s, '.');
    forall k | 0 <= k < |s| && k != i ensures s[k] != '@' {
      NoOtherAt(s, i, j, k);
    }
  }

  /** Outside the split's `@`, no character of an accepted address is an `@`. */
  lemma NoOtherAt(s: string, i: int, j: int, k: int)
    requires EmailSplit(s, i, j) && 0 <= k < |s| && k != i
    ensures s[k] != '@'
  {
    if k < i {
      assert LocalChar(s[k]);
    } else if k < j {
      assert DomainChar(s[k]);
    } else if k > j {
      assert Text.IsAsciiLetter(s[k]);
    }
  }

  /** An address the expression accepts passes the `includes("@")` check before it. */
  lemma EmailRegexIncludesAt(s: string)
    requires EmailRegex(s)
    ensures Text.Includes(s, "@")
  {
    var i := FirstIndex(s, '@');
    assert s[i..i + 1] == "@";
    assert Text.OccursAt(s, "@", i);
    Text.IncludesIff(s, "@");
  }

  /** The outcome of `validateEmail`: the message, and whether the duplicate check was asked. */
  datatype EmailCheck = EmailCheck(error: Option<string>, consulted: bool)

  /**
   * `validateEmail`. `checkDuplicate` is the optional duplicate oracle and
   * `isDuplicate` its answer for this address.
   */
  function ValidateEmail(email: string, hasChecker: bool, isDuplicate: bool): (r: EmailCheck)
    ensures r.consulted <==> hasChecker && Text.Includes(email, "@") && EmailRegex(email)
    ensures !Text.Includes(email, "@") ==> r.error == Some(EMAIL_NO_AT)
    ensures Text.Includes(email, "@") && !EmailRegex(email) ==> r.error == Some(EMAIL_INVALID)
    ensures r.error.None? <==> EmailRegex(email) && !(hasChecker && isDuplicate)
  {
    if !Text.Includes(email, "@") then
      if EmailRegex(email) then EmailRegexIncludesAt(email); assert false; EmailCheck(None, false)
      else EmailCheck(Some(EMAIL_NO_AT), false)
    else if !EmailRegex(email) then EmailCheck(Some(EMAIL_INVALID), false)
    else if hasChecker && isDuplicate then EmailCheck(Some(EMAIL_DUPLICATE), true)
    else EmailCheck(None, hasChecker)
  }

  /** `validateBirth`: one or more digits, at least eight of them. */
  function ValidateBirth(birth: string): (r: Option<string>)
    ensures r.None? <==> |birth| >= 8 && Text.AllDigits(birth)
    ensures !(|birth| > 0 && Text.AllDigits(birth)) ==> r == Some(ONLY_DIGITS)
    ensures 0 < |birth| < 8 && Text.AllDigits(birth) ==> r == Some(BIRTH_LENGTH)
  {
    if !(|birth| > 0 && Text.AllDigits(birth)) then Some(ONLY_DIGITS)
    else if |birth| < 8 then Some(BIRTH_LENGTH)
    else None
  }

  /** `validatePhone`: 1 to 11 digits, checked as empty, then non-digit, then too long. */
  function ValidatePhone(phone: string): (r: Option<string>)
    ensures r.None? <==> 1 <= |phone| <= 11 && Text.AllDigits(phone)
    ensures phone == [] ==> r == Some(PHONE_EMPTY)
    ensures phone != [] && !Text.AllDigits(phone) ==> r == Some(ONLY_DIGITS)
    ensures Text.AllDigits(phone) && |phone| > 11 ==> r == Some(PHONE_LENGTH)
  {
    if phone == [] then Some(PHONE_EMPTY)
    else if !Text.AllDigits(phone) then Some(ONLY_DIGITS)
    else if |phone| > 11 then Some(PHONE_LENGTH)
    else None
  }

  /** `validatePassword`: 8 to 11 characters. */
  function ValidatePassword(password: string): (r: Option<string>)
    ensures r.None? <==> 8 <= |password| < 12
    ensures password == [] ==> r == Some(PASSWORD_EMPTY)
    ensures password != [] && !(8 <= |password| < 12) ==> r == Some(PASSWORD_LENGTH)
  {
    if password == [] then Some(PASSWORD_EMPTY)
    else if |password| < 8 || |password| >= 12 then Some(PASSWORD_LENGTH)
    else None
  }

  /** `validateLocation`: consent is required. */
  function ValidateLocation(agree: bool): (r: Option<string>)
    ensures r.None? <==> agree
  {
    if !agree then Some(LOCATION_REQUIRED) else None
  }

  predicate AllAsciiAlnum(s: string) { forall i :: 0 <= i < |s| ==> Text.IsAsciiAlnum(s[i]) }

  /** `validateNickname`: 1 to 17 ASCII letters and digits. */
  function ValidateNickname(nickname: string): (r: Option<string>)
    ensures r.None? <==> 0 < |nickname| < 18 && AllAsciiAlnum(nickname)
    ensures nickname == [] ==> r == Some(NICKNAME_EMPTY)
    ensures nickname != [] && !AllAsciiAlnum(nickname) ==> r == Some(NICKNAME_CHARS)
    ensures AllAsciiAlnum(nickname) && |nickname| >= 18 ==> r == Some(NICKNAME_LENGTH)
  {
    if nickname == [] then Some(NICKNAME_EMPTY)
    else if !AllAsciiAlnum(nickname) then Some(NICKNAME_CHARS)
    else if |nickname| >= 18 then Some(NICKNAME_LENGTH)
    else None
  }

  /** `validateBio`: at most 100 characters. */
  function ValidateBio(bio: string): (r: Option<string>)
    ensures r.None? <==> |bio| <= 100
  {
    if |bio| > 100 then Some(BIO_LENGTH) else None
  }

  /** The name lengths accepted are 1 to 7, 9 and 10, whatever the message says. */
  lemma NameLengthsAccepted(name: string)
    requires |name| in {1, 9, 10}
    ensures ValidateName(name).None?
  {
  }
}
