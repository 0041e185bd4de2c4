/**
 * The second sign-up page: nickname, optional profile picture and a short
 * bio. The draft is kept in the session; the submit re-checks the nickname
 * (including whether it is taken), writes the complete user record under
 * the uid left by the first page, and signs the new user in.
 */
module SettingProfile {
  import opened Wrappers
  import Text
  import Validations
  import Signup

  const NICK_EMPTY := "닉네임을 입력해주세요"
  const NICK_HANGUL := "한글은 입력할 수 없습니다"
  const NICK_CHARS := "닉네임은 영어와 숫자만 사용할 수 있습니다"
  const NICK_LENGTH := "닉네임은 18글자 미만으로만 입력가능합니다"
  const NICK_TAKEN := "닉네임이 중복됩니다"
  const BIO_LENGTH := "소개글은 100자 이하로 입력해주세요"
  const ENTER_NICKNAME := "닉네임을 입력하세요"
  const RECHECK_NICKNAME := "닉네임을 다시 확인해주세요."
  const RECHECK_BOTH := "닉네임과 소개글을 다시 확인해주세요."
  const SIGNUP_SKIPPED := "회원가입 절차가 누락되었습니다. 다시 진행해주세요."
  const NO_SIGNUP_INFO := "회원가입 정보가 없습니다."
  const SIGNIN_FAILED := "로그인에 실패했습니다: "
  const COMPLETED := "회원가입이 완료되었습니다!"
  const SIGNUP_PROBLEM := "회원가입 중 문제가 발생했습니다."

  /** A Hangul jamo or syllable: the class `[ㄱ-ㅎㅏ-ㅣ가-힣]`. */
  predicate IsHangul(c: char)
  {
    ('ㄱ' <= c <= 'ㅎ') || ('ㅏ' <= c <= 'ㅣ') || ('가' <= c <= '힣')
  }

  predicate HasHangul(s: string) { exists i :: 0 <= i < |s| && IsHangul(s[i]) }

  /**
   * The page's own `validateNickname`. `taken` is the store's answer to
   * whether another user has this nickname; it is asked only once the
   * format checks pass.
   */
  function ValidateNickname(nickname: string, taken: bool): (r: Option<string>)
    ensures r.None? <==> 0 < |nickname| < 18 && Validations.AllAsciiAlnum(nickname) && !taken
    ensures nickname == "" ==> r == Some(NICK_EMPTY)
    ensures nickname != "" && HasHangul(nickname) ==> r == Some(NICK_HANGUL)
    ensures Validations.AllAsciiAlnum(nickname) && |nickname| >= 18 ==> r == Some(NICK_LENGTH)
    ensures 0 < |nickname| < 18 && Validations.AllAsciiAlnum(nickname) ==> (r == Some(NICK_TAKEN) <==> taken)
  {
    if nickname == "" then Some(NICK_EMPTY)
    else if HasHangul(nickname) then
      HangulIsNotAlnum(nickname);
      Some(NICK_HANGUL)
    else if !Validations.AllAsciiAlnum(nickname) then Some(NICK_CHARS)
    else if |nickname| >= 18 then Some(NICK_LENGTH)
    else if taken then Some(NICK_TAKEN)
    else None
  }

  lemma HangulIsNotAlnum(s: string)
    requires HasHangul(s)
    ensures !Validations.AllAsciiAlnum(s)
  {
    var i :| 0 <= i < |s| && IsHangul(s[i]);
    assert !Text.IsAsciiAlnum(s[i]);
  }

  /** The lookup's answer matters only for a nickname whose format passes. */
  lemma LookupOnlyAfterFormat(nickname: string)
    requires !(0 < |nickname| < 18 && Validations.AllAsciiAlnum(nickname))
    ensures ValidateNickname(nickname, true) == ValidateNickname(nickname, false)
  {
  }

  /** Apart from the lookup, this check accepts exactly what the shared `validateNickname` accepts. */
  lemma AgreesWithSharedRule(nickname: string)
    ensures ValidateNickname(nickname, false).None? <==> Validations.ValidateNickname(nickname).None?
  {
  }

  /** The page's own `validateBio`. */
  function ValidateBio(bio: string): (r: Option<string>)
    ensures r.None? <==> |bio| <= 100
    ensures r.Some? ==> r.value == BIO_LENGTH
  {
    if |bio| > 100 then Some(BIO_LENGTH) else None
  }

  /** The draft kept under `profileDraft`. */
  datatype Profile = Profile(nickname: string, profileImageUrl: string, bio: string)

  /** A user record: the first page's fields, the uid, and the three profile fields once set. */
  datatype Account = Account(
    uid: string, details: Signup.User,
    nickname: Option<string>, profileImageUrl: Option<string>, bio: Option<string>)

  /** `!baseUser?.uid`: no stored record, or one whose uid is empty. */
  predicate HasUid(s: Option<Account>) { s.Some? && s.value.uid != "" }

  /** The record written to the store: the stored one with exactly the three profile fields replaced. */
  function FullUser(base: Account, p: Profile, url: string): (r: Account)
    ensures r.uid == base.uid && r.details == base.details
    ensures r.nickname == Some(p.nickname) && r.profileImageUrl == Some(url) && r.bio == Some(p.bio)
  {
    base.(nickname := Some(p.nickname), profileImageUrl := Some(url), bio := Some(p.bio))
  }

  /** Where the alert's button puts the focus. */
  datatype Focus = NicknameInput | BioInput | NoFocus

  /** `signin(email, password)`'s answer. */
  datatype SigninResult = SigninResult(success: bool, message: string)

  datatype Outcome =
    | Notice(message: string, focus: Focus)   // an alert, and the submit stops
    | Completed                                // signed in; the drafts are dropped and the home page opens

  /** What a submit did: the alert it shows and the record it wrote, if any. */
  datatype Submission = Submission(outcome: Outcome, written: Option<Account>)

  /**
   * The decision `handleSubmit` takes. `taken` answers the nickname lookup;
   * `upload` is the uploaded picture's address when a file was chosen
   * (`None` when the upload throws); `writeOk` is the store write.
   */
  function Decide(
    p: Profile, nicknameError: Option<string>, bioError: Option<string>, taken: bool,
    hasFile: bool, upload: Option<string>, writeOk: bool, signin: SigninResult, base: Option<Account>): (r: Submission)
    ensures Text.IsBlank(p.nickname) ==> r == Submission(Notice(ENTER_NICKNAME, NicknameInput), None)
    ensures !Text.IsBlank(p.nickname) && ValidateNickname(p.nickname, taken).Some? ==>
              r == Submission(Notice(RECHECK_NICKNAME, NicknameInput), None)
    ensures r.written.Some? ==>
              !Text.IsBlank(p.nickname) && ValidateNickname(p.nickname, taken).None?
              && nicknameError.None? && bioError.None? && HasUid(base) && writeOk && (hasFile ==> upload.Some?)
    ensures !Text.IsBlank(p.nickname) && ValidateNickname(p.nickname, taken).None?
            && nicknameError.None? && bioError.None? && !HasUid(base) ==>
              r == Submission(Notice(NO_SIGNUP_INFO, NoFocus), None)
    ensures r.written.Some? ==> r.written == Some(FullUser(base.value, p, if hasFile then upload.value else p.profileImageUrl))
    ensures r.outcome == Completed <==> r.written.Some? && signin.success
    ensures r.written.Some? && !signin.success ==> r.outcome == Notice(SIGNIN_FAILED + signin.message, NoFocus)
  {
    if Text.IsBlank(p.nickname) then Submission(Notice(ENTER_NICKNAME, NicknameInput), None)
    else if ValidateNickname(p.nickname, taken).Some? then Submission(Notice(RECHECK_NICKNAME, NicknameInput), None)
    else if nicknameError.Some? || bioError.Some? then
      Submission(Notice(RECHECK_BOTH, if nicknameError.Some? then NicknameInput else BioInput), None)
    else if !HasUid(base) then Submission(Notice(NO_SIGNUP_INFO, NoFocus), None)
    else if hasFile && upload.None? then Submission(Notice(SIGNUP_PROBLEM, NoFocus), None)
    else if !writeOk then Submission(Notice(SIGNUP_PROBLEM, NoFocus), None)
    else
      var account := FullUser(base.value, p, if hasFile then upload.value else p.profileImageUrl);
      if !signin.success then Submission(Notice(SIGNIN_FAILED + signin.message, NoFocus), Some(account))
      else Submission(Completed, Some(account))
  }

  /** Stale messages from earlier edits stop the submit even when the fresh nickname check passes. */
  lemma StoredErrorsStop(p: Profile, nicknameError: Option<string>, bioError: Option<string>, taken: bool,
                         hasFile: bool, upload: Option<string>, writeOk: bool, signin: SigninResult, base: Option<Account>)
    requires !Text.IsBlank(p.nickname) && ValidateNickname(p.nickname, taken).None?
    requires nicknameError.Some? || bioError.Some?
    ensures Decide(p, nicknameError, bioError, taken, hasFile, upload, writeOk, signin, base).outcome.Notice?
    ensures Decide(p, nicknameError, bioError, taken, hasFile, upload, writeOk, signin, base).outcome.message == RECHECK_BOTH
    ensures Decide(p, nicknameError, bioError, taken, hasFile, upload, writeOk, signin, base).outcome.focus
              == (if nicknameError.Some? then NicknameInput else BioInput)
  {
  }

  /** The page state and the two session entries it reads and writes. */
  class Page {
    var profile: Profile
    var nicknameError: Option<string>
    var bioError: Option<string>
    /** Whether a picture file was chosen. */
    var hasFile: bool
    var loading: bool
    /** The session entries `profileDraft` and `signupUser`. */
    var draft: Option<Profile>
    var signupUser: Option<Account>

    constructor (draftSession: Option<Profile>, signupSession: Option<Account>)
      ensures profile == Profile("", "", "") && nicknameError.None? && bioError.None?
      ensures !hasFile && !loading && draft == draftSession && signupUser == signupSession
    {
      profile := Profile("", "", "");
      nicknameError, bioError := None, None;
      hasFile, loading := false, false;
      draft, signupUser := draftSession, signupSession;
    }

    /** The restore effect: a saved draft comes back, and its non-empty fields are re-validated. */
    method Restore(taken: bool)
      modifies this`profile, this`nicknameError, this`bioError
      ensures draft.None? ==> profile == old(profile) && nicknameError == old(nicknameError) && bioError == old(bioError)
      ensures draft.Some? ==> profile == draft.value
      ensures draft.Some? ==>
                nicknameError == (if profile.nickname != "" then ValidateNickname(profile.nickname, taken) else old(nicknameError))
      ensures draft.Some? ==> bioError == (if profile.bio != "" then ValidateBio(profile.bio) else old(bioError))
    {
      if draft.Some? {
        profile := draft.value;
        if profile.nickname != "" {
          nicknameError := ValidateNickname(profile.nickname, taken);
        }
        if profile.bio != "" {
          bioError := ValidateBio(profile.bio);
        }
      }
    }

    /** The guard effect: without a stored uid the visitor is sent back to the first page. */
    method CheckSignup() returns (alert: Option<string>)
      ensures alert.Some? <==> !HasUid(signupUser)
      ensures alert.Some? ==> alert.value == SIGNUP_SKIPPED
    {
      alert := if HasUid(signupUser) then None else Some(SIGNUP_SKIPPED);
    }

    /** `handleChange` for the nickname. */
    method ChangeNickname(value: string, taken: bool)
      modifies this`profile, this`draft, this`nicknameError
      ensures profile == old(profile).(nickname := value) && draft == Some(profile)
      ensures nicknameError == ValidateNickname(value, taken)
    {
      profile := profile.(nickname := value);
      draft := Some(profile);
      nicknameError := ValidateNickname(value, taken);
    }

    /** `handleChange` for the bio. */
    method ChangeBio(value: string)
      modifies this`profile, this`draft, this`bioError
      ensures profile == old(profile).(bio := value) && draft == Some(profile)
      ensures bioError == ValidateBio(value)
    {
      profile := profile.(bio := value);
      draft := Some(profile);
      bioError := ValidateBio(value);
    }

    /** `handleImageSelect`: a chosen file is previewed from a local address. */
    method SelectImage(previewUrl: Option<string>)
      modifies this`profile, this`draft, this`hasFile
      ensures previewUrl.None? ==> profile == old(profile) && draft == old(draft) && hasFile == old(hasFile)
      ensures previewUrl.Some? ==> profile == old(profile).(profileImageUrl := previewUrl.value) && draft == Some(profile) && hasFile
    {
      if previewUrl.Some? {
        profile := profile.(profileImageUrl := previewUrl.value);
        hasFile := true;
        draft := Some(profile);
      }
    }

    /** `handleSubmit`: the decision above, with its effects on the page and the session. */
    method Submit(taken: bool, upload: Option<string>, writeOk: bool, signin: SigninResult)
      returns (s: Submission)
      modifies this`nicknameError, this`draft, this`signupUser, this`loading
      ensures s == Decide(old(profile), old(nicknameError), bioError, taken, hasFile, upload, writeOk, signin, old(signupUser))
      ensures !loading
      ensures !Text.IsBlank(profile.nickname) && ValidateNickname(profile.nickname, taken).Some? ==>
                nicknameError == ValidateNickname(profile.nickname, taken)
      ensures !(!Text.IsBlank(profile.nickname) && ValidateNickname(profile.nickname, taken).Some?) ==>
                nicknameError == old(nicknameError)
      ensures s.outcome == Completed ==> draft.None? && signupUser.None?
      ensures s.outcome != Completed ==> draft == old(draft) && signupUser == old(signupUser)
    {
      s := Decide(profile, nicknameError, bioError, taken, hasFile, upload, writeOk, signin, signupUser);
      if !Text.IsBlank(profile.nickname) && ValidateNickname(profile.nickname, taken).Some? {
        nicknameError := ValidateNickname(profile.nickname, taken);
      }
      if s.outcome == Completed {
        draft, signupUser := None, None;
      }
      loading := false;
    }
  }
}
