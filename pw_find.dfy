/**
 * The password reset page: a visitor proves who they are with name, phone
 * number and address (or arrives with an address already chosen on the
 * find-my-id page), then types a new password twice. The submit only
 * checks the two fields and reports success; no new password is written
 * anywhere.
 */
module PwFind {
  import opened Wrappers
  import Validations

  const CONFIRM_EMPTY := "비밀번호 확인을 입력해주세요."
  const CONFIRM_MISMATCH := "새 비밀번호와 확인이 일치하지 않습니다."
  const CHANGED := "비밀번호가 성공적으로 변경되었습니다."
  const RECHECK_INPUT := "입력한 정보를 다시 확인해주세요."
  const FILL_ALL := "모든 항목을 입력해주세요."
  const NO_MATCH := "입력하신 정보와 일치하는 사용자를 찾을 수 없습니다."
  const VERIFIED := "본인 인증이 완료되었습니다. 비밀번호를 재설정해주세요."
  const FIND_FAILED := "비밀번호 찾기 중 오류가 발생했습니다."

  /** The `FindPasswordValidation` object: a message per failing field, nothing for a passing one. */
  datatype FormErrors = FormErrors(newPassword: Option<string>, confirmPassword: Option<string>)

  /** `validationResult`. */
  function ValidationResult(newPassword: string, confirmPassword: string): (r: FormErrors)
    ensures r.newPassword.Some? <==> Validations.ValidatePassword(newPassword).Some?
    ensures r.newPassword.Some? ==> r.newPassword == Validations.ValidatePassword(newPassword)
    ensures confirmPassword == "" ==> r.confirmPassword == Some(CONFIRM_EMPTY)
    ensures confirmPassword != "" && confirmPassword != newPassword ==> r.confirmPassword == Some(CONFIRM_MISMATCH)
    ensures confirmPassword != "" && confirmPassword == newPassword ==> r.confirmPassword.None?
  {
    var np := Validations.ValidatePassword(newPassword);
    var cp := if confirmPassword == "" then Some(CONFIRM_EMPTY)
              else if newPassword != confirmPassword then Some(CONFIRM_MISMATCH)
              else None;
    FormErrors(np, cp)
  }

  /** `Object.keys(validationResult).length === 0`. */
  predicate NoErrors(e: FormErrors) { e.newPassword.None? && e.confirmPassword.None? }

  /** The form is valid iff the new password has 8 to 11 characters and the confirmation repeats it. */
  lemma ValidFormIff(newPassword: string, confirmPassword: string)
    ensures NoErrors(ValidationResult(newPassword, confirmPassword)) <==>
              8 <= |newPassword| < 12 && confirmPassword == newPassword
  {
  }

  /** `inputErrors.x || ""`-style text: empty means no error. */
  function ErrorText(e: Option<string>): string { e.GetOr("") }

  /** The page state and the session entries it uses. */
  class Page {
    var inputName: string
    var inputPhone: string
    var inputEmail: string
    var nameError: string
    var phoneError: string
    var emailError: string
    /** The verified address; non-empty once the visitor is identified. */
    var email: string
    var newPassword: string
    var confirmPassword: string
    var validation: FormErrors
    /** The session's `selectedRealEmail` entry. */
    var selectedRealEmail: Option<string>
    /** The session entries under `pwfind-name`, `pwfind-phone` and `pwfind-email`. */
    var savedName: Option<string>
    var savedPhone: Option<string>
    var savedEmail: Option<string>

    constructor (session: Option<string>, name: Option<string>, phone: Option<string>, mail: Option<string>)
      ensures inputName == "" && inputPhone == "" && inputEmail == ""
      ensures nameError == "" && phoneError == "" && emailError == ""
      ensures email == "" && newPassword == "" && confirmPassword == ""
      ensures validation == FormErrors(None, None) && selectedRealEmail == session
      ensures savedName == name && savedPhone == phone && savedEmail == mail
    {
      inputName, inputPhone, inputEmail := "", "", "";
      nameError, phoneError, emailError := "", "", "";
      email, newPassword, confirmPassword := "", "", "";
      validation := FormErrors(None, None);
      selectedRealEmail := session;
      savedName, savedPhone, savedEmail := name, phone, mail;
    }

    /** The identity form is shown only while neither a user nor a verified address is present. */
    predicate ShowsIdentityForm(signedIn: bool)
      reads this
    {
      !signedIn && email == ""
    }

    /**
     * The mount effect: a stored selected address is taken as verified and
     * the identity form is skipped; otherwise the saved inputs are restored
     * and validated (the address without a duplicate check).
     */
    method Restore()
      modifies this`email, this`inputName, this`inputPhone, this`inputEmail, this`nameError, this`phoneError, this`emailError
      ensures selectedRealEmail.Some? && selectedRealEmail.value != "" ==>
                email == selectedRealEmail.value && !ShowsIdentityForm(false)
                && inputName == old(inputName) && inputPhone == old(inputPhone) && inputEmail == old(inputEmail)
      ensures !(selectedRealEmail.Some? && selectedRealEmail.value != "") ==>
                email == old(email)
                && inputName == savedName.GetOr("") && inputPhone == savedPhone.GetOr("") && inputEmail == savedEmail.GetOr("")
                && nameError == ErrorText(Validations.ValidateName(inputName))
                && phoneError == ErrorText(Validations.ValidatePhone(inputPhone))
                && emailError == (if inputEmail == "" then "" else ErrorText(Validations.ValidateEmail(inputEmail, false, false).error))
    {
      if selectedRealEmail.Some? && selectedRealEmail.value != "" {
        email := selectedRealEmail.value;
        return;
      }
      inputName, inputPhone, inputEmail := savedName.GetOr(""), savedPhone.GetOr(""), savedEmail.GetOr("");
      nameError := ErrorText(Validations.ValidateName(inputName));
      phoneError := ErrorText(Validations.ValidatePhone(inputPhone));
      emailError := "";
      if inputEmail != "" {
        var check := Validations.ValidateEmail(inputEmail, false, false);
        if check.error.Some? {
          emailError := check.error.value;
        }
      }
    }

    /** `handleInputChange` for the name field. */
    method ChangeName(value: string)
      modifies this`inputName, this`nameError, this`savedName
      ensures inputName == value && savedName == Some(value) && nameError == ErrorText(Validations.ValidateName(value))
    {
      nameError := ErrorText(Validations.ValidateName(value));
      inputName := value;
      savedName := Some(value);
    }

    /** `handleInputChange` for the phone field. */
    method ChangePhone(value: string)
      modifies this`inputPhone, this`phoneError, this`savedPhone
      ensures inputPhone == value && savedPhone == Some(value) && phoneError == ErrorText(Validations.ValidatePhone(value))
    {
      phoneError := ErrorText(Validations.ValidatePhone(value));
      inputPhone := value;
      savedPhone := Some(value);
    }

    /** `handleInputChange` for the address field: validated without a duplicate check. */
    method ChangeEmail(value: string)
      modifies this`inputEmail, this`emailError, this`savedEmail
      ensures inputEmail == value && savedEmail == Some(value) && emailError == ErrorText(Validations.ValidateEmail(value, false, false).error)
    {
      emailError := ErrorText(Validations.ValidateEmail(value, false, false).error);
      inputEmail := value;
      savedEmail := Some(value);
    }

    /** `handleChange` for the two password fields, followed by the effect that runs `validateForm`. */
    method ChangePasswords(np: string, cp: string)
      modifies this`newPassword, this`confirmPassword, this`validation
      ensures newPassword == np && confirmPassword == cp && validation == ValidationResult(np, cp)
    {
      newPassword, confirmPassword := np, cp;
      validation := ValidationResult(np, cp);
    }

    /**
     * `handleFindPassword`. `matched` is the store's answer to the query
     * for a user with these three values (`None` when it throws). Stored
     * errors are looked at first, then empty fields, and the store is asked
     * only when both pass.
     */
    method FindPassword(matched: Option<bool>) returns (alert: string, queried: bool)
      modifies this`selectedRealEmail, this`email
      ensures queried <==> nameError == "" && phoneError == "" && emailError == ""
                            && inputName != "" && inputPhone != "" && inputEmail != ""
      ensures (nameError != "" || phoneError != "" || emailError != "") ==> alert == RECHECK_INPUT
      ensures nameError == "" && phoneError == "" && emailError == "" && (inputName == "" || inputPhone == "" || inputEmail == "") ==>
                alert == FILL_ALL
      ensures queried && matched.None? ==> alert == FIND_FAILED
      ensures queried && matched == Some(false) ==> alert == NO_MATCH
      ensures queried && matched == Some(true) ==>
                alert == VERIFIED && email == inputEmail && selectedRealEmail == Some(inputEmail)
                && !ShowsIdentityForm(false)
      ensures !(queried && matched == Some(true)) ==> email == old(email) && selectedRealEmail == old(selectedRealEmail)
    {
      if nameError != "" || phoneError != "" || emailError != "" {
        return RECHECK_INPUT, false;
      }
      if inputName == "" || inputPhone == "" || inputEmail == "" {
        return FILL_ALL, false;
      }
      queried := true;
      if matched.None? {
        return FIND_FAILED, queried;
      }
      if !matched.value {
        return NO_MATCH, queried;
      }
      selectedRealEmail := Some(inputEmail);
      email := inputEmail;
      alert := VERIFIED;
    }

    /** `handleSubmit`: the validation is stored, and only a valid form reports success. */
    method Submit() returns (alert: Option<string>)
      modifies this`validation
      ensures validation == ValidationResult(newPassword, confirmPassword)
      ensures alert.Some? <==> NoErrors(validation)
      ensures alert.Some? ==> alert.value == CHANGED
    {
      validation := ValidationResult(newPassword, confirmPassword);
      if !NoErrors(validation) {
        return None;
      }
      alert := Some(CHANGED);
    }

    /** The success alert's button: the selected address is forgotten before going to sign-in. */
    method ConfirmChanged()
      modifies this`selectedRealEmail
      ensures selectedRealEmail.None?
    {
      selectedRealEmail := None;
    }
  }
}
