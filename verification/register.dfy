/** The sign-up page: a live password-confirmation warning, and a submit that refuses
    mismatching passwords, then creates the account and locks the inputs. */
module RegisterPage {
  import opened Wrappers

  const MismatchMessage := "Passwords do not match."
  const CreatedMessage := "Account created successfully! Proceed to login."
  const EmailInUseMessage := "The email address is already in use by another account."
  const InvalidEmailMessage := "The email address format is invalid."
  const WeakPasswordMessage := "The password is too weak. Please use at least 6 characters."
  const UnexpectedSignUpMessage := "An unexpected error occurred. Please try again."

  /** `checkPasswordMatch`'s warning: only when both fields are filled in and differ. */
  function MismatchWarning(password: string, confirmation: string): (w: Option<string>)
    ensures w.Some? <==> password != "" && confirmation != "" && password != confirmation
    ensures w.Some? ==> w.value == MismatchMessage
  {
    if password != "" && confirmation != "" && password != confirmation then Some(MismatchMessage) else None
  }

  /** The message for a rejected sign-up with error code `code`. */
  function SignUpErrorMessage(code: string): (m: string)
    ensures m == EmailInUseMessage <==> code == "auth/email-already-in-use"
    ensures m == InvalidEmailMessage <==> code == "auth/invalid-email"
    ensures m == WeakPasswordMessage <==> code == "auth/weak-password"
    ensures m == UnexpectedSignUpMessage <==>
              code != "auth/email-already-in-use" && code != "auth/invalid-email" && code != "auth/weak-password"
  {
    if code == "auth/email-already-in-use" then EmailInUseMessage
    else if code == "auth/invalid-email" then InvalidEmailMessage
    else if code == "auth/weak-password" then WeakPasswordMessage
    else UnexpectedSignUpMessage
  }

  /** A shown warning always means the submit will refuse; the converse fails while one
      of the fields is empty, where no warning shows but the submit still refuses. */
  lemma WarningImpliesRefusal(password: string, confirmation: string)
    ensures MismatchWarning(password, confirmation).Some? ==> password != confirmation
    ensures (password == "" || confirmation == "") ==> MismatchWarning(password, confirmation).None?
  {
  }

  class Register {
    var email: string
    var password: string
    var passwordConfirm: string
    var errorMessage: Option<string>
    var successMessage: Option<string>
    var inputsDisabled: bool
    var passwordMismatchError: Option<string>

    constructor()
      ensures email == "" && password == "" && passwordConfirm == ""
      ensures errorMessage == None && successMessage == None
      ensures !inputsDisabled && passwordMismatchError == None
    {
      email := "";
      password := "";
      passwordConfirm := "";
      errorMessage := None;
      successMessage := None;
      inputsDisabled := false;
      passwordMismatchError := None;
    }

    method CheckPasswordMatch()
      modifies this
      ensures passwordMismatchError == MismatchWarning(password, passwordConfirm)
      ensures email == old(email) && password == old(password) && passwordConfirm == old(passwordConfirm)
      ensures errorMessage == old(errorMessage) && successMessage == old(successMessage)
      ensures inputsDisabled == old(inputsDisabled)
    {
      if password != "" && passwordConfirm != "" && password != passwordConfirm {
        passwordMismatchError := Some(MismatchMessage);
      } else {
        passwordMismatchError := None;
      }
    }

    /** `onSubmit`. `signUp` is the account-creation service (a failure carries the error
        code). Returns whether it was called. */
    method OnSubmit(signUp: (string, string) -> Result<()>) returns (called: bool)
      modifies this
      ensures called <==> old(password) == old(passwordConfirm)
      ensures !called ==> errorMessage == Some(MismatchMessage) && successMessage == None
      ensures called ==> var result := signUp(old(email), old(password));
                         if result.Success? then
                           successMessage == Some(CreatedMessage) && errorMessage == None && inputsDisabled
                         else
                           errorMessage == Some(SignUpErrorMessage(result.msg)) && successMessage == None
      ensures errorMessage.None? || successMessage.None?
      ensures inputsDisabled == (old(inputsDisabled) || (called && signUp(old(email), old(password)).Success?))
      ensures email == old(email) && password == old(password) && passwordConfirm == old(passwordConfirm)
      ensures passwordMismatchError == old(passwordMismatchError)
    {
      errorMessage := None;
      successMessage := None;
      if password != passwordConfirm {
        errorMessage := Some(MismatchMessage);
        return false;
      }
      called := true;
      var result := signUp(email, password);
      if result.Success? {
        successMessage := Some(CreatedMessage);
        inputsDisabled := true;
      } else {
        errorMessage := Some(SignUpErrorMessage(result.msg));
      }
    }
  }
}
