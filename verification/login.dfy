/** The sign-in page: submits the credentials, maps a rejected sign-in to a message, and
    sends a password-reset mail for the email typed in. */
module LoginPage {
  import opened Wrappers

  const IncorrectCredentialsMessage := "Incorrect username or password. Please check your details."
  const InvalidEmailMessage := "The email address format is invalid."
  const TooManyAttemptsMessage := "Too many login attempts. Please try again later."
  const UnexpectedLoginMessage := "An unexpected error occurred during login. Please try again."
  const MissingEmailMessage := "Please enter your email address to reset your password."
  const NoAccountMessage := "No account found with that email address."
  const ResetFailedMessage := "Could not send reset email. Please try again."

  /** The three codes the sign-in treats as wrong credentials. */
  predicate IsCredentialError(code: string) {
    code == "auth/user-not-found" || code == "auth/wrong-password" || code == "auth/invalid-credential"
  }

  /** The message for a rejected sign-in with error code `code`. */
  function SignInErrorMessage(code: string): (m: string)
    ensures m == IncorrectCredentialsMessage <==> IsCredentialError(code)
    ensures m == InvalidEmailMessage <==> code == "auth/invalid-email"
    ensures m == TooManyAttemptsMessage <==> code == "auth/too-many-requests"
    ensures m == UnexpectedLoginMessage <==>
              !IsCredentialError(code) && code != "auth/invalid-email" && code != "auth/too-many-requests"
  {
    if IsCredentialError(code) then IncorrectCredentialsMessage
    else if code == "auth/invalid-email" then InvalidEmailMessage
    else if code == "auth/too-many-requests" then TooManyAttemptsMessage
    else UnexpectedLoginMessage
  }

  /** The four classes of codes the sign-in distinguishes. */
  function SignInErrorClass(code: string): nat {
    if IsCredentialError(code) then 0
    else if code == "auth/invalid-email" then 1
    else if code == "auth/too-many-requests" then 2
    else 3
  }

  /** Two codes get the same message exactly when they fall in the same class. */
  lemma SameMessageIffSameClass(a: string, b: string)
    ensures SignInErrorMessage(a) == SignInErrorMessage(b) <==> SignInErrorClass(a) == SignInErrorClass(b)
  {
  }

  /** The message for a rejected reset request. */
  function ResetErrorMessage(code: string): (m: string)
    ensures m == NoAccountMessage <==> code == "auth/user-not-found"
    ensures m == ResetFailedMessage <==> code != "auth/user-not-found"
  {
    if code == "auth/user-not-found" then NoAccountMessage else ResetFailedMessage
  }

  class Login {
    var email: string
    var password: string
    var errorMessage: Option<string>

    constructor()
      ensures email == "" && password == "" && errorMessage == None
    {
      email := "";
      password := "";
      errorMessage := None;
    }

    /** `onSubmit`. `signIn` is the sign-in service (a failure carries the error code).
        Returns whether the page navigates home. */
    method OnSubmit(signIn: (string, string) -> Result<()>) returns (navigated: bool)
      modifies this
      ensures navigated <==> signIn(old(email), old(password)).Success?
      ensures errorMessage == if navigated then None
                              else Some(SignInErrorMessage(signIn(old(email), old(password)).msg))
      ensures email == old(email) && password == old(password)
    {
      errorMessage := None;
      var result := signIn(email, password);
      if result.Success? {
        navigated := true;
      } else {
        navigated := false;
        errorMessage := Some(SignInErrorMessage(result.msg));
      }
    }

    /** `onForgotPassword`. `resetPassword` is the reset service. Returns the address a
        reset was requested for, if one was, and whether the confirmation dialog opens. */
    method OnForgotPassword(resetPassword: string -> Result<()>) returns (requestedFor: Option<string>, dialogShown: bool)
      modifies this
      ensures requestedFor.Some? <==> old(email) != ""
      ensures requestedFor.Some? ==> requestedFor.value == old(email)
      ensures old(email) == "" ==> errorMessage == Some(MissingEmailMessage) && !dialogShown
      ensures old(email) != "" ==>
                (dialogShown <==> resetPassword(old(email)).Success?)
                && errorMessage == if dialogShown then None
                                   else Some(ResetErrorMessage(resetPassword(old(email)).msg))
      ensures email == old(email) && password == old(password)
    {
      errorMessage := None;
      dialogShown := false;
      if email == "" {
        errorMessage := Some(MissingEmailMessage);
        return None, false;
      }
      requestedFor := Some(email);
      var result := resetPassword(email);
      if result.Success? {
        dialogShown := true;
      } else {
        errorMessage := Some(ResetErrorMessage(result.msg));
      }
    }
  }
}
