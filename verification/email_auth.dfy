/** EmailAuthView: the form's validity rule and what `handleAuth` does with
    the outcome of the sign-in or sign-up call. The authentication service
    itself is outside the model: its outcome is a parameter. */
module EmailAuth {
  import opened Common

  datatype Mode = SignIn | SignUp

  /** `formIsValid`: email and password are non-empty, and when signing up
      the confirmation matches the password. */
  function FormIsValid(mode: Mode, email: string, password: string, confirmPassword: string): (r: bool)
    ensures email == "" || password == "" ==> !r
    ensures mode == SignIn ==> (r <==> email != "" && password != "")
    ensures mode == SignUp ==> (r <==> email != "" && password != "" && password == confirmPassword)
  {
    if email == "" || password == "" then false
    else if mode == SignUp then password == confirmPassword
    else true
  }

  /** Signing in never looks at the confirmation field. */
  lemma SignInIgnoresConfirmation(email: string, password: string, c1: string, c2: string)
    ensures FormIsValid(SignIn, email, password, c1) == FormIsValid(SignIn, email, password, c2)
  {
  }

  /** A form valid for signing up is valid for signing in. */
  lemma SignUpIsStricter(email: string, password: string, confirmPassword: string)
    ensures FormIsValid(SignUp, email, password, confirmPassword) ==> FormIsValid(SignIn, email, password, confirmPassword)
  {
  }

  class EmailAuthScreen {
    var mode: Mode
    var email: string
    var password: string
    var confirmPassword: string
    var showingError: bool
    var errorMessage: string
    var showDogSetup: bool
    var dismissed: bool

    constructor ()
      ensures mode == SignIn && email == "" && password == "" && confirmPassword == ""
      ensures !showingError && errorMessage == "" && !showDogSetup && !dismissed
    {
      mode := SignIn;
      email := "";
      password := "";
      confirmPassword := "";
      showingError := false;
      errorMessage := "";
      showDogSetup := false;
      dismissed := false;
    }

    /** `handleAuth`, run from the enabled button, with the outcome of the
        auth call. The error flag is cleared first. A successful sign-in
        dismisses the screen; a successful sign-up opens the dog setup
        instead. A failure shows the error and its message. */
    method HandleAuth(outcome: Result<()>)
      requires FormIsValid(mode, email, password, confirmPassword)
      modifies this
      ensures outcome.Ok? ==> !showingError && errorMessage == old(errorMessage)
      ensures outcome.Ok? && mode == SignIn ==> dismissed && showDogSetup == old(showDogSetup)
      ensures outcome.Ok? && mode == SignUp ==> showDogSetup && dismissed == old(dismissed)
      ensures outcome.Err? ==> showingError && errorMessage == outcome.message
                               && showDogSetup == old(showDogSetup) && dismissed == old(dismissed)
      ensures mode == old(mode) && email == old(email) && password == old(password) && confirmPassword == old(confirmPassword)
    {
      showingError := false;
      if outcome.Ok? {
        if mode == SignIn {
          dismissed := true;
        } else {
          showDogSetup := true;
        }
      } else {
        showingError := true;
        errorMessage := outcome.message;
      }
    }

    /** The dog setup's `onComplete`: the sheet closes and so does this
        screen. */
    method OnDogSetupComplete()
      modifies this
      ensures !showDogSetup && dismissed
      ensures showingError == old(showingError) && errorMessage == old(errorMessage) && mode == old(mode)
    {
      showDogSetup := false;
      dismissed := true;
    }
  }
}
