/** The sign-in and sign-up screen (src/pages/Auth.tsx): two tabs, form
    validation, password sign-in, sign-up, and a magic-link request. The
    authentication service's answers enter as parameters: `None` for
    success, `Some(message)` for an error. */
module AuthScreen {
  import opened Common
  import opened Text

  datatype Tab = SignInTab | SignUpTab

  /** The first tab: sign-up exactly when the query has `mode=signup`. */
  function InitialTab(mode: Option<string>): (t: Tab)
    ensures t == SignUpTab <==> mode == Some("signup")
  {
    if mode == Some("signup") then SignUpTab else SignInTab
  }

  const EmailMessage: string := "Please enter a valid email address"
  const PasswordMessage: string := "Password must be at least 8 characters"
  const FullNameMessage: string := "Full name is required"

  /** The per-field messages under the inputs. */
  datatype FormErrors = FormErrors(email: Option<string>, password: Option<string>, fullName: Option<string>)

  const NoErrors: FormErrors := FormErrors(None, None, None)

  /** `validateForm`'s messages. `isEmail` stands for the e-mail schema's
      check; the password needs 8 UTF-16 code units; the full name is checked
      (after trimming) only when signing up. */
  function ValidationErrors(isEmail: string -> bool, email: string, password: string, fullName: string, isSignup: bool)
    : FormErrors
  {
    FormErrors(
      if isEmail(email) then None else Some(EmailMessage),
      if Utf16Length(password) < 8 then Some(PasswordMessage) else None,
      if isSignup && Trim(fullName) == "" then Some(FullNameMessage) else None)
  }

  /** A form passes exactly when no field has a message; a full name made
      of white space only counts as missing. Passing the sign-up checks
      implies passing the sign-in checks, which never look at the name. */
  lemma ValidationVerdict(isEmail: string -> bool, email: string, password: string, fullName: string, isSignup: bool)
    ensures ValidationErrors(isEmail, email, password, fullName, isSignup) == NoErrors <==>
      && isEmail(email) && Utf16Length(password) >= 8
      && (isSignup ==> exists i :: 0 <= i < |fullName| && !IsJsSpace(fullName[i]))
    ensures ValidationErrors(isEmail, email, password, fullName, true) == NoErrors ==>
      ValidationErrors(isEmail, email, password, fullName, false) == NoErrors
    ensures ValidationErrors(isEmail, email, password, fullName, false)
         == ValidationErrors(isEmail, email, password, "", false)
  {
    TrimEmptyIff(fullName);
  }

  /** For a password inside the Basic Multilingual Plane the minimum is 8
      characters; four characters above it (each two code units) already
      reach it. */
  lemma PasswordMinimum(password: string)
    ensures (forall i :: 0 <= i < |password| ==> password[i] as int <= 0xFFFF) ==>
      (Utf16Length(password) >= 8 <==> |password| >= 8)
    ensures Utf16Length("\U{1F511}\U{1F511}\U{1F511}\U{1F511}") == 8
  {
    if forall i :: 0 <= i < |password| ==> password[i] as int <= 0xFFFF {
      Utf16LengthInBmp(password);
    }
    var four := "\U{1F511}\U{1F511}\U{1F511}\U{1F511}";
    assert four[1..][1..][1..][1..] == [];
  }

  /** The description of the sign-in failure notice. */
  function SignInFailureText(message: string): string {
    if message == "Invalid login credentials" then "Email or password is incorrect. Please try again." else message
  }

  /** The notice rewords exactly one service message, and shows every other
      one as it came. */
  lemma SignInFailureTextRewordsOnlyBadCredentials(message: string)
    ensures SignInFailureText(message) != message <==> message == "Invalid login credentials"
    ensures message != "Invalid login credentials" ==> SignInFailureText(message) == message
  {
    if message == "Invalid login credentials" {
      assert |SignInFailureText(message)| != |message|;
    }
  }

  /** A sign-up error that sends the visitor to the sign-in tab. */
  function AlreadyRegistered(message: string): (b: bool)
    ensures b <==> exists i :: OccursAt(message, "already registered", i)
  {
    Contains(message, "already registered")
  }

  /** The requests made to the authentication service. */
  datatype AuthCall =
    | SignInWithPassword(email: string, password: string)
    | SignUp(email: string, password: string, fullName: string)
    | SignInWithOtp(email: string)

  /** How a submission ended. */
  datatype Attempt =
    | Invalid                 // validation failed: nothing was sent
    | Refused(text: string)   // the service answered with an error (the notice's text)
    | Succeeded

  /** The screen's state. */
  class AuthPage {
    var activeTab: Tab
    var loading: bool
    var magicLinkSent: bool
    var email: string
    var password: string
    var fullName: string
    var errors: FormErrors
    var navigations: seq<Route>
    var calls: seq<AuthCall>

    constructor (mode: Option<string>)
      ensures activeTab == InitialTab(mode) && !loading && !magicLinkSent
      ensures email == "" && password == "" && fullName == "" && errors == NoErrors
      ensures navigations == [] && calls == []
    {
      activeTab, loading, magicLinkSent := InitialTab(mode), false, false;
      email, password, fullName, errors := "", "", "", NoErrors;
      navigations, calls := [], [];
    }

    /** The session listener and the initial session read: a visitor who is
        already signed in is sent to /dashboard. */
    method OnSession(signedIn: bool)
      modifies this
      ensures navigations == old(navigations) + if signedIn then [Dashboard] else []
    {
      if signedIn {
        navigations := navigations + [Dashboard];
      }
    }

    /** `validateForm`: replaces the messages and reports whether there are none. */
    method ValidateForm(isEmail: string -> bool, isSignup: bool) returns (valid: bool)
      modifies this
      ensures errors == ValidationErrors(isEmail, email, password, fullName, isSignup)
      ensures valid <==> errors == NoErrors
      ensures activeTab == old(activeTab) && loading == old(loading) && magicLinkSent == old(magicLinkSent)
      ensures email == old(email) && password == old(password) && fullName == old(fullName)
      ensures navigations == old(navigations) && calls == old(calls)
    {
      errors := ValidationErrors(isEmail, email, password, fullName, isSignup);
      valid := errors == NoErrors;
    }

    /** `handleSignIn`. */
    method HandleSignIn(isEmail: string -> bool, failure: Option<string>) returns (a: Attempt)
      modifies this
      ensures errors == ValidationErrors(isEmail, email, password, fullName, false)
      ensures a == (if errors != NoErrors then Invalid
                    else if failure.Some? then Refused(SignInFailureText(failure.value))
                    else Succeeded)
      ensures calls == old(calls) + if a == Invalid then [] else [SignInWithPassword(email, password)]
      ensures navigations == old(navigations) + if a == Succeeded then [Dashboard] else []
      ensures loading == (if a == Invalid then old(loading) else false)
      ensures activeTab == old(activeTab) && magicLinkSent == old(magicLinkSent)
      ensures email == old(email) && password == old(password) && fullName == old(fullName)
    {
      var valid := ValidateForm(isEmail, false);
      if !valid {
        return Invalid;
      }
      loading := true;
      calls := calls + [SignInWithPassword(email, password)];
      if failure.Some? {
        a := Refused(SignInFailureText(failure.value));
      } else {
        a := Succeeded;
        navigations := navigations + [Dashboard];
      }
      loading := false;
    }

    /** `handleSignUp`. The full name is sent as typed, untrimmed. */
    method HandleSignUp(isEmail: string -> bool, failure: Option<string>) returns (a: Attempt)
      modifies this
      ensures errors == ValidationErrors(isEmail, email, password, fullName, true)
      ensures a == (if errors != NoErrors then Invalid
                    else if failure.Some? then Refused(failure.value)
                    else Succeeded)
      ensures calls == old(calls) + if a == Invalid then [] else [SignUp(email, password, fullName)]
      ensures navigations == old(navigations) + if a == Succeeded then [Dashboard] else []
      ensures activeTab == if a.Refused? && AlreadyRegistered(a.text) then SignInTab else old(activeTab)
      ensures loading == (if a == Invalid then old(loading) else false)
      ensures magicLinkSent == old(magicLinkSent)
      ensures email == old(email) && password == old(password) && fullName == old(fullName)
    {
      var valid := ValidateForm(isEmail, true);
      if !valid {
        return Invalid;
      }
      loading := true;
      calls := calls + [SignUp(email, password, fullName)];
      if failure.Some? {
        a := Refused(failure.value);
        if AlreadyRegistered(failure.value) {
          activeTab := SignInTab;
        }
      } else {
        a := Succeeded;
        navigations := navigations + [Dashboard];
      }
      loading := false;
    }

    /** `handleMagicLink`: only the e-mail is checked. A bad address replaces
        all messages with the e-mail one; a sent link marks the form but
        leaves earlier messages in place. */
    method HandleMagicLink(isEmail: string -> bool, failure: Option<string>) returns (a: Attempt)
      modifies this
      ensures a == (if !isEmail(email) then Invalid else if failure.Some? then Refused(failure.value) else Succeeded)
      ensures errors == if a == Invalid then FormErrors(Some(EmailMessage), None, None) else old(errors)
      ensures calls == old(calls) + if a == Invalid then [] else [SignInWithOtp(email)]
      ensures magicLinkSent == (a == Succeeded || old(magicLinkSent))
      ensures loading == (if a == Invalid then old(loading) else false)
      ensures navigations == old(navigations) && activeTab == old(activeTab)
      ensures email == old(email) && password == old(password) && fullName == old(fullName)
    {
      if !isEmail(email) {
        errors := FormErrors(Some(EmailMessage), None, None);
        return Invalid;
      }
      loading := true;
      calls := calls + [SignInWithOtp(email)];
      if failure.Some? {
        a := Refused(failure.value);
      } else {
        a := Succeeded;
        magicLinkSent := true;
      }
      loading := false;
    }

    /** Clicking a tab, or the "Sign up" / "Sign in" links under the card. */
    method SelectTab(t: Tab)
      modifies this
      ensures activeTab == t
      ensures loading == old(loading) && magicLinkSent == old(magicLinkSent) && errors == old(errors)
      ensures navigations == old(navigations) && calls == old(calls)
      ensures email == old(email) && password == old(password) && fullName == old(fullName)
    {
      activeTab := t;
    }
  }
}
