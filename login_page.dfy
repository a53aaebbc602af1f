/** The login page's decision rules: which sign-in call an identifier takes, how backend
    error texts become messages, which preference-store writes follow a successful
    login, the biometric login, the sign-up checks and the redirect once a user is
    signed in. The backend's answers and the platform probes are parameters. */
module LoginPage {
  import opened Wrappers
  import opened Strings
  import opened SecureStorage
  import Json
  import Base64
  import WhatsAppShare

  // ---------------------------------------------------------------- sign-in route

  datatype SignInPath = EmailSignIn | UsernameSignIn

  /** An identifier containing `@` anywhere is an e-mail address. */
  function SignInRoute(identifier: string): (path: SignInPath)
    ensures path == EmailSignIn <==> '@' in identifier
  {
    ContainsChar(identifier, '@');
    if Contains(identifier, "@") then EmailSignIn else UsernameSignIn
  }

  /** What a sign-in or sign-up call comes back with. */
  datatype AuthResponse = Accepted | Rejected(message: Option<string>) | Threw

  /** Where a handler leaves the page. */
  datatype LoginOutcome = ShowError(message: string) | GoTo(path: string) | StayOnForm

  // ---------------------------------------------------------------- error cascades

  /** The first rule whose pattern the message contains decides; an absent message
      or no match gives the fallback. */
  function FirstMatch<T>(rules: seq<(string, T)>, message: Option<string>, fallback: T): T
  {
    if rules == [] || message.None? then fallback
    else if Contains(message.value, rules[0].0) then rules[0].1
    else FirstMatch(rules[1..], message, fallback)
  }

  lemma {:induction false} FirstMatchSpec<T>(rules: seq<(string, T)>, message: Option<string>, fallback: T)
    ensures forall k ::
      && 0 <= k < |rules| && message.Some? && Contains(message.value, rules[k].0)
      && (forall j :: 0 <= j < k ==> !Contains(message.value, rules[j].0))
      ==> FirstMatch(rules, message, fallback) == rules[k].1
    ensures (message.None? || forall k :: 0 <= k < |rules| ==> !Contains(message.value, rules[k].0))
      ==> FirstMatch(rules, message, fallback) == fallback
  {
    if rules != [] && message.Some? && !Contains(message.value, rules[0].0) {
      FirstMatchSpec(rules[1..], message, fallback);
      assert forall k :: 1 <= k < |rules| ==> rules[k] == rules[1..][k - 1];
    }
  }

  const WaitingApprovalPath := "/waiting-approval"
  const DashboardPath := "/dashboard"
  const LoginFailed := "Login gagal"
  const LoginCrashed := "Terjadi kesalahan saat login"

  const LoginErrorRules: seq<(string, LoginOutcome)> := [
    ("Invalid login credentials", ShowError("Email/Username atau password salah")),
    ("Email not confirmed", ShowError("Email belum dikonfirmasi. Silakan cek email Anda")),
    ("menunggu persetujuan", GoTo(WaitingApprovalPath)),
    ("Username tidak ditemukan", ShowError("Username tidak ditemukan"))
  ]

  /** The login rules taken one at a time. */
  lemma LoginRulesInOrder(message: Option<string>)
    ensures FirstMatch(LoginErrorRules, message, ShowError(LoginFailed))
      == if message.None? then ShowError(LoginFailed)
         else if Contains(message.value, "Invalid login credentials") then ShowError("Email/Username atau password salah")
         else if Contains(message.value, "Email not confirmed") then ShowError("Email belum dikonfirmasi. Silakan cek email Anda")
         else if Contains(message.value, "menunggu persetujuan") then GoTo(WaitingApprovalPath)
         else if Contains(message.value, "Username tidak ditemukan") then ShowError("Username tidak ditemukan")
         else ShowError(LoginFailed)
  {
    var r := LoginErrorRules;
    if message.Some? {
      var fb := ShowError(LoginFailed);
      assert r[1..] == [r[1], r[2], r[3]];
      assert r[1..][1..] == [r[2], r[3]];
      assert r[1..][1..][1..] == [r[3]];
      assert FirstMatch([r[3]], message, fb) == if Contains(message.value, r[3].0) then r[3].1 else fb;
      assert FirstMatch([r[2], r[3]], message, fb)
        == if Contains(message.value, r[2].0) then r[2].1 else FirstMatch([r[3]], message, fb);
      assert FirstMatch([r[1], r[2], r[3]], message, fb)
        == if Contains(message.value, r[1].0) then r[1].1 else FirstMatch([r[2], r[3]], message, fb);
    }
  }

  /** The login error cascade as the handler runs it: `errorMessage` starts as the
      fallback and the first matching test replaces it, except that an account awaiting
      approval leaves for the waiting page without a message. */
  method MapLoginError(message: Option<string>) returns (outcome: LoginOutcome)
    ensures outcome == FirstMatch(LoginErrorRules, message, ShowError(LoginFailed))
  {
    LoginRulesInOrder(message);
    var errorMessage := LoginFailed;
    if message.Some? && Contains(message.value, "Invalid login credentials") {
      errorMessage := "Email/Username atau password salah";
    } else if message.Some? && Contains(message.value, "Email not confirmed") {
      errorMessage := "Email belum dikonfirmasi. Silakan cek email Anda";
    } else if message.Some? && Contains(message.value, "menunggu persetujuan") {
      return GoTo(WaitingApprovalPath);
    } else if message.Some? && Contains(message.value, "Username tidak ditemukan") {
      errorMessage := "Username tidak ditemukan";
    }
    outcome := ShowError(errorMessage);
  }

  /** The cascade stated by the rule table: the waiting page exactly for an approval
      message that neither earlier rule caught, the fallback exactly when no rule
      matches, and the first rule a message matches decides. */
  lemma LoginErrorCascade(m: string)
    ensures var o := FirstMatch(LoginErrorRules, Some(m), ShowError(LoginFailed));
      && (o.GoTo? <==> !Contains(m, "Invalid login credentials") && !Contains(m, "Email not confirmed")
                       && Contains(m, "menunggu persetujuan"))
      && (o.GoTo? ==> o.path == WaitingApprovalPath)
      && (o == ShowError(LoginFailed) <==>
            forall k :: 0 <= k < |LoginErrorRules| ==> !Contains(m, LoginErrorRules[k].0))
      && (forall k ::
            && 0 <= k < |LoginErrorRules| && Contains(m, LoginErrorRules[k].0)
            && (forall j :: 0 <= j < k ==> !Contains(m, LoginErrorRules[j].0))
            ==> o == LoginErrorRules[k].1)
  {
    LoginRulesInOrder(Some(m));
    FirstMatchSpec(LoginErrorRules, Some(m), ShowError(LoginFailed));
  }

  // ---------------------------------------------------------------- storage after login

  /** Which preference-store writes follow a successful login. */
  datatype StoragePlan = EnrolBiometric | RefreshCredentials | IdentifierOnly | NoWrites

  function PlanStorageWrites(rememberMe: bool, available: bool, enabled: bool, native: bool): (plan: StoragePlan)
    ensures plan == EnrolBiometric <==> rememberMe && available && !enabled && native
    ensures plan == RefreshCredentials <==> rememberMe && enabled
    ensures plan == IdentifierOnly <==> rememberMe && !enabled && !available
    ensures plan == NoWrites <==> !rememberMe || (available && !enabled && !native)
  {
    if rememberMe && available && !enabled && native then EnrolBiometric
    else if rememberMe && enabled then RefreshCredentials
    else if rememberMe && !available then IdentifierOnly
    else NoWrites
  }

  /** The keys each plan writes. */
  function PlanKeys(plan: StoragePlan): set<string>
  {
    match plan
    case EnrolBiometric => AllKeys
    case RefreshCredentials => {SavedCredentialsKey, SavedIdentifierKey, RememberMeKey}
    case IdentifierOnly => {SavedIdentifierKey, RememberMeKey}
    case NoWrites => {}
  }

  /** The store after a successful login's writes. In the enrolment branch the
      biometric flag is written first, so a `btoa` failure leaves only that write; in
      the refresh branch the failure comes first and nothing is written. */
  function LoginWrites(entries: map<string, string>, plan: StoragePlan,
                       identifier: string, password: string): map<string, string>
  {
    var encoded := EncodeCredentials(identifier, password);
    match plan
    case EnrolBiometric =>
      var flagged := entries[BiometricEnabledKey := "true"];
      if encoded.None? then flagged
      else flagged[SavedCredentialsKey := encoded.value][SavedIdentifierKey := identifier][RememberMeKey := "true"]
    case RefreshCredentials =>
      if encoded.None? then entries
      else entries[SavedCredentialsKey := encoded.value][SavedIdentifierKey := identifier][RememberMeKey := "true"]
    case IdentifierOnly => entries[SavedIdentifierKey := identifier][RememberMeKey := "true"]
    case NoWrites => entries
  }

  /** A login writes only the keys its plan names, and nothing outside the store's four
      keys. */
  lemma LoginWritesFrame(entries: map<string, string>, plan: StoragePlan, identifier: string,
                         password: string, key: string)
    requires key !in PlanKeys(plan)
    ensures var after := LoginWrites(entries, plan, identifier, password);
      (key in after <==> key in entries) && (key in entries ==> after[key] == entries[key])
  {
    KeysDistinct();
  }

  /** After a login that stores credentials, everything the next start and the
      biometric login read back is what was typed: remember-me and the flags on, the
      identifier, and the credentials. */
  lemma StoredLoginReadsBack(entries: map<string, string>, plan: StoragePlan, identifier: string, password: string)
    requires plan == EnrolBiometric || plan == RefreshCredentials
    requires Base64.IsLatin1(identifier) && Base64.IsLatin1(password)
    ensures var after := LoginWrites(entries, plan, identifier, password);
      && FlagOf(after, RememberMeKey)
      && IdentifierOf(after) == Some(identifier)
      && CredentialsOf(after) == Some(Json.Credentials(identifier, password))
      && (plan == EnrolBiometric ==> FlagOf(after, BiometricEnabledKey))
      && (plan == RefreshCredentials ==> FlagOf(after, BiometricEnabledKey) == FlagOf(entries, BiometricEnabledKey))
  {
    KeysDistinct();
    var v := EncodeCredentials(identifier, password).value;
    var base := if plan == EnrolBiometric then entries[BiometricEnabledKey := "true"] else entries;
    CredentialsRoundTrip(base, identifier, password);
    var withCreds := base[SavedCredentialsKey := v];
    WriteLeavesOthers(withCreds, SavedIdentifierKey, identifier);
    WriteLeavesOthers(withCreds[SavedIdentifierKey := identifier], RememberMeKey, "true");
  }

  /** An enrolment whose credentials `btoa` rejects still turns the biometric flag on,
      while the stored credentials stay what they were. */
  lemma FailedEnrolmentKeepsFlag(entries: map<string, string>, identifier: string, password: string)
    requires !(Base64.IsLatin1(identifier) && Base64.IsLatin1(password))
    ensures var after := LoginWrites(entries, EnrolBiometric, identifier, password);
      && FlagOf(after, BiometricEnabledKey)
      && CredentialsOf(after) == CredentialsOf(entries)
      && IdentifierOf(after) == IdentifierOf(entries)
  {
    KeysDistinct();
    WriteLeavesOthers(entries, BiometricEnabledKey, "true");
  }

  /** `handleLogin`, from the sign-in call on. `signIn` answers for the path taken. */
  method HandleLogin(store: SecureStore, identifier: string, password: string, rememberMe: bool,
                     biometricAvailable: bool, biometricEnabled: bool, native: bool,
                     signIn: SignInPath -> AuthResponse)
    returns (outcome: LoginOutcome, path: SignInPath, enrolled: bool)
    modifies store
    ensures path == SignInRoute(identifier)
    ensures var plan := PlanStorageWrites(rememberMe, biometricAvailable, biometricEnabled, native);
      var encoded := EncodeCredentials(identifier, password);
      && (signIn(path).Accepted? ==> store.entries == LoginWrites(old(store.entries), plan, identifier, password))
      && (!signIn(path).Accepted? ==> store.entries == old(store.entries))
      && (signIn(path).Rejected? ==> outcome == FirstMatch(LoginErrorRules, signIn(path).message, ShowError(LoginFailed)))
      && (signIn(path).Threw? ==> outcome == ShowError(LoginCrashed))
      && (signIn(path).Accepted? ==>
            outcome == (if plan == RefreshCredentials && encoded.None? then ShowError(LoginCrashed) else GoTo(DashboardPath)))
      && (enrolled <==> signIn(path).Accepted? && plan == EnrolBiometric && encoded.Some?)
  {
    enrolled := false;
    path := SignInRoute(identifier);
    var response := signIn(path);
    if response.Threw? {
      return ShowError(LoginCrashed), path, enrolled;
    }
    if response.Rejected? {
      outcome := MapLoginError(response.message);
      return;
    }
    var plan := PlanStorageWrites(rememberMe, biometricAvailable, biometricEnabled, native);
    if plan == EnrolBiometric {
      store.SetBiometricEnabled(true);
      var saved := store.SaveCredentials(identifier, password);
      if saved.Success? {
        store.SetSavedIdentifier(identifier);
        store.SetRememberMe(true);
        enrolled := true;
      }
    } else if plan == RefreshCredentials {
      var saved := store.SaveCredentials(identifier, password);
      if saved.Failure? {
        return ShowError(LoginCrashed), path, enrolled;
      }
      store.SetSavedIdentifier(identifier);
      store.SetRememberMe(true);
    } else if plan == IdentifierOnly {
      store.SetSavedIdentifier(identifier);
      store.SetRememberMe(true);
    }
    outcome := GoTo(DashboardPath);
  }

  // ---------------------------------------------------------------- start-up and biometric login

  /** The identifier field's starting value: the saved identifier when remember-me is
      on and one is saved and non-empty, otherwise empty. */
  function RestoredIdentifier(entries: map<string, string>): string
  {
    if FlagOf(entries, RememberMeKey) && IdentifierOf(entries).Some? && IdentifierOf(entries).value != ""
    then IdentifierOf(entries).value else ""
  }

  /** The page's start-up: biometric availability only on a native platform, the
      enabled flag only when available, and remember-me with the saved identifier from
      the store. */
  method LoadSavedLogin(store: SecureStore, native: bool, pluginAvailable: bool, pluginEnabled: bool)
    returns (available: bool, enabled: bool, rememberMe: bool, identifierField: string)
    ensures available <==> native && pluginAvailable
    ensures enabled <==> available && pluginEnabled
    ensures rememberMe == FlagOf(store.entries, RememberMeKey)
    ensures identifierField == RestoredIdentifier(store.entries)
  {
    available, enabled := false, false;
    if native {
      available := pluginAvailable;
      if available {
        enabled := pluginEnabled;
      }
    }
    rememberMe := store.GetRememberMe();
    identifierField := "";
    if rememberMe {
      var saved := store.GetSavedIdentifier();
      if saved.Some? && saved.value != "" {
        identifierField := saved.value;
      }
    }
  }

  /** A successful remembered login brings its identifier back at the next start, and
      a login without remember-me leaves the next start as it was. */
  lemma NextStartRestoresIdentifier(entries: map<string, string>, plan: StoragePlan,
                                    identifier: string, password: string)
    requires plan == IdentifierOnly || ((plan == EnrolBiometric || plan == RefreshCredentials)
                                        && Base64.IsLatin1(identifier) && Base64.IsLatin1(password))
    ensures RestoredIdentifier(LoginWrites(entries, plan, identifier, password)) == identifier
  {
    KeysDistinct();
    if plan == IdentifierOnly {
      WriteLeavesOthers(entries, SavedIdentifierKey, identifier);
    } else {
      StoredLoginReadsBack(entries, plan, identifier, password);
    }
  }

  /** `handleBiometricLogin`. `authenticated` is the prompt's answer; `signIn` answers
      for the stored credentials on the path they take. */
  method HandleBiometricLogin(store: SecureStore, authenticated: bool,
                              signIn: (SignInPath, Json.Credentials) -> AuthResponse)
    returns (outcome: LoginOutcome, attempted: Option<SignInPath>)
    ensures !authenticated ==> outcome == StayOnForm && attempted.None?
    ensures authenticated && CredentialsOf(store.entries).None? ==>
      outcome == ShowError("Kredensial tidak ditemukan") && attempted.None?
    ensures authenticated && CredentialsOf(store.entries).Some? ==>
      var c := CredentialsOf(store.entries).value;
      && attempted == Some(SignInRoute(c.identifier))
      && outcome == (if signIn(attempted.value, c).Accepted? then GoTo(DashboardPath) else ShowError(LoginFailed))
  {
    if !authenticated {
      return StayOnForm, None;
    }
    var credentials := store.GetCredentials();
    if credentials.None? {
      return ShowError("Kredensial tidak ditemukan"), None;
    }
    var path := SignInRoute(credentials.value.identifier);
    attempted := Some(path);
    var response := signIn(path, credentials.value);
    if !response.Accepted? {
      return ShowError(LoginFailed), attempted;
    }
    outcome := GoTo(DashboardPath);
  }

  // ---------------------------------------------------------------- sign-up

  datatype SignUpForm = SignUpForm(email: string, username: string, password: string,
                                   confirmPassword: string, whatsapp: string)

  const EmptySignUpForm := SignUpForm("", "", "", "", "")

  /** The first failing check, in the handler's order. */
  function SignUpValidation(form: SignUpForm): (error: Option<string>)
    ensures error.None? <==> form.whatsapp != "" && form.password == form.confirmPassword
                             && Utf16Length(form.password) >= 6
  {
    if form.whatsapp == "" then Some("Nomor WhatsApp wajib diisi")
    else if form.password != form.confirmPassword then Some("Password tidak cocok")
    else if Utf16Length(form.password) < 6 then Some("Password minimal 6 karakter")
    else None
  }

  const SignUpErrorRules: seq<(string, string)> := [
    ("already registered", "Email atau username sudah terdaftar"),
    ("already exists", "Email atau username sudah terdaftar"),
    ("invalid email", "Format email tidak valid"),
    ("weak password", "Password terlalu lemah")
  ]

  /** The sign-up rules taken one at a time. */
  lemma SignUpRulesInOrder(message: Option<string>)
    ensures FirstMatch(SignUpErrorRules, message, "Pendaftaran gagal")
      == if message.None? then "Pendaftaran gagal"
         else if Contains(message.value, "already registered") || Contains(message.value, "already exists")
         then "Email atau username sudah terdaftar"
         else if Contains(message.value, "invalid email") then "Format email tidak valid"
         else if Contains(message.value, "weak password") then "Password terlalu lemah"
         else "Pendaftaran gagal"
  {
    var r := SignUpErrorRules;
    if message.Some? {
      var fb := "Pendaftaran gagal";
      assert r[1..] == [r[1], r[2], r[3]];
      assert r[1..][1..] == [r[2], r[3]];
      assert r[1..][1..][1..] == [r[3]];
      assert FirstMatch([r[3]], message, fb) == if Contains(message.value, r[3].0) then r[3].1 else fb;
      assert FirstMatch([r[2], r[3]], message, fb)
        == if Contains(message.value, r[2].0) then r[2].1 else FirstMatch([r[3]], message, fb);
      assert FirstMatch([r[1], r[2], r[3]], message, fb)
        == if Contains(message.value, r[1].0) then r[1].1 else FirstMatch([r[2], r[3]], message, fb);
    }
  }

  /** `handleSignUp`. `response` is the backend's answer, used only when the checks
      pass. A call that throws is not caught: the page stays as it was. */
  method HandleSignUp(form: SignUpForm, response: AuthResponse)
    returns (outcome: LoginOutcome, newForm: SignUpForm, called: bool)
    ensures called <==> SignUpValidation(form).None?
    ensures !called ==> outcome == ShowError(SignUpValidation(form).value) && newForm == form
    ensures called && response.Rejected? ==>
      outcome == ShowError(FirstMatch(SignUpErrorRules, response.message, "Pendaftaran gagal")) && newForm == form
    ensures called && response.Accepted? ==> outcome == GoTo(WaitingApprovalPath) && newForm == EmptySignUpForm
    ensures called && response.Threw? ==> outcome == StayOnForm && newForm == form
  {
    newForm := form;
    called := false;
    if form.whatsapp == "" {
      return ShowError("Nomor WhatsApp wajib diisi"), newForm, called;
    }
    if form.password != form.confirmPassword {
      return ShowError("Password tidak cocok"), newForm, called;
    }
    if Utf16Length(form.password) < 6 {
      return ShowError("Password minimal 6 karakter"), newForm, called;
    }
    called := true;
    if response.Threw? {
      return StayOnForm, newForm, called;
    }
    if response.Rejected? {
      SignUpRulesInOrder(response.message);
      var errorMessage := "Pendaftaran gagal";
      var m := response.message;
      if m.Some? && (Contains(m.value, "already registered") || Contains(m.value, "already exists")) {
        errorMessage := "Email atau username sudah terdaftar";
      } else if m.Some? && Contains(m.value, "invalid email") {
        errorMessage := "Format email tidak valid";
      } else if m.Some? && Contains(m.value, "weak password") {
        errorMessage := "Password terlalu lemah";
      }
      return ShowError(errorMessage), newForm, called;
    }
    newForm := EmptySignUpForm;
    outcome := GoTo(WaitingApprovalPath);
  }

  /** The sign-up WhatsApp field's `onChange`: digits only, a leading 0 replaced by 62,
      and 62 put in front of anything else. */
  function SignUpWhatsApp(input: string): (stored: string)
    ensures AllDigits(stored) && StartsWith(stored, "62")
  {
    var cleaned := DigitsOf(input);
    if StartsWith(cleaned, "0") then "62" + cleaned[1..] else "62" + cleaned
  }

  /** The sign-up field agrees with the receipt sender's normalisation except for
      digits that already start with 62, which the sign-up field prefixes again. */
  lemma SignUpWhatsAppVersusShare(input: string)
    ensures SignUpWhatsApp(input) == WhatsAppShare.NormalizedPhone(input)
            <==> !StartsWith(DigitsOf(input), "62")
  {
    var d := DigitsOf(input);
    if StartsWith(d, "62") {
      assert !StartsWith(d, "0") by { assert d[0] == '6'; }
      assert |SignUpWhatsApp(input)| == |d| + 2;
      assert |WhatsAppShare.NormalizedPhone(input)| == |d|;
    }
  }

  /** Once the WhatsApp field has been edited it is never empty, so the missing-number
      check can only fire for a field never touched. */
  lemma EditedWhatsAppPassesFirstCheck(form: SignUpForm, input: string)
    ensures SignUpValidation(form.(whatsapp := SignUpWhatsApp(input))) != Some("Nomor WhatsApp wajib diisi")
  {
    assert |SignUpWhatsApp(input)| >= 2;
  }

  /** The field shows the stored value without its 62, and typing that back in stores
      the same value, unless what is shown starts with 0. */
  lemma SignUpDisplayRoundTrip(input: string)
    ensures var stored := SignUpWhatsApp(input);
      && WhatsAppShare.RemoveFirst62(stored) == stored[2..]
      && (!StartsWith(stored[2..], "0") ==> SignUpWhatsApp(stored[2..]) == stored)
  {
    var stored := SignUpWhatsApp(input);
    assert stored[..2] == "62";
    assert stored == "62" + stored[2..];
    assert AllDigits(stored[2..]);
  }

  // ---------------------------------------------------------------- redirect

  datatype PageView = StoreSelector | NavigateHome | Loading | Forms

  /** The page's early returns, in order: a signed-in user with stores loaded sees the
      store selector when there are no stores and is sent home when there is a current
      store or any store; otherwise the loading screen while redirecting, else the
      forms. */
  function View(signedIn: bool, storeLoading: bool, storeCount: nat, hasCurrentStore: bool,
                isRedirecting: bool): PageView
  {
    if signedIn && !storeLoading && storeCount == 0 then StoreSelector
    else if signedIn && !storeLoading && (hasCurrentStore || storeCount > 0) then NavigateHome
    else if isRedirecting then Loading
    else Forms
  }

  /** A signed-in user whose stores have loaded never sees the forms: the selector
      exactly when there are no stores, home otherwise. The selector is only ever shown
      to such a user. */
  lemma SignedInUserLeavesForms(signedIn: bool, storeLoading: bool, storeCount: nat,
                                hasCurrentStore: bool, isRedirecting: bool)
    ensures var v := View(signedIn, storeLoading, storeCount, hasCurrentStore, isRedirecting);
      && (signedIn && !storeLoading ==>
            (v == StoreSelector <==> storeCount == 0) && (v == NavigateHome <==> storeCount > 0))
      && (v == StoreSelector ==> signedIn && !storeLoading && storeCount == 0)
      && (v == Forms ==> !isRedirecting)
  {
  }
}
