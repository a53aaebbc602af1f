/** The wrapper around the platform's biometric plugin: capability checks that answer
    false or null off a native platform or when the plugin throws, the prompt, and the
    fixed icon and label tables. The plugin itself is an oracle passed in. */
module BiometricAuth {
  import opened Wrappers

  /** The plugin's biometry kinds. */
  datatype BiometryType =
    | NoBiometry
    | TouchId
    | FaceId
    | FingerprintAuthentication
    | FaceAuthentication
    | IrisAuthentication

  datatype CheckBiometryResult = CheckBiometryResult(isAvailable: bool, biometryType: BiometryType)

  /** The options the prompt is opened with. */
  datatype AuthenticateOptions = AuthenticateOptions(
    reason: string,
    cancelTitle: string,
    allowDeviceCredential: bool,
    iosFallbackTitle: string,
    androidTitle: string,
    androidSubtitle: string,
    androidConfirmationRequired: bool)

  const DefaultReason := "Login ke KasirQ"

  /** `isAvailable()`: `check` is what `checkBiometry` returns, Failure when it throws. */
  function IsAvailable(isNative: bool, check: Result<CheckBiometryResult, string>): (available: bool)
    ensures available <==> isNative && check.Success? && check.value.isAvailable
  {
    if !isNative then false
    else match check
      case Failure(_) => false
      case Success(result) => result.isAvailable
  }

  /** `getBiometryType()`: null off a native platform and when the plugin throws. */
  function GetBiometryType(isNative: bool, check: Result<CheckBiometryResult, string>): (kind: Option<BiometryType>)
    ensures kind.Some? <==> isNative && check.Success?
    ensures kind.Some? ==> kind.value == check.value.biometryType
  {
    if !isNative then None
    else match check
      case Failure(_) => None
      case Success(result) => Some(result.biometryType)
  }

  function PromptOptions(reason: string): AuthenticateOptions
  {
    AuthenticateOptions(reason, "Batal", true, "Gunakan Password", "Verifikasi Biometrik", reason, false)
  }

  /** `authenticate(reason)`: `prompt` says whether the plugin's prompt, opened with
      the given options, returns without throwing. Returns whether the user got in and
      the options the prompt was opened with, if it was. */
  function Authenticate(isNative: bool, reason: string, prompt: AuthenticateOptions -> bool)
    : (r: (bool, Option<AuthenticateOptions>))
    ensures r.1.Some? <==> isNative
    ensures r.1.Some? ==> r.1.value.reason == reason && r.1.value.androidSubtitle == reason
    ensures r.0 <==> r.1.Some? && prompt(r.1.value)
  {
    if !isNative then (false, None)
    else
      var options := PromptOptions(reason);
      (prompt(options), Some(options))
  }

  /** The three kinds the tables name; every other kind, and null, gets the fallback. */
  predicate Recognized(kind: Option<BiometryType>)
  {
    kind.Some? && (kind.value.FingerprintAuthentication? || kind.value.FaceAuthentication?
                   || kind.value.IrisAuthentication?)
  }

  const FallbackIcon := "\U{1F510}"
  const FallbackLabel := "Biometrik"

  /** `getBiometricIcon`. */
  function BiometricIcon(kind: Option<BiometryType>): (icon: string)
    ensures icon == FallbackIcon <==> !Recognized(kind)
  {
    match kind
    case Some(FingerprintAuthentication) => "\U{1F446}"
    case Some(FaceAuthentication) => "\U{1F60A}"
    case Some(IrisAuthentication) => "\U{1F441}\U{FE0F}"
    case _ => FallbackIcon
  }

  /** `getBiometricLabel`. */
  function BiometricLabel(kind: Option<BiometryType>): (text: string)
    ensures text == FallbackLabel <==> !Recognized(kind)
    ensures |text| > 0
  {
    match kind
    case Some(FingerprintAuthentication) => "Fingerprint"
    case Some(FaceAuthentication) => "Face ID"
    case Some(IrisAuthentication) => "Iris"
    case _ => FallbackLabel
  }

  /** The tables tell the recognized kinds apart: two kinds share an icon, or a label,
      only if they are the same kind or both get the fallback. */
  lemma TablesDistinguishKinds(a: Option<BiometryType>, b: Option<BiometryType>)
    requires Recognized(a) || Recognized(b)
    ensures BiometricIcon(a) == BiometricIcon(b) ==> a == b
    ensures BiometricLabel(a) == BiometricLabel(b) ==> a == b
  {
  }

  /** The iOS kinds are not in the tables: Touch ID and Face ID show the generic icon
      and label. */
  lemma IosKindsGetFallback()
    ensures BiometricLabel(Some(TouchId)) == FallbackLabel && BiometricIcon(Some(TouchId)) == FallbackIcon
    ensures BiometricLabel(Some(FaceId)) == FallbackLabel && BiometricIcon(Some(FaceId)) == FallbackIcon
  {
  }
}
