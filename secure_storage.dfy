/** The local preference store behind "remember me" and biometric login: four fixed
    keys in the platform's string-to-string preference map. Flags are written as the
    text of the boolean; the credentials are the base64 (`btoa`) of their JSON text. */
module SecureStorage {
  import opened Wrappers
  import Base64
  import Json

  const RememberMeKey := "kasirq_remember_me"
  const SavedIdentifierKey := "kasirq_saved_identifier"
  const BiometricEnabledKey := "kasirq_biometric_enabled"
  const SavedCredentialsKey := "kasirq_saved_credentials"

  const AllKeys: set<string> := {RememberMeKey, SavedIdentifierKey, BiometricEnabledKey, SavedCredentialsKey}

  /** `enabled.toString()`. */
  function BoolText(b: bool): string
  {
    if b then "true" else "false"
  }

  /** What a flag getter reads: true only for the exact text "true". */
  predicate FlagOf(entries: map<string, string>, key: string)
  {
    key in entries && entries[key] == "true"
  }

  /** What `getSavedIdentifier` reads: the stored text, or null. */
  function IdentifierOf(entries: map<string, string>): Option<string>
  {
    if SavedIdentifierKey in entries then Some(entries[SavedIdentifierKey]) else None
  }

  /** What `saveCredentials` stores: `btoa(JSON.stringify({identifier, password}))`,
      or None where `btoa` throws. */
  function EncodeCredentials(identifier: string, password: string): (r: Option<string>)
    ensures r.Some? <==> Base64.IsLatin1(identifier) && Base64.IsLatin1(password)
  {
    Json.StringifyLatin1(Json.Credentials(identifier, password));
    Base64.Btoa(Json.Stringify(Json.Credentials(identifier, password)))
  }

  /** What `getCredentials` reads: null for an absent or empty value and for a value
      that does not decode or parse. */
  function CredentialsOf(entries: map<string, string>): Option<Json.Credentials>
  {
    if SavedCredentialsKey !in entries || entries[SavedCredentialsKey] == "" then None
    else match Base64.Atob(entries[SavedCredentialsKey])
      case None => None
      case Some(text) => Json.ParseCredentials(text)
  }

  class SecureStore {
    /** The platform preference map. */
    var entries: map<string, string>

    constructor(initial: map<string, string>)
      ensures entries == initial
    {
      entries := initial;
    }

    method SetRememberMe(enabled: bool)
      modifies this
      ensures entries == old(entries)[RememberMeKey := BoolText(enabled)]
    {
      entries := entries[RememberMeKey := BoolText(enabled)];
    }

    method GetRememberMe() returns (enabled: bool)
      ensures enabled <==> RememberMeKey in entries && entries[RememberMeKey] == "true"
    {
      enabled := RememberMeKey in entries && entries[RememberMeKey] == "true";
    }

    method SetSavedIdentifier(identifier: string)
      modifies this
      ensures entries == old(entries)[SavedIdentifierKey := identifier]
    {
      entries := entries[SavedIdentifierKey := identifier];
    }

    method GetSavedIdentifier() returns (identifier: Option<string>)
      ensures identifier.Some? <==> SavedIdentifierKey in entries
      ensures identifier.Some? ==> identifier.value == entries[SavedIdentifierKey]
    {
      if SavedIdentifierKey in entries {
        identifier := Some(entries[SavedIdentifierKey]);
      } else {
        identifier := None;
      }
    }

    method SetBiometricEnabled(enabled: bool)
      modifies this
      ensures entries == old(entries)[BiometricEnabledKey := BoolText(enabled)]
    {
      entries := entries[BiometricEnabledKey := BoolText(enabled)];
    }

    method GetBiometricEnabled() returns (enabled: bool)
      ensures enabled <==> BiometricEnabledKey in entries && entries[BiometricEnabledKey] == "true"
    {
      enabled := BiometricEnabledKey in entries && entries[BiometricEnabledKey] == "true";
    }

    /** Fails, before anything is written, when `btoa` throws on a character beyond
        U+00FF. */
    method SaveCredentials(identifier: string, password: string) returns (saved: Result<(), string>)
      modifies this
      ensures saved.Success? <==> Base64.IsLatin1(identifier) && Base64.IsLatin1(password)
      ensures saved.Success? ==>
        entries == old(entries)[SavedCredentialsKey := EncodeCredentials(identifier, password).value]
      ensures saved.Failure? ==> entries == old(entries)
    {
      var encoded := EncodeCredentials(identifier, password);
      if encoded.None? {
        return Failure("InvalidCharacterError");
      }
      entries := entries[SavedCredentialsKey := encoded.value];
      saved := Success(());
    }

    method GetCredentials() returns (credentials: Option<Json.Credentials>)
      ensures credentials == CredentialsOf(entries)
      ensures SavedCredentialsKey !in entries ==> credentials.None?
    {
      if SavedCredentialsKey !in entries || entries[SavedCredentialsKey] == "" {
        return None;
      }
      var decoded := Base64.Atob(entries[SavedCredentialsKey]);
      if decoded.None? {
        return None;
      }
      credentials := Json.ParseCredentials(decoded.value);
    }

    method ClearAll()
      modifies this
      ensures entries == old(entries) - AllKeys
    {
      entries := entries - {RememberMeKey};
      entries := entries - {SavedIdentifierKey};
      entries := entries - {BiometricEnabledKey};
      entries := entries - {SavedCredentialsKey};
    }
  }

  /** The four keys are distinct, so each setter touches a key no other setter uses. */
  lemma KeysDistinct()
    ensures |AllKeys| == 4
  {
    assert RememberMeKey[7] == 'r' && SavedIdentifierKey[7] == 's' && BiometricEnabledKey[7] == 'b';
    assert SavedIdentifierKey[13] == 'i' && SavedCredentialsKey[13] == 'c';
  }

  /** A flag written with `BoolText` reads back as written. */
  lemma FlagRoundTrip(entries: map<string, string>, key: string, b: bool)
    ensures FlagOf(entries[key := BoolText(b)], key) == b
  {
  }

  /** Writing one key leaves every reading of the other three as it was. */
  lemma WriteLeavesOthers(entries: map<string, string>, key: string, value: string)
    requires key in AllKeys
    ensures key != RememberMeKey ==> FlagOf(entries[key := value], RememberMeKey) == FlagOf(entries, RememberMeKey)
    ensures key != BiometricEnabledKey ==>
      FlagOf(entries[key := value], BiometricEnabledKey) == FlagOf(entries, BiometricEnabledKey)
    ensures key != SavedIdentifierKey ==> IdentifierOf(entries[key := value]) == IdentifierOf(entries)
    ensures key != SavedCredentialsKey ==> CredentialsOf(entries[key := value]) == CredentialsOf(entries)
  {
  }

  /** Saved credentials read back as saved, for every identifier and password within
      Latin-1: the base64 and JSON round trips composed. */
  lemma CredentialsRoundTrip(entries: map<string, string>, identifier: string, password: string)
    requires Base64.IsLatin1(identifier) && Base64.IsLatin1(password)
    ensures CredentialsOf(entries[SavedCredentialsKey := EncodeCredentials(identifier, password).value])
      == Some(Json.Credentials(identifier, password))
  {
    var c := Json.Credentials(identifier, password);
    var text := Json.Stringify(c);
    Json.StringifyLatin1(c);
    Base64.RoundTrip(text);
    Json.RoundTrip(c);
    assert text != [] by { assert text[0] == '{'; }
    assert EncodeCredentials(identifier, password).value != "";
  }

  /** After `clearAll` both flags read false and both stored values read null. */
  lemma ClearedReads(entries: map<string, string>)
    ensures !FlagOf(entries - AllKeys, RememberMeKey) && !FlagOf(entries - AllKeys, BiometricEnabledKey)
    ensures IdentifierOf(entries - AllKeys).None? && CredentialsOf(entries - AllKeys).None?
  {
  }
}
