# SistemPos admin front end: decision rules, in Dafny

This project models the logic inside the point-of-sale admin front end, with the rendering, the backend and the device plugins taken away. It covers eight source files:

- **The local preference store** (`secure-storage.ts`). Four fixed keys: remember-me, saved identifier, biometric flag and saved credentials. The credentials are stored as `btoa(JSON.stringify(...))`.
- **The WhatsApp receipt sender** (`WhatsAppShare.tsx`):
  - phone-number normalisation to the `62…` international form;
  - the phone field;
  - the number check;
  - the line-by-line receipt text;
  - the `wa.me` link.
- **The login page** (`LoginPage.tsx`):
  - e-mail versus username sign-in;
  - the ordered error-message cascades;
  - the preference-store writes after a successful login, including biometric auto-enrolment;
  - restoring a saved login;
  - biometric login;
  - sign-up validation and its WhatsApp field;
  - the redirect of a signed-in user.
- **The approval lifecycle of user profiles** (`UserManagement.tsx`):
  - pending and approved lists;
  - approve, reject and suspend;
  - the role insert that tolerates duplicates;
  - the admin's contact details.
- **The subscription banner** (`SubscriptionBanner.tsx`): days remaining, the tier cascade, the placeholder fetch and the renewal link.
- **The subscription admin list** (`SubscriptionManagement.tsx`): search, status badge and the extension dialog.
- **The user contacts list** (`UserContacts.tsx`): search, counters and chat link.
- **The biometric plugin wrapper** (`biometric-auth.ts`): the guards and the icon and label tables.

There is one Dafny module per source file, plus these support modules:

- `Wrappers`: `Option` and `Result`.
- `Strings`:
  - digit extraction;
  - `includes`;
  - Latin-1 lower-casing;
  - the JavaScript `trim`;
  - UTF-16 length;
  - decimal text.
- `Seqs`: `Array.prototype.filter` and the facts the lists rely on.
- `Base64`: `btoa` and `atob`, base64 per section 4 of RFC 4648 over Latin-1 characters.
- `Json`: `JSON.stringify` and `JSON.parse` of the credentials record.

**Modelling choices**

- State the source changes in place is a Dafny class with a `modifies` frame:
  - the preference map (`SecureStorage.SecureStore`);
  - the profile and role tables (`UserManagement.Backend`);
  - the user-management page's lists.
- Step-by-step local updates are methods with loops or if/else chains, proved against a specification function:
  - `formatPhoneNumber`;
  - the `message +=` loop of `sendWhatsApp`;
  - the login `errorMessage` chain.
- Pure expressions are functions with lemmas.
- Backend replies, plugin answers, `encodeURIComponent`, `formatPrice`, date parsing and clocks are parameters.

Notable consequences of the source, each proved:

- A failed biometric enrolment leaves the biometric flag set with no credentials stored (`LoginPage.FailedEnrolmentKeepsFlag`).
- The sign-up WhatsApp field adds `62` even to a number that already starts with `62`, unlike the receipt sender (`LoginPage.SignUpWhatsAppVersusShare`).
- With the placeholder subscription fetch, no banner is ever shown (`SubscriptionBanner.NoBannerShown`).
- The contacts page never loads a WhatsApp number, so its "with WhatsApp" counter is always zero (`UserContacts.FetchedListHasNoWhatsApp`).

## Model

| member | source | states |
|---|---|---|
| SecureStorage.KeysDistinct | src/lib/secure-storage.ts:3-8 | the four storage keys are pairwise distinct |
| SecureStorage.SecureStore.SetRememberMe | src/lib/secure-storage.ts:12-17 | writes exactly the remember-me key with `"true"`/`"false"`; nothing else changes |
| SecureStorage.SecureStore.GetRememberMe | src/lib/secure-storage.ts:19-22 | true iff the key is present and holds exactly `"true"`; an absent key reads false |
| SecureStorage.SecureStore.SetSavedIdentifier | src/lib/secure-storage.ts:24-29 | writes exactly the identifier key |
| SecureStorage.SecureStore.GetSavedIdentifier | src/lib/secure-storage.ts:31-34 | the stored text, or null when the key is absent |
| SecureStorage.SecureStore.SetBiometricEnabled | src/lib/secure-storage.ts:37-42 | writes exactly the biometric key |
| SecureStorage.SecureStore.GetBiometricEnabled | src/lib/secure-storage.ts:44-47 | true iff the key holds exactly `"true"` |
| SecureStorage.EncodeCredentials | src/lib/secure-storage.ts:49-55 | encoding succeeds iff identifier and password are within Latin-1, where `btoa` throws otherwise |
| SecureStorage.SecureStore.SaveCredentials | src/lib/secure-storage.ts:49-55 | succeeds iff both fields are Latin-1 and then writes only the credentials key; on a throw the map is unchanged |
| SecureStorage.SecureStore.GetCredentials | src/lib/secure-storage.ts:57-67 | null for an absent or empty value and when decoding or parsing fails; otherwise the parsed record |
| SecureStorage.SecureStore.ClearAll | src/lib/secure-storage.ts:69-74 | removes exactly the four keys |
| SecureStorage.FlagRoundTrip | src/lib/secure-storage.ts:12-22 | a flag written with `toString()` reads back as written |
| SecureStorage.WriteLeavesOthers | src/lib/secure-storage.ts:12-55 | writing one key leaves the reading of each of the other three unchanged |
| SecureStorage.CredentialsRoundTrip | src/lib/secure-storage.ts:49-67 | saved Latin-1 credentials read back as `{identifier, password}` |
| SecureStorage.ClearedReads | src/lib/secure-storage.ts:69-74 | after clearing, both flags read false and identifier and credentials read null |
| Base64.Btoa | src/lib/secure-storage.ts:50 | `btoa` succeeds iff every character is at most U+00FF |
| Base64.Atob | src/lib/secure-storage.ts:62 | a successful `atob` yields Latin-1 text |
| Base64.EncodedLength | src/lib/secure-storage.ts:50 | the encoding fills whole blocks of four, with at most two `=` |
| Base64.UnpaddedRoundTrip | src/lib/secure-storage.ts:50-63 | decoding the unpadded encoding gives the input back |
| Base64.RoundTrip | src/lib/secure-storage.ts:50-63 | `atob(btoa(s)) == s` for every Latin-1 `s` |
| Json.RoundTrip | src/lib/secure-storage.ts:50-63 | `JSON.parse(JSON.stringify(c))` gives back the credentials record for every pair of strings |
| Json.EscapeRoundTrip | src/lib/secure-storage.ts:50-63 | the escaped text of a string, then the closing quote, reads back as the string |
| Json.StringifyLatin1 | src/lib/secure-storage.ts:50 | the JSON text is within Latin-1 iff both fields are, so `btoa` throws exactly on non-Latin-1 credentials |
| BiometricAuth.IsAvailable | src/lib/biometric-auth.ts:5-16 | available iff on a native platform, the plugin does not throw, and it reports availability |
| BiometricAuth.GetBiometryType | src/lib/biometric-auth.ts:18-29 | null off native and on a throw; otherwise the plugin's kind |
| BiometricAuth.Authenticate | src/lib/biometric-auth.ts:31-51 | false off native without prompting; otherwise prompts with the reason as reason and Android subtitle, and is true iff the prompt completes |
| BiometricAuth.BiometricIcon | src/lib/biometric-auth.ts:53-64 | the fallback icon exactly for kinds other than fingerprint, face and iris, and for null |
| BiometricAuth.BiometricLabel | src/lib/biometric-auth.ts:66-77 | the fallback label exactly for the unrecognised kinds; never empty |
| BiometricAuth.TablesDistinguishKinds | src/lib/biometric-auth.ts:53-77 | a recognised kind shares neither its icon nor its label with another kind |
| BiometricAuth.IosKindsGetFallback | src/lib/biometric-auth.ts:53-77 | Touch ID and Face ID kinds get the generic icon and label |
| WhatsAppShare.NormalizedPhone | src/components/Receipt/WhatsAppShare.tsx:23-38 | the normalised number is all digits and starts with `62` |
| WhatsAppShare.FormatPhoneNumber | src/components/Receipt/WhatsAppShare.tsx:23-38 | the step-by-step `cleaned` updates compute the normalised number, all digits and starting with `62` |
| WhatsAppShare.NormalizedPhoneCases | src/components/Receipt/WhatsAppShare.tsx:28-35 | a leading `0` becomes `62`; a leading `62` is kept; anything else gets `62` prepended; no digits gives `62` |
| WhatsAppShare.NormalizedPhoneIdempotent | src/components/Receipt/WhatsAppShare.tsx:23-38 | normalising a normalised number changes nothing |
| WhatsAppShare.PhoneFieldValue | src/components/Receipt/WhatsAppShare.tsx:40-55 | the stored value is empty when the input has no digits, else the normalised number |
| WhatsAppShare.DisplayRoundTrip | src/components/Receipt/WhatsAppShare.tsx:40-55 | the field shows the national part of the digits; re-entering it, when it starts with neither `0` nor `62`, stores the same value |
| WhatsAppShare.UnitPrice | src/components/Receipt/WhatsAppShare.tsx:196 | the final price when it is truthy, else the sell price |
| WhatsAppShare.ItemsTextAppend | src/components/Receipt/WhatsAppShare.tsx:195-200 | the item lines of two item lists concatenate |
| WhatsAppShare.ItemInMessage | src/components/Receipt/WhatsAppShare.tsx:187-214 | each item's lines appear in the message, in cart order, at the offset after the header and earlier items |
| WhatsAppShare.DiscountLineOnlyWhenPositive | src/components/Receipt/WhatsAppShare.tsx:209-211 | a discount of at most zero leaves the message as with no discount; a positive one adds exactly its line, after the subtotal |
| WhatsAppShare.SendWhatsApp | src/components/Receipt/WhatsAppShare.tsx:138-221 | a number shorter than 10 stops with the error and nothing else; otherwise the image is shared or the link is opened with exactly `https://wa.me/` + normalised number + `?text=` + the encoded message |
| WhatsAppShare.LinkTarget | src/components/Receipt/WhatsAppShare.tsx:216-217 | the link starts with `https://wa.me/62` and carries the digits-only number at a fixed place |
| LoginPage.SignInRoute | src/components/Auth/LoginPage.tsx:133-136 | e-mail sign-in iff the identifier contains `@` |
| LoginPage.FirstMatchSpec | src/components/Auth/LoginPage.tsx:138-153 | an ordered substring cascade returns the first matching rule's result, and the fallback when none matches or there is no message |
| LoginPage.MapLoginError | src/components/Auth/LoginPage.tsx:138-153 | the if/else chain computes the first-match cascade over the four login rules with "Login gagal" as fallback |
| LoginPage.LoginErrorCascade | src/components/Auth/LoginPage.tsx:144-146 | "menunggu persetujuan" navigates to the waiting page iff the first two rules miss; the fallback iff no rule matches |
| LoginPage.PlanStorageWrites | src/components/Auth/LoginPage.tsx:157-178 | the write table: enrol iff remember ∧ available ∧ ¬enabled ∧ native; refresh iff remember ∧ enabled; identifier only iff remember ∧ ¬enabled ∧ ¬available; nothing otherwise |
| LoginPage.LoginWritesFrame | src/components/Auth/LoginPage.tsx:157-178 | the writes touch only the plan's keys |
| LoginPage.StoredLoginReadsBack | src/components/Auth/LoginPage.tsx:157-178 | after the writes, remember-me, identifier, credentials and the biometric flag read back as planned |
| LoginPage.FailedEnrolmentKeepsFlag | src/components/Auth/LoginPage.tsx:158-169 | if credentials cannot be encoded during enrolment, the biometric flag is already on and no credentials are stored |
| LoginPage.HandleLogin | src/components/Auth/LoginPage.tsx:124-191 | routes by `@`; on acceptance performs the planned writes and goes to the dashboard; a rejection maps through the cascade; a throw gives the generic error |
| LoginPage.LoadSavedLogin | src/components/Auth/LoginPage.tsx:59-85 | availability only on native; the remember-me flag and the saved identifier are restored into the form |
| LoginPage.NextStartRestoresIdentifier | src/components/Auth/LoginPage.tsx:59-85 | a remembered login restores its identifier on the next start |
| LoginPage.HandleBiometricLogin | src/components/Auth/LoginPage.tsx:193-239 | no sign-in without a confirmed prompt; "Kredensial tidak ditemukan" without stored credentials; otherwise signs in with them, routed by `@` |
| LoginPage.SignUpValidation | src/components/Auth/LoginPage.tsx:246-259 | no error iff WhatsApp is given, the passwords match and the password has at least 6 UTF-16 units; checked in that order |
| LoginPage.HandleSignUp | src/components/Auth/LoginPage.tsx:242-301 | sign-up is called iff validation passes; rejections map through the sign-up cascade; success clears the form and goes to the waiting page |
| LoginPage.SignUpWhatsApp | src/components/Auth/LoginPage.tsx:481-485 | the stored sign-up number is all digits and starts with `62` |
| LoginPage.SignUpWhatsAppVersusShare | src/components/Auth/LoginPage.tsx:481-485 | it agrees with the receipt sender's normalisation iff the digits do not already start with `62` |
| LoginPage.EditedWhatsAppPassesFirstCheck | src/components/Auth/LoginPage.tsx:246-249 | a typed-in WhatsApp value never triggers the missing-WhatsApp error |
| LoginPage.SignUpDisplayRoundTrip | src/components/Auth/LoginPage.tsx:481-485 | the field shows the stored number without its first `62`; re-entering that, when it does not start with `0`, stores the same value |
| LoginPage.SignedInUserLeavesForms | src/components/Auth/LoginPage.tsx:311-330 | a signed-in user with loaded stores sees the store selector iff there are none and goes to `/` iff there is at least one; nobody else sees the selector |
| UserManagement.PartitionSplitsRows | src/components/Admin/UserManagement.tsx:123-127 | every row lands in exactly one of pending and approved, order kept, and the counts add up to the total |
| UserManagement.ApplyToUser | src/components/Admin/UserManagement.tsx:140-147 | an update by user id changes only the rows of that user |
| UserManagement.ApproveMovesUser | src/components/Admin/UserManagement.tsx:140-147 | approving removes the user from pending and sets approved, approver and time on that row only |
| UserManagement.SuspendMovesUser | src/components/Admin/UserManagement.tsx:200-207 | suspending removes the user from approved and clears approver and time |
| UserManagement.RejectRemovesUser | src/components/Admin/UserManagement.tsx:175-186 | rejecting removes the user's row from both lists and from the table |
| UserManagement.ActionsKeepApprovalRecorded | src/components/Admin/UserManagement.tsx:136-219 | approve, suspend, reject and the contact update keep the invariant that a row is approved exactly when it has an approval time |
| UserManagement.SavedContactsTrimmed | src/components/Admin/UserManagement.tsx:96-99 | the admin's row gets the trimmed contacts, with no white space at either end; saving the saved values again changes nothing |
| UserManagement.Backend.InsertRole | src/components/Admin/UserManagement.tsx:151-157 | a grant already present gives the duplicate-key error and no change; otherwise the fault decides |
| UserManagement.DuplicateErrorAccepted | src/components/Admin/UserManagement.tsx:159-161 | the duplicate-key error is tolerated |
| UserManagement.ReapprovalIdempotentOnRoles | src/components/Admin/UserManagement.tsx:151-161 | approving twice grants the same roles as approving once |
| UserManagement.UserManagementPage.FetchUsers | src/components/Admin/UserManagement.tsx:113-134 | both lists are replaced from one read, or both kept on failure |
| UserManagement.UserManagementPage.HandleApprove | src/components/Admin/UserManagement.tsx:136-171 | update then role insert; a non-duplicate role error fails after the update; the selection is cleared; the lists are refreshed only on success |
| UserManagement.UserManagementPage.HandleReject | src/components/Admin/UserManagement.tsx:173-196 | deletes the profile; a failed account delete does not fail the action |
| UserManagement.UserManagementPage.HandleSuspend | src/components/Admin/UserManagement.tsx:198-219 | suspends the target row only; the selection is cleared either way |
| UserManagement.UserManagementPage.SaveAdminContactInfo | src/components/Admin/UserManagement.tsx:89-111 | with a signed-in admin and no failure, writes the trimmed contacts to that admin's row only |
| SubscriptionBanner.CeilDiv | src/components/Subscription/SubscriptionBanner.tsx:72-74 | the quotient rounded up: `(q-1)·b < a ≤ q·b` |
| SubscriptionBanner.DaysRemaining | src/components/Subscription/SubscriptionBanner.tsx:72-74 | the days left are the ceiling of the remaining milliseconds over 86 400 000, and NaN when the date does not parse |
| SubscriptionBanner.DaysRemainingMonotone | src/components/Subscription/SubscriptionBanner.tsx:72-74 | more time to the end never means fewer days |
| SubscriptionBanner.BannerTiers | src/components/Subscription/SubscriptionBanner.tsx:63-174 | nothing for an admin, while loading, without info or without an end date; expired always gets the alert; else a warning at ≤ 7 days; else info |
| SubscriptionBanner.AfterEffect | src/components/Subscription/SubscriptionBanner.tsx:24-60 | only a signed-in non-admin fetches; a found row gets the placeholder with no end date and not expired |
| SubscriptionBanner.NoBannerShown | src/components/Subscription/SubscriptionBanner.tsx:46-70 | with the placeholder fetch no banner is ever shown |
| SubscriptionBanner.RenewLink | src/components/Subscription/SubscriptionBanner.tsx:101-103 | a link exists iff the WhatsApp number is non-empty, and it points at `wa.me` |
| SubscriptionManagement.FilteredUsersSpec | src/pages/admin/SubscriptionManagement.tsx:102-105 | a user is kept iff the lower-cased e-mail or username includes the lower-cased term; the result is an order-preserving subsequence |
| SubscriptionManagement.SearchIgnoresTermCase | src/pages/admin/SubscriptionManagement.tsx:102-105 | the term's case does not change the result |
| SubscriptionManagement.EmptySearchShowsNamedUsers | src/pages/admin/SubscriptionManagement.tsx:102-105 | the empty term keeps exactly the users with an e-mail or a username |
| SubscriptionManagement.SubscriptionStatus | src/pages/admin/SubscriptionManagement.tsx:98-100 | every row's status is "Pending Setup" with the secondary style |
| SubscriptionManagement.FetchUsers | src/pages/admin/SubscriptionManagement.tsx:65-81 | success replaces the list (null as empty) and reports nothing; failure keeps everything and reports the load error |
| SubscriptionManagement.OpenExtendDialog | src/pages/admin/SubscriptionManagement.tsx:236-239 | the renew button selects its user and opens the dialog |
| SubscriptionManagement.HandleExtendSubscription | src/pages/admin/SubscriptionManagement.tsx:83-96 | nothing without a selected user; otherwise two notices, the dialog closed, and the users unchanged |
| SubscriptionManagement.ExtendAfterOpen | src/pages/admin/SubscriptionManagement.tsx:83-96 | confirming after opening announces the user whose button was pressed and keeps the list |
| UserContacts.FilteredContactsSpec | src/pages/admin/UserContacts.tsx:54-58 | a user is kept iff a name matches ignoring case or the number includes the term; order is kept |
| UserContacts.WhatsAppArmKeepsCase | src/pages/admin/UserContacts.tsx:57 | the number arm is case-sensitive: a number `a` matches `a` but not `A` |
| UserContacts.CountersOf | src/pages/admin/UserContacts.tsx:100-130 | the with-WhatsApp and search-result counts never exceed the total |
| UserContacts.WhatsAppSplit | src/pages/admin/UserContacts.tsx:115 | users with and without a number together make up the total |
| UserContacts.ContactsOf | src/pages/admin/UserContacts.tsx:39-45 | each fetched row becomes a contact with the same fields and no number |
| UserContacts.FetchUsers | src/pages/admin/UserContacts.tsx:36-52 | success replaces the list with the fetched rows as contacts; failure keeps it and reports the load error |
| UserContacts.FetchedContactsHaveNoWhatsApp | src/pages/admin/UserContacts.tsx:41-57 | for fetched data the with-WhatsApp count is 0 and the search reduces to the name arms |
| UserContacts.FetchedListHasNoWhatsApp | src/pages/admin/UserContacts.tsx:41-115 | a fetch never introduces a number, so the counter stays at zero |
| UserContacts.ChatLink | src/pages/admin/UserContacts.tsx:65-67 | the link is the `wa.me` prefix followed by the stored number, unchanged |

## Left out

- Rendering, styling, dialogs, toasts and router navigation. Navigation targets and messages are returned values; UI-only state such as loading spinners is mostly dropped.
- The Supabase client. Query results and failures are parameters.
  - Tables are a sequence of profiles and a set of role grants.
  - Column projections and `created_at` ordering are taken as given: a fetched list is the rows in query order.
- The Capacitor Preferences and BiometricAuth plugins are a map and boolean or result parameters. Plugin exceptions in the preference store are not modelled.
- Receipt image generation, the Web Share API and blob download (`generateReceiptImage` and lines 147-184). They are a pair of boolean parameters for "image generated" and "share completed".
- `formatPrice`, `encodeURIComponent`, `toLocaleDateString`/`formatDistanceToNow`, `new Date(...)` parsing and the clock are parameters.
- WhatsAppShare.ReceiptContext: the quantity's decimal text is also a parameter, so the model does not fix how numbers print.
- WhatsAppShare.UnitPrice: prices are integers, so floating-point prices and products are not modelled.
- Base64.Btoa: `btoa` is modelled only on strings without lone surrogates, because Dafny characters are Unicode scalar values.
- Json.ParseCredentials: `JSON.parse` is modelled only for the exact layout `JSON.stringify` writes for the credentials object. Any other text reads as null, where the browser would accept other whitespace or key orders.
- Strings.ToLower: lower-casing covers Basic Latin and Latin-1 letters only, not the full Unicode case mapping.
- The 100 ms reload delay, `window.location`, and races between overlapping async handlers.
- The `loadAdminContactInfo` read in UserManagement.tsx. It only copies two profile fields into the form.
- The contact and copy-to-clipboard buttons in UserContacts.tsx and UserManagement.tsx.
- `LoadingScreen.tsx` and `BiometricButton.tsx`: presentation only.
- The `extending` flag in SubscriptionManagement.HandleExtendSubscription: only its value after the handler ends is modelled, not the intermediate render.
