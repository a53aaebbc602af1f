/** The admin page listing users for subscription renewal: the search box, the status
    badge every row shows, and the extension dialog, which only announces the renewal. */
module SubscriptionManagement {
  import opened Wrappers
  import opened Strings
  import opened Seqs

  /** One row of `profiles` as the page reads it. E-mail and username may be null in the
      table, which is why the search reads them through optional chaining. */
  datatype UserSubscription = UserSubscription(
    userId: string,
    email: Option<string>,
    username: Option<string>,
    isApproved: bool,
    createdAt: string)

  /** An optional text field includes the term, ignoring case; a null field never does. */
  predicate FieldIncludes(field: Option<string>, term: string)
  {
    field.Some? && IncludesIgnoringCase(field.value, term)
  }

  /** The search test: the e-mail or the username includes the term, ignoring case. */
  predicate Matches(term: string, u: UserSubscription)
  {
    FieldIncludes(u.email, term) || FieldIncludes(u.username, term)
  }

  /** `filteredUsers`. */
  function FilteredUsers(users: seq<UserSubscription>, term: string): seq<UserSubscription>
  {
    Filter(users, (u: UserSubscription) => Matches(term, u))
  }

  /** The search keeps a listed user exactly when the user matches, keeps the list order,
      and never shows more users than were loaded. */
  lemma FilteredUsersSpec(users: seq<UserSubscription>, term: string)
    ensures |FilteredUsers(users, term)| <= |users|
    ensures IsSubsequence(FilteredUsers(users, term), users)
    ensures forall u :: u in users ==> (u in FilteredUsers(users, term) <==> Matches(term, u))
  {
    var r := FilteredUsers(users, term);
    forall u | u in users
      ensures u in r <==> Matches(term, u)
    {
      if u in r {
        var i :| 0 <= i < |r| && r[i] == u;
      }
      if Matches(term, u) {
        var i :| 0 <= i < |users| && users[i] == u;
      }
    }
  }

  /** The search ignores the case of the term: typing it in capitals lists the same users. */
  lemma {:induction false} SearchIgnoresTermCase(users: seq<UserSubscription>, term: string)
    ensures FilteredUsers(users, term) == FilteredUsers(users, ToLower(term))
  {
    forall i | 0 <= i < |users|
      ensures Matches(term, users[i]) <==> Matches(ToLower(term), users[i])
    {
      if users[i].email.Some? {
        IncludesLoweredTerm(users[i].email.value, term);
      }
      if users[i].username.Some? {
        IncludesLoweredTerm(users[i].username.value, term);
      }
    }
    FilterSameTest(users, (u: UserSubscription) => Matches(term, u),
                          (u: UserSubscription) => Matches(ToLower(term), u));
  }

  predicate HasEmailOrUsername(u: UserSubscription)
  {
    u.email.Some? || u.username.Some?
  }

  /** With an empty search box the list shows every user that has an e-mail or a username;
      a row with both null is hidden even then. */
  lemma {:induction false} EmptySearchShowsNamedUsers(users: seq<UserSubscription>)
    ensures FilteredUsers(users, "") == Filter(users, HasEmailOrUsername)
  {
    forall i | 0 <= i < |users|
      ensures Matches("", users[i]) <==> HasEmailOrUsername(users[i])
    {
      if users[i].email.Some? {
        IncludesEmptyTerm(users[i].email.value);
      }
      if users[i].username.Some? {
        IncludesEmptyTerm(users[i].username.value);
      }
    }
    FilterSameTest(users, (u: UserSubscription) => Matches("", u), HasEmailOrUsername);
  }

  /** The badge a row shows. */
  datatype StatusBadge = StatusBadge(status: string, variant: string)

  /** `getSubscriptionStatus`: no subscription data is read, so every row shows the same
      pending badge. */
  function SubscriptionStatus(): (b: StatusBadge)
    ensures b.status == "Pending Setup" && b.variant == "secondary"
  {
    StatusBadge("Pending Setup", "secondary")
  }

  const LoadFailed: string := "Gagal memuat data user"
  const MigrationNotice: string := "Fitur subscription akan aktif setelah migration SQL dijalankan"

  /** A string-valued field placed in a template literal: a null shows as `null`. */
  function TemplateText(field: Option<string>): string
  {
    if field.Some? then field.value else "null"
  }

  /** The first notice of `handleExtendSubscription`. */
  function ExtendNotice(u: UserSubscription, duration: string): string
  {
    "Subscription " + TemplateText(u.email) + " akan diperpanjang " + duration + " bulan"
  }

  /** The page's state: the loaded users, the user picked for renewal, the chosen
      duration in months (as the select box's string value), and the dialog flags. */
  datatype PageState = PageState(
    users: seq<UserSubscription>,
    selectedUser: Option<UserSubscription>,
    duration: string,
    showExtendDialog: bool,
    extending: bool)

  const InitialState: PageState := PageState([], None, "1", false, false)

  /** `fetchUsers`: the query result replaces the list (a null result counts as
      empty); a failed query keeps the list and reports the load error. Nothing else
      in the page changes. */
  function FetchUsers(s: PageState, result: Result<Option<seq<UserSubscription>>, string>)
    : (r: (PageState, Option<string>))
    ensures result.Success? ==> r.0.users == (if result.value.Some? then result.value.value else [])
    ensures result.Success? <==> r.1.None?
    ensures result.Failure? ==> r == (s, Some(LoadFailed))
    ensures r.0 == s.(users := r.0.users)
  {
    match result
    case Failure(_) => (s, Some(LoadFailed))
    case Success(data) => (s.(users := if data.Some? then data.value else []), None)
  }

  /** The row's renew button: it selects the user and opens the confirmation dialog. */
  function OpenExtendDialog(s: PageState, u: UserSubscription): (r: PageState)
    ensures r.selectedUser == Some(u) && r.showExtendDialog
    ensures r.users == s.users && r.duration == s.duration && r.extending == s.extending
  {
    s.(selectedUser := Some(u), showExtendDialog := true)
  }

  /** `handleExtendSubscription`. Without a selected user nothing happens. Otherwise
      the page announces the renewal and that the feature is not active yet, and
      closes the dialog: the `extending` flag is back to false when the handler ends,
      no subscription is written and the list is unchanged. */
  function HandleExtendSubscription(s: PageState): (r: (PageState, seq<string>))
    ensures s.selectedUser.None? ==> r == (s, [])
    ensures s.selectedUser.Some? ==>
      && r.1 == [ExtendNotice(s.selectedUser.value, s.duration), MigrationNotice]
      && r.0 == s.(showExtendDialog := false, extending := false)
    ensures r.0.users == s.users && r.0.selectedUser == s.selectedUser
  {
    if s.selectedUser.None? then (s, [])
    else
      var notices := [ExtendNotice(s.selectedUser.value, s.duration), MigrationNotice];
      (s.(showExtendDialog := false, extending := false), notices)
  }

  /** Opening the dialog and confirming it closes the dialog again, announces the renewal
      of exactly the user whose button was pressed, and leaves the list as it was. */
  lemma ExtendAfterOpen(s: PageState, u: UserSubscription)
    ensures var (t, notices) := HandleExtendSubscription(OpenExtendDialog(s, u));
      && !t.showExtendDialog
      && t.users == s.users
      && notices[0] == ExtendNotice(u, s.duration)
  {
  }
}
