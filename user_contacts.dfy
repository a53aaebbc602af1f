/** The admin page listing users' WhatsApp contacts: the search box, the three counters
    above the list, and the link that opens a chat. */
module UserContacts {
  import opened Wrappers
  import opened Strings
  import opened Seqs

  /** A listed user. The WhatsApp number is optional. */
  datatype UserContact = UserContact(
    userId: string,
    email: Option<string>,
    username: Option<string>,
    whatsapp: Option<string>,
    createdAt: string,
    isApproved: bool)

  /** One row of the query the page runs. The query selects no WhatsApp column. */
  datatype ProfileRow = ProfileRow(
    userId: string,
    email: Option<string>,
    username: Option<string>,
    createdAt: string,
    isApproved: bool)

  /** A fetched row as the page holds it: its WhatsApp field is absent. */
  function ContactOf(row: ProfileRow): (c: UserContact)
    ensures c.userId == row.userId && c.email == row.email && c.username == row.username
    ensures c.whatsapp.None?
  {
    UserContact(row.userId, row.email, row.username, None, row.createdAt, row.isApproved)
  }

  function ContactsOf(rows: seq<ProfileRow>): (cs: seq<UserContact>)
    ensures |cs| == |rows|
    ensures forall i :: 0 <= i < |rows| ==> cs[i] == ContactOf(rows[i])
  {
    seq(|rows|, i requires 0 <= i < |rows| => ContactOf(rows[i]))
  }

  /** The search on the names: e-mail or username includes the term, ignoring case. */
  predicate NameMatches(term: string, u: UserContact)
  {
    (u.email.Some? && IncludesIgnoringCase(u.email.value, term))
    || (u.username.Some? && IncludesIgnoringCase(u.username.value, term))
  }

  /** The full search test: a name matches ignoring case, or the WhatsApp number includes
      the term exactly as typed. */
  predicate ContactMatches(term: string, u: UserContact)
  {
    NameMatches(term, u) || (u.whatsapp.Some? && Contains(u.whatsapp.value, term))
  }

  /** `filteredUsers`. */
  function FilteredContacts(users: seq<UserContact>, term: string): seq<UserContact>
  {
    Filter(users, (u: UserContact) => ContactMatches(term, u))
  }

  /** The test behind the second counter: the number is present and not empty. */
  predicate HasWhatsApp(u: UserContact)
  {
    u.whatsapp.Some? && u.whatsapp.value != ""
  }

  /** The three counters: all users, users with WhatsApp, and search results. */
  datatype Counters = Counters(total: nat, withWhatsApp: nat, shown: nat)

  function CountersOf(users: seq<UserContact>, term: string): (c: Counters)
    ensures c.withWhatsApp <= c.total && c.shown <= c.total
    ensures c.total == |users|
  {
    Counters(|users|, |Filter(users, HasWhatsApp)|, |FilteredContacts(users, term)|)
  }

  /** The search keeps a listed user exactly when the user matches, keeps the list
      order, and never shows more users than were loaded. */
  lemma FilteredContactsSpec(users: seq<UserContact>, term: string)
    ensures IsSubsequence(FilteredContacts(users, term), users)
    ensures forall u :: u in users ==> (u in FilteredContacts(users, term) <==> ContactMatches(term, u))
  {
    var r := FilteredContacts(users, term);
    forall u | u in users
      ensures u in r <==> ContactMatches(term, u)
    {
      if u in r {
        var i :| 0 <= i < |r| && r[i] == u;
      }
      if ContactMatches(term, u) {
        var i :| 0 <= i < |users| && users[i] == u;
      }
    }
  }

  /** The users with a number and those without split the list between them. */
  lemma WhatsAppSplit(users: seq<UserContact>)
    ensures |Filter(users, HasWhatsApp)| + |Filter(users, (u: UserContact) => !HasWhatsApp(u))| == |users|
  {
    FilterComplementLength(users, HasWhatsApp, (u: UserContact) => !HasWhatsApp(u));
  }

  /** A number matches a term with a letter only in the case it was typed; the names
      ignore case. So `"A"` finds a user named `"a"` but, through the number arm, only a
      number containing `"A"` itself. */
  lemma WhatsAppArmKeepsCase()
    ensures var u := UserContact("u", None, None, Some("a"), "", true);
      && ContactMatches("a", u)
      && !ContactMatches("A", u)
  {
    var u := UserContact("u", None, None, Some("a"), "", true);
    assert OccursAt("a", "a", 0);
    ContainsIff("a", "a");
    ContainsIff("a", "A");
    forall i | 0 <= i <= |"a"| - |"A"|
      ensures !OccursAt("a", "A", i)
    {
      assert "a"[i..i + 1][0] == 'a';
    }
  }

  /** As the page fetches them, users have no WhatsApp field: the second counter is
      always zero, and the number arm of the search never finds anyone. */
  lemma {:induction false} FetchedContactsHaveNoWhatsApp(rows: seq<ProfileRow>, term: string)
    ensures CountersOf(ContactsOf(rows), term).withWhatsApp == 0
    ensures FilteredContacts(ContactsOf(rows), term)
         == Filter(ContactsOf(rows), (u: UserContact) => NameMatches(term, u))
  {
    var cs := ContactsOf(rows);
    FilterNone(cs, HasWhatsApp);
    FilterSameTest(cs, (u: UserContact) => ContactMatches(term, u),
                       (u: UserContact) => NameMatches(term, u));
  }

  const ChatPrefix: string := "https://wa.me/"

  /** `handleOpenWhatsApp`: the stored number is put after the chat prefix as it is,
      with no normalisation, and can be read back from the link. */
  function ChatLink(whatsapp: string): (link: string)
    ensures ChatPrefix <= link
    ensures link[|ChatPrefix|..] == whatsapp
  {
    ChatPrefix + whatsapp
  }

  const LoadFailed: string := "Gagal memuat data user"

  /** `fetchUsers`: the query result replaces the list (a null result counts as
      empty); a failed query keeps the list and reports the load error. */
  function FetchUsers(users: seq<UserContact>, result: Result<Option<seq<ProfileRow>>, string>)
    : (r: (seq<UserContact>, Option<string>))
    ensures result.Success? ==> r == (ContactsOf(if result.value.Some? then result.value.value else []), None)
    ensures result.Failure? ==> r == (users, Some(LoadFailed))
  {
    match result
    case Failure(_) => (users, Some(LoadFailed))
    case Success(data) => (ContactsOf(if data.Some? then data.value else []), None)
  }

  /** Starting from the empty list, every list the page ever holds came from a fetch,
      so none of its users has a number and the second counter stays at zero. */
  lemma {:induction false} FetchedListHasNoWhatsApp(users: seq<UserContact>,
                                                    result: Result<Option<seq<ProfileRow>>, string>,
                                                    term: string)
    requires forall i :: 0 <= i < |users| ==> users[i].whatsapp.None?
    ensures var fetched := FetchUsers(users, result).0;
      && (forall i :: 0 <= i < |fetched| ==> fetched[i].whatsapp.None?)
      && CountersOf(fetched, term).withWhatsApp == 0
  {
    var fetched := FetchUsers(users, result).0;
    FilterNone(fetched, HasWhatsApp);
  }
}
