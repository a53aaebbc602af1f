/** The admin's user-management page: the `profiles` and `user_roles` tables it acts
    on, and the page state it keeps (the pending and approved lists, the action awaiting
    confirmation, the admin's contact fields). Backend failures are parameters. */
module UserManagement {
  import opened Wrappers
  import opened Strings
  import opened Seqs

  /** A row of the `profiles` table. */
  datatype Profile = Profile(
    userId: string, email: string, username: string, isApproved: bool, createdAt: string,
    approvedAt: Option<string>, approvedBy: Option<string>,
    adminWhatsapp: Option<string>, adminInstagram: Option<string>)

  /** A row of the `user_roles` table. */
  datatype RoleGrant = RoleGrant(userId: string, role: string)

  const UserRole := "user"

  /** The error text the database gives for a second copy of a unique row. */
  const DuplicateRoleError := "duplicate key value violates unique constraint"

  datatype AdminAction = Approve | Reject | Suspend

  predicate IsPending(p: Profile) { !p.isApproved }

  predicate IsApproved(p: Profile) { p.isApproved }

  /** The test `.eq('user_id', userId)` negated. */
  function OtherThan(userId: string): Profile -> bool
  {
    (p: Profile) => p.userId != userId
  }

  function PendingOf(rows: seq<Profile>): seq<Profile>
  {
    Filter(rows, IsPending)
  }

  function ApprovedOf(rows: seq<Profile>): seq<Profile>
  {
    Filter(rows, IsApproved)
  }

  /** `fetchUsers`' split: every row lands in exactly one of the two lists, each list
      keeps the fetched order, and together they hold as many rows as were fetched. */
  lemma PartitionSplitsRows(rows: seq<Profile>)
    ensures |PendingOf(rows)| + |ApprovedOf(rows)| == |rows|
    ensures IsSubsequence(PendingOf(rows), rows) && IsSubsequence(ApprovedOf(rows), rows)
    ensures forall p :: p in rows ==> (p in PendingOf(rows) <==> !p.isApproved)
    ensures forall p :: p in rows ==> (p in ApprovedOf(rows) <==> p.isApproved)
  {
    FilterComplementLength(rows, IsPending, IsApproved);
    forall p | p in rows
      ensures (p in PendingOf(rows) <==> !p.isApproved) && (p in ApprovedOf(rows) <==> p.isApproved)
    {
      var i :| 0 <= i < |rows| && rows[i] == p;
      if p in PendingOf(rows) {
        var j :| 0 <= j < |PendingOf(rows)| && PendingOf(rows)[j] == p;
      }
      if p in ApprovedOf(rows) {
        var j :| 0 <= j < |ApprovedOf(rows)| && ApprovedOf(rows)[j] == p;
      }
    }
  }

  /** `update(...).eq('user_id', userId)`: every row of that user changed, the others
      and the order kept. */
  function ApplyToUser(rows: seq<Profile>, userId: string, update: Profile -> Profile): (r: seq<Profile>)
    ensures |r| == |rows|
    ensures forall i :: 0 <= i < |rows| ==> r[i] == (if rows[i].userId == userId then update(rows[i]) else rows[i])
  {
    if rows == [] then []
    else [if rows[0].userId == userId then update(rows[0]) else rows[0]] + ApplyToUser(rows[1..], userId, update)
  }

  /** The approval update: approved, by the acting admin (absent when the session has
      no user), at the given time. The user id is kept. */
  function Approval(adminId: Option<string>, now: string): (f: Profile -> Profile)
  {
    (p: Profile) => p.(isApproved := true, approvedBy := adminId, approvedAt := Some(now))
  }

  /** The suspension update: not approved, approver and time cleared. */
  function Suspension(): (f: Profile -> Profile)
  {
    (p: Profile) => p.(isApproved := false, approvedBy := None, approvedAt := None)
  }

  /** The contact update, with the values trimmed. */
  function ContactUpdate(whatsapp: string, instagram: string): (f: Profile -> Profile)
  {
    (p: Profile) => p.(adminWhatsapp := Some(Trim(whatsapp)), adminInstagram := Some(Trim(instagram)))
  }

  /** `delete().eq('user_id', userId)`. */
  function DeleteUser(rows: seq<Profile>, userId: string): seq<Profile>
  {
    Filter(rows, OtherThan(userId))
  }

  /** Approving takes the user out of the pending list and leaves the rest of it as it
      was; every row of the user is then in the approved list. */
  lemma {:induction false} ApproveMovesUser(rows: seq<Profile>, userId: string, adminId: Option<string>, now: string)
    ensures PendingOf(ApplyToUser(rows, userId, Approval(adminId, now))) == Filter(PendingOf(rows), OtherThan(userId))
    ensures var after := ApplyToUser(rows, userId, Approval(adminId, now));
      forall i :: 0 <= i < |after| && after[i].userId == userId ==> after[i] in ApprovedOf(after)
  {
    var after := ApplyToUser(rows, userId, Approval(adminId, now));
    if rows != [] {
      ApproveMovesUser(rows[1..], userId, adminId, now);
      assert after == [after[0]] + ApplyToUser(rows[1..], userId, Approval(adminId, now));
      assert after[0].userId == rows[0].userId;
    }
  }

  /** Suspending takes the user out of the approved list and leaves the rest of it as
      it was; every row of the user is then pending. */
  lemma {:induction false} SuspendMovesUser(rows: seq<Profile>, userId: string)
    ensures ApprovedOf(ApplyToUser(rows, userId, Suspension())) == Filter(ApprovedOf(rows), OtherThan(userId))
    ensures var after := ApplyToUser(rows, userId, Suspension());
      forall i :: 0 <= i < |after| && after[i].userId == userId ==> after[i] in PendingOf(after)
  {
    var after := ApplyToUser(rows, userId, Suspension());
    if rows != [] {
      SuspendMovesUser(rows[1..], userId);
      assert after == [after[0]] + ApplyToUser(rows[1..], userId, Suspension());
      assert after[0].userId == rows[0].userId;
    }
  }

  /** Rejecting removes the user from both lists and leaves everything else in them. */
  lemma {:induction false} RejectRemovesUser(rows: seq<Profile>, userId: string)
    ensures PendingOf(DeleteUser(rows, userId)) == Filter(PendingOf(rows), OtherThan(userId))
    ensures ApprovedOf(DeleteUser(rows, userId)) == Filter(ApprovedOf(rows), OtherThan(userId))
    ensures forall p :: p in DeleteUser(rows, userId) ==> p.userId != userId
  {
    if rows != [] {
      RejectRemovesUser(rows[1..], userId);
    }
  }

  /** Approval and its time are recorded together: a row is approved exactly when it
      has an approval time. */
  predicate ApprovalRecorded(rows: seq<Profile>)
  {
    forall p :: p in rows ==> (p.isApproved <==> p.approvedAt.Some?)
  }

  predicate Recorded(p: Profile)
  {
    p.isApproved <==> p.approvedAt.Some?
  }

  lemma UpdateKeepsRecorded(rows: seq<Profile>, userId: string, update: Profile -> Profile)
    requires ApprovalRecorded(rows)
    requires forall p :: Recorded(p) ==> Recorded(update(p))
    ensures ApprovalRecorded(ApplyToUser(rows, userId, update))
  {
    var after := ApplyToUser(rows, userId, update);
    forall q | q in after ensures Recorded(q) {
      var i :| 0 <= i < |after| && after[i] == q;
      assert rows[i] in rows;
    }
  }

  /** Approve, suspend, reject and the contact update all keep approval and its time
      together. */
  lemma ActionsKeepApprovalRecorded(rows: seq<Profile>, userId: string, adminId: Option<string>, now: string,
                                    whatsapp: string, instagram: string)
    requires ApprovalRecorded(rows)
    ensures ApprovalRecorded(ApplyToUser(rows, userId, Approval(adminId, now)))
    ensures ApprovalRecorded(ApplyToUser(rows, userId, Suspension()))
    ensures ApprovalRecorded(ApplyToUser(rows, userId, ContactUpdate(whatsapp, instagram)))
    ensures ApprovalRecorded(DeleteUser(rows, userId))
  {
    UpdateKeepsRecorded(rows, userId, Approval(adminId, now));
    UpdateKeepsRecorded(rows, userId, Suspension());
    UpdateKeepsRecorded(rows, userId, ContactUpdate(whatsapp, instagram));
  }

  /** The saved contact fields carry no white space at either end, and saving what
      was saved again changes nothing. */
  lemma SavedContactsTrimmed(rows: seq<Profile>, userId: string, whatsapp: string, instagram: string)
    ensures var after := ApplyToUser(rows, userId, ContactUpdate(whatsapp, instagram));
      forall i :: 0 <= i < |after| && after[i].userId == userId ==>
        after[i].adminWhatsapp == Some(Trim(whatsapp)) && after[i].adminInstagram == Some(Trim(instagram))
    ensures Trim(whatsapp) != [] ==> !IsJsWhitespace(Trim(whatsapp)[0])
                                     && !IsJsWhitespace(Trim(whatsapp)[|Trim(whatsapp)| - 1])
    ensures ApplyToUser(ApplyToUser(rows, userId, ContactUpdate(whatsapp, instagram)), userId,
                        ContactUpdate(Trim(whatsapp), Trim(instagram)))
            == ApplyToUser(rows, userId, ContactUpdate(whatsapp, instagram))
  {
    TrimSpec(whatsapp);
    TrimIdempotent(whatsapp);
    TrimIdempotent(instagram);
  }

  /** The two tables and the authentication accounts. */
  class Backend {
    /** The `profiles` rows in the order the page's query returns them (newest first). */
    var profiles: seq<Profile>
    var roles: set<RoleGrant>
    var accounts: set<string>

    constructor(profiles0: seq<Profile>, roles0: set<RoleGrant>, accounts0: set<string>)
      ensures profiles == profiles0 && roles == roles0 && accounts == accounts0
    {
      profiles, roles, accounts := profiles0, roles0, accounts0;
    }

    /** An update of the user's rows; `fails` is the backend refusing it. */
    method UpdateUser(userId: string, update: Profile -> Profile, fails: bool) returns (ok: bool)
      modifies this
      ensures ok == !fails
      ensures profiles == (if ok then ApplyToUser(old(profiles), userId, update) else old(profiles))
      ensures roles == old(roles) && accounts == old(accounts)
    {
      ok := !fails;
      if ok {
        profiles := ApplyToUser(profiles, userId, update);
      }
    }

    method DeleteProfile(userId: string, fails: bool) returns (ok: bool)
      modifies this
      ensures ok == !fails
      ensures profiles == (if ok then DeleteUser(old(profiles), userId) else old(profiles))
      ensures roles == old(roles) && accounts == old(accounts)
    {
      ok := !fails;
      if ok {
        profiles := DeleteUser(profiles, userId);
      }
    }

    /** The role insert: a grant already present is refused as a duplicate; otherwise
        `fault` is the backend's other refusal, if any. */
    method InsertRole(grant: RoleGrant, fault: Option<string>) returns (error: Option<string>)
      modifies this
      ensures grant in old(roles) ==> error == Some(DuplicateRoleError) && roles == old(roles)
      ensures grant !in old(roles) ==> error == fault
      ensures grant !in old(roles) ==> roles == (if fault.None? then old(roles) + {grant} else old(roles))
      ensures profiles == old(profiles) && accounts == old(accounts)
    {
      if grant in roles {
        return Some(DuplicateRoleError);
      }
      error := fault;
      if fault.None? {
        roles := roles + {grant};
      }
    }

    method DeleteAccount(userId: string, fails: bool) returns (ok: bool)
      modifies this
      ensures ok == !fails
      ensures accounts == (if ok then old(accounts) - {userId} else old(accounts))
      ensures profiles == old(profiles) && roles == old(roles)
    {
      ok := !fails;
      if ok {
        accounts := accounts - {userId};
      }
    }
  }

  /** Whether an approval's role insert counts as done: no error, or a duplicate. */
  predicate RoleInsertAccepted(error: Option<string>)
  {
    error.None? || Contains(error.value, "duplicate")
  }

  /** The grants after an approval's role insert: the `user` role added unless the
      backend refused it for another reason; a grant already there stays single. */
  function RolesAfterApproval(roles: set<RoleGrant>, userId: string, fault: Option<string>): set<RoleGrant>
  {
    var grant := RoleGrant(userId, UserRole);
    if grant in roles || fault.None? then roles + {grant} else roles
  }

  /** The duplicate refusal is one the approval tolerates. */
  lemma DuplicateErrorAccepted()
    ensures RoleInsertAccepted(Some(DuplicateRoleError))
  {
    assert DuplicateRoleError == "duplicate" + DuplicateRoleError[9..];
    assert "duplicate" <= DuplicateRoleError;
  }

  /** Approving twice leaves the roles as approving once, and the second approval is
      not failed by its duplicate. */
  lemma ReapprovalIdempotentOnRoles(roles: set<RoleGrant>, userId: string, fault1: Option<string>,
                                    fault2: Option<string>)
    requires fault1.None?
    ensures var once := RolesAfterApproval(roles, userId, fault1);
      && RolesAfterApproval(once, userId, fault2) == once
      && RoleGrant(userId, UserRole) in once
      && RoleInsertAccepted(Some(DuplicateRoleError))
  {
    DuplicateErrorAccepted();
  }

  class UserManagementPage {
    var pendingUsers: seq<Profile>
    var approvedUsers: seq<Profile>
    var actionUser: Option<(string, AdminAction)>
    var adminWhatsApp: string
    var adminInstagram: string

    constructor()
      ensures pendingUsers == [] && approvedUsers == [] && actionUser.None?
      ensures adminWhatsApp == "" && adminInstagram == ""
    {
      pendingUsers, approvedUsers, actionUser := [], [], None;
      adminWhatsApp, adminInstagram := "", "";
    }

    /** `fetchUsers`: both lists replaced from one read of the table, or both kept
        when the read fails. */
    method FetchUsers(db: Backend, fails: bool)
      modifies this
      ensures !fails ==> pendingUsers == PendingOf(db.profiles) && approvedUsers == ApprovedOf(db.profiles)
      ensures fails ==> pendingUsers == old(pendingUsers) && approvedUsers == old(approvedUsers)
      ensures actionUser == old(actionUser)
      ensures adminWhatsApp == old(adminWhatsApp) && adminInstagram == old(adminInstagram)
    {
      if fails {
        return;
      }
      var data := db.profiles;
      pendingUsers := Filter(data, IsPending);
      approvedUsers := Filter(data, IsApproved);
    }

    /** `handleApprove`. The profile update comes first; a role refusal other than a
        duplicate then fails the action with the update already made. The lists are
        read again only on success, and the pending action is cleared either way. */
    method HandleApprove(db: Backend, userId: string, adminId: Option<string>, now: string,
                         updateFails: bool, roleFault: Option<string>, fetchFails: bool)
      returns (ok: bool)
      modifies this, db
      ensures var grant := RoleGrant(userId, UserRole);
        var roleError := if grant in old(db.roles) then Some(DuplicateRoleError) else roleFault;
        && (ok <==> !updateFails && RoleInsertAccepted(roleError))
        && db.profiles == (if updateFails then old(db.profiles)
                           else ApplyToUser(old(db.profiles), userId, Approval(adminId, now)))
        && db.roles == (if updateFails then old(db.roles) else RolesAfterApproval(old(db.roles), userId, roleFault))
        && db.accounts == old(db.accounts)
      ensures actionUser.None?
      ensures ok && !fetchFails ==> pendingUsers == PendingOf(db.profiles) && approvedUsers == ApprovedOf(db.profiles)
      ensures !ok || fetchFails ==> pendingUsers == old(pendingUsers) && approvedUsers == old(approvedUsers)
    {
      ok := false;
      DuplicateErrorAccepted();
      var updated := db.UpdateUser(userId, Approval(adminId, now), updateFails);
      if updated {
        var roleError := db.InsertRole(RoleGrant(userId, UserRole), roleFault);
        if RoleInsertAccepted(roleError) {
          ok := true;
          FetchUsers(db, fetchFails);
        }
      }
      actionUser := None;
    }

    /** `handleReject`: the profile row is deleted; the account delete that follows
        may fail without failing the action. */
    method HandleReject(db: Backend, userId: string, deleteFails: bool, accountDeleteFails: bool,
                        fetchFails: bool)
      returns (ok: bool)
      modifies this, db
      ensures ok == !deleteFails
      ensures db.profiles == (if ok then DeleteUser(old(db.profiles), userId) else old(db.profiles))
      ensures db.accounts == (if ok && !accountDeleteFails then old(db.accounts) - {userId} else old(db.accounts))
      ensures db.roles == old(db.roles)
      ensures actionUser.None?
      ensures ok && !fetchFails ==> pendingUsers == PendingOf(db.profiles) && approvedUsers == ApprovedOf(db.profiles)
      ensures !ok || fetchFails ==> pendingUsers == old(pendingUsers) && approvedUsers == old(approvedUsers)
    {
      ok := db.DeleteProfile(userId, deleteFails);
      if ok {
        var accountDeleted := db.DeleteAccount(userId, accountDeleteFails);
        FetchUsers(db, fetchFails);
      }
      actionUser := None;
    }

    /** `handleSuspend`. */
    method HandleSuspend(db: Backend, userId: string, updateFails: bool, fetchFails: bool)
      returns (ok: bool)
      modifies this, db
      ensures ok == !updateFails
      ensures db.profiles == (if ok then ApplyToUser(old(db.profiles), userId, Suspension()) else old(db.profiles))
      ensures db.roles == old(db.roles) && db.accounts == old(db.accounts)
      ensures actionUser.None?
      ensures ok && !fetchFails ==> pendingUsers == PendingOf(db.profiles) && approvedUsers == ApprovedOf(db.profiles)
      ensures !ok || fetchFails ==> pendingUsers == old(pendingUsers) && approvedUsers == old(approvedUsers)
    {
      ok := db.UpdateUser(userId, Suspension(), updateFails);
      if ok {
        FetchUsers(db, fetchFails);
      }
      actionUser := None;
    }

    /** `saveAdminContactInfo`: the admin's own row gets the trimmed fields; nothing
        happens without a signed-in user. The fields on the page are left as typed. */
    method SaveAdminContactInfo(db: Backend, currentUser: Option<string>, fails: bool)
      returns (saved: bool)
      modifies db
      ensures saved <==> currentUser.Some? && !fails
      ensures db.profiles == (if saved then ApplyToUser(old(db.profiles), currentUser.value,
                                                        ContactUpdate(adminWhatsApp, adminInstagram))
                              else old(db.profiles))
      ensures db.roles == old(db.roles) && db.accounts == old(db.accounts)
    {
      if currentUser.None? {
        return false;
      }
      saved := db.UpdateUser(currentUser.value, ContactUpdate(adminWhatsApp, adminInstagram), fails);
    }
  }
}
