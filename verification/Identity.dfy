/** The identity service, statement by statement, over the directory's tables. */
module Identity {
  import opened Tables
  import opened Membership

  /** What a call did: the new tables if it committed, the old ones if it was refused. */
  ghost predicate Did(v: Verdict<Directory>, refused: Option<Refusal>, before: Directory, after: Directory) {
    match v
    case Done(d) => refused.None? && after == d
    case Refused(why) => refused == Some(why) && after == before
  }

  class Service {
    var orgs: set<OrgId>
    var users: map<UserId, User>
    var members: map<(OrgId, UserId), Role>
    var invitations: map<InviteId, Invitation>
    var codes: map<CodeId, JoinCode>

    constructor ()
      ensures Seen() == NOBODY
    {
      orgs, users, members, invitations, codes := {}, map[], map[], map[], map[];
    }

    ghost function Seen(): Directory
      reads this
    {
      Directory(orgs, users, members, invitations, codes)
    }

    method UpdateMember(o: OrgId, u: UserId, role: Role)
      modifies `members, `users
      ensures Seen() == SetRole(old(Seen()), o, u, role)
    {
      if (o, u) in members { members := members[(o, u) := role]; }
      if u in users && users[u].org == Some(o) { users := users[u := users[u].(role := role)]; }
    }

    method DeleteMember(o: OrgId, u: UserId)
      modifies `members, `users
      ensures Seen() == Unlink(old(Seen()), o, u)
    {
      members := members - {(o, u)};
      if u in users && users[u].org == Some(o) { users := users[u := users[u].(org := None, role := Member)]; }
    }

    /** ownerCount: one scan of the membership rows. */
    method OwnerCount(o: OrgId) returns (n: nat)
      ensures n == |OwnersOf(Seen(), o)|
    {
      var todo := members.Keys;
      n := 0;
      ghost var counted: set<UserId> := {};
      while todo != {}
        invariant todo <= members.Keys && n == |counted|
        invariant counted == set k | k in members && k !in todo && k.0 == o && members[k].Owner? :: k.1
        decreases todo
      {
        var k :| k in todo;
        if k.0 == o && members[k].Owner? {
          assert k.1 !in counted;
          n, counted := n + 1, counted + {k.1};
        }
        todo := todo - {k};
      }
      assert counted == OwnersOf(Seen(), o);
    }

    method ChangeMemberRole(o: OrgId, actor: UserId, actorRole: Role, target: UserId, newRole: Role)
      returns (refused: Option<Refusal>)
      modifies `members, `users
      ensures Did(Membership.ChangeMemberRole(old(Seen()), o, actor, actorRole, target, newRole), refused, old(Seen()),
              Seen())
    {
      var role := newRole.Normalize();
      if !role.Owner? && !role.Admin? && !role.Member? { return Some(InvalidRole); }
      if actor == target { return Some(Forbidden); }
      if (o, target) !in members { return Some(NoSuchMember); }
      var current := members[(o, target)];
      if (role.Owner? || current.Owner?) && !actorRole.Owner? { return Some(Forbidden); }
      if current.Owner? && !role.Owner? {
        var n := OwnerCount(o);
        if n < 2 { return Some(LastOwner); }
      }
      UpdateMember(o, target, role);
      return None;
    }

    method RemoveMember(o: OrgId, actor: UserId, actorRole: Role, target: UserId) returns (refused: Option<Refusal>)
      modifies `members, `users
      ensures Did(Membership.RemoveMember(old(Seen()), o, actor, actorRole, target), refused, old(Seen()), Seen())
    {
      if actor == target { return Some(Forbidden); }
      if (o, target) !in members { return Some(NoSuchMember); }
      if members[(o, target)].Owner? {
        if !actorRole.Owner? { return Some(Forbidden); }
        var n := OwnerCount(o);
        if n < 2 { return Some(LastOwner); }
      }
      DeleteMember(o, target);
      return None;
    }

    /** The deletion is rolled back when the user's row does not name the organization. */
    method LeaveOrg(o: OrgId, u: UserId, role: Role) returns (refused: Option<Refusal>)
      modifies `members, `users
      ensures Did(Membership.LeaveOrg(old(Seen()), o, u, role), refused, old(Seen()), Seen())
    {
      if role.Normalize().Owner? {
        var n := OwnerCount(o);
        if n < 2 { return Some(LastOwner); }
      }
      var before := members;
      members := members - {(o, u)};
      if u !in users || users[u].org != Some(o) {
        members := before;
        return Some(NoSuchMember);
      }
      users := users[u := users[u].(org := None, role := Member)];
      return None;
    }

    method TransferOwnership(o: OrgId, actor: UserId, actorRole: Role, target: UserId)
      returns (refused: Option<Refusal>)
      modifies `members, `users
      ensures Did(Membership.TransferOwnership(old(Seen()), o, actor, actorRole, target), refused, old(Seen()), Seen())
    {
      if !actorRole.Normalize().Owner? { return Some(Forbidden); }
      if actor == target { return Some(Forbidden); }
      if (o, target) !in members { return Some(NoSuchMember); }
      var changes := [(actor, Admin), (target, Owner)];
      ghost var was := Seen();
      for i := 0 to |changes|
        invariant Seen() == if i == 0 then was else if i == 1 then SetRole(was, o, actor, Admin)
                            else SetRole(SetRole(was, o, actor, Admin), o, target, Owner)
      {
        UpdateMember(o, changes[i].0, changes[i].1);
      }
      return None;
    }

    /** joinOrgTx: the guarded update of the user, then the upsert of the membership. */
    method JoinOrg(u: UserId, o: OrgId, role: Role) returns (refused: Option<Refusal>)
      modifies `members, `users
      ensures Did(Join(old(Seen()), u, o, role), refused, old(Seen()), Seen())
    {
      var r := role.Normalize();
      if u !in users || users[u].org.Some? { return Some(AlreadyMember); }
      users := users[u := users[u].(org := Some(o), role := r)];
      members := members[(o, u) := r];
      return None;
    }

    /** The invitation is claimed first; a foreign e-mail address rolls the claim back. */
    method AcceptInvitation(u: UserId, i: InviteId, now: Time) returns (refused: Option<Refusal>)
      modifies this
      ensures Did(Membership.AcceptInvitation(old(Seen()), u, i, now), refused, old(Seen()), Seen())
    {
      if u !in users || !users[u].active { return Some(InvalidCredentials); }
      if users[u].org.Some? { return Some(AlreadyMember); }
      if i !in invitations || !StillPending(invitations[i], now) { return Some(InvitationInvalid); }
      var before, inv := invitations, invitations[i];
      invitations := invitations[i := inv.(accepted := true)];
      if !SameEmail(users[u].email, inv.email) {
        invitations := before;
        return Some(Forbidden);
      }
      refused := JoinOrg(u, inv.org, inv.role);
    }

    method JoinViaCode(u: UserId, c: CodeId, now: Time) returns (refused: Option<Refusal>)
      modifies this
      ensures Did(Membership.JoinViaCode(old(Seen()), u, c, now), refused, old(Seen()), Seen())
    {
      if u !in users || !users[u].active { return Some(InvalidCredentials); }
      if users[u].org.Some? { return Some(AlreadyMember); }
      if c !in codes || !Usable(codes[c], now) { return Some(JoinCodeInvalid); }
      var code := codes[c];
      codes := codes[c := code.(uses := code.uses + 1)];
      refused := JoinOrg(u, code.org, Member);
    }

    /** insertMembershipTx. */
    method InsertMembership(o: OrgId, u: UserId, role: Role)
      modifies `members
      ensures members == old(members)[(o, u) := role.Normalize()]
    {
      members := members[(o, u) := role.Normalize()];
    }

    method Register(o: OrgId, u: UserId, email: string)
      modifies this
      ensures Seen() == Membership.Register(old(Seen()), o, u, email)
      ensures Consistent(old(Seen())) && o !in old(orgs) && u !in old(users) ==>
                Consistent(Seen()) && OwnersOf(Seen(), o) == {u}
    {
      ghost var was := Seen();
      orgs := orgs + {o};
      users := users[u := User(NormalEmail(email), Some(o), Owner, true)];
      InsertMembership(o, u, Owner);
      if Consistent(was) && o !in was.orgs && u !in was.users { RegisterConsistent(was, o, u, email); }
    }

    method CreateOrgForUser(u: UserId, o: OrgId) returns (refused: Option<Refusal>)
      modifies this
      ensures Did(Membership.CreateOrgForUser(old(Seen()), u, o), refused, old(Seen()), Seen())
    {
      if u !in users || !users[u].active { return Some(InvalidCredentials); }
      if users[u].org.Some? { return Some(AlreadyMember); }
      orgs := orgs + {o};
      users := users[u := users[u].(org := Some(o), role := Owner)];
      InsertMembership(o, u, Owner);
      return None;
    }

    method CreateUser(u: UserId, o: OrgId, email: string, role: Role)
      modifies this
      ensures Seen() == Membership.CreateUser(old(Seen()), u, o, email, role)
      ensures Consistent(old(Seen())) && o in old(orgs) && u !in old(users) && Assignable(role.Normalize()) ==>
                Consistent(Seen())
    {
      ghost var was := Seen();
      users := users[u := User(email, Some(o), role.Normalize(), true)];
      InsertMembership(o, u, role);
      CreateUserConsistent(was, u, o, email, role);
    }
  }
}
