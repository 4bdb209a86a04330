/** Organizations, users and memberships: each operation as one function on the directory. */
module Membership {
  import opened Tables
  import Like

  type UserId = nat
  type InviteId = nat
  type CodeId = nat

  /** `Legacy` is the old name of a plain member, `Unknown` any other text. */
  datatype Role = Owner | Admin | Member | Legacy | Unknown {
    function Normalize(): Role { if Legacy? then Member else this }
  }

  datatype User = User(email: string, org: Option<OrgId>, role: Role, active: bool)
  datatype Invitation = Invitation(org: OrgId, email: string, role: Role, expiresAt: Time, accepted: bool,
                                   revoked: bool)
  datatype JoinCode = JoinCode(org: OrgId, maxUses: nat, uses: nat, expiresAt: Time, revoked: bool)

  datatype Directory = Directory(
    orgs: set<OrgId>,
    users: map<UserId, User>,
    members: map<(OrgId, UserId), Role>,
    invitations: map<InviteId, Invitation>,
    codes: map<CodeId, JoinCode>)

  const NOBODY := Directory({}, map[], map[], map[], map[])

  datatype Refusal = InvalidRole | Forbidden | NoSuchMember | LastOwner | AlreadyMember | InvitationInvalid |
                     JoinCodeInvalid | InvalidCredentials | EmailRequired

  datatype Verdict<+T> = Done(value: T) | Refused(why: Refusal)

  function OwnersOf(d: Directory, o: OrgId): set<UserId> {
    set k | k in d.members && k.0 == o && d.members[k].Owner? :: k.1
  }

  // ----- statements

  function SetMemberRole(d: Directory, o: OrgId, u: UserId, role: Role): Directory {
    if (o, u) in d.members then d.(members := d.members[(o, u) := role]) else d
  }

  predicate BelongsTo(d: Directory, u: UserId, o: OrgId) { u in d.users && d.users[u].org == Some(o) }

  function SetUserRole(d: Directory, o: OrgId, u: UserId, role: Role): Directory {
    if BelongsTo(d, u, o) then d.(users := d.users[u := d.users[u].(role := role)]) else d
  }

  /** Both rows: the membership and its mirror on the user. */
  function SetRole(d: Directory, o: OrgId, u: UserId, role: Role): Directory {
    SetUserRole(SetMemberRole(d, o, u, role), o, u, role)
  }

  function Unlink(d: Directory, o: OrgId, u: UserId): Directory {
    var gone := d.(members := d.members - {(o, u)});
    if BelongsTo(gone, u, o) then gone.(users := gone.users[u := gone.users[u].(org := None, role := Member)]) else gone
  }

  function Link(d: Directory, o: OrgId, u: UserId, role: Role): Directory
    requires u in d.users
  {
    d.(users := d.users[u := d.users[u].(org := Some(o), role := role)], members := d.members[(o, u) := role])
  }

  // ----- members

  predicate Assignable(role: Role) { role.Owner? || role.Admin? || role.Member? }

  function ChangeMemberRole(d: Directory, o: OrgId, actor: UserId, actorRole: Role, target: UserId,
                            newRole: Role): Verdict<Directory> {
    var role := newRole.Normalize();
    if !Assignable(role) then Refused(InvalidRole)
    else if actor == target then Refused(Forbidden)
    else if (o, target) !in d.members then Refused(NoSuchMember)
    else
      var current := d.members[(o, target)];
      if (role.Owner? || current.Owner?) && !actorRole.Owner? then Refused(Forbidden)
      else if current.Owner? && !role.Owner? && |OwnersOf(d, o)| < 2 then Refused(LastOwner)
      else Done(SetRole(d, o, target, role))
  }

  function RemoveMember(d: Directory, o: OrgId, actor: UserId, actorRole: Role, target: UserId): Verdict<Directory> {
    if actor == target then Refused(Forbidden)
    else if (o, target) !in d.members then Refused(NoSuchMember)
    else
      var current := d.members[(o, target)];
      if current.Owner? && !actorRole.Owner? then Refused(Forbidden)
      else if current.Owner? && |OwnersOf(d, o)| < 2 then Refused(LastOwner)
      else Done(Unlink(d, o, target))
  }

  function LeaveOrg(d: Directory, o: OrgId, u: UserId, role: Role): Verdict<Directory> {
    if role.Normalize().Owner? && |OwnersOf(d, o)| < 2 then Refused(LastOwner)
    else if !BelongsTo(d, u, o) then Refused(NoSuchMember)
    else Done(Unlink(d, o, u))
  }

  function TransferOwnership(d: Directory, o: OrgId, actor: UserId, actorRole: Role,
                             target: UserId): Verdict<Directory> {
    if !actorRole.Normalize().Owner? then Refused(Forbidden)
    else if actor == target then Refused(Forbidden)
    else if (o, target) !in d.members then Refused(NoSuchMember)
    else Done(SetRole(SetRole(d, o, actor, Admin), o, target, Owner))
  }

  // ----- joining

  function Join(d: Directory, u: UserId, o: OrgId, role: Role): Verdict<Directory> {
    if u !in d.users || d.users[u].org.Some? then Refused(AlreadyMember)
    else Done(Link(d, o, u, role.Normalize()))
  }

  predicate StillPending(i: Invitation, now: Time) { !i.accepted && !i.revoked && i.expiresAt > now }

  predicate IsSpace(c: char) { c == ' ' || c == '\t' || c == '\n' || c == '\r' }

  function TrimLeft(s: string): string { if s != "" && IsSpace(s[0]) then TrimLeft(s[1..]) else s }

  function TrimRight(s: string): string { if s != "" && IsSpace(s[|s| - 1]) then TrimRight(s[..|s| - 1]) else s }

  /** TrimSpace. */
  function Trim(s: string): string { TrimRight(TrimLeft(s)) }

  /** How an address is stored at sign-up and in an invitation. */
  function NormalEmail(email: string): string { Trim(Like.Fold(email)) }

  /** The comparison of citext columns. */
  predicate SameText(a: string, b: string) { Like.Fold(a) == Like.Fold(b) }

  /** The user's address, trimmed, against the invitation's. */
  predicate SameEmail(user: string, invited: string) { SameText(Trim(user), invited) }

  function AcceptInvitation(d: Directory, u: UserId, i: InviteId, now: Time): Verdict<Directory> {
    if u !in d.users || !d.users[u].active then Refused(InvalidCredentials)
    else if d.users[u].org.Some? then Refused(AlreadyMember)
    else if i !in d.invitations || !StillPending(d.invitations[i], now) then Refused(InvitationInvalid)
    else
      var inv := d.invitations[i];
      if !SameEmail(d.users[u].email, inv.email) then Refused(Forbidden)
      else Join(d.(invitations := d.invitations[i := inv.(accepted := true)]), u, inv.org, inv.role)
  }

  predicate Usable(c: JoinCode, now: Time) { !c.revoked && c.expiresAt > now && (c.maxUses == 0 || c.uses < c.maxUses) }

  function JoinViaCode(d: Directory, u: UserId, c: CodeId, now: Time): Verdict<Directory> {
    if u !in d.users || !d.users[u].active then Refused(InvalidCredentials)
    else if d.users[u].org.Some? then Refused(AlreadyMember)
    else if c !in d.codes || !Usable(d.codes[c], now) then Refused(JoinCodeInvalid)
    else
      var code := d.codes[c];
      Join(d.(codes := d.codes[c := code.(uses := code.uses + 1)]), u, code.org, Member)
  }

  // ----- inviting

  function InvitedRole(role: Role): Role {
    var r := role.Normalize();
    if r.Admin? || r.Member? then r else Member
  }

  predicate IsMemberEmail(d: Directory, o: OrgId, email: string) {
    exists u | u in d.users :: (o, u) in d.members && SameText(d.users[u].email, email)
  }

  function CreateInvitation(d: Directory, i: InviteId, o: OrgId, email: string, role: Role,
                            expiresAt: Time): Verdict<Directory> {
    var to := NormalEmail(email);
    if to == "" then Refused(EmailRequired)
    else if IsMemberEmail(d, o, to) then Refused(AlreadyMember)
    else
      var superseded := map j | j in d.invitations ::
        var v := d.invitations[j];
        if v.org == o && SameText(v.email, to) && !v.accepted && !v.revoked then v.(revoked := true) else v;
      Done(d.(invitations := superseded[i := Invitation(o, to, InvitedRole(role), expiresAt, false, false)]))
  }

  function RevokeInvitation(d: Directory, o: OrgId, i: InviteId): Verdict<Directory> {
    if i !in d.invitations || d.invitations[i].org != o || d.invitations[i].accepted || d.invitations[i].revoked
    then Refused(InvitationInvalid)
    else Done(d.(invitations := d.invitations[i := d.invitations[i].(revoked := true)]))
  }

  function CreateJoinCode(d: Directory, c: CodeId, o: OrgId, maxUses: int, expiresAt: Time): Directory {
    d.(codes := d.codes[c := JoinCode(o, if maxUses < 0 then 0 else maxUses, 0, expiresAt, false)])
  }

  function RevokeJoinCode(d: Directory, o: OrgId, c: CodeId): Verdict<Directory> {
    if c !in d.codes || d.codes[c].org != o || d.codes[c].revoked then Refused(JoinCodeInvalid)
    else Done(d.(codes := d.codes[c := d.codes[c].(revoked := true)]))
  }

  // ----- accounts and organizations

  /** A new account outside any organization. */
  function CreatePending(d: Directory, u: UserId, email: string): Directory {
    d.(users := d.users[u := User(email, None, Member, true)])
  }

  function SignUp(d: Directory, u: UserId, email: string): Directory { CreatePending(d, u, NormalEmail(email)) }

  function Insert(d: Directory, u: UserId, email: string, o: OrgId, role: Role): Directory {
    d.(users := d.users[u := User(email, Some(o), role, true)], members := d.members[(o, u) := role])
  }

  function Register(d: Directory, o: OrgId, u: UserId, email: string): Directory {
    Insert(d.(orgs := d.orgs + {o}), u, NormalEmail(email), o, Owner)
  }

  function CreateOrgForUser(d: Directory, u: UserId, o: OrgId): Verdict<Directory> {
    if u !in d.users || !d.users[u].active then Refused(InvalidCredentials)
    else if d.users[u].org.Some? then Refused(AlreadyMember)
    else Done(Link(d.(orgs := d.orgs + {o}), o, u, Owner))
  }

  function CreateUser(d: Directory, u: UserId, o: OrgId, email: string, role: Role): Directory {
    Insert(d, u, email, o, role.Normalize())
  }

  // ----- what every reachable directory satisfies

  /** Membership rows and the users' own columns say the same. */
  ghost predicate Mirrored(d: Directory) {
    && (forall u | u in d.users && d.users[u].org.Some? :: Linked(d, d.users[u].org.value, u))
    && (forall k | k in d.members :: k.0 in d.orgs && BelongsTo(d, k.1, k.0) && Assignable(d.members[k]))
  }

  ghost predicate Owned(d: Directory) { forall o | o in d.orgs :: OwnersOf(d, o) != {} }

  /** Invitations never offer ownership, and no join code is used more often than allowed. */
  ghost predicate Offers(d: Directory) {
    && (forall i | i in d.invitations ::
          d.invitations[i].org in d.orgs && (d.invitations[i].role.Admin? || d.invitations[i].role.Member?))
    && (forall c | c in d.codes ::
      d.codes[c].org in d.orgs && (d.codes[c].maxUses > 0 ==> d.codes[c].uses <= d.codes[c].maxUses))
  }

  ghost predicate Consistent(d: Directory) { Mirrored(d) && Owned(d) && Offers(d) }

  predicate Linked(d: Directory, o: OrgId, u: UserId)
    requires u in d.users
  {
    (o, u) in d.members && d.members[(o, u)] == d.users[u].role
  }

  /** The actor is who the request says: signed in to this organization with the stored role. */
  predicate Honest(d: Directory, o: OrgId, actor: UserId, role: Role) {
    BelongsTo(d, actor, o) && d.users[actor].role == role
  }

  /** Every organization but o has the owners it had. */
  lemma OtherOwners(d: Directory, e: Directory, o: OrgId)
    requires forall k: (OrgId, UserId) | k.0 != o ::
             (k in d.members <==> k in e.members) && (k in d.members ==> d.members[k] == e.members[k])
    ensures forall p | p != o :: OwnersOf(e, p) == OwnersOf(d, p)
  {
    forall p | p != o ensures OwnersOf(e, p) == OwnersOf(d, p) {
      forall u: UserId ensures u in OwnersOf(e, p) <==> u in OwnersOf(d, p) { assert (p, u).0 != o; }
    }
  }

  lemma RoleSetOwners(d: Directory, o: OrgId, u: UserId, role: Role)
    requires (o, u) in d.members
    ensures OwnersOf(SetRole(d, o, u, role), o) == if role.Owner? then OwnersOf(d, o) + {u} else OwnersOf(d, o) - {u}
    ensures forall p | p != o :: OwnersOf(SetRole(d, o, u, role), p) == OwnersOf(d, p)
  {
    var e := SetRole(d, o, u, role);
    OtherOwners(d, e, o);
    forall v: UserId ensures v in OwnersOf(e, o) <==> if v == u then role.Owner? else v in OwnersOf(d, o) {
      assert (o, v) in e.members <==> (o, v) in d.members;
    }
  }

  lemma UnlinkOwners(d: Directory, o: OrgId, u: UserId)
    ensures OwnersOf(Unlink(d, o, u), o) == OwnersOf(d, o) - {u}
    ensures forall p | p != o :: OwnersOf(Unlink(d, o, u), p) == OwnersOf(d, p)
  {
    var e := Unlink(d, o, u);
    OtherOwners(d, e, o);
    forall v: UserId ensures v in OwnersOf(e, o) <==> v != u && v in OwnersOf(d, o) {
      assert (o, v) in e.members <==> (o, v) in d.members && v != u;
    }
  }

  lemma LinkOwners(d: Directory, o: OrgId, u: UserId, role: Role)
    requires u in d.users && (o, u) !in d.members
    ensures OwnersOf(Link(d, o, u, role), o) == OwnersOf(d, o) + if role.Owner? then {u} else {}
    ensures forall p | p != o :: OwnersOf(Link(d, o, u, role), p) == OwnersOf(d, p)
  {
    var e := Link(d, o, u, role);
    OtherOwners(d, e, o);
    forall v: UserId ensures v in OwnersOf(e, o) <==> v in OwnersOf(d, o) || (v == u && role.Owner?) {
      assert (o, v) in e.members <==> (o, v) in d.members || v == u;
    }
  }

  lemma AnotherOwner(owners: set<UserId>, u: UserId)
    requires |owners| >= 2
    ensures owners - {u} != {}
  {
    if owners - {u} == {} {
      assert owners <= {u};
      Subset(owners, {u});
    }
  }

  lemma {:induction false} Subset(a: set<UserId>, b: set<UserId>)
    requires a <= b
    ensures |a| <= |b|
    decreases |a|
  {
    if a != {} {
      var x :| x in a;
      Subset(a - {x}, b - {x});
    }
  }

  lemma SetRoleMirrored(d: Directory, o: OrgId, u: UserId, role: Role)
    requires Mirrored(d) && (o, u) in d.members && Assignable(role)
    ensures Mirrored(SetRole(d, o, u, role))
  {
  }

  lemma SetRoleConsistent(d: Directory, o: OrgId, u: UserId, role: Role)
    requires Consistent(d) && (o, u) in d.members && Assignable(role)
    requires role.Owner? || OwnersOf(d, o) - {u} != {}
    ensures Consistent(SetRole(d, o, u, role))
  {
    SetRoleMirrored(d, o, u, role);
    RoleSetOwners(d, o, u, role);
  }

  lemma UnlinkConsistent(d: Directory, o: OrgId, u: UserId)
    requires Consistent(d) && (o, u) in d.members && OwnersOf(d, o) - {u} != {}
    ensures Consistent(Unlink(d, o, u))
  {
    UnlinkOwners(d, o, u);
  }

  lemma LinkMirrored(d: Directory, o: OrgId, u: UserId, role: Role)
    requires Mirrored(d) && o in d.orgs && u in d.users && d.users[u].org.None? && Assignable(role)
    ensures Mirrored(Link(d, o, u, role)) && (o, u) !in d.members
  {
  }

  lemma LinkConsistent(d: Directory, o: OrgId, u: UserId, role: Role)
    requires Consistent(d) && o in d.orgs && u in d.users && d.users[u].org.None? && Assignable(role)
    ensures Consistent(Link(d, o, u, role))
  {
    LinkMirrored(d, o, u, role);
    LinkOwners(d, o, u, role);
  }

  lemma ChangeConsistent(d: Directory, o: OrgId, actor: UserId, actorRole: Role, target: UserId, newRole: Role)
    requires Consistent(d) && ChangeMemberRole(d, o, actor, actorRole, target, newRole).Done?
    ensures Consistent(ChangeMemberRole(d, o, actor, actorRole, target, newRole).value)
  {
    if d.members[(o, target)].Owner? {
      if !newRole.Normalize().Owner? { AnotherOwner(OwnersOf(d, o), target); }
    } else {
      assert o in d.orgs && target !in OwnersOf(d, o);
    }
    SetRoleConsistent(d, o, target, newRole.Normalize());
  }

  lemma RemoveConsistent(d: Directory, o: OrgId, actor: UserId, actorRole: Role, target: UserId)
    requires Consistent(d) && RemoveMember(d, o, actor, actorRole, target).Done?
    ensures Consistent(RemoveMember(d, o, actor, actorRole, target).value)
  {
    if d.members[(o, target)].Owner? { AnotherOwner(OwnersOf(d, o), target); }
    else { assert o in d.orgs && target !in OwnersOf(d, o); }
    UnlinkConsistent(d, o, target);
  }

  /** Leaving relies on the role the caller is signed in with: it is the stored one. */
  lemma LeaveConsistent(d: Directory, o: OrgId, u: UserId, role: Role)
    requires Consistent(d) && Honest(d, o, u, role) && LeaveOrg(d, o, u, role).Done?
    ensures Consistent(LeaveOrg(d, o, u, role).value)
  {
    assert Linked(d, o, u) && o in d.orgs;
    if role.Owner? { AnotherOwner(OwnersOf(d, o), u); } else { assert u !in OwnersOf(d, o); }
    UnlinkConsistent(d, o, u);
  }

  lemma TransferConsistent(d: Directory, o: OrgId, actor: UserId, actorRole: Role, target: UserId)
    requires Consistent(d) && Honest(d, o, actor, actorRole) && TransferOwnership(d, o, actor, actorRole, target).Done?
    ensures Consistent(TransferOwnership(d, o, actor, actorRole, target).value)
    ensures OwnersOf(TransferOwnership(d, o, actor, actorRole, target).value, o) == OwnersOf(d, o) - {actor} + {target}
  {
    assert Linked(d, o, actor);
    var mid := SetRole(d, o, actor, Admin);
    var t := SetRole(mid, o, target, Owner);
    SetRoleMirrored(d, o, actor, Admin);
    RoleSetOwners(d, o, actor, Admin);
    SetRoleMirrored(mid, o, target, Owner);
    RoleSetOwners(mid, o, target, Owner);
    assert target in OwnersOf(t, o);
    assert Owned(t);
  }

  /** The transfer leaves the target as the only owner exactly when nobody else was one. */
  lemma TransferLeavesOneOwner(d: Directory, o: OrgId, actor: UserId, actorRole: Role, target: UserId)
    requires Consistent(d) && Honest(d, o, actor, actorRole) && TransferOwnership(d, o, actor, actorRole, target).Done?
    ensures OwnersOf(TransferOwnership(d, o, actor, actorRole, target).value, o) == {target} <==>
            OwnersOf(d, o) <= {actor, target}
  {
    TransferConsistent(d, o, actor, actorRole, target);
    OneLeft(OwnersOf(d, o), actor, target);
  }

  lemma OneLeft(owners: set<UserId>, actor: UserId, target: UserId)
    ensures owners - {actor} + {target} == {target} <==> owners <= {actor, target}
  {
    if owners - {actor} + {target} == {target} {
      forall u | u in owners ensures u in {actor, target} { assert u != actor ==> u in owners - {actor} + {target}; }
    }
  }

  lemma PendingConsistent(d: Directory, u: UserId, email: string)
    requires Consistent(d) && u !in d.users
    ensures Consistent(CreatePending(d, u, email))
  {
    var e := CreatePending(d, u, email);
    forall p ensures OwnersOf(e, p) == OwnersOf(d, p) {}
    assert forall v | v in e.users && e.users[v].org.Some? :: v in d.users && Linked(d, d.users[v].org.value, v);
  }

  lemma InsertConsistent(d: Directory, o: OrgId, u: UserId, email: string, role: Role)
    requires Consistent(d) && o in d.orgs && u !in d.users && Assignable(role)
    ensures Consistent(Insert(d, u, email, o, role))
  {
    var e := CreatePending(d, u, email);
    PendingConsistent(d, u, email);
    LinkConsistent(e, o, u, role);
    InsertIsLink(d, o, u, email, role);
  }

  lemma CreateUserConsistent(d: Directory, u: UserId, o: OrgId, email: string, role: Role)
    ensures Consistent(d) && o in d.orgs && u !in d.users && Assignable(role.Normalize()) ==>
              Consistent(CreateUser(d, u, o, email, role))
  {
    if Consistent(d) && o in d.orgs && u !in d.users && Assignable(role.Normalize()) {
      InsertConsistent(d, o, u, email, role.Normalize());
    }
  }

  lemma InsertIsLink(d: Directory, o: OrgId, u: UserId, email: string, role: Role)
    ensures Insert(d, u, email, o, role) == Link(CreatePending(d, u, email), o, u, role)
  {
  }

  /** A new organization starts with one owner. */
  lemma FoundedConsistent(d: Directory, o: OrgId, u: UserId)
    requires Consistent(d) && o !in d.orgs && u in d.users && d.users[u].org.None?
    ensures Consistent(Link(d.(orgs := d.orgs + {o}), o, u, Owner))
    ensures OwnersOf(Link(d.(orgs := d.orgs + {o}), o, u, Owner), o) == {u}
  {
    var e := d.(orgs := d.orgs + {o});
    var t := Link(e, o, u, Owner);
    LinkMirrored(e, o, u, Owner);
    LinkOwners(e, o, u, Owner);
    forall p ensures OwnersOf(e, p) == OwnersOf(d, p) {}
    assert OwnersOf(d, o) == {};
    assert u in OwnersOf(t, o);
    assert Owned(t);
  }

  lemma RegisterIsFounding(d: Directory, o: OrgId, u: UserId, email: string)
    ensures var e := SignUp(d, u, email);
            Register(d, o, u, email) == Link(e.(orgs := e.orgs + {o}), o, u, Owner)
  {
    InsertIsLink(d.(orgs := d.orgs + {o}), o, u, NormalEmail(email), Owner);
  }

  lemma RegisterConsistent(d: Directory, o: OrgId, u: UserId, email: string)
    requires Consistent(d) && o !in d.orgs && u !in d.users
    ensures Consistent(Register(d, o, u, email)) && OwnersOf(Register(d, o, u, email), o) == {u}
  {
    PendingConsistent(d, u, NormalEmail(email));
    FoundedConsistent(SignUp(d, u, email), o, u);
    RegisterIsFounding(d, o, u, email);
  }

  // ----- offers

  lemma SameOwners(d: Directory, e: Directory)
    requires Consistent(d) && Offers(e) && e == d.(invitations := e.invitations, codes := e.codes)
    ensures Consistent(e)
  {
    forall p ensures OwnersOf(e, p) == OwnersOf(d, p) {}
    assert forall v | v in e.users && e.users[v].org.Some? :: Linked(d, d.users[v].org.value, v);
  }

  /** Joining leaves the offer marked as used and the user linked. */
  lemma JoinedConsistent(d: Directory, e: Directory, o: OrgId, u: UserId, role: Role)
    requires Consistent(d) && Offers(e) && e == d.(invitations := e.invitations, codes := e.codes)
    requires o in d.orgs && u in d.users && d.users[u].org.None? && (role.Admin? || role.Member?)
    ensures Join(e, u, o, role).Done? && Consistent(Join(e, u, o, role).value)
  {
    SameOwners(d, e);
    LinkConsistent(e, o, u, role);
  }

  lemma AcceptOffers(d: Directory, i: InviteId)
    requires Offers(d) && i in d.invitations
    ensures Offers(d.(invitations := d.invitations[i := d.invitations[i].(accepted := true)]))
  {
  }

  lemma AcceptConsistent(d: Directory, u: UserId, i: InviteId, now: Time)
    requires Consistent(d) && AcceptInvitation(d, u, i, now).Done?
    ensures Consistent(AcceptInvitation(d, u, i, now).value)
  {
    var inv := d.invitations[i];
    AcceptOffers(d, i);
    JoinedConsistent(d, d.(invitations := d.invitations[i := inv.(accepted := true)]), inv.org, u, inv.role);
  }

  lemma UseOffers(d: Directory, c: CodeId, now: Time)
    requires Offers(d) && c in d.codes && Usable(d.codes[c], now)
    ensures Offers(d.(codes := d.codes[c := d.codes[c].(uses := d.codes[c].uses + 1)]))
  {
  }

  lemma JoinConsistent(d: Directory, u: UserId, c: CodeId, now: Time)
    requires Consistent(d) && JoinViaCode(d, u, c, now).Done?
    ensures Consistent(JoinViaCode(d, u, c, now).value)
  {
    UseOffers(d, c, now);
    CodeJoins(d, u, c, now);
    JoinedConsistent(d, Counted(d, c), d.codes[c].org, u, Member);
  }

  function Counted(d: Directory, c: CodeId): Directory
    requires c in d.codes
  {
    d.(codes := d.codes[c := d.codes[c].(uses := d.codes[c].uses + 1)])
  }

  lemma CodeJoins(d: Directory, u: UserId, c: CodeId, now: Time)
    requires JoinViaCode(d, u, c, now).Done?
    ensures c in d.codes && Usable(d.codes[c], now) && u in d.users && d.users[u].org.None?
    ensures JoinViaCode(d, u, c, now) == Join(Counted(d, c), u, d.codes[c].org, Member)
  {
  }

  lemma InviteConsistent(d: Directory, i: InviteId, o: OrgId, email: string, role: Role, expiresAt: Time)
    requires Consistent(d) && o in d.orgs && CreateInvitation(d, i, o, email, role, expiresAt).Done?
    ensures Consistent(CreateInvitation(d, i, o, email, role, expiresAt).value)
  {
    SameOwners(d, CreateInvitation(d, i, o, email, role, expiresAt).value);
  }

  // ----- histories

  datatype Deed =
    | DoRegister(o: OrgId, u: UserId, email: string)
    | DoSignUp(u: UserId, email: string)
    | DoCreateOrg(u: UserId, o: OrgId)
    | DoCreateUser(u: UserId, o: OrgId, email: string, role: Role)
    | DoChangeRole(o: OrgId, actor: UserId, actorRole: Role, target: UserId, role: Role)
    | DoRemove(o: OrgId, actor: UserId, actorRole: Role, target: UserId)
    | DoLeave(o: OrgId, u: UserId, role: Role)
    | DoTransfer(o: OrgId, actor: UserId, actorRole: Role, target: UserId)
    | DoInvite(i: InviteId, o: OrgId, email: string, role: Role, expiresAt: Time)
    | DoRevokeInvite(o: OrgId, i: InviteId)
    | DoAccept(u: UserId, i: InviteId, now: Time)
    | DoCreateCode(c: CodeId, o: OrgId, maxUses: int, expiresAt: Time)
    | DoRevokeCode(o: OrgId, c: CodeId)
    | DoJoin(u: UserId, c: CodeId, now: Time)

  /** New ids are new, organizations exist, and whoever acts acts with the stored role. */
  predicate Proper(d: Directory, deed: Deed) {
    match deed
    case DoRegister(o, u, _) => o !in d.orgs && u !in d.users
    case DoSignUp(u, _) => u !in d.users
    case DoCreateOrg(_, o) => o !in d.orgs
    case DoCreateUser(u, o, _, role) => u !in d.users && o in d.orgs && Assignable(role.Normalize())
    case DoChangeRole(o, actor, actorRole, _, _) => Honest(d, o, actor, actorRole)
    case DoRemove(o, actor, actorRole, _) => Honest(d, o, actor, actorRole)
    case DoLeave(o, u, role) => Honest(d, o, u, role)
    case DoTransfer(o, actor, actorRole, _) => Honest(d, o, actor, actorRole)
    case DoInvite(i, o, _, _, _) => i !in d.invitations && o in d.orgs
    case DoCreateCode(c, o, _, _) => c !in d.codes && o in d.orgs
    case _ => true
  }

  function Outcome(d: Directory, v: Verdict<Directory>): Directory { if v.Done? then v.value else d }

  function After(d: Directory, deed: Deed): Directory {
    match deed
    case DoRegister(o, u, email) => Register(d, o, u, email)
    case DoSignUp(u, email) => SignUp(d, u, email)
    case DoCreateOrg(u, o) => Outcome(d, CreateOrgForUser(d, u, o))
    case DoCreateUser(u, o, email, role) => CreateUser(d, u, o, email, role)
    case DoChangeRole(o, actor, actorRole, target, role) =>
      Outcome(d, ChangeMemberRole(d, o, actor, actorRole, target, role))
    case DoRemove(o, actor, actorRole, target) => Outcome(d, RemoveMember(d, o, actor, actorRole, target))
    case DoLeave(o, u, role) => Outcome(d, LeaveOrg(d, o, u, role))
    case DoTransfer(o, actor, actorRole, target) => Outcome(d, TransferOwnership(d, o, actor, actorRole, target))
    case DoInvite(i, o, email, role, expiresAt) => Outcome(d, CreateInvitation(d, i, o, email, role, expiresAt))
    case DoRevokeInvite(o, i) => Outcome(d, RevokeInvitation(d, o, i))
    case DoAccept(u, i, now) => Outcome(d, AcceptInvitation(d, u, i, now))
    case DoCreateCode(c, o, maxUses, expiresAt) => CreateJoinCode(d, c, o, maxUses, expiresAt)
    case DoRevokeCode(o, c) => Outcome(d, RevokeJoinCode(d, o, c))
    case DoJoin(u, c, now) => Outcome(d, JoinViaCode(d, u, c, now))
  }

  lemma AccountStep(d: Directory, deed: Deed)
    requires Consistent(d) && Proper(d, deed)
    requires deed.DoRegister? || deed.DoSignUp? || deed.DoCreateOrg? || deed.DoCreateUser?
    ensures Consistent(After(d, deed))
  {
    match deed
    case DoRegister(o, u, email) => RegisterConsistent(d, o, u, email);
    case DoSignUp(u, email) => PendingConsistent(d, u, NormalEmail(email));
    case DoCreateOrg(u, o) => if CreateOrgForUser(d, u, o).Done? { FoundedConsistent(d, o, u); }
    case DoCreateUser(u, o, email, role) => InsertConsistent(d, o, u, email, role.Normalize());
  }

  lemma MemberStep(d: Directory, deed: Deed)
    requires Consistent(d) && Proper(d, deed)
    requires deed.DoChangeRole? || deed.DoRemove? || deed.DoLeave? || deed.DoTransfer?
    ensures Consistent(After(d, deed))
  {
    match deed
    case DoChangeRole(o, actor, actorRole, target, role) =>
      if ChangeMemberRole(d, o, actor, actorRole, target, role).Done? {
        ChangeConsistent(d, o, actor, actorRole, target, role);
      }
    case DoRemove(o, actor, actorRole, target) =>
      if RemoveMember(d, o, actor, actorRole, target).Done? { RemoveConsistent(d, o, actor, actorRole, target); }
    case DoLeave(o, u, role) => if LeaveOrg(d, o, u, role).Done? { LeaveConsistent(d, o, u, role); }
    case DoTransfer(o, actor, actorRole, target) =>
      if TransferOwnership(d, o, actor, actorRole, target).Done? { TransferConsistent(d, o, actor, actorRole, target); }
  }

  lemma OfferStep(d: Directory, deed: Deed)
    requires Consistent(d) && Proper(d, deed)
    requires deed.DoInvite? || deed.DoRevokeInvite? || deed.DoAccept? || deed.DoCreateCode? || deed.DoRevokeCode? ||
             deed.DoJoin?
    ensures Consistent(After(d, deed))
  {
    match deed
    case DoInvite(i, o, email, role, expiresAt) =>
      if CreateInvitation(d, i, o, email, role, expiresAt).Done? { InviteConsistent(d, i, o, email, role, expiresAt); }
    case DoRevokeInvite(o, i) => SameOwners(d, After(d, deed));
    case DoAccept(u, i, now) => if AcceptInvitation(d, u, i, now).Done? { AcceptConsistent(d, u, i, now); }
    case DoCreateCode(c, o, maxUses, expiresAt) => SameOwners(d, After(d, deed));
    case DoRevokeCode(o, c) => SameOwners(d, After(d, deed));
    case DoJoin(u, c, now) => if JoinViaCode(d, u, c, now).Done? { JoinConsistent(d, u, c, now); }
  }

  lemma DeedConsistent(d: Directory, deed: Deed)
    requires Consistent(d) && Proper(d, deed)
    ensures Consistent(After(d, deed))
  {
    if deed.DoRegister? || deed.DoSignUp? || deed.DoCreateOrg? || deed.DoCreateUser? { AccountStep(d, deed); }
    else if deed.DoChangeRole? || deed.DoRemove? || deed.DoLeave? || deed.DoTransfer? { MemberStep(d, deed); }
    else { OfferStep(d, deed); }
  }

  /** The directories a sequence of deeds goes through, all of them proper. */
  ghost predicate IsRun(run: seq<Directory>, deeds: seq<Deed>) {
    |run| == |deeds| + 1 && run[0] == NOBODY && forall i | 0 <= i < |deeds| :: DoneAt(run, deeds, i)
  }

  ghost predicate DoneAt(run: seq<Directory>, deeds: seq<Deed>, i: nat)
    requires i < |deeds| && i + 1 < |run|
  {
    Proper(run[i], deeds[i]) && run[i + 1] == After(run[i], deeds[i])
  }

  lemma {:induction false} RunConsistent(run: seq<Directory>, deeds: seq<Deed>, i: nat)
    requires IsRun(run, deeds) && i < |run|
    ensures Consistent(run[i])
    decreases i
  {
    if i > 0 {
      RunConsistent(run, deeds, i - 1);
      assert DoneAt(run, deeds, i - 1);
      DeedConsistent(run[i - 1], deeds[i - 1]);
    }
  }

  // ----- theorems over runs

  /** Ownership safety: every organization has an owner at every moment. */
  lemma AlwaysOwned(run: seq<Directory>, deeds: seq<Deed>, i: nat, o: OrgId)
    requires IsRun(run, deeds) && i < |run| && o in run[i].orgs
    ensures exists u: UserId :: (o, u) in run[i].members && run[i].members[(o, u)].Owner? && BelongsTo(run[i], u, o)
  {
    RunConsistent(run, deeds, i);
    assert OwnersOf(run[i], o) != {};
    var u :| u in OwnersOf(run[i], o);
    assert (o, u) in run[i].members;
  }

  ghost function MembershipsOf(d: Directory, u: UserId): set<OrgId> { set k | k in d.members && k.1 == u :: k.0 }

  /** A user's organization is set exactly when the user has one membership, in that organization
      and with the user's own role; otherwise there is none. */
  lemma UsersMirrorMemberships(run: seq<Directory>, deeds: seq<Deed>, i: nat, u: UserId)
    requires IsRun(run, deeds) && i < |run| && u in run[i].users
    ensures var d, org := run[i], run[i].users[u].org;
            if org.Some? then MembershipsOf(d, u) == {org.value} && d.members[(org.value, u)] == d.users[u].role
            else MembershipsOf(d, u) == {}
  {
    RunConsistent(run, deeds, i);
    var d := run[i];
    if d.users[u].org.Some? {
      assert Linked(d, d.users[u].org.value, u);
      assert (d.users[u].org.value, u) in d.members;
    }
    forall o | o in MembershipsOf(d, u) ensures d.users[u].org == Some(o) { assert (o, u) in d.members; }
  }

  ghost predicate BecomesOwner(d: Directory, e: Directory, o: OrgId, u: UserId) {
    u in OwnersOf(e, o) && u !in OwnersOf(d, o)
  }

  lemma OwnerByAccount(d: Directory, deed: Deed, o: OrgId, u: UserId)
    requires Consistent(d) && Proper(d, deed) && BecomesOwner(d, After(d, deed), o, u)
    requires deed.DoRegister? || deed.DoSignUp? || deed.DoCreateOrg? || deed.DoCreateUser?
    ensures !deed.DoSignUp? && deed.o == o && deed.u == u && (deed.DoCreateUser? ==> deed.role.Owner?)
  {
    assert (o, u) in After(d, deed).members;
  }

  lemma OwnerByChange(d: Directory, p: OrgId, actor: UserId, actorRole: Role, target: UserId, role: Role, o: OrgId,
                      u: UserId)
    requires Consistent(d) && Honest(d, p, actor, actorRole)
    requires ChangeMemberRole(d, p, actor, actorRole, target, role).Done?
    requires BecomesOwner(d, ChangeMemberRole(d, p, actor, actorRole, target, role).value, o, u)
    ensures p == o && target == u && actor in OwnersOf(d, o)
  {
    assert Linked(d, p, actor) && (p, actor) in d.members;
    RoleSetOwners(d, p, target, role.Normalize());
  }

  lemma OwnerByTransfer(d: Directory, p: OrgId, actor: UserId, actorRole: Role, target: UserId, o: OrgId, u: UserId)
    requires Consistent(d) && Honest(d, p, actor, actorRole)
    requires TransferOwnership(d, p, actor, actorRole, target).Done?
    requires BecomesOwner(d, TransferOwnership(d, p, actor, actorRole, target).value, o, u)
    ensures p == o && target == u && actor in OwnersOf(d, o)
  {
    assert Linked(d, p, actor) && (p, actor) in d.members;
    RoleSetOwners(d, p, actor, Admin);
    RoleSetOwners(SetRole(d, p, actor, Admin), p, target, Owner);
  }

  lemma UnlinkMakesNoOwner(d: Directory, p: OrgId, v: UserId, o: OrgId, u: UserId)
    ensures !BecomesOwner(d, Unlink(d, p, v), o, u)
  {
    UnlinkOwners(d, p, v);
  }

  lemma OwnerByMember(d: Directory, deed: Deed, o: OrgId, u: UserId)
    requires Consistent(d) && Proper(d, deed)
    requires deed.DoChangeRole? || deed.DoRemove? || deed.DoLeave? || deed.DoTransfer?
    ensures BecomesOwner(d, After(d, deed), o, u) ==>
              (deed.DoChangeRole? || deed.DoTransfer?) && deed.o == o && deed.target == u &&
              deed.actor in OwnersOf(d, o)
  {
    if deed.DoRemove? || deed.DoLeave? {
      UnlinkMakesNoOwner(d, deed.o, if deed.DoRemove? then deed.target else deed.u, o, u);
    } else if BecomesOwner(d, After(d, deed), o, u) {
      if deed.DoChangeRole? { OwnerByChange(d, deed.o, deed.actor, deed.actorRole, deed.target, deed.role, o, u); }
      else { OwnerByTransfer(d, deed.o, deed.actor, deed.actorRole, deed.target, o, u); }
    }
  }

  lemma OffersMakeNoOwner(d: Directory, deed: Deed, o: OrgId)
    requires Consistent(d) && Proper(d, deed)
    requires deed.DoInvite? || deed.DoRevokeInvite? || deed.DoAccept? || deed.DoCreateCode? || deed.DoRevokeCode? ||
             deed.DoJoin?
    ensures OwnersOf(After(d, deed), o) == OwnersOf(d, o)
  {
    if deed.DoAccept? {
      if AcceptInvitation(d, deed.u, deed.i, deed.now).Done? {
        var inv := d.invitations[deed.i];
        LinkAddsNoOwner(d, d.(invitations := d.invitations[deed.i := inv.(accepted := true)]), inv.org, deed.u,
          inv.role.Normalize(), o);
      }
    } else if deed.DoJoin? {
      if JoinViaCode(d, deed.u, deed.c, deed.now).Done? {
        var code := d.codes[deed.c];
        LinkAddsNoOwner(d, d.(codes := d.codes[deed.c := code.(uses := code.uses + 1)]), code.org, deed.u, Member, o);
      }
    } else {
      assert After(d, deed).members == d.members;
    }
  }

  lemma LinkAddsNoOwner(d: Directory, e: Directory, p: OrgId, u: UserId, role: Role, o: OrgId)
    requires Consistent(d) && e.members == d.members && e.users == d.users
    requires u in d.users && d.users[u].org.None? && !role.Owner?
    ensures OwnersOf(Link(e, p, u, role), o) == OwnersOf(d, o)
  {
    assert (p, u) !in d.members;
    LinkOwners(e, p, u, role);
    assert OwnersOf(e, o) == OwnersOf(d, o);
  }

  /** Nobody becomes an owner but by founding the organization, by an owner's act, or by an account
      created as one: no invitation and no code makes owners. */
  lemma OwnersAreMade(run: seq<Directory>, deeds: seq<Deed>, i: nat, o: OrgId, u: UserId)
    requires IsRun(run, deeds) && i < |deeds| && BecomesOwner(run[i], run[i + 1], o, u)
    ensures match deeds[i]
            case DoRegister(p, v, _) => p == o && v == u
            case DoCreateOrg(v, p) => p == o && v == u
            case DoCreateUser(v, p, _, role) => p == o && v == u && role.Owner?
            case DoChangeRole(p, actor, _, target, _) => p == o && target == u && actor in OwnersOf(run[i], o)
            case DoTransfer(p, actor, _, target) => p == o && target == u && actor in OwnersOf(run[i], o)
            case _ => false
  {
    RunConsistent(run, deeds, i);
    assert DoneAt(run, deeds, i);
    var d, deed := run[i], deeds[i];
    if deed.DoRegister? || deed.DoSignUp? || deed.DoCreateOrg? || deed.DoCreateUser? { OwnerByAccount(d, deed, o, u); }
    else if deed.DoChangeRole? || deed.DoRemove? || deed.DoLeave? || deed.DoTransfer? { OwnerByMember(d, deed, o, u); }
    else { OffersMakeNoOwner(d, deed, o); }
  }

  /** A role change gives exactly the target the new role, in both places, and nobody else any. */
  lemma RoleChangeIsExact(d: Directory, o: OrgId, actor: UserId, actorRole: Role, target: UserId, role: Role)
    requires Consistent(d) && ChangeMemberRole(d, o, actor, actorRole, target, role).Done?
    ensures var e := ChangeMemberRole(d, o, actor, actorRole, target, role).value;
            && (o, target) in e.members && e.members[(o, target)] == role.Normalize()
            && target in e.users && e.users[target] == d.users[target].(role := role.Normalize())
            && e.members.Keys == d.members.Keys && e.users.Keys == d.users.Keys
            && (forall k | k in d.members && k != (o, target) :: e.members[k] == d.members[k])
            && (forall u | u in d.users && u != target :: e.users[u] == d.users[u])
  {
    assert BelongsTo(d, target, o);
  }

  /** Removing a member and linking them again with the role they had restores everything. */
  lemma RemoveAndRejoin(d: Directory, o: OrgId, u: UserId)
    requires Consistent(d) && (o, u) in d.members
    ensures var e := Unlink(d, o, u);
            u in e.users && e.users[u].org.None? && MembershipsOf(e, u) == {} && Link(e, o, u, d.members[(o, u)]) == d
  {
    assert BelongsTo(d, u, o) && Linked(d, o, u);
    OnlyMembership(d, o, u);
    UnlinkThenLink(d, o, u);
  }

  lemma OnlyMembership(d: Directory, o: OrgId, u: UserId)
    requires Mirrored(d) && (o, u) in d.members
    ensures MembershipsOf(Unlink(d, o, u), u) == {}
  {
    forall p | (p, u) in d.members ensures p == o { assert BelongsTo(d, u, p) && BelongsTo(d, u, o); }
  }

  lemma UnlinkThenLink(d: Directory, o: OrgId, u: UserId)
    requires (o, u) in d.members && BelongsTo(d, u, o) && d.users[u].role == d.members[(o, u)]
    ensures Link(Unlink(d, o, u), o, u, d.members[(o, u)]) == d
  {
    var e := Link(Unlink(d, o, u), o, u, d.members[(o, u)]);
    assert e.members == d.members && e.users == d.users;
  }

  /** No join code is ever used more often than it allows. */
  lemma CodesNotOverused(run: seq<Directory>, deeds: seq<Deed>, i: nat, c: CodeId)
    requires IsRun(run, deeds) && i < |run| && c in run[i].codes && run[i].codes[c].maxUses > 0
    ensures run[i].codes[c].uses <= run[i].codes[c].maxUses
  {
    RunConsistent(run, deeds, i);
  }

  lemma StaysSpent(d: Directory, deed: Deed, i: InviteId)
    requires Proper(d, deed) && i in d.invitations && (d.invitations[i].accepted || d.invitations[i].revoked)
    ensures i in After(d, deed).invitations
    ensures var v := After(d, deed).invitations[i]; v.accepted || v.revoked
  {
  }

  lemma {:induction false} TrimRightIsPrefix(s: string)
    ensures TrimRight(s) <= s && (TrimRight(s) == "" || !IsSpace(TrimRight(s)[|TrimRight(s)| - 1]))
    decreases |s|
  {
    if s != "" && IsSpace(s[|s| - 1]) { TrimRightIsPrefix(s[..|s| - 1]); }
  }

  lemma {:induction false} TrimLeftStarts(s: string)
    ensures TrimLeft(s) == "" || !IsSpace(TrimLeft(s)[0])
    decreases |s|
  {
    if s != "" && IsSpace(s[0]) { TrimLeftStarts(s[1..]); }
  }

  lemma TrimAgain(s: string)
    ensures Trim(Trim(s)) == Trim(s)
  {
    var left := TrimLeft(s);
    TrimLeftStarts(s);
    TrimRightIsPrefix(left);
    var t := TrimRight(left);
    if t != "" { assert t[0] == left[0]; }
    assert TrimLeft(t) == t && TrimRight(t) == t;
  }

  /** Who signs up with the invited address may accept, however either side wrote its capitals and
      the spaces around it. */
  lemma InviteeMayAccept(d: Directory, u: UserId, i: InviteId, address: string, written: string, now: Time)
    requires u in d.users && d.users[u].active && d.users[u].org.None? && d.users[u].email == NormalEmail(address)
    requires i in d.invitations && StillPending(d.invitations[i], now) && d.invitations[i].email == NormalEmail(written)
    requires NormalEmail(address) == NormalEmail(written)
    ensures AcceptInvitation(d, u, i, now).Done?
  {
    TrimAgain(Like.Fold(address));
  }

  /** An acceptance goes through exactly for an active user outside every organization, an open and
      unexpired invitation, and its own address; it gives the invited organization and role, and
      marks that invitation. */
  lemma AcceptsExactly(d: Directory, u: UserId, i: InviteId, now: Time)
    requires Offers(d)
    ensures AcceptInvitation(d, u, i, now).Done? <==>
            && u in d.users && d.users[u].active && d.users[u].org == None
            && i in d.invitations && !d.invitations[i].accepted && !d.invitations[i].revoked
            && now < d.invitations[i].expiresAt
            && Like.Fold(Trim(d.users[u].email)) == Like.Fold(d.invitations[i].email)
    ensures AcceptInvitation(d, u, i, now).Done? ==>
            var inv := d.invitations[i];
            AcceptInvitation(d, u, i, now).value ==
              d.(users := d.users[u := d.users[u].(org := Some(inv.org), role := inv.role)],
                 members := d.members[(inv.org, u) := inv.role],
                 invitations := d.invitations[i := inv.(accepted := true)])
  {
  }

  /** A code admits exactly an active user outside every organization, while it is neither revoked
      nor expired nor used up; they become a plain member, and one use is counted. */
  lemma JoinsExactly(d: Directory, u: UserId, c: CodeId, now: Time)
    ensures JoinViaCode(d, u, c, now).Done? <==>
            && u in d.users && d.users[u].active && d.users[u].org == None
            && c in d.codes && !d.codes[c].revoked && now < d.codes[c].expiresAt
            && (d.codes[c].maxUses > 0 ==> d.codes[c].uses < d.codes[c].maxUses)
    ensures JoinViaCode(d, u, c, now).Done? ==>
            var code := d.codes[c];
            JoinViaCode(d, u, c, now).value ==
              d.(users := d.users[u := d.users[u].(org := Some(code.org), role := Member)],
                 members := d.members[(code.org, u) := Member],
                 codes := d.codes[c := code.(uses := code.uses + 1)])
  {
  }

  /** Somebody else owns the organization too. */
  ghost predicate OtherOwner(d: Directory, o: OrgId, u: UserId) {
    exists v: UserId :: v != u && (o, v) in d.members && d.members[(o, v)] == Owner
  }

  lemma CountsOthers(d: Directory, o: OrgId, u: UserId)
    requires (o, u) in d.members && d.members[(o, u)] == Owner
    ensures |OwnersOf(d, o)| >= 2 <==> OtherOwner(d, o, u)
  {
    OwnerRow(d, o, u);
    var others := OwnersOf(d, o) - {u};
    assert OwnersOf(d, o) == others + {u};
    if others != {} {
      var v :| v in others;
      OwnerRow(d, o, v);
    }
    if v: UserId :| v != u && (o, v) in d.members && d.members[(o, v)] == Owner {
      OwnerRow(d, o, v);
      assert v in others;
    }
  }

  /** A role change goes through exactly for another member, to a role there is, with owners touched
      by owners only and never the last one demoted. */
  lemma ChangesExactly(d: Directory, o: OrgId, actor: UserId, actorRole: Role, target: UserId, role: Role)
    ensures ChangeMemberRole(d, o, actor, actorRole, target, role).Done? <==>
            && role != Unknown && actor != target && (o, target) in d.members
            && (role == Owner || d.members[(o, target)] == Owner ==> actorRole == Owner)
            && (d.members[(o, target)] == Owner && role != Owner ==> OtherOwner(d, o, target))
    ensures ChangeMemberRole(d, o, actor, actorRole, target, role).Done? ==>
            ChangeMemberRole(d, o, actor, actorRole, target, role).value.members ==
            d.members[(o, target) := if role == Legacy then Member else role]
  {
    if (o, target) in d.members && d.members[(o, target)].Owner? { CountsOthers(d, o, target); }
  }

  /** A removal goes through exactly for another member, owners by owners only and never the last one. */
  lemma RemovesExactly(d: Directory, o: OrgId, actor: UserId, actorRole: Role, target: UserId)
    ensures RemoveMember(d, o, actor, actorRole, target).Done? <==>
            && actor != target && (o, target) in d.members
            && (d.members[(o, target)] == Owner ==> actorRole == Owner && OtherOwner(d, o, target))
    ensures RemoveMember(d, o, actor, actorRole, target).Done? ==>
            var e := RemoveMember(d, o, actor, actorRole, target).value;
            && (forall k :: k in e.members <==> k in d.members && k != (o, target))
            && (forall k | k in e.members :: e.members[k] == d.members[k])
            && (target in d.users && d.users[target].org == Some(o) ==>
                  e.users == d.users[target := d.users[target].(org := None, role := Member)])
  {
    if (o, target) in d.members && d.members[(o, target)].Owner? { CountsOthers(d, o, target); }
  }

  /** Who is signed in to the organization may leave it exactly if not its last owner. */
  lemma LeavesExactly(d: Directory, o: OrgId, u: UserId, role: Role)
    requires Consistent(d) && Honest(d, o, u, role)
    ensures LeaveOrg(d, o, u, role).Done? <==> (role == Owner ==> OtherOwner(d, o, u))
    ensures LeaveOrg(d, o, u, role).Done? ==>
            var e := LeaveOrg(d, o, u, role).value; e.users[u].org == None && (o, u) !in e.members
  {
    assert Linked(d, o, u);
    if role.Owner? { CountsOthers(d, o, u); }
  }

  /** Ownership is handed over exactly by an owner to another member; they swap places. */
  lemma TransfersExactly(d: Directory, o: OrgId, actor: UserId, actorRole: Role, target: UserId)
    requires Consistent(d) && Honest(d, o, actor, actorRole)
    ensures TransferOwnership(d, o, actor, actorRole, target).Done? <==>
            actorRole == Owner && actor != target && (o, target) in d.members
    ensures TransferOwnership(d, o, actor, actorRole, target).Done? ==>
            var e := TransferOwnership(d, o, actor, actorRole, target).value;
            && e.members == d.members[(o, actor) := Admin][(o, target) := Owner]
            && e.users[actor].role == Admin && e.users[target].role == Owner
  {
    assert Linked(d, o, actor) && (o, actor) in d.members;
    if (o, target) in d.members { assert BelongsTo(d, target, o); }
  }

  /** Founding goes through exactly for an active user outside every organization, who then owns it. */
  lemma FoundsExactly(d: Directory, u: UserId, o: OrgId)
    ensures CreateOrgForUser(d, u, o).Done? <==> u in d.users && d.users[u].active && d.users[u].org == None
    ensures CreateOrgForUser(d, u, o).Done? ==>
            CreateOrgForUser(d, u, o).value ==
              d.(orgs := d.orgs + {o}, users := d.users[u := d.users[u].(org := Some(o), role := Owner)],
                 members := d.members[(o, u) := Owner])
  {
  }

  /** New accounts: a founder owns the new organization, a colleague gets the role given, and a
      sign-up belongs nowhere yet; addresses are stored trimmed and in lower case. */
  lemma AccountsExactly(d: Directory, o: OrgId, u: UserId, email: string, role: Role)
    ensures Register(d, o, u, email) ==
            d.(orgs := d.orgs + {o}, users := d.users[u := User(Trim(Like.Fold(email)), Some(o), Owner, true)],
               members := d.members[(o, u) := Owner])
    ensures SignUp(d, u, email) == d.(users := d.users[u := User(Trim(Like.Fold(email)), None, Member, true)])
    ensures var given := if role == Legacy then Member else role;
            CreateUser(d, u, o, email, role) ==
            d.(users := d.users[u := User(email, Some(o), given, true)], members := d.members[(o, u) := given])
  {
  }

  /** Only the organization that made an offer takes it back, and only while it is open. */
  lemma RevokesExactly(d: Directory, o: OrgId, i: InviteId, c: CodeId)
    ensures RevokeInvitation(d, o, i).Done? <==>
            i in d.invitations && d.invitations[i].org == o && !d.invitations[i].accepted && !d.invitations[i].revoked
    ensures RevokeInvitation(d, o, i).Done? ==>
            RevokeInvitation(d, o, i).value == d.(invitations := d.invitations[i := d.invitations[i].(revoked := true)])
    ensures RevokeJoinCode(d, o, c).Done? <==> c in d.codes && d.codes[c].org == o && !d.codes[c].revoked
    ensures RevokeJoinCode(d, o, c).Done? ==>
            RevokeJoinCode(d, o, c).value == d.(codes := d.codes[c := d.codes[c].(revoked := true)])
  {
  }

  /** A new code is unused and open, for as many uses as asked, or without limit. */
  lemma CodesExactly(d: Directory, c: CodeId, o: OrgId, maxUses: int, expiresAt: Time)
    ensures CreateJoinCode(d, c, o, maxUses, expiresAt) ==
            d.(codes := d.codes[c := JoinCode(o, if maxUses > 0 then maxUses else 0, 0, expiresAt, false)])
  {
  }

  /** An invitation goes out exactly to a non-empty address that no member has; it is then the only
      open one of the organization to that address, for a plain member or an admin. */
  lemma InvitesExactly(d: Directory, i: InviteId, o: OrgId, email: string, role: Role, expiresAt: Time)
    requires i !in d.invitations
    ensures var to := Trim(Like.Fold(email));
            CreateInvitation(d, i, o, email, role, expiresAt).Done? <==>
            to != "" && !exists u | u in d.users :: (o, u) in d.members && Like.Fold(d.users[u].email) == Like.Fold(to)
    ensures CreateInvitation(d, i, o, email, role, expiresAt).Done? ==>
            var e, to := CreateInvitation(d, i, o, email, role, expiresAt).value, Trim(Like.Fold(email));
            && e.invitations.Keys == d.invitations.Keys + {i} && e == d.(invitations := e.invitations)
            && e.invitations[i] ==
                 Invitation(o, to, if role == Admin then Admin else Member, expiresAt, false, false)
            && (forall j | j in d.invitations ::
                  e.invitations[j] ==
                    if d.invitations[j].org == o && Like.Fold(d.invitations[j].email) == Like.Fold(to) &&
                       !d.invitations[j].accepted
                    then d.invitations[j].(revoked := true) else d.invitations[j])
  {
  }

  /** An invitation that was accepted or revoked never opens again: it is accepted at most once. */
  lemma {:induction false} SpentForGood(run: seq<Directory>, deeds: seq<Deed>, i: nat, j: nat, inv: InviteId)
    requires IsRun(run, deeds) && i <= j < |run|
    requires inv in run[i].invitations && (run[i].invitations[inv].accepted || run[i].invitations[inv].revoked)
    ensures inv in run[j].invitations && forall u, now :: !AcceptInvitation(run[j], u, inv, now).Done?
    ensures run[j].invitations[inv].accepted || run[j].invitations[inv].revoked
    decreases j
  {
    if i < j {
      SpentForGood(run, deeds, i, j - 1, inv);
      assert DoneAt(run, deeds, j - 1);
      StaysSpent(run[j - 1], deeds[j - 1], inv);
    }
  }

  // ----- the check outside the transaction

  /** ChangeMemberRole and RemoveMember count the owners before their transaction begins.  Whatever
      has happened in between, the write keeps the organization owned exactly when the target is
      not its only owner at that moment. */
  lemma WriteNeedsFreshCount(d: Directory, o: OrgId, target: UserId, role: Role)
    requires Consistent(d) && (o, target) in d.members && Assignable(role) && !role.Owner?
    ensures Owned(SetRole(d, o, target, role)) <==> OwnersOf(d, o) != {target}
    ensures Owned(Unlink(d, o, target)) <==> OwnersOf(d, o) != {target}
  {
    RoleSetOwners(d, o, target, role);
    UnlinkOwners(d, o, target);
    assert o in d.orgs && OwnersOf(d, o) != {};
    assert OwnersOf(d, o) - {target} == {} <==> OwnersOf(d, o) == {target};
  }

  /** Two owners who demote each other, both counting before either writes, leave the organization
      without one. */
  lemma CrossedDemotionsOrphan(d: Directory, o: OrgId, u: UserId, v: UserId)
    requires Consistent(d) && o in d.orgs && u != v && OwnersOf(d, o) == {u, v}
    ensures ChangeMemberRole(d, o, u, Owner, v, Admin).Done? && ChangeMemberRole(d, o, v, Owner, u, Admin).Done?
    ensures OwnersOf(SetRole(SetRole(d, o, v, Admin), o, u, Admin), o) == {}
  {
    OwnerRow(d, o, u);
    OwnerRow(d, o, v);
    assert |{u, v}| == 2;
    DemotedOwners(d, o, u, v);
  }

  lemma OwnerRow(d: Directory, o: OrgId, u: UserId)
    ensures u in OwnersOf(d, o) <==> (o, u) in d.members && d.members[(o, u)].Owner?
  {
  }

  lemma DemotedOwners(d: Directory, o: OrgId, u: UserId, v: UserId)
    requires (o, u) in d.members && (o, v) in d.members
    ensures OwnersOf(SetRole(SetRole(d, o, v, Admin), o, u, Admin), o) == OwnersOf(d, o) - {v} - {u}
  {
    RoleSetOwners(d, o, v, Admin);
    RoleSetOwners(SetRole(d, o, v, Admin), o, u, Admin);
  }

  /** CreateOrgForUser links by id alone: with a check gone stale the user ends up in two
      organizations, with a fresh one in one. */
  lemma LinkNeedsFreshCheck(d: Directory, u: UserId, o: OrgId)
    requires Consistent(d) && u in d.users && o !in d.orgs
    ensures Mirrored(Link(d.(orgs := d.orgs + {o}), o, u, Owner)) <==> d.users[u].org.None?
  {
    var e := d.(orgs := d.orgs + {o});
    if d.users[u].org.None? {
      LinkMirrored(e, o, u, Owner);
    } else {
      assert Linked(d, d.users[u].org.value, u);
      assert (d.users[u].org.value, u) in Link(e, o, u, Owner).members;
    }
  }
}
