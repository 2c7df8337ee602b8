/** UsersService (apps/api/src/modules/users/users.service.ts): the user
    table of every organization, with admin-or-self updates, no
    self-deletion, and every lookup scoped by organization.  The operations
    are stated as functions on a `UserStore`, and the `UsersService` class
    runs them in place. */
module Users {
  import opened Common
  import opened Records
  import opened Ordering

  /** UserResponse: the listed fields of a user and nothing else, so no
      password hash. */
  datatype UserResponse = UserResponse(
    id: UserId,
    name: string,
    email: string,
    role: UserRole,
    organizationId: OrgId,
    createdAt: Time,
    updatedAt: Time)

  /** UserProfileResponse: the response plus the organization's id and
      name. */
  datatype UserProfile = UserProfile(user: UserResponse, organizationId: OrgId, organizationName: string)

  /** A validated create request.  The password is hashed before the
      service stores it; the hash is passed in as a value. */
  datatype CreateUserRequest = CreateUserRequest(name: string, email: string, role: Option<UserRole>)

  /** UpdateUserDto: name, email and role, each optional. */
  datatype UserPatch = UserPatch(name: Option<string>, email: Option<string>, role: Option<UserRole>)

  const UserNotFound := NotFound("User not found")
  const UpdateForbidden := Forbidden("You can only update your own profile")
  const SelfDeleteForbidden := Forbidden("You cannot delete your own account")
  /** `currentUser.role` read from a missing row: a runtime fault. */
  const CallerMissing := InternalError("current user not found")

  /** mapToUserResponse: copies the listed fields. */
  function ToUserResponse(u: User): (r: UserResponse)
    ensures r.id == u.id && r.name == u.name && r.email == u.email && r.role == u.role
    ensures r.organizationId == u.organizationId && r.createdAt == u.createdAt && r.updatedAt == u.updatedAt
  {
    UserResponse(u.id, u.name, u.email, u.role, u.organizationId, u.createdAt, u.updatedAt)
  }

  /** Two users that differ only in their password hash give the same
      response: the hash never reaches a caller. */
  lemma ResponseIndependentOfPassword(u: User, hash: string)
    ensures ToUserResponse(u.(passwordHash := hash)) == ToUserResponse(u)
  {
  }

  /** The user table and the names of the organizations users belong to. */
  datatype UserStore = UserStore(users: map<UserId, User>, orgNames: map<OrgId, string>, nextUserId: UserId)

  ghost predicate UsersValid(s: UserStore) {
    forall id :: id in s.users ==>
      s.users[id].id == id && id < s.nextUserId && s.users[id].organizationId in s.orgNames
  }

  /** `findFirst({ where: { id, organizationId } })` finds the user. */
  predicate InOrg(s: UserStore, id: UserId, org: OrgId) {
    id in s.users && s.users[id].organizationId == org
  }

  /** create: a new user of `org`, USER unless the request names a role. */
  function CreateUser(s: UserStore, req: CreateUserRequest, passwordHash: string, org: OrgId, now: Time): (r: (UserResponse, UserStore))
    requires org in s.orgNames
    ensures UsersValid(s) ==> UsersValid(r.1) && r.0.id !in s.users
    ensures r.1.users.Keys == s.users.Keys + {r.0.id} && r.1.orgNames == s.orgNames
    ensures UsersValid(s) ==> forall id :: id in s.users ==> r.1.users[id] == s.users[id]
    ensures r.0 == ToUserResponse(r.1.users[r.0.id]) && r.1.users[r.0.id].passwordHash == passwordHash
    ensures r.0.organizationId == org && r.0.name == req.name && r.0.email == req.email
    ensures r.0.role == (if req.role.Some? then req.role.value else UserRole.User)
  {
    var u := Records.User(s.nextUserId, req.name, req.email, passwordHash, req.role.GetOr(UserRole.User), org, now, now);
    (ToUserResponse(u), s.(users := s.users[u.id := u], nextUserId := s.nextUserId + 1))
  }

  /** findOne: the user, if it belongs to `org`. */
  function FindOneUser(s: UserStore, id: UserId, org: OrgId): (r: Result<UserResponse>)
    ensures r.Ok? <==> InOrg(s, id, org)
    ensures r.Ok? ==> r.value == ToUserResponse(s.users[id])
    ensures r.Err? ==> r.error == UserNotFound
  {
    if InOrg(s, id, org) then Ok(ToUserResponse(s.users[id])) else Err(UserNotFound)
  }

  /** findProfile: the user with its organization, if it belongs to `org`. */
  function FindProfile(s: UserStore, id: UserId, org: OrgId): (r: Result<UserProfile>)
    requires UsersValid(s)
    ensures r.Ok? <==> InOrg(s, id, org)
    ensures r.Ok? ==> r.value.user == ToUserResponse(s.users[id])
                      && r.value.organizationId == org && r.value.organizationName == s.orgNames[org]
    ensures r.Err? ==> r.error == UserNotFound
  {
    if InOrg(s, id, org) then
      Ok(UserProfile(ToUserResponse(s.users[id]), org, s.orgNames[org]))
    else Err(UserNotFound)
  }

  /** The fields the patch names overwrite the stored ones. */
  function ApplyUserPatch(u: User, p: UserPatch, now: Time): (r: User)
    ensures r.id == u.id && r.organizationId == u.organizationId && r.passwordHash == u.passwordHash
    ensures r.createdAt == u.createdAt && r.updatedAt == now
    ensures r.name == (if p.name.Some? then p.name.value else u.name)
    ensures r.email == (if p.email.Some? then p.email.value else u.email)
    ensures r.role == (if p.role.Some? then p.role.value else u.role)
  {
    u.(name := p.name.GetOr(u.name), email := p.email.GetOr(u.email), role := p.role.GetOr(u.role), updatedAt := now)
  }

  /** update: the caller (looked up by id alone) must be ADMIN or the
      target; only then is the target looked up within `org`, and the
      patch written to it. */
  function UpdateUser(s: UserStore, id: UserId, p: UserPatch, org: OrgId, caller: UserId, now: Time): (r: (Result<UserResponse>, UserStore))
    ensures r.0.Err? ==> r.1 == s
    ensures caller !in s.users ==> r.0 == Err(CallerMissing)
    ensures caller in s.users && s.users[caller].role != Admin && caller != id ==> r.0 == Err(UpdateForbidden)
    ensures caller in s.users && (s.users[caller].role == Admin || caller == id) && !InOrg(s, id, org)
            ==> r.0 == Err(UserNotFound)
    ensures r.0.Ok? <==> caller in s.users && (s.users[caller].role == Admin || caller == id) && InOrg(s, id, org)
    ensures r.0.Ok? ==> r.1.users == s.users[id := ApplyUserPatch(s.users[id], p, now)]
                        && r.0.value == ToUserResponse(r.1.users[id])
    ensures r.1.orgNames == s.orgNames && r.1.nextUserId == s.nextUserId
    ensures UsersValid(s) ==> UsersValid(r.1)
  {
    if caller !in s.users then (Err(CallerMissing), s)
    else if s.users[caller].role != Admin && caller != id then (Err(UpdateForbidden), s)
    else if !InOrg(s, id, org) then (Err(UserNotFound), s)
    else
      var updated := ApplyUserPatch(s.users[id], p, now);
      (Ok(ToUserResponse(updated)), s.(users := s.users[id := updated]))
  }

  /** remove: a caller may never remove itself, whether or not it is
      found; otherwise the target is looked up within `org` and deleted. */
  function RemoveUser(s: UserStore, id: UserId, org: OrgId, caller: UserId): (r: (Result<()>, UserStore))
    ensures caller == id ==> r == (Err(SelfDeleteForbidden), s)
    ensures caller != id && !InOrg(s, id, org) ==> r == (Err(UserNotFound), s)
    ensures caller != id && InOrg(s, id, org) ==> r == (Ok(()), s.(users := s.users - {id}))
    ensures UsersValid(s) ==> UsersValid(r.1)
  {
    if caller == id then (Err(SelfDeleteForbidden), s)
    else if !InOrg(s, id, org) then (Err(UserNotFound), s)
    else (Ok(()), s.(users := s.users - {id}))
  }

  /** The authorization rule of update, in full: an update goes through
      exactly when the caller exists and is ADMIN or the target, and the
      target is in the organization; it then changes only the target. */
  lemma UpdateChangesOnlyTarget(s: UserStore, id: UserId, p: UserPatch, org: OrgId, caller: UserId, now: Time, other: UserId)
    requires UpdateUser(s, id, p, org, caller, now).0.Ok?
    requires other in s.users && other != id
    ensures caller in s.users && (s.users[caller].role == Admin || caller == id)
    ensures other in UpdateUser(s, id, p, org, caller, now).1.users
    ensures UpdateUser(s, id, p, org, caller, now).1.users[other] == s.users[other]
  {
  }

  /** update lets a USER write its own `role`: a USER of the organization
      that names itself and ADMIN comes out an ADMIN. */
  lemma UpdateMayChangeOwnRole(s: UserStore, org: OrgId, caller: UserId, now: Time)
    requires InOrg(s, caller, org) && s.users[caller].role == UserRole.User
    ensures var (r, s') := UpdateUser(s, caller, UserPatch(None, None, Some(Admin)), org, caller, now);
            r.Ok? && r.value.role == Admin && s'.users[caller].role == Admin
  {
  }

  /** Removing oneself is refused even when one is not in the
      organization or not stored at all. */
  lemma RemoveSelfAlwaysForbidden(s: UserStore, org: OrgId, caller: UserId)
    ensures RemoveUser(s, caller, org, caller).0 == Err(SelfDeleteForbidden)
    ensures RemoveUser(s, caller, org, caller).1 == s
  {
  }

  /** A successful removal deletes exactly the target, which a later
      lookup then reports as not found. */
  lemma RemoveThenNotFound(s: UserStore, id: UserId, org: OrgId, caller: UserId)
    requires RemoveUser(s, id, org, caller).0.Ok?
    ensures var s' := RemoveUser(s, id, org, caller).1;
            && FindOneUser(s', id, org) == Err(UserNotFound)
            && s'.users.Keys == s.users.Keys - {id}
            && (forall k :: k in s'.users ==> s'.users[k] == s.users[k])
  {
  }

  /** The user service over its table. */
  class UsersService {
    var users: map<UserId, User>
    /** The organizations' names; the user service only reads them. */
    var orgNames: map<OrgId, string>
    var nextUserId: UserId

    function State(): UserStore
      reads this
    {
      UserStore(users, orgNames, nextUserId)
    }

    ghost predicate Valid()
      reads this
    {
      UsersValid(State())
    }

    constructor(orgNames: map<OrgId, string>)
      ensures Valid()
      ensures State() == UserStore(map[], orgNames, 0)
    {
      users := map[];
      this.orgNames := orgNames;
      nextUserId := 0;
    }

    method Create(req: CreateUserRequest, passwordHash: string, org: OrgId, now: Time) returns (r: UserResponse)
      requires Valid() && org in orgNames
      modifies this
      ensures Valid()
      ensures (r, State()) == CreateUser(old(State()), req, passwordHash, org, now)
    {
      var u := Records.User(nextUserId, req.name, req.email, passwordHash, req.role.GetOr(UserRole.User), org, now, now);
      users := users[u.id := u];
      nextUserId := nextUserId + 1;
      r := ToUserResponse(u);
    }

    /** findAll: the users of `org`, each once, newest first. */
    method FindAll(org: OrgId) returns (r: seq<UserResponse>)
      requires Valid()
      ensures forall i :: 0 <= i < |r| ==> r[i].id in users && r[i] == ToUserResponse(users[r[i].id])
                                            && r[i].organizationId == org
      ensures forall id :: InOrg(State(), id, org) ==> exists i :: 0 <= i < |r| && r[i].id == id
      ensures forall i, j :: 0 <= i < j < |r| ==> r[i].id != r[j].id
      ensures forall i, j :: 0 <= i < j < |r| ==> r[i].createdAt >= r[j].createdAt
    {
      var ks := SelectOrdered(users, (u: User) => u.organizationId == org, (u: User) => -u.createdAt);
      r := [];
      for i := 0 to |ks|
        invariant |r| == i
        invariant forall j :: 0 <= j < i ==> r[j] == ToUserResponse(users[ks[j]]) && r[j].id == ks[j]
      {
        r := r + [ToUserResponse(users[ks[i]])];
      }
      forall id | InOrg(State(), id, org)
        ensures exists i :: 0 <= i < |r| && r[i].id == id
      {
        var i :| 0 <= i < |ks| && ks[i] == id;
        assert r[i].id == id;
      }
    }

    method FindOne(id: UserId, org: OrgId) returns (r: Result<UserResponse>)
      ensures r == FindOneUser(State(), id, org)
    {
      if id in users && users[id].organizationId == org {
        r := Ok(ToUserResponse(users[id]));
      } else {
        r := Err(UserNotFound);
      }
    }

    method GetProfile(id: UserId, org: OrgId) returns (r: Result<UserProfile>)
      requires Valid()
      ensures r == FindProfile(State(), id, org)
    {
      if id in users && users[id].organizationId == org {
        r := Ok(UserProfile(ToUserResponse(users[id]), org, orgNames[org]));
      } else {
        r := Err(UserNotFound);
      }
    }

    method Update(id: UserId, p: UserPatch, org: OrgId, caller: UserId, now: Time) returns (r: Result<UserResponse>)
      requires Valid()
      modifies this
      ensures Valid()
      ensures (r, State()) == UpdateUser(old(State()), id, p, org, caller, now)
    {
      if caller !in users {
        return Err(CallerMissing);
      }
      if users[caller].role != Admin && caller != id {
        return Err(UpdateForbidden);
      }
      if !(id in users && users[id].organizationId == org) {
        return Err(UserNotFound);
      }
      var updated := ApplyUserPatch(users[id], p, now);
      users := users[id := updated];
      r := Ok(ToUserResponse(updated));
    }

    method Remove(id: UserId, org: OrgId, caller: UserId) returns (r: Result<()>)
      requires Valid()
      modifies this
      ensures Valid()
      ensures (r, State()) == RemoveUser(old(State()), id, org, caller)
    {
      if caller == id {
        return Err(SelfDeleteForbidden);
      }
      if !(id in users && users[id].organizationId == org) {
        return Err(UserNotFound);
      }
      users := users - {id};
      r := Ok(());
    }
  }
}
