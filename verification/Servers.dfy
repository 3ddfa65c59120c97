/** Servers, roles and memberships: the tables of the servers service and what its transactions keep. */
module Servers {
  import opened Uuids

  type User = string
  type RoleId = Uuid
  type ServerId = Uuid

  datatype Permission = Read | Write | VoiceJoin | Manage

  const BASIC: set<Permission> := {Read, Write, VoiceJoin}
  const ALL: set<Permission> := {Read, Write, VoiceJoin, Manage}
  const EVERYONE: string := "@everyone"
  const OWNER: string := "@owner"

  datatype Server = Server(name: string, owner: User, deleted: bool)
  datatype Role = Role(server: ServerId, name: string, permissions: set<Permission>)
  datatype Member = Member(server: ServerId, user: User)
  datatype Assignment = Assignment(server: ServerId, user: User, role: RoleId)

  /** The tables servers (soft-deleted rows stay), roles, memberships and membership_roles. */
  datatype Db = Db(servers: map<ServerId, Server>, roles: map<RoleId, Role>, members: set<Member>, grants: set<Assignment>)

  /** A transaction with its arguments and, for new rows, the ids the service draws. */
  datatype Op =
    | CreateServer(id: ServerId, name: string, requester: User, everyone: RoleId, ownerRole: RoleId)
    | UpdateServer(id: ServerId, name: string, requester: User)
    | DeleteServer(id: ServerId, requester: User)
    | CreateRole(server: ServerId, name: string, permissions: set<Permission>, role: RoleId)
    | AssignRole(server: ServerId, target: User, role: RoleId, requester: User)
    | Join(server: ServerId, user: User)
    | Leave(server: ServerId, user: User)

  const EMPTY: Db := Db(map[], map[], {}, {})

  predicate Blank(s: string) {
    forall c <- s :: c <= ' '
  }

  /** findById and existsById see no soft-deleted server. */
  predicate Exists(d: Db, s: ServerId) {
    s in d.servers && !d.servers[s].deleted
  }

  predicate IsMember(d: Db, s: ServerId, u: User) {
    Member(s, u) in d.members
  }

  /** findRolesByUserAndServer, flattened to permissions. */
  function Permissions(d: Db, s: ServerId, u: User): set<Permission> {
    set a, p | a in d.grants && a.server == s && a.user == u && a.role in d.roles && p in d.roles[a.role].permissions :: p
  }

  predicate NameTaken(d: Db, s: ServerId, name: string) {
    exists r <- d.roles :: d.roles[r].server == s && d.roles[r].name == name
  }

  /** The rows of membership_roles for the @everyone role of a server. */
  function EveryoneRows(d: Db, s: ServerId, u: User): set<Assignment> {
    set r | r in d.roles && d.roles[r].server == s && d.roles[r].name == EVERYONE :: Assignment(s, u, r)
  }

  predicate MayAssign(d: Db, s: ServerId, requester: User)
    requires s in d.servers
  {
    d.servers[s].owner == requester || Manage in Permissions(d, s, requester)
  }

  predicate Enabled(d: Db, op: Op) {
    match op
    case CreateServer(id, name, u, everyone, ownerRole) =>
      !Blank(name) && id !in d.servers && everyone !in d.roles && ownerRole !in d.roles && everyone != ownerRole
    case UpdateServer(id, name, u) => !Blank(name) && Exists(d, id) && d.servers[id].owner == u
    case DeleteServer(id, u) => Exists(d, id) && d.servers[id].owner == u
    case CreateRole(s, name, ps, r) =>
      !Blank(name) && ps != {} && Exists(d, s) && r !in d.roles && !NameTaken(d, s, name)
    case AssignRole(s, target, r, u) =>
      Exists(d, s) && IsMember(d, s, target) && r in d.roles && d.roles[r].server == s && MayAssign(d, s, u)
    case Join(s, u) => Exists(d, s) && !IsMember(d, s, u)
    case Leave(s, u) => Exists(d, s) && d.servers[s].owner != u && IsMember(d, s, u)
  }

  /** A transaction; a refused one, or one a unique constraint stops, changes nothing. */
  function Do(d: Db, op: Op): Db {
    if !Enabled(d, op) then d else
      match op
      case CreateServer(id, name, u, everyone, ownerRole) =>
        Db(d.servers[id := Server(name, u, false)],
           d.roles[everyone := Role(id, EVERYONE, BASIC)][ownerRole := Role(id, OWNER, ALL)],
           d.members + {Member(id, u)}, d.grants + {Assignment(id, u, ownerRole)})
      case UpdateServer(id, name, u) => d.(servers := d.servers[id := d.servers[id].(name := name)])
      case DeleteServer(id, u) => d.(servers := d.servers[id := d.servers[id].(deleted := true)])
      case CreateRole(s, name, ps, r) => d.(roles := d.roles[r := Role(s, name, ps)])
      case AssignRole(s, target, r, u) => d.(grants := d.grants + {Assignment(s, target, r)})
      case Join(s, u) => d.(members := d.members + {Member(s, u)}, grants := d.grants + EveryoneRows(d, s, u))
      case Leave(s, u) =>
        // ON DELETE CASCADE from memberships to membership_roles
        d.(members := d.members - {Member(s, u)},
           grants := set a | a in d.grants && !(a.server == s && a.user == u))
  }

  // ---------------------------------------------------------------- what every transaction keeps

  ghost predicate Everyone(d: Db, s: ServerId, r: RoleId) {
    r in d.roles && d.roles[r].server == s && d.roles[r].name == EVERYONE && BASIC <= d.roles[r].permissions
  }

  ghost predicate HasEveryone(d: Db, s: ServerId) {
    exists r :: Everyone(d, s, r)
  }

  ghost predicate RolesOk(d: Db) {
    && (forall r <- d.roles :: d.roles[r].server in d.servers)
    && (forall s <- d.servers :: HasEveryone(d, s))
  }

  /** The unique constraint on (server_id, name). */
  ghost predicate NamesUnique(d: Db) {
    forall q, r | q in d.roles && r in d.roles && d.roles[q].server == d.roles[r].server
                  && d.roles[q].name == d.roles[r].name :: q == r
  }

  ghost predicate GrantOk(d: Db, a: Assignment) {
    IsMember(d, a.server, a.user) && a.role in d.roles && d.roles[a.role].server == a.server
  }

  ghost predicate GrantsOk(d: Db) {
    forall a <- d.grants :: GrantOk(d, a)
  }

  ghost predicate MemberOk(d: Db, m: Member) {
    m.server in d.servers && BASIC <= Permissions(d, m.server, m.user)
  }

  ghost predicate MembersOk(d: Db) {
    forall m <- d.members :: MemberOk(d, m)
  }

  ghost predicate OwnerOk(d: Db, s: ServerId)
    requires s in d.servers
  {
    IsMember(d, s, d.servers[s].owner) && ALL <= Permissions(d, s, d.servers[s].owner)
  }

  ghost predicate OwnersOk(d: Db) {
    forall s <- d.servers :: OwnerOk(d, s)
  }

  ghost predicate Ok(d: Db) {
    RolesOk(d) && NamesUnique(d) && GrantsOk(d) && MembersOk(d) && OwnersOk(d)
  }

  ghost predicate OwnersStay(d: Db, e: Db) {
    forall s <- d.servers :: s in e.servers && e.servers[s].owner == d.servers[s].owner
  }

  /** Nothing is taken from a pair that stays a member, and servers keep their owners. */
  ghost predicate Grows(d: Db, e: Db) {
    && OwnersStay(d, e)
    && forall m <- d.members | m in e.members :: Permissions(d, m.server, m.user) <= Permissions(e, m.server, m.user)
  }

  lemma OfRole(d: Db, s: ServerId, u: User, r: RoleId)
    requires Assignment(s, u, r) in d.grants && r in d.roles
    ensures d.roles[r].permissions <= Permissions(d, s, u)
  {
    forall p | p in d.roles[r].permissions
      ensures p in Permissions(d, s, u)
    {
      assert Assignment(s, u, r).role == r;
    }
  }

  ghost predicate RolesStay(d: Db, e: Db) {
    forall r <- d.roles :: r in e.roles && e.roles[r] == d.roles[r]
  }

  /** Rows kept and roles kept mean permissions kept. */
  lemma StillGranted(d: Db, e: Db, s: ServerId, u: User)
    requires forall a <- d.grants | a.server == s && a.user == u :: a in e.grants
    requires RolesStay(d, e)
    ensures Permissions(d, s, u) <= Permissions(e, s, u)
  {
  }

  /** Without a membership there are no permissions; with one there are at least the basic three. */
  lemma BasicIffMember(d: Db, s: ServerId, u: User, p: Permission)
    requires Ok(d) && p in BASIC
    ensures p in Permissions(d, s, u) <==> IsMember(d, s, u)
  {
    if p in Permissions(d, s, u) {
      var a :| a in d.grants && a.server == s && a.user == u && a.role in d.roles && p in d.roles[a.role].permissions;
      assert GrantOk(d, a);
    }
    if IsMember(d, s, u) {
      assert MemberOk(d, Member(s, u));
    }
  }

  /** A change that only adds rows. */
  ghost predicate Added(d: Db, e: Db) {
    d.members <= e.members && d.grants <= e.grants && RolesStay(d, e) && OwnersStay(d, e)
  }

  lemma AddedKeeps(d: Db, e: Db)
    requires MembersOk(d) && OwnersOk(d) && Added(d, e)
    requires forall m <- e.members :: m in d.members || MemberOk(e, m)
    requires forall s <- e.servers :: s in d.servers || OwnerOk(e, s)
    ensures MembersOk(e) && OwnersOk(e) && Grows(d, e)
  {
    hide Permissions;
    forall m <- d.members
      ensures MemberOk(e, m) && Permissions(d, m.server, m.user) <= Permissions(e, m.server, m.user)
    {
      assert MemberOk(d, m);
      StillGranted(d, e, m.server, m.user);
    }
    forall s <- d.servers
      ensures OwnerOk(e, s)
    {
      assert OwnerOk(d, s);
      StillGranted(d, e, s, d.servers[s].owner);
    }
  }

  lemma OldGrants(d: Db, e: Db)
    requires GrantsOk(d) && Added(d, e)
    ensures forall a <- d.grants :: GrantOk(e, a)
  {
    forall a <- d.grants
      ensures GrantOk(e, a)
    {
      assert GrantOk(d, a);
    }
  }

  lemma StillHasEveryone(d: Db, e: Db, s: ServerId)
    requires HasEveryone(d, s) && RolesStay(d, e)
    ensures HasEveryone(e, s)
  {
    var r :| Everyone(d, s, r);
    assert Everyone(e, s, r);
  }

  lemma CreateServerKeeps(d: Db, op: Op)
    requires Ok(d) && op.CreateServer? && Enabled(d, op)
    ensures Ok(Do(d, op)) && Grows(d, Do(d, op))
  {
    hide Permissions, Blank, GrantOk, HasEveryone, OwnerOk, MemberOk;
    var e := Do(d, op);
    assert Added(d, e);
    CreatedRoles(d, op);
    OldGrants(d, e);
    CreatedOwner(d, op);
    AddedKeeps(d, e);
  }

  lemma CreatedNames(d: Db, op: Op)
    requires RolesOk(d) && NamesUnique(d) && op.CreateServer? && Enabled(d, op)
    ensures NamesUnique(Do(d, op))
  {
    hide Blank, HasEveryone;
    var e := Do(d, op);
    forall r <- e.roles | r != op.everyone && r != op.ownerRole
      ensures e.roles[r].server != op.id
    {
      assert r in d.roles;
    }
  }

  lemma CreatedRoles(d: Db, op: Op)
    requires RolesOk(d) && NamesUnique(d) && op.CreateServer? && Enabled(d, op)
    ensures RolesOk(Do(d, op)) && NamesUnique(Do(d, op))
  {
    hide Blank, HasEveryone, NamesUnique;
    var e := Do(d, op);
    CreatedNames(d, op);
    forall s <- e.servers
      ensures HasEveryone(e, s)
    {
      if s == op.id {
        assert Everyone(e, s, op.everyone);
        GivenEveryone(e, s, op.everyone);
      } else {
        StillHasEveryone(d, e, s);
      }
    }
  }

  lemma GivenEveryone(d: Db, s: ServerId, r: RoleId)
    requires Everyone(d, s, r)
    ensures HasEveryone(d, s)
  {
  }

  lemma CreatedOwner(d: Db, op: Op)
    requires op.CreateServer? && Enabled(d, op)
    ensures var e := Do(d, op);
      && MemberOk(e, Member(op.id, op.requester)) && OwnerOk(e, op.id)
      && GrantOk(e, Assignment(op.id, op.requester, op.ownerRole))
  {
    hide Permissions, Blank;
    OfRole(Do(d, op), op.id, op.requester, op.ownerRole);
  }

  lemma UpdateKeeps(d: Db, op: Op)
    requires Ok(d) && (op.UpdateServer? || op.DeleteServer?) && Enabled(d, op)
    ensures Ok(Do(d, op)) && Grows(d, Do(d, op))
  {
    hide Permissions, Blank, GrantOk, HasEveryone, OwnerOk, MemberOk;
    var e := Do(d, op);
    assert Added(d, e);
    SameRoles(d, e);
    OldGrants(d, e);
    AddedKeeps(d, e);
  }

  lemma SameRoles(d: Db, e: Db)
    requires RolesOk(d) && NamesUnique(d) && e.roles == d.roles && e.servers.Keys == d.servers.Keys
    ensures RolesOk(e) && NamesUnique(e)
  {
    hide HasEveryone;
    forall s <- e.servers
      ensures HasEveryone(e, s)
    {
      StillHasEveryone(d, e, s);
    }
  }

  lemma NewRoleName(d: Db, op: Op)
    requires NamesUnique(d) && op.CreateRole? && Enabled(d, op)
    ensures NamesUnique(Do(d, op))
  {
    hide Blank;
  }

  lemma CreateRoleKeeps(d: Db, op: Op)
    requires Ok(d) && op.CreateRole? && Enabled(d, op)
    ensures Ok(Do(d, op)) && Grows(d, Do(d, op))
  {
    hide Permissions, Blank, GrantOk, HasEveryone, OwnerOk, MemberOk, NamesUnique, NameTaken;
    var e := Do(d, op);
    assert Added(d, e);
    NewRoleName(d, op);
    forall s <- e.servers
      ensures HasEveryone(e, s)
    {
      StillHasEveryone(d, e, s);
    }
    OldGrants(d, e);
    AddedKeeps(d, e);
  }

  lemma AssignKeeps(d: Db, op: Op)
    requires Ok(d) && op.AssignRole? && Enabled(d, op)
    ensures Ok(Do(d, op)) && Grows(d, Do(d, op))
  {
    hide Permissions, Blank, HasEveryone, OwnerOk, MemberOk;
    var e := Do(d, op);
    assert Added(d, e);
    SameRoles(d, e);
    OldGrants(d, e);
    AddedKeeps(d, e);
  }

  lemma JoinKeeps(d: Db, op: Op)
    requires Ok(d) && op.Join? && Enabled(d, op)
    ensures Ok(Do(d, op)) && Grows(d, Do(d, op))
  {
    hide Permissions, Blank, HasEveryone, OwnerOk, MemberOk;
    var e := Do(d, op);
    assert Added(d, e);
    SameRoles(d, e);
    OldGrants(d, e);
    JoinedMember(d, op);
    AddedKeeps(d, e);
  }

  lemma JoinedMember(d: Db, op: Op)
    requires RolesOk(d) && op.Join? && Enabled(d, op)
    ensures MemberOk(Do(d, op), Member(op.server, op.user))
  {
    hide Permissions;
    var e := Do(d, op);
    assert HasEveryone(d, op.server);
    var r :| Everyone(d, op.server, r);
    assert Assignment(op.server, op.user, r) in EveryoneRows(d, op.server, op.user);
    OfRole(e, op.server, op.user, r);
  }

  lemma LeaveKeeps(d: Db, op: Op)
    requires Ok(d) && op.Leave? && Enabled(d, op)
    ensures Ok(Do(d, op)) && Grows(d, Do(d, op))
  {
    hide Permissions, Blank, HasEveryone;
    var e := Do(d, op);
    SameRoles(d, e);
    forall m <- d.members | m in e.members
      ensures MemberOk(e, m) && Permissions(d, m.server, m.user) <= Permissions(e, m.server, m.user)
    {
      assert MemberOk(d, m) && m != Member(op.server, op.user);
      assert m.server != op.server || m.user != op.user by {
        assert m == Member(m.server, m.user);
      }
      StillGranted(d, e, m.server, m.user);
    }
    forall a <- e.grants
      ensures GrantOk(e, a)
    {
      assert GrantOk(d, a);
    }
    forall s <- d.servers
      ensures OwnerOk(e, s)
    {
      assert OwnerOk(d, s);
      StillGranted(d, e, s, d.servers[s].owner);
    }
  }

  /**
   Every transaction keeps the tables consistent (each member holds the basic permissions, each owner
   is a member holding all of them) and takes nothing from a member who stays.
   */
  lemma DoKeeps(d: Db, op: Op)
    requires Ok(d)
    ensures Ok(Do(d, op)) && Grows(d, Do(d, op))
  {
    hide Ok, Grows, Do, Enabled;
    if !Enabled(d, op) {
      Unchanged(d, op);
    } else {
      match op
      case CreateServer(_, _, _, _, _) => CreateServerKeeps(d, op);
      case UpdateServer(_, _, _) => UpdateKeeps(d, op);
      case DeleteServer(_, _) => UpdateKeeps(d, op);
      case CreateRole(_, _, _, _) => CreateRoleKeeps(d, op);
      case AssignRole(_, _, _, _) => AssignKeeps(d, op);
      case Join(_, _) => JoinKeeps(d, op);
      case Leave(_, _) => LeaveKeeps(d, op);
    }
  }

  lemma Unchanged(d: Db, op: Op)
    requires !Enabled(d, op)
    ensures Do(d, op) == d && Grows(d, d)
  {
  }

  lemma SameEveryoneRows(d: Db, e: Db, s: ServerId, u: User)
    requires d.roles == e.roles
    ensures EveryoneRows(d, s, u) == EveryoneRows(e, s, u)
  {
  }

  lemma InEveryoneRows(d: Db, s: ServerId, u: User)
    ensures forall a :: a in EveryoneRows(d, s, u) <==>
      a == Assignment(s, u, a.role) && IsEveryone(d.roles, s, a.role)
  {
  }

  /** The role new members get. */
  predicate IsEveryone(roles: map<RoleId, Role>, s: ServerId, r: RoleId) {
    r in roles && roles[r].server == s && roles[r].name == "@everyone"
  }

  lemma Joined(d: Db, s: ServerId, u: User)
    requires Ok(d)
    ensures Enabled(d, Join(s, u)) ==> BASIC <= Permissions(Do(d, Join(s, u)), s, u)
  {
    hide Permissions;
    if Enabled(d, Join(s, u)) {
      JoinedMember(d, Join(s, u));
    }
  }

  lemma AllOfThem()
    ensures forall p: Permission :: p in ALL
  {
    forall p: Permission
      ensures p in ALL
    {
      assert p.Read? || p.Write? || p.VoiceJoin? || p.Manage?;
    }
  }

  lemma Left(d: Db, s: ServerId, u: User)
    ensures Enabled(d, Leave(s, u)) ==> Permissions(Do(d, Leave(s, u)), s, u) == {}
  {
  }

  // ---------------------------------------------------------------- where MANAGE comes from

  /** Any transactions, one after the other. */
  function DoAll(d: Db, ops: seq<Op>): Db
    decreases |ops|
  {
    if ops == [] then d else DoAll(Do(d, ops[0]), ops[1..])
  }

  /** @everyone never grants MANAGE, and on this server nobody but the owner holds it. */
  ghost predicate OnlyOwnerManages(d: Db, s: ServerId) {
    && (forall r <- d.roles | d.roles[r].name == EVERYONE :: Manage !in d.roles[r].permissions)
    && (s in d.servers ==> forall u | Manage in Permissions(d, s, u) :: u == d.servers[s].owner)
    && (s !in d.servers ==> forall u :: Permissions(d, s, u) == {})
  }

  ghost predicate OwnerAssigns(d: Db, s: ServerId, op: Op) {
    op.AssignRole? && op.server == s && s in d.servers && op.requester == d.servers[s].owner
  }

  lemma GrantedBy(d: Db, s: ServerId, u: User, p: Permission) returns (r: RoleId)
    requires p in Permissions(d, s, u)
    ensures Assignment(s, u, r) in d.grants && r in d.roles && p in d.roles[r].permissions
  {
    var a :| a in d.grants && a.server == s && a.user == u && a.role in d.roles && p in d.roles[a.role].permissions;
    r := a.role;
    assert a == Assignment(s, u, r);
  }

  lemma NoNewEveryone(d: Db, op: Op)
    requires Ok(d) && op.CreateRole? && Enabled(d, op)
    ensures op.name != EVERYONE
  {
    assert HasEveryone(d, op.server);
    var r :| Everyone(d, op.server, r);
  }

  lemma RolesStayBasic(d: Db, s: ServerId, op: Op)
    requires Ok(d) && OnlyOwnerManages(d, s)
    ensures forall r <- Do(d, op).roles | Do(d, op).roles[r].name == EVERYONE :: Manage !in Do(d, op).roles[r].permissions
  {
    hide Ok, Permissions, Blank, MayAssign, NameTaken;
    if Enabled(d, op) && op.CreateRole? {
      NoNewEveryone(d, op);
    }
    assert OWNER[1] != EVERYONE[1];
  }

  lemma GrantedOnServer(d: Db, s: ServerId, u: User, p: Permission)
    requires Ok(d) && p in Permissions(d, s, u)
    ensures s in d.servers
  {
    hide Permissions;
    var r := GrantedBy(d, s, u, p);
    assert GrantOk(d, Assignment(s, u, r));
  }

  lemma NothingWithoutServer(d: Db, s: ServerId, u: User)
    requires Ok(d) && s !in d.servers
    ensures Permissions(d, s, u) == {}
  {
    hide Permissions, Ok;
    if p :| p in Permissions(d, s, u) {
      GrantedOnServer(d, s, u, p);
    }
  }

  lemma ManagesAfter(d: Db, s: ServerId, op: Op, u: User)
    requires Ok(d) && OnlyOwnerManages(d, s) && !OwnerAssigns(d, s, op) && Enabled(d, op)
    requires s in Do(d, op).servers && Manage in Permissions(Do(d, op), s, u)
    ensures u == Do(d, op).servers[s].owner
  {
    hide Permissions, Blank, NameTaken, RolesOk, NamesUnique, MembersOk, OwnersOk;
    var e := Do(d, op);
    var r := GrantedBy(e, s, u, Manage);
    var a := Assignment(s, u, r);
    if a in d.grants {
      assert GrantOk(d, a);
      assert e.roles[r] == d.roles[r];
      OfRole(d, s, u, r);
    } else if op.Join? {
      InEveryoneRows(d, op.server, op.user);
    }
  }

  lemma OwnerStillManagesAlone(d: Db, s: ServerId, op: Op)
    requires Ok(d) && OnlyOwnerManages(d, s) && !OwnerAssigns(d, s, op)
    ensures Ok(Do(d, op)) && OnlyOwnerManages(Do(d, op), s)
  {
    hide Ok, Permissions, Do, Enabled;
    var e := Do(d, op);
    DoKeeps(d, op);
    RolesStayBasic(d, s, op);
    if !Enabled(d, op) {
      Unchanged(d, op);
    } else if s in e.servers {
      forall u | Manage in Permissions(e, s, u)
        ensures u == e.servers[s].owner
      {
        ManagesAfter(d, s, op, u);
      }
    } else {
      forall u
        ensures Permissions(e, s, u) == {}
      {
        NothingWithoutServer(e, s, u);
      }
    }
  }

  lemma {:induction false} ManageRun(d: Db, s: ServerId, ops: seq<Op>)
    requires Ok(d) && OnlyOwnerManages(d, s)
    requires forall i | 0 <= i < |ops| :: !OwnerAssigns(DoAll(d, ops[..i]), s, ops[i])
    ensures OnlyOwnerManages(DoAll(d, ops), s)
    decreases |ops|
  {
    hide Ok, Do, OnlyOwnerManages, OwnerAssigns;
    if ops != [] {
      assert ops[..0] == [] && DoAll(d, []) == d;
      OwnerStillManagesAlone(d, s, ops[0]);
      var rest := ops[1..];
      forall i | 0 <= i < |rest|
        ensures !OwnerAssigns(DoAll(Do(d, ops[0]), rest[..i]), s, rest[i])
      {
        assert ops[..i + 1][0] == ops[0] && ops[..i + 1][1..] == rest[..i];
        assert DoAll(d, ops[..i + 1]) == DoAll(Do(d, ops[0]), rest[..i]);
      }
      ManageRun(Do(d, ops[0]), s, rest);
    }
  }

  /** Whoever but the owner holds MANAGE on a server, after any transactions: the owner has assigned a role there. */
  lemma ManageComesFromOwner(ops: seq<Op>, s: ServerId, u: User)
    requires var d := DoAll(EMPTY, ops); s in d.servers && u != d.servers[s].owner && Manage in Permissions(d, s, u)
    ensures exists i | 0 <= i < |ops| ::
      var d := DoAll(EMPTY, ops[..i]);
      ops[i].AssignRole? && ops[i].server == s && s in d.servers && ops[i].requester == d.servers[s].owner
  {
    hide Permissions;
    NothingYet(s);
    if forall i | 0 <= i < |ops| :: !OwnerAssigns(DoAll(EMPTY, ops[..i]), s, ops[i]) {
      ManageRun(EMPTY, s, ops);
    }
  }

  lemma NothingYet(s: ServerId)
    ensures Ok(EMPTY) && OnlyOwnerManages(EMPTY, s)
  {
  }

  /** A soft-deleted server keeps its members, so permission checks on it go on as before. */
  lemma DeletedServerStillGrants(d: Db, s: ServerId, owner: User, u: User)
    requires Exists(d, s) && d.servers[s].owner == owner
    ensures var e := Do(d, DeleteServer(s, owner));
      !Exists(e, s) && (IsMember(e, s, u) <==> IsMember(d, s, u)) && Permissions(e, s, u) == Permissions(d, s, u)
  {
  }
}

/** RoleService, ServerService and MembershipService with the statuses of their controllers: the guarded writes, one transaction each. */
module ServersApi {
  import opened Servers
  import opened Uuids

  class ServersService {
    var servers: map<ServerId, Server>
    var roles: map<RoleId, Role>
    var members: set<Member>
    var grants: set<Assignment>

    constructor ()
      ensures State() == EMPTY
    {
      servers, roles, members, grants := map[], map[], {}, {};
    }

    function State(): Db
      reads this
    {
      Db(servers, roles, members, grants)
    }

    /** Server, its two default roles, the owner's membership, and the owner's role, in that order. */
    method CreateServer(id: ServerId, name: string, owner: User, everyone: RoleId, ownerRole: RoleId) returns (status: int)
      requires id !in servers && everyone !in roles && ownerRole !in roles && everyone != ownerRole
      requires Ok(State())
      modifies this
      ensures Ok(State()) && State() == Do(old(State()), Op.CreateServer(id, name, owner, everyone, ownerRole))
      ensures status == if forall c <- name :: c <= ' ' then 400 else 201
      ensures status == 400 ==> State() == old(State())
      ensures status == 201 ==>
        && servers == old(servers)[id := Server(name, owner, false)]
        && roles == old(roles)[everyone := Role(id, "@everyone", {Read, Write, VoiceJoin})]
                              [ownerRole := Role(id, "@owner", {Read, Write, VoiceJoin, Manage})]
        && members == old(members) + {Member(id, owner)}
        && grants == old(grants) + {Assignment(id, owner, ownerRole)}
      ensures status == 201 ==> forall p: Permission :: p in Permissions(State(), id, owner)
    {
      hide Ok, Permissions;
      ghost var before := State();
      DoKeeps(before, Op.CreateServer(id, name, owner, everyone, ownerRole));
      if Blank(name) {
        return 400;
      }
      servers := servers[id := Server(name, owner, false)];
      roles := roles[everyone := Role(id, EVERYONE, BASIC)];
      roles := roles[ownerRole := Role(id, OWNER, ALL)];
      members := members + {Member(id, owner)};
      grants := grants + {Assignment(id, owner, ownerRole)};
      OfRole(State(), id, owner, ownerRole);
      AllOfThem();
      return 201;
    }

    method UpdateServer(id: ServerId, name: string, requester: User) returns (status: int)
      modifies this`servers
      ensures State() == Do(old(State()), Op.UpdateServer(id, name, requester))
      ensures status == 400 <==> forall c <- name :: c <= ' '
      ensures status == 404 <==> status != 400 && (id !in servers || old(servers)[id].deleted)
      ensures status == 403 <==> status !in {400, 404} && old(servers)[id].owner != requester
      ensures status in {200, 400, 403, 404}
      ensures status != 200 ==> servers == old(servers)
      ensures status == 200 ==> id in old(servers) && servers == old(servers)[id := old(servers)[id].(name := name)]
    {
      if Blank(name) {
        return 400;
      }
      if !Exists(State(), id) {
        return 404;
      }
      if servers[id].owner != requester {
        return 403;
      }
      servers := servers[id := servers[id].(name := name)];
      return 200;
    }

    method DeleteServer(id: ServerId, requester: User) returns (status: int)
      modifies this`servers
      ensures State() == Do(old(State()), Op.DeleteServer(id, requester))
      ensures status == 404 <==> id !in old(servers) || old(servers)[id].deleted
      ensures status == 403 <==> status != 404 && old(servers)[id].owner != requester
      ensures status in {204, 403, 404}
      ensures status != 204 ==> servers == old(servers)
      ensures status == 204 ==> id in old(servers) && servers == old(servers)[id := old(servers)[id].(deleted := true)]
    {
      if !Exists(State(), id) {
        return 404;
      }
      if servers[id].owner != requester {
        return 403;
      }
      servers := servers[id := servers[id].(deleted := true)];
      return 204;
    }

    /** A violated unique constraint on (server, name) is an error no handler maps, so a 500. */
    method CreateRole(server: ServerId, name: string, permissions: set<Permission>, role: RoleId) returns (status: int)
      requires role !in roles
      modifies this`roles
      ensures State() == Do(old(State()), Op.CreateRole(server, name, permissions, role))
      ensures status == 400 <==> (forall c <- name :: c <= ' ') || permissions == {}
      ensures status == 404 <==> status != 400 && (server !in servers || servers[server].deleted)
      ensures status == 500 <==> status !in {400, 404} && exists r <- old(roles).Values :: r.server == server && r.name == name
      ensures status in {201, 400, 404, 500}
      ensures roles == if status == 201 then old(roles)[role := Role(server, name, permissions)] else old(roles)
    {
      if Blank(name) || permissions == {} {
        return 400;
      }
      if !Exists(State(), server) {
        return 404;
      }
      if NameTaken(State(), server, name) {
        return 500;
      }
      roles := roles[role := Role(server, name, permissions)];
      return 201;
    }

    method AssignRole(server: ServerId, target: User, role: RoleId, requester: User) returns (status: int)
      modifies this`grants
      ensures State() == Do(old(State()), Op.AssignRole(server, target, role, requester))
      ensures status == 404 <==> server !in servers || servers[server].deleted || Member(server, target) !in members || role !in roles
      ensures status == 400 <==> status != 404 && roles[role].server != server
      ensures status == 403 <==>
        status !in {400, 404} && servers[server].owner != requester && Manage !in Permissions(old(State()), server, requester)
      ensures status in {200, 400, 403, 404}
      ensures grants == if status == 200 then old(grants) + {Assignment(server, target, role)} else old(grants)
      ensures status == 200 ==> roles[role].permissions <= Permissions(State(), server, target)
    {
      if !Exists(State(), server) || !IsMember(State(), server, target) || role !in roles {
        return 404;
      }
      if roles[role].server != server {
        return 400;
      }
      if !MayAssign(State(), server, requester) {
        return 403;
      }
      grants := grants + {Assignment(server, target, role)};
      OfRole(State(), server, target, role);
      return 200;
    }

    method JoinServer(server: ServerId, user: User) returns (status: int)
      requires Ok(State())
      modifies this`members, this`grants
      ensures Ok(State()) && State() == Do(old(State()), Join(server, user))
      ensures status == 404 <==> server !in servers || servers[server].deleted
      ensures status == 409 <==> status != 404 && Member(server, user) in old(members)
      ensures status in {200, 404, 409}
      ensures members == if status == 200 then old(members) + {Member(server, user)} else old(members)
      ensures status != 200 ==> grants == old(grants)
      ensures status == 200 ==> forall a :: a in grants <==>
        a in old(grants) || (a == Assignment(server, user, a.role) && IsEveryone(roles, server, a.role))
      ensures status == 200 ==> {Read, Write, VoiceJoin} <= Permissions(State(), server, user)
    {
      hide Ok, Permissions, EveryoneRows;
      ghost var before := State();
      DoKeeps(before, Join(server, user));
      Joined(before, server, user);
      if !Exists(State(), server) {
        return 404;
      }
      if IsMember(State(), server, user) {
        return 409;
      }
      members := members + {Member(server, user)};
      SameEveryoneRows(before, State(), server, user);
      InEveryoneRows(State(), server, user);
      grants := grants + EveryoneRows(State(), server, user);
      assert Enabled(before, Join(server, user)) && State() == Do(before, Join(server, user));
      return 200;
    }

    method LeaveServer(server: ServerId, user: User) returns (status: int)
      requires Ok(State())
      modifies this`members, this`grants
      ensures Ok(State()) && State() == Do(old(State()), Leave(server, user))
      ensures status == 400 <==> server in servers && !servers[server].deleted && servers[server].owner == user
      ensures status == 404 <==> status != 400 && (server !in servers || servers[server].deleted || Member(server, user) !in old(members))
      ensures status in {204, 400, 404}
      ensures status != 204 ==> State() == old(State())
      ensures status == 204 ==>
        && members == old(members) - {Member(server, user)}
        && (forall a :: a in grants <==> a in old(grants) && !(a.server == server && a.user == user))
        && Permissions(State(), server, user) == {}
    {
      hide Ok, Permissions;
      DoKeeps(State(), Leave(server, user));
      Left(State(), server, user);
      if !Exists(State(), server) {
        return 404;
      }
      if servers[server].owner == user {
        return 400;
      }
      if !IsMember(State(), server, user) {
        return 404;
      }
      members := members - {Member(server, user)};
      grants := set a | a in grants && !(a.server == server && a.user == user);
      return 204;
    }
  }
}
