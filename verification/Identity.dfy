/** The cache in front of the identity provider: filled by reads, dropped by writes. */
module Identity {
  import opened Wrappers

  // ---- the provider ----

  /** A user of the provider; its primary key is its position. `groups` are group keys. */
  datatype RawUser = RawUser(
    uuid: string, username: string, email: string, active: bool, joined: Option<int>,
    path: string, purepixelId: Option<string>, groups: seq<nat>)

  /** Groups by key: their names. */
  datatype Backend = Backend(users: seq<RawUser>, groups: seq<string>)

  datatype IdentityUser = IdentityUser(
    id: string, username: string, email: string, enabled: bool, createdTimestamp: Option<int>)

  datatype Role = Role(id: nat, name: string)

  const PATH_PREFIX: string := "purepixel"
  const USER_PATH: string := "purepixel/users"
  const ROLE_PREFIX: string := "purepixel:"

  predicate StartsWith(s: string, p: string) {
    |p| <= |s| && s[..|p|] == p
  }

  function ToPurePixelId(u: RawUser): string {
    if u.purepixelId.Some? && |u.purepixelId.value| > 0 then u.purepixelId.value else u.uuid
  }

  function ToIdentityUser(u: RawUser): IdentityUser {
    IdentityUser(ToPurePixelId(u), u.username, u.email, u.active, u.joined)
  }

  predicate IsRoleGroup(b: Backend, g: nat) {
    g < |b.groups| && StartsWith(b.groups[g], ROLE_PREFIX)
  }

  /** The role groups among these groups, in order. */
  function ToRoles(b: Backend, groups: seq<nat>): seq<Role> {
    if groups == [] then []
    else
      (if IsRoleGroup(b, groups[0]) then [Role(groups[0], b.groups[groups[0]][|ROLE_PREFIX|..])] else [])
      + ToRoles(b, groups[1..])
  }

  /** First position from `from` on whose user passes the test. */
  function FirstUser(users: seq<RawUser>, test: RawUser -> bool, from: nat): (r: Option<nat>)
    ensures r.Some? ==> from <= r.value < |users| && test(users[r.value])
    decreases |users| - from
  {
    if from >= |users| then None
    else if test(users[from]) then Some(from)
    else FirstUser(users, test, from + 1)
  }

  function HasAttribute(id: string): RawUser -> bool {
    (u: RawUser) => u.purepixelId == Some(id)
  }

  function HasUuid(id: string): RawUser -> bool {
    (u: RawUser) => u.uuid == id
  }

  /** By the migrated id first, then by the provider's own. */
  function FindRawUser(b: Backend, id: string): (r: Option<nat>)
    ensures r.Some? ==> r.value < |b.users|
  {
    var byAttribute := FirstUser(b.users, HasAttribute(id), 0);
    if byAttribute.Some? then byAttribute else FirstUser(b.users, HasUuid(id), 0)
  }

  function FindGroup(groups: seq<string>, name: string, from: nat): (r: Option<nat>)
    ensures r.Some? ==> from <= r.value < |groups| && groups[r.value] == name
    decreases |groups| - from
  {
    if from >= |groups| then None
    else if groups[from] == name then Some(from)
    else FindGroup(groups, name, from + 1)
  }

  function Selected(b: Backend, users: seq<RawUser>, test: (Backend, RawUser) -> bool): seq<IdentityUser> {
    if users == [] then []
    else (if test(b, users[0]) then [ToIdentityUser(users[0])] else []) + Selected(b, users[1..], test)
  }

  function InGroup(name: string): (Backend, RawUser) -> bool {
    (b: Backend, u: RawUser) => exists g :: g in u.groups && g < |b.groups| && b.groups[g] == name
  }

  function InPath(prefix: string): (Backend, RawUser) -> bool {
    (b: Backend, u: RawUser) => StartsWith(u.path, prefix)
  }

  function Index(i: int, n: nat): (r: nat)
    ensures r <= n
  {
    if i < 0 then (if n + i < 0 then 0 else n + i) else if i > n then n else i
  }

  function JsSlice<T>(items: seq<T>, from: int, to: int): seq<T> {
    var x, y := Index(from, |items|), Index(to, |items|);
    if x <= y then items[x..y] else []
  }

  function Slice<T>(items: seq<T>, skip: int, take: int): seq<T> {
    if take == -1 then JsSlice(items, skip, |items|) else JsSlice(items, skip, skip + take)
  }

  // ---- what the uncached provider answers ----

  datatype Key =
    | FindFirst(id: string)
    | GetUserRoles(user: string)
    | GetRole(role: string)
    | FindUsersHasRole(name: string, skip: int, take: int)
    | FindUsers(skip: int, take: int)
    | Foreign(key: string)

  datatype Value =
    | User(user: IdentityUser)
    | Roles(roles: seq<Role>)
    | OneRole(role: Role)
    | Users(users: seq<IdentityUser>)
    | ForeignValue

  /** None where the service answers without caching, or throws. */
  function Uncached(b: Backend, k: Key): Option<Value> {
    match k
    case FindFirst(id) =>
      (match FindRawUser(b, id) case None => None case Some(u) => Some(User(ToIdentityUser(b.users[u]))))
    case GetUserRoles(id) =>
      (match FindRawUser(b, id) case None => None case Some(u) => Some(Roles(ToRoles(b, b.users[u].groups))))
    case GetRole(name) =>
      (match FindGroup(b.groups, ROLE_PREFIX + name, 0)
       case None => None
       case Some(g) => Some(OneRole(Role(g, name))))
    case FindUsersHasRole(name, skip, take) =>
      Some(Users(Slice(Selected(b, b.users, InGroup(ROLE_PREFIX + name)), skip, take)))
    case FindUsers(skip, take) => Some(Users(Slice(Selected(b, b.users, InPath(PATH_PREFIX)), skip, take)))
    case Foreign(_) => None
  }

  datatype State = State(backend: Backend, cache: map<Key, Value>)

  /** Every cached entry of the service equals what the provider would answer now. */
  ghost predicate Transparent(s: State) {
    forall k | k in s.cache && !k.Foreign? :: Uncached(s.backend, k) == Some(s.cache[k])
  }

  // ---- reads ----

  function Read(s: State, k: Key): (State, Option<Value>) {
    if k in s.cache then (s, Some(s.cache[k]))
    else
      match Uncached(s.backend, k)
      case None => (s, None)
      case Some(v) => (s.(cache := s.cache[k := v]), Some(v))
  }

  /** A cached read answers what the provider would answer, and keeps the cache transparent. */
  lemma ReadsAreTransparent(s: State, k: Key)
    requires Transparent(s) && !k.Foreign?
    ensures Transparent(Read(s, k).0) && Read(s, k).0.backend == s.backend
    ensures Read(s, k).1 == Uncached(s.backend, k)
  {
  }

  // ---- writes ----

  datatype Error = UserNotFound | NotPurePixel | RoleNotFound | SameEmail | SameUsername

  function ClearCache(s: State): State {
    s.(cache := map k | k in s.cache && k.Foreign? :: s.cache[k])
  }

  function WithUser(s: State, pk: nat, u: RawUser): State
    requires pk < |s.backend.users|
  {
    s.(backend := s.backend.(users := s.backend.users[pk := u]))
  }

  function LoadPurePixelUser(b: Backend, id: string): (r: Result<nat, Error>)
    ensures r.Ok? ==> r.value < |b.users|
  {
    match FindRawUser(b, id)
    case None => Err(UserNotFound)
    case Some(u) => if StartsWith(b.users[u].path, PATH_PREFIX) then Ok(u) else Err(NotPurePixel)
  }

  function AddGroup(groups: seq<nat>, g: nat): seq<nat> {
    if g in groups then groups else groups + [g]
  }

  function RemoveGroup(groups: seq<nat>, g: nat): seq<nat> {
    if groups == [] then []
    else (if groups[0] == g then [] else [groups[0]]) + RemoveGroup(groups[1..], g)
  }

  function RemoveRoles(groups: seq<nat>, roles: seq<Role>): seq<nat>
    decreases |roles|
  {
    if roles == [] then groups else RemoveRoles(RemoveGroup(groups, roles[0].id), roles[1..])
  }

  /** The role is read through the cache, like any other read. */
  function ChangeRole(s: State, id: string, role: string, add: bool): (State, Option<Error>) {
    match LoadPurePixelUser(s.backend, id)
    case Err(e) => (s, Some(e))
    case Ok(pk) =>
      var read := Read(s, GetRole(role));
      if read.1.None? || !read.1.value.OneRole? then (read.0, Some(RoleNotFound))
      else if pk >= |read.0.backend.users| then (read.0, Some(UserNotFound))
      else
        var u := read.0.backend.users[pk];
        var g := read.1.value.role.id;
        var groups := if add then AddGroup(u.groups, g) else RemoveGroup(u.groups, g);
        (ClearCache(WithUser(read.0, pk, u.(groups := groups))), None)
  }

  function RolesDeleted(s: State, id: string): (State, Option<Error>) {
    match LoadPurePixelUser(s.backend, id)
    case Err(e) => (s, Some(e))
    case Ok(pk) =>
      var u := s.backend.users[pk];
      var groups := RemoveRoles(u.groups, ToRoles(s.backend, u.groups));
      (ClearCache(WithUser(s, pk, u.(groups := groups))), None)
  }

  function HasEmail(email: string): RawUser -> bool {
    (u: RawUser) => u.email == email
  }

  function HasUsername(username: string): RawUser -> bool {
    (u: RawUser) => u.username == username
  }

  function NewUser(s: State, username: string, email: string, id: string, uuid: string, joined: Option<int>): State {
    s.(backend := s.backend.(users := s.backend.users
         + [RawUser(uuid, username, email, true, joined, USER_PATH, Some(id), [])]))
  }

  /** Adding the first role of a user just created, and dropping the cache if that succeeds. */
  function FinishCreate(s: State, role: string): (State, Option<Error>)
    requires s.backend.users != []
  {
    var created := s.backend.users[|s.backend.users| - 1];
    var added := ChangeRole(s, ToPurePixelId(created), role, true);
    if added.1.Some? then added else (ClearCache(added.0), None)
  }

  /** `id` and `uuid` are the identifiers drawn for the new user. */
  function Create(
    s: State, username: string, email: string, role: string, id: string, uuid: string, joined: Option<int>)
    : (State, Option<Error>)
  {
    if FirstUser(s.backend.users, HasEmail(email), 0).Some? then (s, Some(SameEmail))
    else if FirstUser(s.backend.users, HasUsername(username), 0).Some? then (s, Some(SameUsername))
    else FinishCreate(NewUser(s, username, email, id, uuid, joined), role)
  }

  function Upsert(
    s: State, username: string, email: string, role: string, id: string, uuid: string, joined: Option<int>)
    : (State, Option<Error>)
  {
    if FirstUser(s.backend.users, HasUsername(username), 0).Some? then (s, None)
    else FinishCreate(NewUser(s, username, email, id, uuid, joined), role)
  }

  predicate EmailTaken(users: seq<RawUser>, pk: nat, email: string) {
    exists i :: 0 <= i < |users| && i != pk && users[i].email == email
  }

  function Patched(u: RawUser, mail: Option<string>, enabled: Option<bool>): RawUser {
    u.(email := if mail.Some? then mail.value else u.email,
       active := if enabled.Some? then enabled.value else u.active)
  }

  function Updated(
    s: State, id: string, mail: Option<string>, role: Option<string>, enabled: Option<bool>)
    : (State, Option<Error>)
  {
    match LoadPurePixelUser(s.backend, id)
    case Err(e) => (s, Some(e))
    case Ok(pk) =>
      if mail.Some? && mail.value != "" && EmailTaken(s.backend.users, pk, mail.value) then (s, Some(SameEmail))
      else
        var patched := WithUser(s, pk, Patched(s.backend.users[pk], mail, enabled));
        if role.None? || role.value == "" then (ClearCache(patched), None)
        else
          var removed := RolesDeleted(patched, id);
          if removed.1.Some? then removed
          else
            var added := ChangeRole(removed.0, id, role.value, true);
            if added.1.Some? then added else (ClearCache(added.0), None)
  }

  function SetActive(s: State, id: string, active: bool): (State, Option<Error>) {
    match LoadPurePixelUser(s.backend, id)
    case Err(e) => (s, Some(e))
    case Ok(pk) => (ClearCache(WithUser(s, pk, s.backend.users[pk].(active := active))), None)
  }

  datatype Event =
    | EvRead(k: Key)
    | EvEvict(k: Key)
    | EvAddRole(id: string, role: string)
    | EvDeleteRole(id: string, role: string)
    | EvDeleteRoles(id: string)
    | EvCreate(username: string, email: string, role: string, id: string, uuid: string, joined: Option<int>)
    | EvUpsert(username: string, email: string, role: string, id: string, uuid: string, joined: Option<int>)
    | EvUpdate(id: string, mail: Option<string>, newRole: Option<string>, enabled: Option<bool>)
    | EvDisable(id: string)
    | EvEnable(id: string)

  function Step(s: State, e: Event): (State, Option<Error>) {
    match e
    case EvRead(k) => if k.Foreign? then (s, None) else (Read(s, k).0, None)
    case EvEvict(k) => (s.(cache := s.cache - {k}), None)
    case EvAddRole(id, role) => ChangeRole(s, id, role, true)
    case EvDeleteRole(id, role) => ChangeRole(s, id, role, false)
    case EvDeleteRoles(id) => RolesDeleted(s, id)
    case EvCreate(username, email, role, id, uuid, joined) => Create(s, username, email, role, id, uuid, joined)
    case EvUpsert(username, email, role, id, uuid, joined) => Upsert(s, username, email, role, id, uuid, joined)
    case EvUpdate(id, mail, role, enabled) => Updated(s, id, mail, role, enabled)
    case EvDisable(id) => SetActive(s, id, false)
    case EvEnable(id) => SetActive(s, id, true)
  }

  lemma ChangeRoleTransparent(s: State, id: string, role: string, add: bool)
    requires Transparent(s)
    ensures Transparent(ChangeRole(s, id, role, add).0)
  {
    ReadsAreTransparent(s, GetRole(role));
  }

  // ---- creations that fail halfway ----

  predicate NamesFree(users: seq<RawUser>, e: Event)
    requires e.EvCreate? || e.EvUpsert?
  {
    (e.EvCreate? ==> FirstUser(users, HasEmail(e.email), 0).None?)
    && FirstUser(users, HasUsername(e.username), 0).None?
  }

  function Created(e: Event): RawUser
    requires e.EvCreate? || e.EvUpsert?
  {
    RawUser(e.uuid, e.username, e.email, true, e.joined, USER_PATH, Some(e.id), [])
  }

  function WithCreated(b: Backend, e: Event): Backend
    requires e.EvCreate? || e.EvUpsert?
  {
    b.(users := b.users + [Created(e)])
  }

  predicate RoleExists(b: Backend, role: string) {
    FindGroup(b.groups, ROLE_PREFIX + role, 0).Some?
  }

  /** A creation that the provider takes, but whose role it does not have, or whose id leads to a
      user outside the service's path. */
  predicate FailsHalfway(b: Backend, e: Event) {
    (e.EvCreate? || e.EvUpsert?) && NamesFree(b.users, e)
    && (!RoleExists(b, e.role) || LoadPurePixelUser(WithCreated(b, e), ToPurePixelId(Created(e))).Err?)
  }

  /** Whether the role can be read, through the cache or not, once the new user is there. */
  lemma RoleReadable(s: State, t: State, role: string)
    requires Transparent(s) && t.cache == s.cache && t.backend.groups == s.backend.groups
    ensures var read := Read(t, GetRole(role));
      && (RoleExists(s.backend, role) <==> read.1.Some? && read.1.value.OneRole?)
      && (!RoleExists(s.backend, role) ==> read == (t, None))
      && read.0.backend == t.backend
  {
    var k := GetRole(role);
    assert k in s.cache ==> Uncached(s.backend, k) == Some(s.cache[k]);
  }

  /** Such a creation is refused, leaves the new user at the provider, and drops no cache entry. */
  lemma HalfwayStep(s: State, e: Event)
    requires Transparent(s) && FailsHalfway(s.backend, e)
    ensures Step(s, e).1.Some? && Step(s, e).0 == s.(backend := WithCreated(s.backend, e))
  {
    var created := NewUser(s, e.username, e.email, e.id, e.uuid, e.joined);
    assert created.backend.users[|s.backend.users|] == Created(e);
    RoleReadable(s, created, e.role);
  }

  /** Once the role is added the cache is dropped. */
  lemma FinishedTransparent(s: State, t: State, role: string)
    requires Transparent(s) && t.cache == s.cache && t.backend.groups == s.backend.groups
    requires t.backend.users != [] && RoleExists(s.backend, role)
    requires LoadPurePixelUser(t.backend, ToPurePixelId(t.backend.users[|t.backend.users| - 1])).Ok?
    ensures FinishCreate(t, role).1.None? && Transparent(FinishCreate(t, role).0)
  {
    RoleReadable(s, t, role);
  }

  /** Every other creation drops the cache or changes nothing. */
  lemma OtherCreationsTransparent(s: State, e: Event)
    requires Transparent(s) && !FailsHalfway(s.backend, e) && (e.EvCreate? || e.EvUpsert?)
    ensures Transparent(Step(s, e).0)
    ensures Step(s, e).1.Some? ==> Step(s, e).0 == s
  {
    if NamesFree(s.backend.users, e) {
      var created := NewUser(s, e.username, e.email, e.id, e.uuid, e.joined);
      assert created.backend == WithCreated(s.backend, e);
      FinishedTransparent(s, created, e.role);
    }
  }

  /** What makes a creation fail halfway can be told before the call: it is refused and yet leaves the
      provider changed exactly then. */
  lemma FailsHalfwayExactly(s: State, e: Event)
    requires Transparent(s) && (e.EvCreate? || e.EvUpsert?)
    ensures FailsHalfway(s.backend, e) <==> Step(s, e).1.Some? && Step(s, e).0.backend != s.backend
  {
    if FailsHalfway(s.backend, e) {
      HalfwayStep(s, e);
      assert |WithCreated(s.backend, e).users| == |s.backend.users| + 1;
    } else {
      OtherCreationsTransparent(s, e);
    }
  }

  /** The cached lists of users are those that the new user does not show up in. */
  ghost predicate ListsUnchanged(s: State, e: Event)
    requires e.EvCreate? || e.EvUpsert?
  {
    var listed := Selected(s.backend, s.backend.users, InPath(PATH_PREFIX));
    forall skip, take | FindUsers(skip, take) in s.cache ::
      Slice(listed + [ToIdentityUser(Created(e))], skip, take) == Slice(listed, skip, take)
  }

  /** The new id is not cached for a user who has it as the provider's own id, or tells nothing else. */
  predicate IdUnchanged(s: State, e: Event)
    requires e.EvCreate? || e.EvUpsert?
  {
    FirstUser(s.backend.users, HasAttribute(e.id), 0).Some?
    || ((FindFirst(e.id) in s.cache ==> s.cache[FindFirst(e.id)] == User(ToIdentityUser(Created(e))))
        && (GetUserRoles(e.id) in s.cache ==> s.cache[GetUserRoles(e.id)] == Roles([])))
  }

  lemma {:induction false} FirstUserAppend(users: seq<RawUser>, u: RawUser, test: RawUser -> bool, from: nat)
    requires from <= |users|
    ensures FirstUser(users + [u], test, from)
         == if FirstUser(users, test, from).Some? then FirstUser(users, test, from)
            else if test(u) then Some(|users|) else None
    decreases |users| - from
  {
    if from == |users| {
      assert (users + [u])[from] == u;
    } else {
      FirstUserAppend(users, u, test, from + 1);
    }
  }

  lemma {:induction false} SelectedAppend(
    b: Backend, users: seq<RawUser>, u: RawUser, test: (Backend, RawUser) -> bool)
    ensures Selected(b, users + [u], test)
         == Selected(b, users, test) + if test(b, u) then [ToIdentityUser(u)] else []
  {
    if users == [] {
      assert (users + [u])[1..] == [];
    } else {
      assert (users + [u])[1..] == users[1..] + [u];
      SelectedAppend(b, users[1..], u, test);
    }
  }

  lemma {:induction false} SelectedByGroups(
    b: Backend, c: Backend, users: seq<RawUser>, test: (Backend, RawUser) -> bool)
    requires forall u :: test(b, u) == test(c, u)
    ensures Selected(b, users, test) == Selected(c, users, test)
  {
    if users == [] {
    } else {
      SelectedByGroups(b, c, users[1..], test);
    }
  }

  lemma ListAfter(b: Backend, e: Event, test: (Backend, RawUser) -> bool)
    requires e.EvCreate? || e.EvUpsert?
    requires forall u :: test(b, u) == test(WithCreated(b, e), u)
    ensures Selected(WithCreated(b, e), WithCreated(b, e).users, test)
         == Selected(b, b.users, test) + if test(b, Created(e)) then [ToIdentityUser(Created(e))] else []
  {
    var c := WithCreated(b, e);
    SelectedByGroups(b, c, c.users, test);
    SelectedAppend(b, b.users, Created(e), test);
  }

  /** Roles depend only on the group names. */
  lemma {:induction false} SameRoles(b: Backend, c: Backend, groups: seq<nat>)
    requires b.groups == c.groups
    ensures ToRoles(b, groups) == ToRoles(c, groups)
  {
    if groups == [] {
    } else {
      SameRoles(b, c, groups[1..]);
    }
  }

  /** Whom an id leads to once the new user is there. */
  lemma LookupAfter(b: Backend, e: Event, id: string)
    requires e.EvCreate? || e.EvUpsert?
    ensures var before, after := FindRawUser(b, id), FindRawUser(WithCreated(b, e), id);
      && (before.Some? && (id != e.id || FirstUser(b.users, HasAttribute(id), 0).Some?) ==> after == before)
      && (id == e.id && FirstUser(b.users, HasAttribute(id), 0).None? ==> after == Some(|b.users|))
  {
    FirstUserAppend(b.users, Created(e), HasAttribute(id), 0);
    FirstUserAppend(b.users, Created(e), HasUuid(id), 0);
  }

  /** Which cached answers of the provider a creation that drops none of them changes. */
  lemma AnswerAfter(b: Backend, e: Event, k: Key)
    requires (e.EvCreate? || e.EvUpsert?) && Uncached(b, k).Some?
    ensures var after := Uncached(WithCreated(b, e), k);
      var listed := Selected(b, b.users, InPath(PATH_PREFIX));
      match k
      case FindUsers(skip, take) =>
        after == Some(Users(Slice(listed + [ToIdentityUser(Created(e))], skip, take)))
      case FindFirst(id) =>
        if id == e.id && FirstUser(b.users, HasAttribute(id), 0).None?
        then after == Some(User(ToIdentityUser(Created(e)))) else after == Uncached(b, k)
      case GetUserRoles(id) =>
        if id == e.id && FirstUser(b.users, HasAttribute(id), 0).None?
        then after == Some(Roles([])) else after == Uncached(b, k)
      case _ => after == Uncached(b, k)
  {
    var c := WithCreated(b, e);
    match k
    case FindFirst(id) => LookupAfter(b, e, id);
    case GetUserRoles(id) =>
      LookupAfter(b, e, id);
      var u := FindRawUser(b, id).value;
      SameRoles(b, c, b.users[u].groups);
    case FindUsersHasRole(name, skip, take) =>
      var test := InGroup(ROLE_PREFIX + name);
      ListAfter(b, e, test);
      assert !test(b, Created(e)) && Selected(c, c.users, test) == Selected(b, b.users, test);
    case FindUsers(skip, take) =>
      assert USER_PATH[..|PATH_PREFIX|] == PATH_PREFIX;
      ListAfter(b, e, InPath(PATH_PREFIX));
    case _ =>
  }

  /** A creation that fails halfway leaves the cache true to the provider if and only if no cached
      list changes with the new user, and the new id does not take over one that is cached. */
  lemma HalfwayTransparentExactly(s: State, e: Event)
    requires Transparent(s) && FailsHalfway(s.backend, e)
    ensures Transparent(Step(s, e).0) <==> ListsUnchanged(s, e) && IdUnchanged(s, e)
  {
    var t := s.(backend := WithCreated(s.backend, e));
    HalfwayStep(s, e);
    forall k | k in s.cache && !k.Foreign? ensures Uncached(s.backend, k) == Some(s.cache[k]) { }
    if ListsUnchanged(s, e) && IdUnchanged(s, e) {
      forall k | k in t.cache && !k.Foreign? ensures Uncached(t.backend, k) == Some(t.cache[k]) {
        AnswerAfter(s.backend, e, k);
      }
    } else if !IdUnchanged(s, e) {
      if FindFirst(e.id) in s.cache { AnswerAfter(s.backend, e, FindFirst(e.id)); }
      if GetUserRoles(e.id) in s.cache { AnswerAfter(s.backend, e, GetUserRoles(e.id)); }
    } else {
      var listed := Selected(s.backend, s.backend.users, InPath(PATH_PREFIX));
      var skip, take :| FindUsers(skip, take) in s.cache
        && Slice(listed + [ToIdentityUser(Created(e))], skip, take) != Slice(listed, skip, take);
      AnswerAfter(s.backend, e, FindUsers(skip, take));
    }
  }

  /** For the pages that are asked for, those lists change that the end of the list falls in. */
  lemma PageChangesExactly<T>(items: seq<T>, x: T, skip: nat, take: int)
    requires take >= -1
    ensures Slice(items + [x], skip, take) != Slice(items, skip, take)
       <==> skip <= |items| && (take == -1 || |items| < skip + take)
  {
    var longer := items + [x];
    var to := if take == -1 then |items| else if skip + take < |items| then skip + take else |items|;
    if skip <= |items| && (take == -1 || |items| < skip + take) {
      assert |Slice(longer, skip, take)| == |items| + 1 - skip;
    } else if skip <= to {
      assert longer[skip..to] == items[skip..to];
    }
  }

  /** Every call, successful or refused, keeps the cache true to the provider, except exactly a
      creation that fails halfway and shows in what is cached. */
  lemma StepTransparentExactly(s: State, e: Event)
    requires Transparent(s)
    ensures Transparent(Step(s, e).0)
       <==> (FailsHalfway(s.backend, e) ==> ListsUnchanged(s, e) && IdUnchanged(s, e))
  {
    if FailsHalfway(s.backend, e) {
      HalfwayTransparentExactly(s, e);
    } else {
      OtherStepsTransparent(s, e);
    }
  }

  lemma OtherStepsTransparent(s: State, e: Event)
    requires Transparent(s) && !FailsHalfway(s.backend, e)
    ensures Transparent(Step(s, e).0)
  {
    match e
    case EvRead(k) => if !k.Foreign? { ReadsAreTransparent(s, k); }
    case EvEvict(k) =>
    case EvAddRole(id, role) => ChangeRoleTransparent(s, id, role, true);
    case EvDeleteRole(id, role) => ChangeRoleTransparent(s, id, role, false);
    case EvDeleteRoles(id) =>
    case EvCreate(username, email, role, id, uuid, joined) => OtherCreationsTransparent(s, e);
    case EvUpsert(username, email, role, id, uuid, joined) => OtherCreationsTransparent(s, e);
    case EvUpdate(id, mail, role, enabled) => UpdateTransparent(s, id, mail, role, enabled);
    case EvDisable(id) =>
    case EvEnable(id) =>
  }

  lemma UpdateTransparent(s: State, id: string, mail: Option<string>, role: Option<string>, enabled: Option<bool>)
    requires Transparent(s)
    ensures Transparent(Updated(s, id, mail, role, enabled).0)
  {
    var loaded := LoadPurePixelUser(s.backend, id);
    if loaded.Ok? {
      var patched := WithUser(s, loaded.value, Patched(s.backend.users[loaded.value], mail, enabled));
      SameLookup(s.backend, patched.backend, id);
      var removed := RolesDeleted(patched, id);
      if removed.1.None? && role.Some? {
        ChangeRoleTransparent(removed.0, id, role.value, true);
      }
    }
  }

  /** Backends whose users are found under the same ids. */
  predicate SameIdentities(b: Backend, c: Backend) {
    |b.users| == |c.users| && b.groups == c.groups
    && forall i :: 0 <= i < |b.users| ==>
         b.users[i].uuid == c.users[i].uuid && b.users[i].purepixelId == c.users[i].purepixelId
         && b.users[i].path == c.users[i].path
  }

  lemma {:induction false} SameFirst(users: seq<RawUser>, others: seq<RawUser>, test: RawUser -> bool, from: nat)
    requires |users| == |others| && forall i :: 0 <= i < |users| ==> test(users[i]) == test(others[i])
    ensures FirstUser(users, test, from) == FirstUser(others, test, from)
    decreases |users| - from
  {
    if from >= |users| {
    } else {
      SameFirst(users, others, test, from + 1);
    }
  }

  lemma SameLookup(b: Backend, c: Backend, id: string)
    requires SameIdentities(b, c)
    ensures FindRawUser(b, id) == FindRawUser(c, id) && LoadPurePixelUser(b, id) == LoadPurePixelUser(c, id)
  {
    SameFirst(b.users, c.users, HasAttribute(id), 0);
    SameFirst(b.users, c.users, HasUuid(id), 0);
  }

  /** No creation in the sequence fails halfway and shows in what is cached. */
  ghost predicate Smooth(s: State, events: seq<Event>)
    decreases |events|
  {
    events == []
    || ((FailsHalfway(s.backend, events[0]) ==> ListsUnchanged(s, events[0]) && IdUnchanged(s, events[0]))
        && Smooth(Step(s, events[0]).0, events[1..]))
  }

  function Run(s: State, events: seq<Event>): State
    decreases |events|
  {
    if events == [] then s else Run(Step(s, events[0]).0, events[1..])
  }

  /** Every cached entry is true to the provider after each call of a sequence. */
  ghost predicate AlwaysTransparent(s: State, events: seq<Event>)
    decreases |events|
  {
    Transparent(s) && (events == [] || AlwaysTransparent(Step(s, events[0]).0, events[1..]))
  }

  /** Over a sequence of calls and evictions the cache stays true to the provider throughout if and
      only if no creation in it fails halfway and shows in what is cached. */
  lemma {:induction false} CacheIsTransparentExactly(s: State, events: seq<Event>)
    requires Transparent(s)
    ensures AlwaysTransparent(s, events) <==> Smooth(s, events)
    decreases |events|
  {
    if events == [] {
    } else {
      StepTransparentExactly(s, events[0]);
      if Transparent(Step(s, events[0]).0) {
        CacheIsTransparentExactly(Step(s, events[0]).0, events[1..]);
      }
    }
  }

  /** A creation for a role that does not exist leaves a new user behind a list cached before. */
  lemma HalfwayCreationGoesStale()
    ensures var s := State(Backend([], []), map[FindUsers(0, 10) := Users([])]);
      var e := EvCreate("an", "an@mail", "customer", "1", "2", None);
      Transparent(s) && FailsHalfway(s.backend, e) && !Transparent(Step(s, e).0)
  {
    var s := State(Backend([], []), map[FindUsers(0, 10) := Users([])]);
    var e := EvCreate("an", "an@mail", "customer", "1", "2", None);
    assert Selected(s.backend, s.backend.users, InPath(PATH_PREFIX)) == [];
    PageChangesExactly([], ToIdentityUser(Created(e)), 0, 10);
    HalfwayTransparentExactly(s, e);
  }

  // ---- an update with a role leaves exactly that role ----

  lemma {:induction false} RolesOfConcat(b: Backend, g: seq<nat>, h: seq<nat>)
    ensures ToRoles(b, g + h) == ToRoles(b, g) + ToRoles(b, h)
  {
    if g == [] {
      assert g + h == h;
    } else {
      assert (g + h)[1..] == g[1..] + h;
      RolesOfConcat(b, g[1..], h);
    }
  }

  lemma {:induction false} RemoveGroupMembers(groups: seq<nat>, g: nat)
    ensures forall x :: x in RemoveGroup(groups, g) <==> x in groups && x != g
  {
    if groups == [] {
    } else {
      RemoveGroupMembers(groups[1..], g);
    }
  }

  lemma {:induction false} RemoveRolesMembers(groups: seq<nat>, roles: seq<Role>)
    ensures forall x :: x in RemoveRoles(groups, roles) <==>
      x in groups && forall r :: r in roles ==> r.id != x
    decreases |roles|
  {
    if roles == [] {
    } else {
      RemoveGroupMembers(groups, roles[0].id);
      RemoveRolesMembers(RemoveGroup(groups, roles[0].id), roles[1..]);
      assert roles == [roles[0]] + roles[1..];
    }
  }

  lemma {:induction false} RoleOfEveryRoleGroup(b: Backend, groups: seq<nat>)
    ensures forall g :: g in groups && IsRoleGroup(b, g) ==> exists r :: r in ToRoles(b, groups) && r.id == g
    ensures forall r :: r in ToRoles(b, groups) ==> r.id in groups && IsRoleGroup(b, r.id)
  {
    if groups == [] {
    } else {
      RoleOfEveryRoleGroup(b, groups[1..]);
      var tail := ToRoles(b, groups[1..]);
      var all := ToRoles(b, groups);
      forall g | g in groups && IsRoleGroup(b, g) ensures exists r :: r in all && r.id == g {
        if g == groups[0] {
          assert all[0].id == g && all[0] in all;
        } else {
          assert g in groups[1..];
          var r :| r in tail && r.id == g;
          assert r in all;
        }
      }
    }
  }

  lemma {:induction false} NoRoleGroupsNoRoles(b: Backend, groups: seq<nat>)
    requires forall g :: g in groups ==> !IsRoleGroup(b, g)
    ensures ToRoles(b, groups) == []
  {
    if groups == [] {
    } else {
      assert groups[0] in groups;
      NoRoleGroupsNoRoles(b, groups[1..]);
    }
  }

  /** Removing the roles of a user leaves none, and every group that is not a role. */
  lemma RolesRemoved(b: Backend, groups: seq<nat>)
    ensures ToRoles(b, RemoveRoles(groups, ToRoles(b, groups))) == []
    ensures forall g :: !IsRoleGroup(b, g) ==>
      (g in RemoveRoles(groups, ToRoles(b, groups)) <==> g in groups)
  {
    var left := RemoveRoles(groups, ToRoles(b, groups));
    RemoveRolesMembers(groups, ToRoles(b, groups));
    RoleOfEveryRoleGroup(b, groups);
    forall g | g in left ensures !IsRoleGroup(b, g) { }
    NoRoleGroupsNoRoles(b, left);
  }

  lemma OneRoleAdded(b: Backend, groups: seq<nat>, g: nat, role: string)
    requires ToRoles(b, groups) == [] && FindGroup(b.groups, ROLE_PREFIX + role, 0) == Some(g)
    ensures ToRoles(b, AddGroup(groups, g)) == [Role(g, role)]
  {
    RoleOfEveryRoleGroup(b, groups);
    assert b.groups[g][..|ROLE_PREFIX|] == ROLE_PREFIX && b.groups[g][|ROLE_PREFIX|..] == role;
    assert g !in groups;
    RolesOfConcat(b, groups, [g]);
    assert [g][1..] == [];
  }

  /** A successful update with a role takes the user's roles away and adds the new one. */
  lemma UpdateWithRole(s: State, id: string, mail: Option<string>, role: string, enabled: Option<bool>)
    returns (pk: nat, g: nat)
    requires Transparent(s) && role != "" && Updated(s, id, mail, Some(role), enabled).1.None?
    ensures LoadPurePixelUser(s.backend, id) == Ok(pk) && pk < |s.backend.users|
    ensures FindGroup(s.backend.groups, ROLE_PREFIX + role, 0) == Some(g)
    ensures var u := Patched(s.backend.users[pk], mail, enabled);
      var groups := RemoveRoles(u.groups, ToRoles(WithUser(s, pk, u).backend, u.groups));
      Updated(s, id, mail, Some(role), enabled).0.backend
        == WithUser(s, pk, u.(groups := AddGroup(groups, g))).backend
    ensures Transparent(Updated(s, id, mail, Some(role), enabled).0)
  {
    pk := LoadPurePixelUser(s.backend, id).value;
    var patched := WithUser(s, pk, Patched(s.backend.users[pk], mail, enabled));
    SameLookup(s.backend, patched.backend, id);
    var removed := RolesDeleted(patched, id);
    SameLookup(patched.backend, removed.0.backend, id);
    ReadsAreTransparent(removed.0, GetRole(role));
    g := FindGroup(s.backend.groups, ROLE_PREFIX + role, 0).value;
  }

  /** It leaves the user with exactly that role, read through the cache or not, and with every group
      that is not a role. */
  lemma UpdateLeavesExactlyTheRole(
    s: State, id: string, mail: Option<string>, role: string, enabled: Option<bool>)
    requires Transparent(s) && role != "" && Updated(s, id, mail, Some(role), enabled).1.None?
    ensures var t := Updated(s, id, mail, Some(role), enabled).0;
      exists g: nat ::
        && FindGroup(s.backend.groups, ROLE_PREFIX + role, 0) == Some(g)
        && Read(t, GetUserRoles(id)).1 == Some(Roles([Role(g, role)]))
    ensures var t := Updated(s, id, mail, Some(role), enabled).0;
      exists pk: nat ::
        && LoadPurePixelUser(s.backend, id) == Ok(pk) && pk < |t.backend.users|
        && forall h :: !IsRoleGroup(s.backend, h) ==>
             (h in t.backend.users[pk].groups <==> h in s.backend.users[pk].groups)
  {
    var pk, g := UpdateWithRole(s, id, mail, role, enabled);
    var t := Updated(s, id, mail, Some(role), enabled).0;
    var groups := s.backend.users[pk].groups;
    var b := WithUser(s, pk, Patched(s.backend.users[pk], mail, enabled)).backend;
    var left := RemoveRoles(groups, ToRoles(b, groups));
    RolesRemoved(b, groups);
    OneRoleAdded(b, left, g, role);
    SameRoles(b, t.backend, AddGroup(left, g));
    SameLookup(s.backend, t.backend, id);
    ReadsAreTransparent(t, GetUserRoles(id));
  }

  // ---- what reads answer ----

  /** The first user from a position on that passes a test, if one does. */
  lemma {:induction false} FirstUserIs(users: seq<RawUser>, test: RawUser -> bool, from: nat)
    ensures var r := FirstUser(users, test, from);
      && (r.None? <==> forall i :: from <= i < |users| ==> !test(users[i]))
      && (r.Some? ==> test(users[r.value]) && forall i :: from <= i < r.value ==> !test(users[i]))
    decreases |users| - from
  {
    if from >= |users| {
    } else {
      FirstUserIs(users, test, from + 1);
    }
  }

  /** An id leads to the first user who brought it along, and if nobody did, to the first whom the
      provider gave it. */
  lemma LookupIs(b: Backend, id: string)
    ensures var r := FindRawUser(b, id);
      && (r.None? <==> forall u :: u in b.users ==> u.purepixelId != Some(id) && u.uuid != id)
      && (r.Some? && (exists u :: u in b.users && u.purepixelId == Some(id)) ==>
            b.users[r.value].purepixelId == Some(id)
            && forall i :: 0 <= i < r.value ==> b.users[i].purepixelId != Some(id))
      && (r.Some? && (forall u :: u in b.users ==> u.purepixelId != Some(id)) ==>
            b.users[r.value].uuid == id && forall i :: 0 <= i < r.value ==> b.users[i].uuid != id)
  {
    FirstUserIs(b.users, HasAttribute(id), 0);
    FirstUserIs(b.users, HasUuid(id), 0);
  }

  /** The user found is shown with the provider's data, and under the id asked for unless it is the
      provider's id of a user who brought another along. */
  lemma FoundUser(b: Backend, id: string, pk: nat)
    requires FindRawUser(b, id) == Some(pk)
    ensures Uncached(b, FindFirst(id)).Some? && Uncached(b, FindFirst(id)).value.User?
    ensures var u, x := b.users[pk], Uncached(b, FindFirst(id)).value.user;
      && x.username == u.username && x.email == u.email && x.enabled == u.active && x.createdTimestamp == u.joined
      && (x.id == id <==>
            (u.purepixelId == Some(id) && id != "") || (u.uuid == id && u.purepixelId in {None, Some("")}))
  {
    LookupIs(b, id);
  }

  /** The list of all users holds exactly those of the service. */
  lemma ListedUsers(b: Backend, x: IdentityUser)
    ensures x in Selected(b, b.users, InPath(PATH_PREFIX)) <==>
      exists u :: u in b.users && OfService(u) && x == ToIdentityUser(u)
  {
    SelectedExactly(b, b.users, InPath(PATH_PREFIX), x);
  }

  /** Users of the service are those whose path begins with its name. */
  predicate OfService(u: RawUser) {
    |u.path| >= 9 && u.path[..9] == "purepixel"
  }

  /** The list of the users with a role holds exactly those whose roles include it. */
  lemma ListedByRole(b: Backend, u: RawUser, name: string)
    ensures InGroup(ROLE_PREFIX + name)(b, u) <==> exists r :: r in ToRoles(b, u.groups) && r.name == name
  {
    RolesAreGroups(b, u.groups);
    if InGroup(ROLE_PREFIX + name)(b, u) {
      var g :| g in u.groups && g < |b.groups| && b.groups[g] == ROLE_PREFIX + name;
      RoleOfGroup(b, g, name);
      assert Role(g, name) in ToRoles(b, u.groups);
    }
    if r :| r in ToRoles(b, u.groups) && r.name == name {
      assert b.groups[r.id] == ROLE_PREFIX + name;
    }
  }

  lemma RoleOfGroup(b: Backend, g: nat, name: string)
    requires g < |b.groups| && b.groups[g] == ROLE_PREFIX + name
    ensures IsRoleGroup(b, g) && b.groups[g][|ROLE_PREFIX|..] == name
  {
    assert b.groups[g][..|ROLE_PREFIX|] == ROLE_PREFIX;
  }

  lemma {:induction false} RolesAreGroups(b: Backend, groups: seq<nat>)
    ensures forall r :: r in ToRoles(b, groups) <==>
      r.id in groups && IsRoleGroup(b, r.id) && b.groups[r.id] == ROLE_PREFIX + r.name
  {
    if groups == [] {
    } else {
      RolesAreGroups(b, groups[1..]);
      var g := groups[0];
      if IsRoleGroup(b, g) {
        assert b.groups[g] == ROLE_PREFIX + b.groups[g][|ROLE_PREFIX|..];
      }
      forall r ensures r in ToRoles(b, groups) <==>
        r.id in groups && IsRoleGroup(b, r.id) && b.groups[r.id] == ROLE_PREFIX + r.name
      {
        if r.id == g && IsRoleGroup(b, g) && b.groups[g] == ROLE_PREFIX + r.name {
          RoleOfGroup(b, g, r.name);
        }
      }
    }
  }

  lemma {:induction false} SelectedExactly(
    b: Backend, users: seq<RawUser>, test: (Backend, RawUser) -> bool, x: IdentityUser)
    ensures x in Selected(b, users, test) <==> exists u :: u in users && test(b, u) && x == ToIdentityUser(u)
  {
    if users == [] {
    } else {
      SelectedExactly(b, users[1..], test, x);
      assert forall u :: u in users <==> u == users[0] || u in users[1..];
    }
  }

  /** A page holds the rows from the first asked for on, as many as asked for, or all with -1. */
  lemma PageIs<T>(items: seq<T>, skip: nat, take: int)
    requires take >= -1
    ensures var page := Slice(items, skip, take);
      && |page| == (if |items| <= skip then 0
                    else if take == -1 || |items| - skip < take then |items| - skip else take)
      && forall i :: 0 <= i < |page| ==> page[i] == items[skip + i]
  {
  }

  // ---- what writes change ----

  /** One user is replaced, and no group. */
  ghost predicate OnlyUser(b: Backend, c: Backend, pk: nat, u: RawUser) {
    pk < |b.users| && c == b.(users := b.users[pk := u])
  }

  /** Whatever is asked for, users outside the service and groups are left as they are. */
  lemma OutsidersUntouched(s: State, e: Event, i: nat)
    requires i < |s.backend.users| && !OfService(s.backend.users[i])
    ensures Step(s, e).0.backend.groups == s.backend.groups
    ensures i < |Step(s, e).0.backend.users| && Step(s, e).0.backend.users[i] == s.backend.users[i]
  {
    match e
    case EvUpdate(id, mail, role, enabled) => UpdateLeavesOutsiders(s, id, mail, role, enabled, i);
    case EvCreate(_, _, role, _, _, _) => CreationLeavesOutsiders(s, e, i);
    case EvUpsert(_, _, role, _, _, _) => CreationLeavesOutsiders(s, e, i);
    case EvAddRole(id, role) => RoleLeavesOutsiders(s, id, role, true, i);
    case EvDeleteRole(id, role) => RoleLeavesOutsiders(s, id, role, false, i);
    case EvDeleteRoles(id) => RolesLeaveOutsiders(s, id, i);
    case _ =>
  }

  lemma UpdateLeavesOutsiders(
    s: State, id: string, mail: Option<string>, role: Option<string>, enabled: Option<bool>, i: nat)
    requires i < |s.backend.users| && !OfService(s.backend.users[i])
    ensures var c := Updated(s, id, mail, role, enabled).0.backend;
      c.groups == s.backend.groups && i < |c.users| && c.users[i] == s.backend.users[i]
  {
    var loaded := LoadPurePixelUser(s.backend, id);
    if loaded.Ok? {
      var patched := WithUser(s, loaded.value, Patched(s.backend.users[loaded.value], mail, enabled));
      var removed := RolesDeleted(patched, id);
      RolesLeaveOutsiders(patched, id, i);
      if role.Some? {
        RoleLeavesOutsiders(removed.0, id, role.value, true, i);
      }
    }
  }

  lemma RoleLeavesOutsiders(s: State, id: string, role: string, add: bool, i: nat)
    requires i < |s.backend.users| && !OfService(s.backend.users[i])
    ensures var c := ChangeRole(s, id, role, add).0.backend;
      c.groups == s.backend.groups && i < |c.users| && c.users[i] == s.backend.users[i]
  {
  }

  lemma RolesLeaveOutsiders(s: State, id: string, i: nat)
    requires i < |s.backend.users| && !OfService(s.backend.users[i])
    ensures var c := RolesDeleted(s, id).0.backend;
      c.groups == s.backend.groups && i < |c.users| && c.users[i] == s.backend.users[i]
  {
  }

  lemma CreationLeavesOutsiders(s: State, e: Event, i: nat)
    requires (e.EvCreate? || e.EvUpsert?) && i < |s.backend.users| && !OfService(s.backend.users[i])
    ensures var c := Step(s, e).0.backend;
      c.groups == s.backend.groups && i < |c.users| && c.users[i] == s.backend.users[i]
  {
    var created := NewUser(s, e.username, e.email, e.id, e.uuid, e.joined);
    var last := created.backend.users[|s.backend.users|];
    RoleLeavesOutsiders(created, ToPurePixelId(last), e.role, true, i);
  }

  /** Entries of others in the cache are left alone, and an evicted entry is gone. */
  lemma ForeignEntriesStay(s: State, e: Event, k: Key)
    requires k.Foreign?
    ensures k in Step(s, e).0.cache <==> k in s.cache && e != EvEvict(k)
    ensures k in Step(s, e).0.cache ==> Step(s, e).0.cache[k] == s.cache[k]
    ensures e.EvEvict? ==> e.k !in Step(s, e).0.cache
  {
    match e
    case EvUpdate(id, mail, role, enabled) => UpdateKeepsForeign(s, id, mail, role, enabled, k);
    case EvCreate(_, _, role, _, _, _) => CreationKeepsForeign(s, e, k);
    case EvUpsert(_, _, role, _, _, _) => CreationKeepsForeign(s, e, k);
    case EvAddRole(id, role) => RoleKeepsForeign(s, id, role, true, k);
    case EvDeleteRole(id, role) => RoleKeepsForeign(s, id, role, false, k);
    case _ =>
  }

  ghost predicate KeepsEntry(s: State, t: State, k: Key) {
    (k in t.cache <==> k in s.cache) && (k in t.cache ==> t.cache[k] == s.cache[k])
  }

  lemma UpdateKeepsForeign(
    s: State, id: string, mail: Option<string>, role: Option<string>, enabled: Option<bool>, k: Key)
    requires k.Foreign?
    ensures KeepsEntry(s, Updated(s, id, mail, role, enabled).0, k)
  {
    var loaded := LoadPurePixelUser(s.backend, id);
    if loaded.Ok? {
      var patched := WithUser(s, loaded.value, Patched(s.backend.users[loaded.value], mail, enabled));
      if role.Some? {
        RoleKeepsForeign(RolesDeleted(patched, id).0, id, role.value, true, k);
      }
    }
  }

  lemma RoleKeepsForeign(s: State, id: string, role: string, add: bool, k: Key)
    requires k.Foreign?
    ensures KeepsEntry(s, ChangeRole(s, id, role, add).0, k)
  {
  }

  lemma CreationKeepsForeign(s: State, e: Event, k: Key)
    requires (e.EvCreate? || e.EvUpsert?) && k.Foreign?
    ensures KeepsEntry(s, Step(s, e).0, k)
  {
    var created := NewUser(s, e.username, e.email, e.id, e.uuid, e.joined);
    var last := created.backend.users[|s.backend.users|];
    RoleKeepsForeign(created, ToPurePixelId(last), e.role, true, k);
  }

  /** An update is refused for its mail exactly when it is another user's; when it succeeds, mail and
      state of the user are as asked for, and nothing but the roles has changed besides, these only if
      a role was given. */
  lemma UpdatedExactly(s: State, id: string, mail: Option<string>, role: Option<string>, enabled: Option<bool>)
    requires Transparent(s)
    ensures var r, loaded := Updated(s, id, mail, role, enabled), LoadPurePixelUser(s.backend, id);
      && (r.1 == Some(SameEmail) <==>
            loaded.Ok? && mail.Some? && mail.value != ""
            && exists i :: 0 <= i < |s.backend.users| && i != loaded.value && s.backend.users[i].email == mail.value)
      && (r.1.None? ==>
            && loaded.Ok?
            && var pk := loaded.value;
               pk < |r.0.backend.users|
               && var u, groups := s.backend.users[pk], r.0.backend.users[pk].groups;
                  (role.None? || role.value == "" ==> groups == u.groups)
                  && OnlyUser(s.backend, r.0.backend, pk, RawUser(
                       u.uuid, u.username, if mail.Some? then mail.value else u.email,
                       if enabled.Some? then enabled.value else u.active, u.joined, u.path, u.purepixelId, groups)))
  {
    var loaded := LoadPurePixelUser(s.backend, id);
    if loaded.Ok? {
      var patched := WithUser(s, loaded.value, Patched(s.backend.users[loaded.value], mail, enabled));
      var r := Updated(s, id, mail, role, enabled);
      if r.1.None? {
        if role.Some? && role.value != "" {
          var pk, g := UpdateWithRole(s, id, mail, role.value, enabled);
          assert OnlyUser(s.backend, r.0.backend, pk, r.0.backend.users[pk]);
        } else {
          assert OnlyUser(s.backend, r.0.backend, loaded.value, r.0.backend.users[loaded.value]);
        }
      } else if role.Some? && role.value != "" {
        RoleErrors(RolesDeleted(patched, id).0, id, role.value);
      }
    }
  }

  lemma RoleErrors(s: State, id: string, role: string)
    ensures ChangeRole(s, id, role, true).1 != Some(SameEmail)
  {
  }

  /** Disabling and enabling succeed for every user of the service, and change that user's state. */
  lemma ActivatedExactly(s: State, e: Event)
    requires e.EvDisable? || e.EvEnable?
    ensures var loaded := LoadPurePixelUser(s.backend, e.id);
      && (Step(s, e).1.None? <==> loaded.Ok?)
      && (loaded.Ok? ==>
            OnlyUser(s.backend, Step(s, e).0.backend, loaded.value,
                     s.backend.users[loaded.value].(active := e.EvEnable?)))
  {
  }

  /** A role is added or taken away exactly when user and role exist; the user has it or not, as asked
      for, and every other group as before. */
  lemma RoleChangedExactly(s: State, e: Event)
    requires Transparent(s) && (e.EvAddRole? || e.EvDeleteRole?)
    ensures var loaded, role := LoadPurePixelUser(s.backend, e.id),
                                FindGroup(s.backend.groups, ROLE_PREFIX + e.role, 0);
      && (Step(s, e).1.None? <==> loaded.Ok? && role.Some?)
      && (Step(s, e).1.Some? ==> Step(s, e).0.backend == s.backend)
      && (Step(s, e).1.None? ==>
            exists groups ::
              && OnlyUser(s.backend, Step(s, e).0.backend, loaded.value,
                          s.backend.users[loaded.value].(groups := groups))
              && forall h :: h in groups <==>
                   if h == role.value then e.EvAddRole? else h in s.backend.users[loaded.value].groups)
  {
    ReadsAreTransparent(s, GetRole(e.role));
    var loaded, role := LoadPurePixelUser(s.backend, e.id), FindGroup(s.backend.groups, ROLE_PREFIX + e.role, 0);
    if loaded.Ok? && role.Some? {
      RemoveGroupMembers(s.backend.users[loaded.value].groups, role.value);
      var groups := Step(s, e).0.backend.users[loaded.value].groups;
      assert OnlyUser(s.backend, Step(s, e).0.backend, loaded.value,
                      s.backend.users[loaded.value].(groups := groups));
    }
  }

  /** A creation is refused exactly for a mail or name that is taken, or where it fails halfway; under a
      new id it adds an enabled user of the service with the role and no other group. */
  lemma CreatedExactly(s: State, e: Event)
    requires Transparent(s) && e.EvCreate?
    ensures var users, r := s.backend.users, Step(s, e);
      && (r.1 == Some(SameEmail) <==> exists u :: u in users && u.email == e.email)
      && (r.1 == Some(SameUsername) <==>
            (exists u :: u in users && u.username == e.username) && forall u :: u in users ==> u.email != e.email)
      && (r.1.None? && (forall u :: u in users ==> u.purepixelId != Some(e.id) && u.uuid != e.id) && e.id != "" ==>
            exists g: nat ::
              && FindGroup(s.backend.groups, ROLE_PREFIX + e.role, 0) == Some(g)
              && r.0.backend == s.backend.(users := users
                   + [RawUser(e.uuid, e.username, e.email, true, e.joined, "purepixel/users", Some(e.id), [g])]))
  {
    var users := s.backend.users;
    FirstUserIs(users, HasEmail(e.email), 0);
    FirstUserIs(users, HasUsername(e.username), 0);
    if NamesFree(users, e) {
      CreationAdds(s, e);
    }
  }

  lemma CreationAdds(s: State, e: Event)
    requires Transparent(s) && e.EvCreate? && NamesFree(s.backend.users, e)
    ensures Step(s, e).1 != Some(SameEmail) && Step(s, e).1 != Some(SameUsername)
    ensures Step(s, e).1.None? && e.id != ""
            && (forall u :: u in s.backend.users ==> u.purepixelId != Some(e.id) && u.uuid != e.id) ==>
      exists g: nat ::
        && FindGroup(s.backend.groups, ROLE_PREFIX + e.role, 0) == Some(g)
        && Step(s, e).0.backend == s.backend.(users := s.backend.users + [Created(e).(groups := [g])])
  {
    var created := NewUser(s, e.username, e.email, e.id, e.uuid, e.joined);
    var n := |s.backend.users|;
    assert created.backend == WithCreated(s.backend, e) && created.backend.users[n] == Created(e);
    RoleReadable(s, created, e.role);
    if Step(s, e).1.None? && e.id != ""
       && forall u :: u in s.backend.users ==> u.purepixelId != Some(e.id) && u.uuid != e.id
    {
      LookupIs(s.backend, e.id);
      LookupAfter(s.backend, e, e.id);
      RoleGroupRead(s, created, e.role);
      var g := FindGroup(s.backend.groups, ROLE_PREFIX + e.role, 0).value;
      assert USER_PATH[..|PATH_PREFIX|] == PATH_PREFIX;
      assert LoadPurePixelUser(created.backend, e.id) == Ok(n);
      assert AddGroup(Created(e).groups, g) == [g];
      assert created.backend.users[n := Created(e).(groups := [g])]
          == s.backend.users + [Created(e).(groups := [g])];
    }
  }

  lemma RoleGroupRead(s: State, t: State, role: string)
    requires Transparent(s) && t.cache == s.cache && t.backend.groups == s.backend.groups && RoleExists(s.backend, role)
    ensures var g := FindGroup(s.backend.groups, ROLE_PREFIX + role, 0).value;
      Read(t, GetRole(role)).1 == Some(OneRole(Role(g, role)))
  {
    var k := GetRole(role);
    assert k in s.cache ==> Uncached(s.backend, k) == Some(s.cache[k]);
  }

  // ---- paging through the provider's lists ----

  const PAGE_SIZE: nat := 100

  datatype PageOf<T> = PageOf(results: seq<T>, next: nat)

  function FirstIndex(page: nat): int {
    (page - 1) * PAGE_SIZE
  }

  /** Page `page` (from 1) of a list; next is 0 on the last page. */
  function ListPage<T>(items: seq<T>, page: nat): (r: PageOf<T>)
    requires page >= 1
    ensures |r.results| <= 100 && (r.next != 0 ==> |r.results| == 100 && r.next == page + 1)
  {
    var from, to := FirstIndex(page), FirstIndex(page + 1);
    if to < |items| then PageOf(items[from..to], page + 1)
    else if from <= |items| then PageOf(items[from..], 0)
    else PageOf([], 0)
  }

  method ListAll<T>(items: seq<T>) returns (all: seq<T>)
    ensures all == items
  {
    all := [];
    var page := 1;
    while true
      invariant page >= 1 && FirstIndex(page) <= |items|
      invariant all == items[..FirstIndex(page)]
      decreases |items| - FirstIndex(page)
    {
      var response := ListPage(items, page);
      all := all + response.results;
      if response.next == 0 { break; }
      page := response.next;
    }
  }

  // ---- the service ----

  class IdentityService {
    var backend: Backend
    var cache: map<Key, Value>

    function View(): State
      reads this
    {
      State(backend, cache)
    }

    constructor (b: Backend)
      ensures View() == State(b, map[])
    {
      backend, cache := b, map[];
    }

    method Cached(k: Key) returns (v: Option<Value>)
      modifies this`cache
      ensures (View(), v) == Read(old(View()), k)
    {
      if k in cache { return Some(cache[k]); }
      v := Uncached(backend, k);
      if v.Some? {
        cache := cache[k := v.value];
      }
    }

    method DropCache()
      modifies this`cache
      ensures View() == ClearCache(old(View()))
    {
      var keys := cache.Keys;
      ghost var before := cache;
      while keys != {}
        invariant keys <= before.Keys && cache.Keys <= before.Keys
        invariant forall k | k in before ::
          if k in keys || k.Foreign? then k in cache && cache[k] == before[k] else k !in cache
        decreases |keys|
      {
        var k :| k in keys;
        if !k.Foreign? {
          cache := cache - {k};
        }
        keys := keys - {k};
      }
    }

    method AddRoleToUser(id: string, role: string) returns (error: Option<Error>)
      modifies this
      ensures (View(), error) == ChangeRole(old(View()), id, role, true)
    {
      var loaded := LoadPurePixelUser(backend, id);
      if loaded.Err? { return Some(loaded.error); }
      var pk := loaded.value;
      var found := Cached(GetRole(role));
      if found.None? || !found.value.OneRole? { return Some(RoleNotFound); }
      var u := backend.users[pk];
      backend := backend.(users := backend.users[pk := u.(groups := AddGroup(u.groups, found.value.role.id))]);
      DropCache();
      error := None;
    }

    method DeleteRolesFromUser(id: string) returns (error: Option<Error>)
      modifies this
      ensures (View(), error) == RolesDeleted(old(View()), id)
    {
      var loaded := LoadPurePixelUser(backend, id);
      if loaded.Err? { return Some(loaded.error); }
      var pk := loaded.value;
      var groups := backend.users[pk].groups;
      var roles := ToRoles(backend, groups);
      var i := 0;
      while i < |roles|
        invariant i <= |roles|
        invariant RemoveRoles(groups, roles[i..]) == RemoveRoles(backend.users[pk].groups, roles)
      {
        assert roles[i..][1..] == roles[i + 1..];
        groups := RemoveGroup(groups, roles[i].id);
        i := i + 1;
      }
      backend := backend.(users := backend.users[pk := backend.users[pk].(groups := groups)]);
      DropCache();
      error := None;
    }

    method UpdateById(id: string, mail: Option<string>, role: Option<string>, enabled: Option<bool>)
      returns (error: Option<Error>)
      modifies this
      ensures (View(), error) == Updated(old(View()), id, mail, role, enabled)
    {
      var loaded := LoadPurePixelUser(backend, id);
      if loaded.Err? { return Some(loaded.error); }
      var pk := loaded.value;
      if mail.Some? && mail.value != "" && EmailTaken(backend.users, pk, mail.value) { return Some(SameEmail); }
      backend := backend.(users := backend.users[pk := Patched(backend.users[pk], mail, enabled)]);
      if role.Some? && role.value != "" {
        error := DeleteRolesFromUser(id);
        if error.Some? { return; }
        error := AddRoleToUser(id, role.value);
        if error.Some? { return; }
      }
      DropCache();
      error := None;
    }
  }
}
