/** The client that never deletes: a delete stamps the row, and every read and update is made to
    pass over stamped rows. It is compared with a store that really deletes. */
module SoftDelete {
  import opened Wrappers

  datatype Row<D> = Row(data: D, deletedAt: Option<int>)

  /** What a caller, or a hook, may ask of the deletion stamp. */
  datatype Stamp = Any | IsNull | NotNull

  datatype Where<!D> = Where(matches: D -> bool, deletedAt: Stamp)

  /** Table rows by primary key. */
  type Table<D> = map<nat, Row<D>>

  predicate Allows(stamp: Stamp, deletedAt: Option<int>) {
    match stamp
    case Any => true
    case IsNull => deletedAt.None?
    case NotNull => deletedAt.Some?
  }

  predicate Selected<D>(row: Row<D>, w: Where<D>) {
    w.matches(row.data) && Allows(w.deletedAt, row.deletedAt)
  }

  // ---- the database's own operations ----

  function SelectMany<D>(t: Table<D>, w: Where<D>): map<nat, D> {
    map id | id in t && Selected(t[id], w) :: t[id].data
  }

  function SelectUnique<D>(t: Table<D>, id: nat, w: Where<D>): Option<D> {
    if id in t && Selected(t[id], w) then Some(t[id].data) else None
  }

  /** Rewrites the row with this id if it is selected; otherwise there is nothing to update. */
  function UpdateOne<D>(t: Table<D>, id: nat, w: Where<D>, f: Row<D> -> Row<D>): Option<Table<D>> {
    if id in t && Selected(t[id], w) then Some(t[id := f(t[id])]) else None
  }

  function UpdateRows<D>(t: Table<D>, w: Where<D>, f: Row<D> -> Row<D>): Table<D> {
    map id | id in t :: if Selected(t[id], w) then f(t[id]) else t[id]
  }

  function RemoveRows<D>(t: Table<D>, w: Where<D>): Table<D> {
    map id | id in t && !Selected(t[id], w) :: t[id]
  }

  // ---- the hooks ----

  /** Only rows without a stamp: a filter of the caller's on the stamp is overwritten. */
  function Hooked<D>(w: Where<D>): Where<D> {
    w.(deletedAt := IsNull)
  }

  function Rewrite<D>(f: D -> D): Row<D> -> Row<D> {
    (r: Row<D>) => r.(data := f(r.data))
  }

  /** An update of the caller's that writes the stamp along with other columns. */
  function RewriteAndStamp<D>(f: D -> D, now: int): Row<D> -> Row<D> {
    (r: Row<D>) => Row(f(r.data), Some(now))
  }

  function Stamped<D>(now: int): Row<D> -> Row<D> {
    (r: Row<D>) => r.(deletedAt := Some(now))
  }

  /** Models hook the same operations; only the camera model hooks deleteMany as well. */
  datatype Model = Camera | PhotoshootPackage | UpgradePackage | Photo

  datatype Operation<!D> =
    | OpFindMany(w: Where<D>)
    | OpFindUnique(id: nat, w: Where<D>)
    | OpCount(w: Where<D>)
    | OpUpdate(id: nat, w: Where<D>, f: D -> D)
    | OpStampingUpdate(id: nat, w: Where<D>, f: D -> D)
    | OpUpdateMany(w: Where<D>, f: D -> D)
    | OpDelete(id: nat, w: Where<D>)
    | OpDeleteMany(w: Where<D>)

  datatype Answer<D> =
    | Rows(rows: map<nat, D>)
    | Maybe(row: Option<D>)
    | Number(n: nat)
    | Done
    | RecordNotFound

  function Soft<D>(m: Model, t: Table<D>, op: Operation<D>, now: int): (Table<D>, Answer<D>) {
    match op
    case OpFindMany(w) => (t, Rows(SelectMany(t, Hooked(w))))
    case OpFindUnique(id, w) => (t, Maybe(SelectUnique(t, id, Hooked(w))))
    case OpCount(w) => (t, Number(|SelectMany(t, Hooked(w))|))
    case OpUpdate(id, w, f) =>
      (match UpdateOne(t, id, Hooked(w), Rewrite(f))
       case None => (t, RecordNotFound)
       case Some(t') => (t', Done))
    case OpStampingUpdate(id, w, f) =>
      (match UpdateOne(t, id, Hooked(w), RewriteAndStamp(f, now))
       case None => (t, RecordNotFound)
       case Some(t') => (t', Done))
    case OpUpdateMany(w, f) => (UpdateRows(t, Hooked(w), Rewrite(f)), Number(|SelectMany(t, Hooked(w))|))
    case OpDelete(id, w) =>
      // the update that replaces the delete goes through the hooks again
      (match UpdateOne(t, id, Hooked(w), Stamped(now))
       case None => (t, RecordNotFound)
       case Some(t') => (t', Done))
    case OpDeleteMany(w) =>
      if m == Camera then (UpdateRows(t, Hooked(w), Stamped(now)), Number(|SelectMany(t, Hooked(w))|))
      else (RemoveRows(t, w), Number(|SelectMany(t, w)|))
  }

  // ---- a store that deletes ----

  type Store<D> = map<nat, D>

  function Matching<D>(s: Store<D>, w: Where<D>): map<nat, D> {
    map id | id in s && w.matches(s[id]) :: s[id]
  }

  function Hard<D>(s: Store<D>, op: Operation<D>): (Store<D>, Answer<D>) {
    match op
    case OpFindMany(w) => (s, Rows(Matching(s, w)))
    case OpFindUnique(id, w) => (s, Maybe(if id in s && w.matches(s[id]) then Some(s[id]) else None))
    case OpCount(w) => (s, Number(|Matching(s, w)|))
    case OpUpdate(id, w, f) =>
      if id in s && w.matches(s[id]) then (s[id := f(s[id])], Done) else (s, RecordNotFound)
    case OpStampingUpdate(id, w, _) =>
      if id in s && w.matches(s[id]) then (s - {id}, Done) else (s, RecordNotFound)
    case OpUpdateMany(w, f) =>
      (map id | id in s :: if w.matches(s[id]) then f(s[id]) else s[id], Number(|Matching(s, w)|))
    case OpDelete(id, w) =>
      if id in s && w.matches(s[id]) then (s - {id}, Done) else (s, RecordNotFound)
    case OpDeleteMany(w) => (s - Matching(s, w).Keys, Number(|Matching(s, w)|))
  }

  /** The rows that are not stamped. */
  function LiveRows<D>(t: Table<D>): Store<D> {
    map id | id in t && t[id].deletedAt.None? :: t[id].data
  }

  predicate AllHooked<D>(m: Model, op: Operation<D>) {
    op.OpDeleteMany? ==> m == Camera
  }

  lemma HookedSeesLive<D>(t: Table<D>, w: Where<D>)
    ensures SelectMany(t, Hooked(w)) == Matching(LiveRows(t), w)
  {
  }

  lemma RewrittenRow<D>(t: Table<D>, id: nat, f: D -> D)
    requires id in t && t[id].deletedAt.None?
    ensures LiveRows(t[id := Rewrite(f)(t[id])]) == LiveRows(t)[id := f(t[id].data)]
  {
  }

  lemma StampedRow<D>(t: Table<D>, id: nat, r: Row<D>)
    requires r.deletedAt.Some?
    ensures LiveRows(t[id := r]) == LiveRows(t) - {id}
  {
  }

  lemma RewrittenRows<D>(t: Table<D>, w: Where<D>, f: D -> D)
    ensures var s := LiveRows(t);
      LiveRows(UpdateRows(t, Hooked(w), Rewrite(f))) == map id | id in s :: if w.matches(s[id]) then f(s[id]) else s[id]
  {
  }

  lemma StampedRows<D>(t: Table<D>, w: Where<D>, now: int)
    ensures LiveRows(UpdateRows(t, Hooked(w), Stamped(now))) == LiveRows(t) - Matching(LiveRows(t), w).Keys
  {
  }

  /** One hooked operation answers and acts on the live rows as the deleting store does. */
  lemma HookedRefinesDeleting<D>(m: Model, t: Table<D>, op: Operation<D>, now: int)
    requires AllHooked(m, op)
    ensures Soft(m, t, op, now).1 == Hard(LiveRows(t), op).1
    ensures LiveRows(Soft(m, t, op, now).0) == Hard(LiveRows(t), op).0
  {
    HookedSeesLive(t, op.w);
    match op
    case OpUpdate(id, w, f) => if id in t && Selected(t[id], Hooked(w)) { RewrittenRow(t, id, f); }
    case OpStampingUpdate(id, w, f) => if id in t { StampedRow(t, id, RewriteAndStamp(f, now)(t[id])); }
    case OpUpdateMany(w, f) => RewrittenRows(t, w, f);
    case OpDelete(id, w) => if id in t { StampedRow(t, id, Stamped(now)(t[id])); }
    case OpDeleteMany(w) => StampedRows(t, w, now);
    case _ =>
  }

  datatype Timed<!D> = Timed(op: Operation<D>, at: int)

  function RunSoft<D>(m: Model, t: Table<D>, ops: seq<Timed<D>>): (Table<D>, seq<Answer<D>>)
    decreases |ops|
  {
    if ops == [] then (t, [])
    else
      var step := Soft(m, t, ops[0].op, ops[0].at);
      var rest := RunSoft(m, step.0, ops[1..]);
      (rest.0, [step.1] + rest.1)
  }

  function RunHard<D>(s: Store<D>, ops: seq<Timed<D>>): (Store<D>, seq<Answer<D>>)
    decreases |ops|
  {
    if ops == [] then (s, [])
    else
      var step := Hard(s, ops[0].op);
      var rest := RunHard(step.0, ops[1..]);
      (rest.0, [step.1] + rest.1)
  }

  /** Over any run of hooked operations the callers get the same answers, deletions of what is
      already deleted included, and are left with the same live rows. */
  lemma {:induction false} RunsRefineDeleting<D>(m: Model, t: Table<D>, ops: seq<Timed<D>>)
    requires forall i :: 0 <= i < |ops| ==> AllHooked(m, ops[i].op)
    ensures RunSoft(m, t, ops).1 == RunHard(LiveRows(t), ops).1
    ensures LiveRows(RunSoft(m, t, ops).0) == RunHard(LiveRows(t), ops).0
    decreases |ops|
  {
    if ops == [] {
    } else {
      HookedRefinesDeleting(m, t, ops[0].op, ops[0].at);
      RunsRefineDeleting(m, Soft(m, t, ops[0].op, ops[0].at).0, ops[1..]);
    }
  }

  /** No hooked operation loses a row: stamped rows stay as they are. */
  lemma HookedKeepsRows<D>(m: Model, t: Table<D>, op: Operation<D>, now: int)
    requires AllHooked(m, op)
    ensures Soft(m, t, op, now).0.Keys == t.Keys
    ensures forall id | id in t && t[id].deletedAt.Some? :: Soft(m, t, op, now).0[id] == t[id]
  {
  }

  /** A row that a hooked operation stamps bears the time of the operation, and the data it had unless
      the operation rewrites it as well. */
  lemma StampsAreDated<D>(m: Model, t: Table<D>, op: Operation<D>, now: int, id: nat)
    requires AllHooked(m, op) && id in t && t[id].deletedAt.None?
    ensures id in Soft(m, t, op, now).0
    ensures var r := Soft(m, t, op, now).0[id];
      r.deletedAt.Some? ==>
        r.deletedAt == Some(now) && r.data == if op.OpStampingUpdate? then op.f(t[id].data) else t[id].data
  {
  }

  lemma DeletingTwiceFails<D>(m: Model, t: Table<D>, id: nat, w: Where<D>, v: Where<D>, now: int, later: int)
    requires Soft(m, t, OpDelete(id, w), now).1 == Done
    ensures Soft(m, Soft(m, t, OpDelete(id, w), now).0, OpDelete(id, v), later).1 == RecordNotFound
    ensures id in Soft(m, t, OpDelete(id, w), now).0
  {
  }

  lemma {:induction false} SubmapSmaller<D>(a: map<nat, D>, b: map<nat, D>)
    requires a.Keys <= b.Keys
    ensures |a| <= |b|
    ensures a.Keys != b.Keys ==> |a| < |b|
  {
    assert b.Keys == a.Keys + (b.Keys - a.Keys);
    assert |b.Keys| == |a.Keys| + |b.Keys - a.Keys|;
    if a.Keys != b.Keys {
      var x :| x in b.Keys - a.Keys;
    }
  }

  /** The filter sees exactly the live ones among the rows it matches. */
  ghost predicate SeesOnlyLive<D>(t: Table<D>, w: Where<D>) {
    forall id | id in t && w.matches(t[id].data) :: Allows(w.deletedAt, t[id].deletedAt) <==> t[id].deletedAt.None?
  }

  /** A filter that asks for stamped rows misses the live ones. */
  predicate MissesLive<D>(t: Table<D>, w: Where<D>) {
    w.deletedAt == NotNull && exists id :: id in t && w.matches(t[id].data) && t[id].deletedAt.None?
  }

  lemma RemovedRows<D>(t: Table<D>, w: Where<D>)
    ensures LiveRows(RemoveRows(t, w)) == LiveRows(t) - Matching(LiveRows(t), w).Keys <==> !MissesLive(t, w)
  {
    var soft, hard := LiveRows(RemoveRows(t, w)), LiveRows(t) - Matching(LiveRows(t), w).Keys;
    if MissesLive(t, w) {
      var id :| id in t && w.matches(t[id].data) && t[id].deletedAt.None?;
      assert id in soft && id !in hard;
    } else {
      assert soft.Keys == hard.Keys;
    }
  }

  lemma SeenRows<D>(t: Table<D>, w: Where<D>)
    requires !MissesLive(t, w)
    ensures |SelectMany(t, w)| == |Matching(LiveRows(t), w)| <==> SeesOnlyLive(t, w)
  {
    var seen, live := SelectMany(t, w), Matching(LiveRows(t), w);
    assert live.Keys <= seen.Keys;
    SubmapSmaller(live, seen);
    if SeesOnlyLive(t, w) {
      assert live.Keys == seen.Keys;
    } else {
      var id :| id in t && w.matches(t[id].data)
        && !(Allows(w.deletedAt, t[id].deletedAt) <==> t[id].deletedAt.None?);
      assert id in seen && id !in live;
    }
  }

  /** The unhooked deleteMany of the other models really deletes. It leaves the right live rows if
      and only if its own filter does not miss them, and reports the right number as well if and only
      if the filter sees exactly the live ones among the rows it matches. */
  lemma UnhookedDeleteMany<D>(m: Model, t: Table<D>, w: Where<D>, now: int)
    requires m != Camera
    ensures var soft, hard := Soft(m, t, OpDeleteMany(w), now), Hard(LiveRows(t), OpDeleteMany(w));
      && (LiveRows(soft.0) == hard.0 <==> !MissesLive(t, w))
      && (LiveRows(soft.0) == hard.0 && soft.1 == hard.1 <==> SeesOnlyLive(t, w))
  {
    RemovedRows(t, w);
    if !MissesLive(t, w) {
      SeenRows(t, w);
    }
  }

  /** Inserting a row whose unique name no row of the table may already hold. */
  function Create<D>(t: Table<D>, id: nat, d: D, name: D -> string): Option<Table<D>> {
    if id in t || exists k :: k in t && name(t[k].data) == name(d) then None
    else Some(t[id := Row(d, None)])
  }

  function HardCreate<D>(s: Store<D>, id: nat, d: D, name: D -> string): Option<Store<D>> {
    if id in s || exists k :: k in s && name(s[k]) == name(d) then None else Some(s[id := d])
  }

  function LiveOption<D>(t: Option<Table<D>>): Option<Store<D>> {
    match t case None => None case Some(x) => Some(LiveRows(x))
  }

  /** Some row, stamped or live as asked, already holds the id or the unique name. */
  predicate Blocked<D>(t: Table<D>, stamped: bool, id: nat, d: D, name: D -> string) {
    exists k :: k in t && t[k].deletedAt.Some? == stamped && (k == id || name(t[k].data) == name(d))
  }

  /** Creation is not hooked and stamped rows still hold their unique values: it agrees with the
      deleting store exactly when a stamped row blocks only what a live row blocks too. */
  lemma CreateAgreesExactly<D>(t: Table<D>, id: nat, d: D, name: D -> string)
    ensures LiveOption(Create(t, id, d, name)) == HardCreate(LiveRows(t), id, d, name)
       <==> (Blocked(t, true, id, d, name) ==> Blocked(t, false, id, d, name))
  {
    var s := LiveRows(t);
    if Create(t, id, d, name).Some? {
      assert LiveRows(t[id := Row(d, None)]) == s[id := d];
    }
    if k :| k in t && t[k].deletedAt.None? && (k == id || name(t[k].data) == name(d)) {
      assert k in s;
    }
  }

  // ---- the client ----

  class Args<!D> {
    var filter: Where<D>

    constructor (w: Where<D>)
      ensures filter == w
    {
      filter := w;
    }
  }

  class Client<!D> {
    const model: Model
    var table: Table<D>

    constructor (m: Model)
      ensures model == m && table == map[]
    {
      model, table := m, map[];
    }

    /** What every hook does to the arguments it is handed. */
    method ExcludeDeleted(args: Args<D>)
      modifies args
      ensures args.filter == Hooked(old(args.filter))
    {
      args.filter := args.filter.(deletedAt := IsNull);
    }

    method FindMany(args: Args<D>) returns (rows: map<nat, D>)
      modifies args
      ensures Rows(rows) == Soft(model, table, OpFindMany(old(args.filter)), 0).1
    {
      ExcludeDeleted(args);
      rows := SelectMany(table, args.filter);
    }

    method Update(id: nat, args: Args<D>, f: D -> D) returns (found: bool)
      modifies this, args
      ensures (table, if found then Done else RecordNotFound)
           == Soft(model, old(table), OpUpdate(id, old(args.filter), f), 0)
    {
      ExcludeDeleted(args);
      var updated := UpdateOne(table, id, args.filter, Rewrite(f));
      found := updated.Some?;
      if found {
        table := updated.value;
      }
    }

    /** Deletion as a repository may write it itself: an update that sets the stamp. */
    method UpdateWithStamp(id: nat, args: Args<D>, f: D -> D, now: int) returns (found: bool)
      modifies this, args
      ensures (table, if found then Done else RecordNotFound)
           == Soft(model, old(table), OpStampingUpdate(id, old(args.filter), f), now)
    {
      ExcludeDeleted(args);
      var updated := UpdateOne(table, id, args.filter, RewriteAndStamp(f, now));
      found := updated.Some?;
      if found {
        table := updated.value;
      }
    }

    method Delete(id: nat, args: Args<D>, now: int) returns (found: bool)
      modifies this, args
      ensures (table, if found then Done else RecordNotFound)
           == Soft(model, old(table), OpDelete(id, old(args.filter)), now)
    {
      found := StampOne(id, args, now);
    }

    /** The update a delete is turned into, hooked like any other. */
    method StampOne(id: nat, args: Args<D>, now: int) returns (found: bool)
      modifies this, args
      ensures (table, if found then Done else RecordNotFound)
           == Soft(model, old(table), OpDelete(id, old(args.filter)), now)
    {
      ExcludeDeleted(args);
      var updated := UpdateOne(table, id, args.filter, Stamped(now));
      found := updated.Some?;
      if found {
        table := updated.value;
      }
    }

    method DeleteMany(args: Args<D>, now: int) returns (count: nat)
      modifies this, args
      ensures (table, Number(count)) == Soft(model, old(table), OpDeleteMany(old(args.filter)), now)
    {
      if model == Camera {
        ExcludeDeleted(args);
        count := |SelectMany(table, args.filter)|;
        table := UpdateRows(table, args.filter, Stamped(now));
      } else {
        count := |SelectMany(table, args.filter)|;
        table := RemoveRows(table, args.filter);
      }
    }
  }
}
