/** The push relay's tables (store.ts). Each method of the store is one atomic
    database batch; handlers interleave between batches. */
module RelayStore {
  import opened Common

  datatype Device = Device(
    platform: Platform,
    token: string,
    environment: Option<string>,
    invalidatedAt: Option<int>,
    createdAt: int,
    updatedAt: int,
    seenAt: int,
    deliveredAt: Option<int>,
    row: nat)

  datatype Subscription = Subscription(device: string, endpoint: string, key: string)

  type Devices = map<string, Device>

  datatype Db = Db(devices: Devices, subs: map<string, Subscription>)

  // --- Rows holding one token -----------------------------------------------------

  predicate Holds(d: Device, p: Platform, t: string) {
    d.platform == p && d.token == t
  }

  predicate Active(d: Device) {
    d.invalidatedAt.None?
  }

  function Holders(devices: Devices, p: Platform, t: string): set<string> {
    set id | id in devices && Holds(devices[id], p, t)
  }

  /** The rejected or superseded rows of a token. */
  function Invalid(devices: Devices, p: Platform, t: string): set<string> {
    set id | id in devices && Holds(devices[id], p, t) && !Active(devices[id])
  }

  /** The other devices that hold the token and are not invalid. */
  function ActiveHolders(devices: Devices, p: Platform, t: string, except: string): set<string> {
    set id | id in devices && id != except
          && devices[id].platform == p && devices[id].token == t && devices[id].invalidatedAt.None?
  }

  /** ORDER BY invalidated_at DESC, created_at DESC, rowid DESC: `a` comes first. */
  predicate Newer(a: Device, b: Device)
    requires !Active(a) && !Active(b)
  {
    var x, y := a.invalidatedAt.value, b.invalidatedAt.value;
    x > y || (x == y && (a.createdAt > b.createdAt || (a.createdAt == b.createdAt && a.row > b.row)))
  }

  function NewerThan(devices: Devices, among: set<string>, id: string): set<string>
    requires id in among && forall i :: i in among ==> i in devices && !Active(devices[i])
  {
    set other | other in among && Newer(devices[other], devices[id])
  }

  /** OFFSET keep: the rows with at least `keep` newer ones. */
  function Beyond(devices: Devices, among: set<string>, keep: nat): set<string>
    requires forall i :: i in among ==> i in devices && !Active(devices[i])
  {
    set id | id in among && |NewerThan(devices, among, id)| >= keep
  }

  predicate SameActiveToken(a: Device, b: Device) {
    Active(a) && Active(b) && Holds(b, a.platform, a.token)
  }

  /** At most one active device per (platform, token). */
  ghost predicate OneActive(devices: Devices) {
    forall a, b :: a in devices && b in devices && SameActiveToken(devices[a], devices[b]) ==> a == b
  }

  ghost predicate RowsDistinct(devices: Devices) {
    forall a, b :: a in devices && b in devices && devices[a].row == devices[b].row ==> a == b
  }

  /** Every subscription has its device, and endpoints are unique. */
  ghost predicate SubsOwned(db: Db) {
    && (forall s :: s in db.subs ==> db.subs[s].device in db.devices)
    && (forall s, o :: s in db.subs && o in db.subs && db.subs[s].endpoint == db.subs[o].endpoint ==> s == o)
  }

  // --- Effects of the batches -------------------------------------------------------

  /** SUPERSEDE: every other active holder of the token becomes invalid. */
  function AfterSupersede(d: Device, id: string, p: Platform, t: string, now: int, except: string): Device {
    if Holds(d, p, t) && Active(d) && id != except then d.(invalidatedAt := Some(now), updatedAt := now) else d
  }

  ghost predicate Superseded(devices: Devices, devices': Devices, p: Platform, t: string, now: int, except: string) {
    && devices'.Keys == devices.Keys
    && forall id :: id in devices ==> devices'[id] == AfterSupersede(devices[id], id, p, t, now, except)
  }

  ghost predicate RowFree(devices: Devices, row: nat) {
    forall id :: id in devices ==> devices[id].row != row
  }

  /** A duplicate id violates the primary key: the whole batch is undone. */
  ghost predicate Created(db: Db, db': Db, id: string, p: Platform, t: string, env: Option<string>, now: int) {
    if id in db.devices then db' == db
    else
      && id in db'.devices && db'.subs == db.subs
      && RowFree(db.devices, db'.devices[id].row)
      && db'.devices[id] == Device(p, t, env, None, now, now, now, None, db'.devices[id].row)
      && Superseded(db.devices, db'.devices - {id}, p, t, now, id)
  }

  function WithToken(d: Device, t: string, env: Option<string>, now: int): Device {
    d.(token := t, environment := env, invalidatedAt := None, updatedAt := now, seenAt := now)
  }

  /** Supersedes even when the device itself is gone meanwhile. */
  ghost predicate TokenUpdated(db: Db, db': Db, id: string, p: Platform, t: string, env: Option<string>, now: int) {
    && db'.subs == db.subs
    && db'.devices.Keys == db.devices.Keys
    && (forall other :: other in db.devices && other != id ==>
          db'.devices[other] == AfterSupersede(db.devices[other], other, p, t, now, id))
    && (id in db.devices ==> db'.devices[id] == WithToken(db.devices[id], t, env, now))
  }

  /** The devices leave together with exactly their subscriptions. */
  ghost predicate Removed(db: Db, db': Db, gone: set<string>) {
    && db'.devices == db.devices - gone
    && db'.subs == db.subs - (set s | s in db.subs && db.subs[s].device in gone)
  }

  ghost predicate Pruned(db: Db, db': Db, p: Platform, t: string, keep: nat) {
    Removed(db, db', Beyond(db.devices, Invalid(db.devices, p, t), keep))
  }

  function Expired(devices: Devices, invalidBefore: int, unseenBefore: int): set<string> {
    set id | id in devices &&
      ((devices[id].invalidatedAt.Some? && devices[id].invalidatedAt.value < invalidBefore)
       || devices[id].seenAt < unseenBefore)
  }

  function Invalidated(devices: Devices, id: string, t: string, now: int): Devices {
    if id in devices && devices[id].token == t && Active(devices[id])
    then devices[id := devices[id].(invalidatedAt := Some(now), updatedAt := now)]
    else devices
  }

  function Delivered(devices: Devices, id: string, now: int): Devices {
    if id in devices
    then devices[id := devices[id].(deliveredAt := Some(now), seenAt := Max(devices[id].seenAt, now))]
    else devices
  }

  function Touched(devices: Devices, id: string, now: int): Devices {
    if id in devices then devices[id := devices[id].(seenAt := now)] else devices
  }

  // --- Pruning keeps the newest ---------------------------------------------------------

  /** The oldest of some invalid rows: every other one is newer. */
  lemma {:induction false} Oldest(devices: Devices, among: set<string>) returns (id: string)
    requires among != {} && RowsDistinct(devices)
    requires forall i :: i in among ==> i in devices && !Active(devices[i])
    ensures id in among && NewerThan(devices, among, id) == among - {id}
    decreases among
  {
    NonEmpty(among);
    var x :| x in among;
    if among == {x} {
      id := x;
      assert NewerThan(devices, among, id) == among - {id};
    } else {
      var rest := among - {x};
      var y := Oldest(devices, rest);
      id := if Newer(devices[x], devices[y]) then y else x;
      assert devices[x].row != devices[y].row;
      forall i | i in among && i != id
        ensures Newer(devices[i], devices[id])
      {
        assert i != x && i != y ==> i in NewerThan(devices, rest, y);
      }
      assert NewerThan(devices, among, id) == among - {id};
    }
  }

  /** Leaving out the oldest row changes nothing for the others. */
  lemma OldestBeyond(devices: Devices, among: set<string>, keep: nat, last: string)
    requires RowsDistinct(devices)
    requires forall i :: i in among ==> i in devices && !Active(devices[i])
    requires last in among && NewerThan(devices, among, last) == among - {last}
    ensures among - Beyond(devices, among, keep) ==
      if |among| > keep then among - {last} - Beyond(devices, among - {last}, keep)
      else (among - {last} - Beyond(devices, among - {last}, keep)) + {last}
  {
    var rest := among - {last};
    assert |rest| == |among| - 1;
    forall i | i in rest
      ensures NewerThan(devices, among, i) == NewerThan(devices, rest, i)
    {
      assert i in NewerThan(devices, among, last);
    }
  }

  /** Exactly the newest `keep` rows (or all of them) stay. */
  lemma {:induction false} BeyondCount(devices: Devices, among: set<string>, keep: nat)
    requires RowsDistinct(devices)
    requires forall i :: i in among ==> i in devices && !Active(devices[i])
    ensures |among - Beyond(devices, among, keep)| == Min(keep, |among|)
    decreases among
  {
    if among != {} {
      var last := Oldest(devices, among);
      BeyondCount(devices, among - {last}, keep);
      OldestBeyond(devices, among, keep, last);
    }
  }

  /** A rejected or superseded row of the token. */
  ghost predicate InvalidRow(d: Device, p: Platform, t: string) {
    d.platform == p && d.token == t && d.invalidatedAt.Some?
  }

  /** Invalidated later, or in the same second and created later, or inserted later. */
  ghost predicate Outlasts(a: Device, b: Device)
    requires a.invalidatedAt.Some? && b.invalidatedAt.Some?
  {
    var x, y := a.invalidatedAt.value, b.invalidatedAt.value;
    y < x || (x == y && (b.createdAt < a.createdAt || (b.createdAt == a.createdAt && b.row < a.row)))
  }

  /** Every row kept was invalidated after every row deleted; in the same second it was
      created later, or else inserted later. */
  lemma KeptAreNewest(devices: Devices, among: set<string>, keep: nat, kept: string, gone: string)
    requires RowsDistinct(devices)
    requires forall i :: i in among ==> i in devices && !Active(devices[i])
    requires kept in among - Beyond(devices, among, keep) && gone in Beyond(devices, among, keep)
    ensures Outlasts(devices[kept], devices[gone])
  {
    if Newer(devices[gone], devices[kept]) {
      assert NewerThan(devices, among, gone) <= NewerThan(devices, among, kept);
      CardSubset(NewerThan(devices, among, gone), NewerThan(devices, among, kept));
    }
    assert devices[kept].row != devices[gone].row;
  }

  // --- Every interleaving of batches ------------------------------------------------------

  /** The relay between batches. `platforms` remembers the platform each device id
      was created with; `pending` counts, per token, the handlers that have changed
      rows of that token and have still to prune it. */
  datatype State = State(db: Db, platforms: map<string, Platform>, pending: multiset<(Platform, string)>)

  datatype Batch =
    | Create(id: string, p: Platform, t: string, env: Option<string>, now: int)
    | UpdateToken(id: string, p: Platform, t: string, env: Option<string>, now: int)
    | Prune(p: Platform, t: string)
    | Invalidate(id: string, t: string, now: int)
    | RecordDelivery(id: string, now: int)
    | Touch(id: string, now: int)
    | DeleteDevice(id: string)
    | CreateSubscription(sub: string, s: Subscription)
    | DeleteSubscription(id: string, sub: string)
    | Purge(invalidBefore: int, unseenBefore: int)

  /** What one batch does to the tables. */
  ghost predicate Effect(db: Db, b: Batch, db': Db, keep: nat) {
    match b
    case Create(id, p, t, env, now) => Created(db, db', id, p, t, env, now)
    case UpdateToken(id, p, t, env, now) => TokenUpdated(db, db', id, p, t, env, now)
    case Prune(p, t) => Pruned(db, db', p, t, keep)
    case Invalidate(id, t, now) => db' == db.(devices := Invalidated(db.devices, id, t, now))
    case RecordDelivery(id, now) => db' == db.(devices := Delivered(db.devices, id, now))
    case Touch(id, now) => db' == db.(devices := Touched(db.devices, id, now))
    case DeleteDevice(id) => Removed(db, db', {id})
    case CreateSubscription(sub, s) =>
      db' == if || sub in db.subs || s.device !in db.devices
                || exists o :: o in db.subs && db.subs[o].endpoint == s.endpoint
             then db else db.(subs := db.subs[sub := s])
    case DeleteSubscription(id, sub) =>
      db' == if sub in db.subs && db.subs[sub].device == id then db.(subs := db.subs - {sub}) else db
    case Purge(invalidBefore, unseenBefore) => Removed(db, db', Expired(db.devices, invalidBefore, unseenBefore))
  }

  /** A handler registers under a new random id, and updates a token with the
      platform it read from the device's row before; each of the two then prunes. */
  ghost predicate Next(s: State, b: Batch, s': State, keep: nat) {
    && Effect(s.db, b, s'.db, keep)
    && match b
       case Create(id, p, t, _, _) =>
         && id !in s.platforms
         && s'.platforms == s.platforms[id := p]
         && s'.pending == s.pending + multiset{(p, t)}
       case UpdateToken(id, p, t, _, _) =>
         && id in s.platforms && p == s.platforms[id]
         && s'.platforms == s.platforms
         && s'.pending == s.pending + multiset{(p, t)}
       case Prune(p, t) =>
         && (p, t) in s.pending
         && s'.platforms == s.platforms
         && s'.pending == s.pending - multiset{(p, t)}
       case _ => s'.platforms == s.platforms && s'.pending == s.pending
  }

  ghost predicate PlatformsKept(s: State) {
    forall id :: id in s.db.devices ==> id in s.platforms && s.db.devices[id].platform == s.platforms[id]
  }

  /** At most `keep` + 1 rows per token, and one more per handler yet to prune it. */
  ghost predicate RowsBounded(s: State, keep: nat) {
    forall p, t :: |Holders(s.db.devices, p, t)| <= keep + 1 + s.pending[(p, t)]
  }

  ghost predicate Inv(s: State, keep: nat) {
    OneActive(s.db.devices) && RowsDistinct(s.db.devices) && SubsOwned(s.db) && PlatformsKept(s) && RowsBounded(s, keep)
  }

  /** Right after a prune, a token has its active row and the newest invalid rows. */
  lemma PrunedCount(db: Db, db': Db, p: Platform, t: string, keep: nat)
    requires OneActive(db.devices) && RowsDistinct(db.devices) && Pruned(db, db', p, t, keep)
    ensures |Invalid(db'.devices, p, t)| == Min(keep, |Invalid(db.devices, p, t)|)
    ensures |Holders(db'.devices, p, t)| <= keep + 1
  {
    var invalid := Invalid(db.devices, p, t);
    BeyondCount(db.devices, invalid, keep);
    InvalidAfterPrune(db, db', p, t, keep);
    FewerActive(db.devices, db'.devices, Beyond(db.devices, invalid, keep));
    HoldersOfToken(db'.devices, p, t);
  }

  lemma InvalidAfterPrune(db: Db, db': Db, p: Platform, t: string, keep: nat)
    requires Pruned(db, db', p, t, keep)
    ensures Invalid(db'.devices, p, t) ==
      Invalid(db.devices, p, t) - Beyond(db.devices, Invalid(db.devices, p, t), keep)
  {
  }

  lemma FewerActive(devices: Devices, devices': Devices, gone: set<string>)
    requires OneActive(devices) && devices' == devices - gone
    ensures OneActive(devices')
  {
  }

  lemma HoldersOfToken(devices: Devices, p: Platform, t: string)
    requires OneActive(devices)
    ensures |Holders(devices, p, t)| <= |Invalid(devices, p, t)| + 1
  {
    var active := Holders(devices, p, t) - Invalid(devices, p, t);
    assert Holders(devices, p, t) == active + Invalid(devices, p, t);
    forall a, b | a in active && b in active
      ensures a == b
    {
      assert SameActiveToken(devices[a], devices[b]);
    }
    AtMostOne(active);
  }

  lemma AtMostOne(s: set<string>)
    requires forall a, b :: a in s && b in s ==> a == b
    ensures |s| <= 1
  {
    if x :| x in s {
      assert s == {x};
    }
  }

  /** The device whose token this batch sets, if any. */
  ghost predicate Sets(b: Batch, id: string) {
    (b.Create? || b.UpdateToken?) && b.id == id
  }

  /** The batch rejects the very token of the row, or gives it to another device. */
  ghost predicate Invalidates(b: Batch, id: string, d: Device) {
    || (b.Invalidate? && b.id == id && b.t == d.token)
    || ((b.Create? || b.UpdateToken?) && b.id != id && Holds(d, b.p, b.t))
  }

  /** What batch `b` may do to a row: nothing but these columns, to these values. */
  ghost predicate ColumnsOk(b: Batch, id: string, d: Device, d': Device) {
    && d'.platform == d.platform && d'.row == d.row && d'.createdAt == d.createdAt
    && (d'.token != d.token || d'.environment != d.environment ==> b.UpdateToken? && b.id == id)
    && (d'.deliveredAt != d.deliveredAt ==> b.RecordDelivery? && b.id == id && d'.deliveredAt == Some(b.now))
    && (d'.seenAt != d.seenAt ==>
          (b.UpdateToken? || b.RecordDelivery? || b.Touch?) && b.id == id && d'.seenAt == b.now)
    && (d'.updatedAt != d.updatedAt ==>
          (Invalidates(b, id, d) || (b.UpdateToken? && b.id == id)) && d'.updatedAt == b.now)
    && (Active(d) && !Active(d') ==> Invalidates(b, id, d) && d'.invalidatedAt == Some(b.now))
    && (!Active(d) ==> if b.UpdateToken? && b.id == id then Active(d') else d'.invalidatedAt == d.invalidatedAt)
  }

  lemma SupersededColumns(b: Batch, id: string, d: Device)
    requires (b.Create? || b.UpdateToken?) && b.id != id
    ensures ColumnsOk(b, id, d, AfterSupersede(d, id, b.p, b.t, b.now, b.id))
  {
  }

  lemma OwnColumns(db: Db, b: Batch, db': Db, keep: nat, id: string)
    requires Effect(db, b, db', keep) && id in db.devices && id in db'.devices && !b.Create? && !b.UpdateToken?
    ensures ColumnsOk(b, id, db.devices[id], db'.devices[id])
  {
  }

  /** Every other device is superseded where it holds the token given out. */
  lemma OthersSuperseded(s: State, b: Batch, s': State, keep: nat, id: string)
    requires PlatformsKept(s) && Next(s, b, s', keep) && id in s'.db.devices
    requires (b.Create? || b.UpdateToken?) && b.id != id
    ensures id in s.db.devices
    ensures s'.db.devices[id] == AfterSupersede(s.db.devices[id], id, b.p, b.t, b.now, b.id)
  {
    if b.Create? { assert id in s'.db.devices - {b.id}; }
  }

  /** Which batch changes which column of a row, and to what. */
  lemma RowColumns(s: State, b: Batch, s': State, keep: nat, id: string)
    requires Inv(s, keep) && Next(s, b, s', keep) && id in s.db.devices && id in s'.db.devices
    ensures ColumnsOk(b, id, s.db.devices[id], s'.db.devices[id])
  {
    if b.Create? || b.UpdateToken? {
      if b.id != id {
        OthersSuperseded(s, b, s', keep, id);
        SupersededColumns(b, id, s.db.devices[id]);
      } else {
        assert b.UpdateToken?;
      }
    } else {
      OwnColumns(s.db, b, s'.db, keep, id);
    }
  }

  /** A row that was not there before is the one a registration made. */
  lemma RowAfter(s: State, b: Batch, s': State, keep: nat, id: string)
    requires Inv(s, keep) && Next(s, b, s', keep) && id in s'.db.devices
    ensures id !in s.db.devices ==> b.Create? && b.id == id && RowFree(s.db.devices, s'.db.devices[id].row)
    ensures id in s.db.devices ==>
      && s'.db.devices[id].platform == s.db.devices[id].platform
      && s'.db.devices[id].row == s.db.devices[id].row
  {
    if id in s.db.devices {
      RowColumns(s, b, s', keep, id);
    } else if (b.Create? || b.UpdateToken?) && b.id != id {
      OthersSuperseded(s, b, s', keep, id);
    }
  }

  /** What any batch does to the token of a row that is there afterwards. */
  lemma TokenAfter(s: State, b: Batch, s': State, keep: nat, id: string)
    requires Inv(s, keep) && Next(s, b, s', keep) && id in s'.db.devices
    ensures Sets(b, id) ==> s'.db.devices[id].platform == b.p && s'.db.devices[id].token == b.t
    ensures !Sets(b, id) ==>
      && id in s.db.devices
      && s'.db.devices[id].token == s.db.devices[id].token
      && (Active(s'.db.devices[id]) ==> Active(s.db.devices[id]))
      && ((b.Create? || b.UpdateToken?) && Holds(s'.db.devices[id], b.p, b.t) ==> !Active(s'.db.devices[id]))
  {
    RowAfter(s, b, s', keep, id);
    if Sets(b, id) {
      if b.UpdateToken? { assert id in s.platforms && s.platforms[id] == s.db.devices[id].platform; }
    } else {
      if b.Create? || b.UpdateToken? { OthersSuperseded(s, b, s', keep, id); }
      RowColumns(s, b, s', keep, id);
    }
  }

  /** Every batch keeps at most one active device per (platform, token). */
  lemma NextKeepsOneActive(s: State, b: Batch, s': State, keep: nat)
    requires Inv(s, keep) && Next(s, b, s', keep)
    ensures OneActive(s'.db.devices)
  {
    forall x, y | x in s'.db.devices && y in s'.db.devices && SameActiveToken(s'.db.devices[x], s'.db.devices[y])
      ensures x == y
    {
      RowAfter(s, b, s', keep, x);
      RowAfter(s, b, s', keep, y);
      TokenAfter(s, b, s', keep, x);
      TokenAfter(s, b, s', keep, y);
      assert x in s.db.devices && y in s.db.devices && !Sets(b, x) && !Sets(b, y) ==>
        SameActiveToken(s.db.devices[x], s.db.devices[y]);
    }
  }

  lemma NextKeepsRows(s: State, b: Batch, s': State, keep: nat)
    requires Inv(s, keep) && Next(s, b, s', keep)
    ensures RowsDistinct(s'.db.devices) && PlatformsKept(s')
  {
    forall x, y | x in s'.db.devices && y in s'.db.devices && s'.db.devices[x].row == s'.db.devices[y].row
      ensures x == y
    {
      RowAfter(s, b, s', keep, x);
      RowAfter(s, b, s', keep, y);
    }
    forall id | id in s'.db.devices
      ensures id in s'.platforms && s'.db.devices[id].platform == s'.platforms[id]
    {
      RowAfter(s, b, s', keep, id);
    }
  }

  /** No batch leaves a subscription without its device. */
  lemma NextKeepsSubs(s: State, b: Batch, s': State, keep: nat)
    requires Inv(s, keep) && Next(s, b, s', keep)
    ensures SubsOwned(s'.db)
  {
    match b
    case Create(id, _, _, _, _) =>
      if id !in s.db.devices {
        assert s'.db.devices.Keys == (s'.db.devices - {id}).Keys + {id};
        SubsKept(s.db, s'.db);
      }
    case UpdateToken(_, _, _, _, _) => SubsKept(s.db, s'.db);
    case Prune(p, t) => RemovedKeepsSubs(s.db, s'.db, Beyond(s.db.devices, Invalid(s.db.devices, p, t), keep));
    case DeleteDevice(id) => RemovedKeepsSubs(s.db, s'.db, {id});
    case Purge(invalidBefore, unseenBefore) =>
      RemovedKeepsSubs(s.db, s'.db, Expired(s.db.devices, invalidBefore, unseenBefore));
    case _ =>
  }

  lemma SubsKept(db: Db, db': Db)
    requires SubsOwned(db) && db'.subs == db.subs && db.devices.Keys <= db'.devices.Keys
    ensures SubsOwned(db')
  {
  }

  lemma RemovedKeepsSubs(db: Db, db': Db, gone: set<string>)
    requires SubsOwned(db) && Removed(db, db', gone)
    ensures SubsOwned(db')
  {
  }

  lemma HoldersAfter(s: State, b: Batch, s': State, keep: nat, p: Platform, t: string)
    requires Inv(s, keep) && Next(s, b, s', keep)
    ensures Holders(s'.db.devices, p, t) <=
      Holders(s.db.devices, p, t) + if (b.Create? || b.UpdateToken?) && b.p == p && b.t == t then {b.id} else {}
  {
    forall id | id in Holders(s'.db.devices, p, t)
      ensures id in Holders(s.db.devices, p, t) || (Sets(b, id) && b.p == p && b.t == t)
    {
      RowAfter(s, b, s', keep, id);
      TokenAfter(s, b, s', keep, id);
    }
  }

  lemma NextKeepsBound(s: State, b: Batch, s': State, keep: nat)
    requires Inv(s, keep) && Next(s, b, s', keep)
    ensures RowsBounded(s', keep)
  {
    forall p, t
      ensures |Holders(s'.db.devices, p, t)| <= keep + 1 + s'.pending[(p, t)]
    {
      var was, now := Holders(s.db.devices, p, t), Holders(s'.db.devices, p, t);
      HoldersAfter(s, b, s', keep, p, t);
      if b.Prune? && b.p == p && b.t == t {
        PrunedCount(s.db, s'.db, p, t, keep);
      } else if (b.Create? || b.UpdateToken?) && b.p == p && b.t == t {
        CardSubset(now, was + {b.id});
      } else {
        CardSubset(now, was);
      }
    }
  }

  ghost predicate Run(run: seq<State>, batches: seq<Batch>, keep: nat) {
    && |run| == |batches| + 1
    && Inv(run[0], keep)
    && forall i :: 0 <= i < |batches| ==> Next(run[i], batches[i], run[i + 1], keep)
  }

  /** In every interleaving: one active device per token, and bounded rows. */
  lemma {:induction false} RunKeepsInv(run: seq<State>, batches: seq<Batch>, keep: nat, i: nat)
    requires Run(run, batches, keep) && i < |run|
    ensures Inv(run[i], keep)
  {
    if i > 0 {
      RunKeepsInv(run, batches, keep, i - 1);
      NextKeepsOneActive(run[i - 1], batches[i - 1], run[i], keep);
      NextKeepsRows(run[i - 1], batches[i - 1], run[i], keep);
      NextKeepsSubs(run[i - 1], batches[i - 1], run[i], keep);
      NextKeepsBound(run[i - 1], batches[i - 1], run[i], keep);
    }
  }

  /** A device keeps its platform for good; a deleted id never comes back. */
  lemma {:induction false} PlatformNeverChanges(run: seq<State>, batches: seq<Batch>, keep: nat, i: nat, j: nat,
                                                id: string)
    requires Run(run, batches, keep) && i <= j < |run| && id in run[i].platforms
    ensures id in run[j].platforms && run[j].platforms[id] == run[i].platforms[id]
    ensures id !in run[i].db.devices ==> id !in run[j].db.devices
    ensures id in run[j].db.devices ==> run[j].db.devices[id].platform == run[i].platforms[id]
    decreases j - i
  {
    RunKeepsInv(run, batches, keep, i);
    if i < j {
      if id in run[i + 1].db.devices {
        RowAfter(run[i], batches[i], run[i + 1], keep, id);
      }
      PlatformNeverChanges(run, batches, keep, i + 1, j, id);
    }
  }

  /** After a supersede, one more device may hold the token. */
  lemma OneMoreHolder(devices: Devices, others: Devices, p: Platform, t: string, now: int, id: string, d: Device)
    requires OneActive(devices) && RowsDistinct(devices) && Superseded(devices, others, p, t, now, id)
    requires Holds(d, p, t)
    requires forall other :: other in devices && other != id ==> devices[other].row != d.row
    ensures OneActive(others[id := d]) && RowsDistinct(others[id := d])
  {
    forall x, y | x in others && y in others && x != id && SameActiveToken(others[x], others[y])
      ensures x == y || y == id
    {
      assert SameActiveToken(devices[x], devices[y]) || y == id;
    }
  }

  lemma OnlySuperseded(devices: Devices, others: Devices, p: Platform, t: string, now: int, id: string)
    requires OneActive(devices) && RowsDistinct(devices) && Superseded(devices, others, p, t, now, id)
    ensures OneActive(others) && RowsDistinct(others)
  {
    forall x, y | x in others && y in others && SameActiveToken(others[x], others[y])
      ensures x == y
    {
      assert SameActiveToken(devices[x], devices[y]);
    }
  }

  // --- The store ---------------------------------------------------------------------------

  /** D1-backed storage for devices and subscriptions. Every method is one batch. */
  class Store {
    var devices: Devices
    var subs: map<string, Subscription>
    var nextRow: nat

    ghost predicate Valid()
      reads this
    {
      && OneActive(devices) && RowsDistinct(devices) && SubsOwned(Tables())
      && forall id :: id in devices ==> devices[id].row < nextRow
    }

    ghost function Tables(): Db
      reads this
    {
      Db(devices, subs)
    }

    constructor ()
      ensures Valid() && devices == map[] && subs == map[]
    {
      devices, subs, nextRow := map[], map[], 0;
    }

    /** SUPERSEDE, inside a batch. */
    method Supersede(p: Platform, t: string, now: int, except: string) returns (count: nat)
      modifies this`devices
      ensures Superseded(old(devices), devices, p, t, now, except)
      ensures count == |ActiveHolders(old(devices), p, t, except)|
      ensures forall id :: id in devices ==>
        devices[id] ==
          if id in ActiveHolders(old(devices), p, t, except)
          then old(devices)[id].(invalidatedAt := Some(now), updatedAt := now) else old(devices)[id]
    {
      var found := ActiveHolders(devices, p, t, except);
      count := |found|;
      var left := found;
      while left != {}
        invariant left <= found
        invariant devices.Keys == old(devices.Keys)
        invariant forall id :: id in devices ==>
          devices[id] ==
            if id in found - left then AfterSupersede(old(devices)[id], id, p, t, now, except) else old(devices)[id]
      {
        NonEmpty(left);
        var id :| id in left;
        devices := devices[id := devices[id].(invalidatedAt := Some(now), updatedAt := now)];
        left := left - {id};
      }
    }

    /** Inserts the device and supersedes every other active holder of its token.
        A duplicate id undoes the batch. */
    method CreateDevice(id: string, p: Platform, t: string, env: Option<string>, now: int)
      returns (ok: bool, superseded: nat)
      requires Valid()
      modifies this
      ensures Valid() && Created(old(Tables()), Tables(), id, p, t, env, now)
      ensures ok <==> id !in old(devices)
      ensures superseded == if ok then |ActiveHolders(old(devices), p, t, id)| else 0
    {
      if id in devices { return false, 0; }
      superseded := Supersede(p, t, now, id);
      ghost var others := devices;
      var d := Device(p, t, env, None, now, now, now, None, nextRow);
      OneMoreHolder(old(devices), others, p, t, now, id, d);
      devices := devices[id := d];
      assert devices - {id} == others;
      nextRow := nextRow + 1;
      ok := true;
    }

    /** Replaces the token, clears an invalidation, supersedes other holders. */
    method UpdateDeviceToken(id: string, p: Platform, t: string, env: Option<string>, now: int)
      returns (superseded: nat)
      requires Valid() && (id in devices ==> devices[id].platform == p)
      modifies this
      ensures Valid() && TokenUpdated(old(Tables()), Tables(), id, p, t, env, now)
      ensures id in devices ==>
        && devices[id].token == t && devices[id].environment == env && devices[id].invalidatedAt.None?
        && devices[id].updatedAt == now && devices[id].seenAt == now
        && devices[id].createdAt == old(devices)[id].createdAt
        && devices[id].deliveredAt == old(devices)[id].deliveredAt
      ensures superseded == |ActiveHolders(old(devices), p, t, id)|
    {
      superseded := Supersede(p, t, now, id);
      if id in devices {
        OneMoreHolder(old(devices), devices, p, t, now, id, WithToken(devices[id], t, env, now));
        devices := devices[id := WithToken(devices[id], t, env, now)];
      } else {
        OnlySuperseded(old(devices), devices, p, t, now, id);
      }
    }

    method RemoveDevices(gone: set<string>)
      requires Valid()
      modifies this`devices, this`subs
      ensures Valid() && Removed(old(Tables()), Tables(), gone)
    {
      subs := subs - (set s | s in subs && subs[s].device in gone);
      devices := devices - gone;
    }

    /** Keeps the newest `keep` invalid rows of the token; the older ones leave with
        their subscriptions. */
    method PruneInvalidRowsForToken(p: Platform, t: string, keep: nat)
      requires Valid()
      modifies this`devices, this`subs
      ensures Valid() && Pruned(old(Tables()), Tables(), p, t, keep)
      ensures |Holders(devices, p, t)| <= keep + 1
      ensures |Invalid(devices, p, t)| == Min(keep, |Invalid(old(devices), p, t)|)
      ensures forall id :: id in devices ==> id in old(devices) && devices[id] == old(devices)[id]
      ensures forall gone :: gone in old(devices) && gone !in devices ==> InvalidRow(old(devices)[gone], p, t)
      ensures forall kept, gone ::
        kept in devices && InvalidRow(devices[kept], p, t) && gone in old(devices) && gone !in devices ==>
          Outlasts(devices[kept], old(devices)[gone])
      ensures forall s :: s in subs <==> s in old(subs) && old(subs)[s].device in devices
      ensures forall s :: s in subs ==> subs[s] == old(subs)[s]
    {
      var invalid := Invalid(devices, p, t);
      var gone := Beyond(devices, invalid, keep);
      PrunedCountAfter(p, t, keep);
      forall a, b | a in invalid - gone && b in gone ensures Outlasts(devices[a], devices[b]) {
        KeptAreNewest(devices, invalid, keep, a, b);
      }
      RemoveDevices(gone);
    }

    lemma PrunedCountAfter(p: Platform, t: string, keep: nat)
      requires Valid()
      ensures
        var left := devices - Beyond(devices, Invalid(devices, p, t), keep);
        |Holders(left, p, t)| <= keep + 1 && |Invalid(left, p, t)| == Min(keep, |Invalid(devices, p, t)|)
    {
      var gone := Beyond(devices, Invalid(devices, p, t), keep);
      PrunedCount(Tables(), Db(devices - gone, subs - (set s | s in subs && subs[s].device in gone)), p, t, keep);
    }

    /** Marks the device invalid, but only while it still holds the rejected token. */
    method InvalidateDevice(id: string, t: string, now: int) returns (changed: bool)
      requires Valid()
      modifies this`devices
      ensures Valid() && devices == Invalidated(old(devices), id, t, now)
      ensures changed <==> id in old(devices) && old(devices)[id].token == t && Active(old(devices)[id])
      ensures forall other :: other in old(devices) && old(devices)[other] != devices[other] ==>
        other == id && old(devices)[other].token == t
    {
      changed := id in devices && devices[id].token == t && Active(devices[id]);
      if changed {
        devices := devices[id := devices[id].(invalidatedAt := Some(now), updatedAt := now)];
      }
    }

    method RecordDelivery(id: string, now: int)
      requires Valid()
      modifies this`devices
      ensures Valid() && devices == Delivered(old(devices), id, now)
    {
      if id in devices {
        devices := devices[id := devices[id].(deliveredAt := Some(now), seenAt := Max(devices[id].seenAt, now))];
      }
    }

    method TouchDevice(id: string, now: int)
      requires Valid()
      modifies this`devices
      ensures Valid() && devices == Touched(old(devices), id, now)
    {
      if id in devices { devices := devices[id := devices[id].(seenAt := now)]; }
    }

    method DeleteDevice(id: string)
      requires Valid()
      modifies this`devices, this`subs
      ensures Valid() && Removed(old(Tables()), Tables(), {id})
    {
      RemoveDevices({id});
    }

    /** Fails on a duplicate id or endpoint, and when the device is gone meanwhile. */
    method CreateSubscription(sub: string, s: Subscription) returns (ok: bool)
      requires Valid()
      modifies this`subs
      ensures Valid()
      ensures ok <==>
        sub !in old(subs) && s.device in devices && forall o :: o in old(subs) ==> old(subs)[o].endpoint != s.endpoint
      ensures subs == if ok then old(subs)[sub := s] else old(subs)
    {
      ok := sub !in subs && s.device in devices && forall o :: o in subs ==> subs[o].endpoint != s.endpoint;
      if ok { subs := subs[sub := s]; }
    }

    method DeleteSubscription(id: string, sub: string) returns (found: bool)
      requires Valid()
      modifies this`subs
      ensures Valid()
      ensures found <==> sub in old(subs) && old(subs)[sub].device == id
      ensures subs == if found then old(subs) - {sub} else old(subs)
    {
      found := sub in subs && subs[sub].device == id;
      if found { subs := subs - {sub}; }
    }

    /** The device behind an endpoint, as it is now. */
    method FindByEndpoint(endpoint: string) returns (r: Option<(string, Device)>)
      requires Valid()
      ensures r.Some? ==> r.value.0 in devices && devices[r.value.0] == r.value.1
      ensures r.Some? ==> exists s :: s in subs && subs[s] == Subscription(r.value.0, endpoint, subs[s].key)
      ensures r.None? ==> forall s :: s in subs ==> subs[s].endpoint != endpoint
    {
      var found := set s | s in subs && subs[s].endpoint == endpoint;
      if found == {} {
        r := None;
        assert forall s :: s in subs && subs[s].endpoint == endpoint ==> s in found;
      } else {
        NonEmpty(found);
        var s :| s in found;
        r := Some((subs[s].device, devices[subs[s].device]));
      }
    }

    method Purge(invalidBefore: int, unseenBefore: int)
      requires Valid()
      modifies this`devices, this`subs
      ensures Valid() && Removed(old(Tables()), Tables(), Expired(old(devices), invalidBefore, unseenBefore))
      ensures forall id :: id in devices <==>
        && id in old(devices) && old(devices)[id].seenAt >= unseenBefore
        && (old(devices)[id].invalidatedAt.None? || old(devices)[id].invalidatedAt.value >= invalidBefore)
    {
      RemoveDevices(Expired(devices, invalidBefore, unseenBefore));
    }
  }
}
