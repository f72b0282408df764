/** Device identity on enrolment: `redeemToken`, statement by statement, with other redemptions, revocations,
    assignments and deletions of devices coming in between. A transaction reads what is committed when each of
    its SELECTs runs, takes no lock on the row it picks, and writes and commits in one step: a row that is being
    written makes other writers wait. Several rows may match a lookup by name; the database returns any. */
module Enrolment {
  import opened Basics

  type OrgId = nat
  type UserId = nat
  type TokenId = nat
  type DeviceId = nat
  type Instant = nat

  /** `auth.HashSecret`. */
  datatype Hash = Hash(secret: string)

  datatype DeviceType = Windows | Android

  datatype Status = Offline | Online | InSession

  datatype Device = Device(
    org: OrgId, name: string, kind: DeviceType, osVersion: string, secretHash: Hash,
    assignedAdmin: Option<UserId>, group: Option<nat>, allowScreen: bool, allowTerminal: bool,
    metadata: string, machineId: Option<string>, enrolledVia: TokenId,
    status: Status, lastSeen: Instant, createdAt: Instant, updatedAt: Instant)

  datatype Token = Token(
    id: TokenId, org: OrgId, assignedAdmin: Option<UserId>, group: Option<nat>, createdBy: Option<UserId>,
    expiresAt: Instant, revokedAt: Option<Instant>, revokedBy: Option<UserId>)

  datatype Request = Request(
    token: string, name: string, kind: DeviceType, osVersion: string, machineId: string,
    allowScreen: Option<bool>, allowTerminal: Option<bool>, metadata: string)

  type TxId = nat

  /** How far a redemption has come: its token is found; no row has its machine id; this row is its own; or there
      is none, and it will insert one. */
  datatype Stage = Searching | Unmatched | Picked(id: DeviceId) | Missing

  /** A redemption under way. `now` is the clock when its transaction began, `token` the token as it read it, and
      `adopts` whether the row was picked for its name, unclaimed. */
  datatype Tx = Tx(now: Instant, req: Request, secret: string, token: Token, stage: Stage, adopts: bool)

  /** Tokens are keyed by their hash, which the table declares unique. `used` are all device ids ever given. */
  datatype Db = Db(
    devices: map<DeviceId, Device>, tokens: map<Hash, Token>, open: map<TxId, Tx>, used: set<DeviceId>)

  datatype User = User(id: UserId, org: OrgId, superAdmin: bool)

  // ----- strings.TrimSpace -----

  predicate IsSpace(c: char) {
    var n := c as int;
    0x09 <= n <= 0x0D || 0x2000 <= n <= 0x200A ||
    n in {0x20, 0x85, 0xA0, 0x1680, 0x2028, 0x2029, 0x202F, 0x205F, 0x3000}
  }

  predicate Blank(s: string) { forall i :: 0 <= i < |s| ==> IsSpace(s[i]) }

  function TrimLeft(s: string): (r: string)
    ensures |r| <= |s| && (r == "" || !IsSpace(r[0]))
  {
    if s != "" && IsSpace(s[0]) then TrimLeft(s[1..]) else s
  }

  function TrimRight(s: string): (r: string)
    ensures |r| <= |s| && (r == "" || !IsSpace(r[|r| - 1]))
  {
    if s != "" && IsSpace(s[|s| - 1]) then TrimRight(s[..|s| - 1]) else s
  }

  function TrimSpace(s: string): string { TrimRight(TrimLeft(s)) }

  lemma {:induction false} LeadingBlanksGo(before: string, s: string)
    requires Blank(before) && s != "" && !IsSpace(s[0])
    ensures TrimLeft(before + s) == s
  {
    if before == "" {
      assert before + s == s;
    } else {
      assert (before + s)[1..] == before[1..] + s;
      LeadingBlanksGo(before[1..], s);
    }
  }

  lemma {:induction false} TrailingBlanksGo(s: string, after: string)
    requires Blank(after) && s != "" && !IsSpace(s[|s| - 1])
    ensures TrimRight(s + after) == s
  {
    if after == "" {
      assert s + after == s;
    } else {
      assert (s + after)[..|s + after| - 1] == s + after[..|after| - 1];
      TrailingBlanksGo(s, after[..|after| - 1]);
    }
  }

  /** A machine is recognised however its id is padded. */
  lemma PaddingIsIgnored(before: string, id: string, after: string)
    requires Blank(before) && Blank(after) && id != "" && !IsSpace(id[0]) && !IsSpace(id[|id| - 1])
    ensures TrimSpace(before + id + after) == id
  {
    assert before + id + after == before + (id + after);
    LeadingBlanksGo(before, id + after);
    TrailingBlanksGo(id, after);
  }

  // ----- redeemToken -----

  predicate Redeemable(db: Db, now: Instant, token: string) {
    var h := Hash(token);
    h in db.tokens && db.tokens[h].revokedAt.None? && db.tokens[h].expiresAt > now
  }

  /** The rows of one machine. */
  function Rows(db: Db, org: OrgId, machine: string): set<DeviceId> {
    set id | id in db.devices && db.devices[id].org == org && db.devices[id].machineId == Some(machine)
  }

  predicate SameName(d: Device, org: OrgId, req: Request) { d.org == org && d.name == req.name && d.kind == req.kind }

  function Namesakes(db: Db, org: OrgId, req: Request): set<DeviceId> {
    set id | id in db.devices && SameName(db.devices[id], org, req)
  }

  function Unclaimed(db: Db, ids: set<DeviceId>): set<DeviceId> {
    set id | id in ids && id in db.devices && db.devices[id].machineId.None?
  }

  function NullIfEmpty(s: string): Option<string> { if s == "" then None else Some(s) }

  function OrElse<T>(o: Option<T>, default: T): T { if o.Some? then o.value else default }

  function Machine(t: Tx): string { TrimSpace(t.req.machineId) }

  function NewRow(t: Token, req: Request, secret: string, now: Instant): Device {
    Device(
      t.org, req.name, req.kind, req.osVersion, Hash(secret), t.assignedAdmin, t.group,
      OrElse(req.allowScreen, true), OrElse(req.allowTerminal, false),
      if req.metadata == "" then "{}" else req.metadata, NullIfEmpty(TrimSpace(req.machineId)), t.id,
      Offline, now, now, now)
  }

  function UpdatedRow(d: Device, t: Token, req: Request, secret: string, now: Instant): Device {
    var machine := NullIfEmpty(TrimSpace(req.machineId));
    d.(secretHash := Hash(secret), name := req.name, osVersion := req.osVersion, assignedAdmin := t.assignedAdmin,
       group := t.group, allowScreen := OrElse(req.allowScreen, true),
       allowTerminal := OrElse(req.allowTerminal, false),
       machineId := if machine.Some? then machine else d.machineId, enrolledVia := t.id,
       status := Offline, lastSeen := now, updatedAt := now)
  }

  /** The row as a transaction leaves it. */
  function Written(db: Db, t: Tx, id: DeviceId): Device {
    if id in db.devices then UpdatedRow(db.devices[id], t.token, t.req, t.secret, t.now)
    else NewRow(t.token, t.req, t.secret, t.now)
  }

  predicate SameMachine(d: Device, e: Device) { d.org == e.org && d.machineId.Some? && d.machineId == e.machineId }

  /** The unique index refuses the write: another row has this machine id. */
  predicate Clashes(db: Db, t: Tx, id: DeviceId) {
    exists j :: j in db.devices && j != id && SameMachine(Written(db, t, id), db.devices[j])
  }

  // ----- Steps -----

  datatype Action =
    | Begin(tx: TxId, now: Instant, req: Request, secret: string)
    | Search(tx: TxId, pick: Option<DeviceId>)
    | Adopt(tx: TxId, pick: Option<DeviceId>)
    | Write(tx: TxId, id: DeviceId)
    | Abort(tx: TxId)
    | Revoke(now: Instant, user: User, token: TokenId)
    | Assign(now: Instant, device: DeviceId, org: OrgId, admin: Option<UserId>, team: Option<nat>)
    | Delete(device: DeviceId, org: OrgId)

  /** The first lookup: by machine id, or by name when there is none. */
  function Found(db: Db, t: Tx): set<DeviceId> {
    if Machine(t) == "" then Namesakes(db, t.token.org, t.req) else Rows(db, t.token.org, Machine(t))
  }

  /** The second lookup: a row of that name that no machine has claimed. */
  function Adoptable(db: Db, t: Tx): set<DeviceId> { Unclaimed(db, Namesakes(db, t.token.org, t.req)) }

  predicate Picks(rows: set<DeviceId>, pick: Option<DeviceId>) {
    if rows == {} then pick.None? else pick.Some? && pick.value in rows
  }

  predicate Enabled(db: Db, a: Action) {
    match a
    case Begin(tx, _, _, _) => tx !in db.open
    case Search(tx, pick) => tx in db.open && db.open[tx].stage.Searching? && Picks(Found(db, db.open[tx]), pick)
    case Adopt(tx, pick) => tx in db.open && db.open[tx].stage.Unmatched? && Picks(Adoptable(db, db.open[tx]), pick)
    case Write(tx, id) =>
      tx in db.open &&
      (db.open[tx].stage == Picked(id) || (db.open[tx].stage.Missing? && id !in db.used && id !in db.devices))
    case Abort(tx) => tx in db.open
    case _ => true
  }

  /** The write changes a row or adds one. */
  predicate Reaches(db: Db, a: Action) {
    && a.Write? && Enabled(db, a) && !Clashes(db, db.open[a.tx], a.id)
    && (db.open[a.tx].stage.Picked? ==> a.id in db.devices)
  }

  /** The row picked has been deleted: the UPDATE matches nothing, and the redemption is granted all the same. */
  predicate Vanishes(db: Db, a: Action) {
    a.Write? && Enabled(db, a) && db.open[a.tx].stage.Picked? && a.id !in db.devices
  }

  /** The row picked belongs to another machine by now: the UPDATE does not look. */
  predicate Overwrites(db: Db, a: Action) {
    && Reaches(db, a) && a.id in db.devices && db.devices[a.id].machineId.Some?
    && Machine(db.open[a.tx]) != "" && db.devices[a.id].machineId != Some(Machine(db.open[a.tx]))
  }

  /** The WHERE clause of the revocation. */
  predicate Revocable(t: Token, user: User, token: TokenId) {
    t.id == token && t.org == user.org && t.revokedAt.None? && (user.superAdmin || t.createdBy == Some(user.id))
  }

  predicate Deletes(db: Db, a: Action, id: DeviceId) {
    a.Delete? && a.device == id && id in db.devices && db.devices[id].org == a.org
  }

  function Step(db: Db, a: Action): Db
    requires Enabled(db, a)
  {
    match a
    case Begin(tx, now, req, secret) =>
      if !Redeemable(db, now, req.token) then db
      else db.(open := db.open[tx := Tx(now, req, secret, db.tokens[Hash(req.token)], Searching, false)])
    case Search(tx, pick) =>
      var t := db.open[tx];
      var stage := if pick.Some? then Picked(pick.value) else if Machine(t) == "" then Missing else Unmatched;
      db.(open := db.open[tx := t.(stage := stage)])
    case Adopt(tx, pick) =>
      var stage := if pick.Some? then Picked(pick.value) else Missing;
      db.(open := db.open[tx := db.open[tx].(stage := stage, adopts := true)])
    case Write(tx, id) =>
      var done := db.(open := db.open - {tx});
      if !Reaches(db, a) then done
      else done.(devices := db.devices[id := Written(db, db.open[tx], id)], used := db.used + {id})
    case Abort(tx) => db.(open := db.open - {tx})
    case Revoke(now, user, token) =>
      db.(tokens := map h | h in db.tokens ::
        if Revocable(db.tokens[h], user, token)
        then db.tokens[h].(revokedAt := Some(now), revokedBy := Some(user.id)) else db.tokens[h])
    case Assign(now, id, org, admin, team) =>
      if id !in db.devices || db.devices[id].org != org then db
      else db.(devices := db.devices[id := db.devices[id].(assignedAdmin := admin, group := team, updatedAt := now)])
    case Delete(id, org) =>
      if Deletes(db, a, id) then db.(devices := db.devices - {id}) else db
  }

  predicate ValidRun(db: Db, run: seq<Action>)
    decreases |run|
  {
    run == [] || (Enabled(db, run[0]) && ValidRun(Step(db, run[0]), run[1..]))
  }

  function Exec(db: Db, run: seq<Action>): Db
    requires ValidRun(db, run)
    decreases |run|
  {
    if run == [] then db else Exec(Step(db, run[0]), run[1..])
  }

  // ----- A redemption by itself -----

  function AfterSearch(db: Db, tx: TxId, now: Instant, req: Request, secret: string, first: Option<DeviceId>): Db
    requires tx !in db.open && Redeemable(db, now, req.token)
    requires Enabled(Step(db, Begin(tx, now, req, secret)), Search(tx, first))
  {
    Step(Step(db, Begin(tx, now, req, secret)), Search(tx, first))
  }

  /** The lookups of a redemption, nothing coming in between, may turn out so. */
  predicate MayLookUp(
    db: Db, tx: TxId, now: Instant, req: Request, secret: string, first: Option<DeviceId>, second: Option<DeviceId>)
  {
    && tx !in db.open && Redeemable(db, now, req.token)
    && Enabled(Step(db, Begin(tx, now, req, secret)), Search(tx, first))
    && var db2 := AfterSearch(db, tx, now, req, secret, first);
    db2.open[tx].stage.Unmatched? ==> Enabled(db2, Adopt(tx, second))
  }

  function LookedUp(
    db: Db, tx: TxId, now: Instant, req: Request, secret: string, first: Option<DeviceId>, second: Option<DeviceId>): Db
    requires MayLookUp(db, tx, now, req, secret, first, second)
  {
    var db2 := AfterSearch(db, tx, now, req, secret, first);
    if db2.open[tx].stage.Unmatched? then Step(db2, Adopt(tx, second)) else db2
  }

  // ----- Invariant -----

  /** The partial unique index on (org_id, machine_id). */
  ghost predicate Unique(db: Db) {
    forall i, j :: i in db.devices && j in db.devices && SameMachine(db.devices[i], db.devices[j]) ==> i == j
  }

  /** Ids are never given twice, and a row picked, while it is there, is in the token's organisation. */
  ghost predicate Sound(db: Db) {
    && Unique(db)
    && (forall id :: id in db.devices ==> id in db.used)
    && (forall tx :: tx in db.open && db.open[tx].stage.Picked? ==>
          db.open[tx].stage.id in db.used &&
          (db.open[tx].stage.id in db.devices ==> db.devices[db.open[tx].stage.id].org == db.open[tx].token.org))
  }

  lemma StepKeepsUnique(db: Db, a: Action)
    requires Unique(db) && Enabled(db, a)
    ensures Unique(Step(db, a))
  {
    if Reaches(db, a) {
      assert forall j :: j in db.devices && j != a.id ==> !SameMachine(Step(db, a).devices[a.id], db.devices[j]);
    }
  }

  lemma StepKeepsSound(db: Db, a: Action)
    requires Sound(db) && Enabled(db, a)
    ensures Sound(Step(db, a))
  {
    StepKeepsUnique(db, a);
  }

  lemma {:induction false} RunKeepsSound(db: Db, run: seq<Action>)
    requires Sound(db) && ValidRun(db, run)
    ensures Sound(Exec(db, run))
    decreases |run|
  {
    if run != [] {
      StepKeepsSound(db, run[0]);
      RunKeepsSound(Step(db, run[0]), run[1..]);
    }
  }
}
