/** `redeemToken` and `RevokeEnrollmentToken` over the tables, updated in place. Each statement of a redemption is one
    method, proved to be that step of Enrolment; RedeemToken is the whole of it with nothing coming in between. */
module EnrolmentObject {
  import opened Basics
  import opened Enrolment
  import opened EnrolmentProperties

  datatype Identity = Identity(device: DeviceId, org: OrgId, secret: string)

  datatype Refusal = TokenNotRedeemable | DatabaseFailed

  /** After the lookups the row is settled, the tables are as they were, and rolling back leaves no trace. */
  lemma LookedUpIsReady(
      db: Db, tx: TxId, now: Instant, req: Request, secret: string, first: Option<DeviceId>, second: Option<DeviceId>)
    requires Sound(db) && MayLookUp(db, tx, now, req, secret, first, second)
    ensures var looked := LookedUp(db, tx, now, req, secret, first, second);
            && Sound(looked) && tx in looked.open && (looked.open[tx].stage.Picked? || looked.open[tx].stage.Missing?)
            && looked.devices == db.devices && looked.used == db.used && looked.open[tx].secret == secret
            && looked.open[tx].token.org == db.tokens[Hash(req.token)].org && Step(looked, Abort(tx)) == db
  {
    hide Sound, Found, Adoptable;
    var begun := Step(db, Begin(tx, now, req, secret));
    StepKeepsSound(db, Begin(tx, now, req, secret));
    StepKeepsSound(begun, Search(tx, first));
    var found := AfterSearch(db, tx, now, req, secret, first);
    if found.open[tx].stage.Unmatched? { StepKeepsSound(found, Adopt(tx, second)); }
    assert Step(LookedUp(db, tx, now, req, secret, first, second), Abort(tx)).open == db.open;
  }

  /** The unique index sees in the new table what the statement does to the old one. */
  lemma ClashShows(db: Db, t: Tx, id: DeviceId, after: map<DeviceId, Device>)
    requires after == db.devices[id := Written(db, t, id)]
    ensures (exists j :: j in after && j != id && SameMachine(after[id], after[j])) <==> Clashes(db, t, id)
  {
    assert forall j :: j != id ==> (j in after <==> j in db.devices) && (j in after ==> after[j] == db.devices[j]);
    if j :| j in db.devices && j != id && SameMachine(Written(db, t, id), db.devices[j]) {
      assert j in after && SameMachine(after[id], after[j]);
    }
  }

  /** A row that meets the condition, or none exactly when no row does. */
  ghost predicate Finds(devices: map<DeviceId, Device>, pick: Option<DeviceId>, meets: Device -> bool) {
    match pick
    case Some(id) => id in devices && meets(devices[id])
    case None => forall id :: id in devices ==> !meets(devices[id])
  }

  class Tables {
    var devices: map<DeviceId, Device>
    var tokens: map<Hash, Token>
    var open: map<TxId, Tx>
    ghost var used: set<DeviceId>

    ghost function View(): Db
      reads this
    {
      Db(devices, tokens, open, used)
    }

    constructor (db: Db)
      ensures View() == db
    {
      devices, tokens, open, used := db.devices, db.tokens, db.open, db.used;
    }

    /** The transaction begins and reads the token; `secret` is the generated secret. */
    method BeginRedeem(tx: TxId, now: Instant, req: Request, secret: string) returns (ok: bool)
      requires tx !in open
      modifies this`open
      ensures View() == Step(old(View()), Begin(tx, now, req, secret))
      ensures ok <==> tx in open
      ensures ok <==> Hash(req.token) in tokens && tokens[Hash(req.token)].revokedAt == None &&
                      now < tokens[Hash(req.token)].expiresAt
    {
      var h := Hash(req.token);
      ok := h in tokens && tokens[h].revokedAt.None? && tokens[h].expiresAt > now;
      if ok {
        open := open[tx := Tx(now, req, secret, tokens[h], Searching, false)];
      }
    }

    /** The SELECT by machine id, or by name for want of one; returns what it found. */
    method SearchRow(tx: TxId) returns (pick: Option<DeviceId>)
      requires tx in open && open[tx].stage.Searching?
      modifies this`open
      ensures Enabled(old(View()), Search(tx, pick)) && View() == Step(old(View()), Search(tx, pick))
      ensures var t := old(open)[tx];
              Finds(devices, pick, (d: Device) =>
                d.org == t.token.org &&
                if TrimSpace(t.req.machineId) != "" then d.machineId == Some(TrimSpace(t.req.machineId))
                else d.name == t.req.name && d.kind == t.req.kind)
    {
      var t := open[tx];
      var machine := TrimSpace(t.req.machineId);
      var found: set<DeviceId>;
      if machine != "" {
        found := set id | id in devices && devices[id].org == t.token.org && devices[id].machineId == Some(machine);
      } else {
        found := set id | id in devices && SameName(devices[id], t.token.org, t.req);
      }
      assert found == Found(View(), t);
      assert forall id :: id in devices && id !in found ==>
          !(devices[id].org == t.token.org &&
            if machine != "" then devices[id].machineId == Some(machine)
            else devices[id].name == t.req.name && devices[id].kind == t.req.kind);
      pick := None;
      var stage := if machine == "" then Missing else Unmatched;
      if found != {} {
        var id :| id in found;
        pick, stage := Some(id), Picked(id);
      }
      open := open[tx := t.(stage := stage)];
    }

    /** The SELECT of an unclaimed row of that name. */
    method AdoptRow(tx: TxId) returns (pick: Option<DeviceId>)
      requires tx in open && open[tx].stage.Unmatched?
      modifies this`open
      ensures Enabled(old(View()), Adopt(tx, pick)) && View() == Step(old(View()), Adopt(tx, pick))
      ensures var t := old(open)[tx];
              Finds(devices, pick, (d: Device) =>
                d.org == t.token.org && d.name == t.req.name && d.kind == t.req.kind && d.machineId == None)
    {
      var t := open[tx];
      var found := set id | id in devices && SameName(devices[id], t.token.org, t.req) && devices[id].machineId.None?;
      assert found == Adoptable(View(), t);
      assert forall id :: id in devices && id !in found ==>
          !(SameName(devices[id], t.token.org, t.req) && devices[id].machineId.None?);
      pick := None;
      var stage := Missing;
      if found != {} {
        var id :| id in found;
        pick, stage := Some(id), Picked(id);
      }
      open := open[tx := t.(stage := stage, adopts := true)];
    }

    /** The capabilities: screen defaults on, terminal off. */
    method Capabilities(req: Request) returns (allowScreen: bool, allowTerminal: bool)
      ensures allowScreen <==> req.allowScreen != Some(false)
      ensures allowTerminal <==> req.allowTerminal == Some(true)
    {
      allowScreen, allowTerminal := true, false;
      if req.allowScreen.Some? {
        allowScreen := req.allowScreen.value;
      }
      if req.allowTerminal.Some? {
        allowTerminal := req.allowTerminal.value;
      }
    }

    /** The INSERT. */
    method InsertRow(id: DeviceId, t: Token, req: Request, machine: string, secret: string, now: Instant)
      requires machine == TrimSpace(req.machineId)
      modifies this`devices
      ensures devices == old(devices)[id := NewRow(t, req, secret, now)]
    {
      var metadata := "{}";
      if |req.metadata| > 0 {
        metadata := req.metadata;
      }
      var allowScreen, allowTerminal := Capabilities(req);
      var machineId := if machine == "" then None else Some(machine);
      devices := devices[id := Device(t.org, req.name, req.kind, req.osVersion, Hash(secret), t.assignedAdmin, t.group,
                                      allowScreen, allowTerminal, metadata, machineId, t.id, Offline, now, now, now)];
    }

    /** The UPDATE. */
    method UpdateRow(id: DeviceId, t: Token, req: Request, machine: string, secret: string, now: Instant)
      requires machine == TrimSpace(req.machineId) && id in devices
      modifies this`devices
      ensures devices == old(devices)[id := UpdatedRow(old(devices)[id], t, req, secret, now)]
    {
      var allowScreen, allowTerminal := Capabilities(req);
      var row := devices[id].(
        secretHash := Hash(secret), name := req.name, osVersion := req.osVersion, assignedAdmin := t.assignedAdmin,
        group := t.group, allowScreen := allowScreen, allowTerminal := allowTerminal, enrolledVia := t.id,
        status := Offline, lastSeen := now, updatedAt := now);
      if machine != "" {
        row := row.(machineId := Some(machine));
      }
      devices := devices[id := row];
    }

    /** The UPDATE or INSERT and the commit, or the rollback; `newId` is the generated id, `committed` whether the
        database took what the unique index did not refuse. */
    method WriteRow(tx: TxId, newId: DeviceId, committed: bool) returns (granted: bool, id: DeviceId)
      requires tx in open && (open[tx].stage.Picked? || open[tx].stage.Missing?)
      requires newId !in used && newId !in devices
      modifies this`devices, this`open, this`used
      ensures Enabled(old(View()), Write(tx, id))
      ensures View() == Step(old(View()), if committed then Write(tx, id) else Abort(tx))
      ensures granted <==> committed && (Reaches(old(View()), Write(tx, id)) || Vanishes(old(View()), Write(tx, id)))
    {
      var t := open[tx];
      var machine := TrimSpace(t.req.machineId);
      id := if t.stage.Picked? then t.stage.id else newId;
      var matched := t.stage.Missing? || id in devices;
      var undo, clash := devices, false;
      if matched {
        if t.stage.Picked? {
          UpdateRow(id, t.token, t.req, machine, t.secret, t.now);
        } else {
          InsertRow(id, t.token, t.req, machine, t.secret, t.now);
        }
        ClashShows(old(View()), t, id, devices);
        clash := exists j :: j in devices && j != id && SameMachine(devices[id], devices[j]);
      }
      granted := committed && !clash;
      if !granted {
        devices := undo;
      } else if matched {
        used := used + {id};
      }
      open := open - {tx};
    }

    /** The token and the row, looked up with nothing coming in between. */
    method LookUp(tx: TxId, now: Instant, req: Request, secret: string)
      returns (ok: bool, first: Option<DeviceId>, second: Option<DeviceId>)
      requires tx !in open
      modifies this`open
      ensures ok <==> Redeemable(old(View()), now, req.token)
      ensures !ok ==> View() == old(View())
      ensures ok ==> MayLookUp(old(View()), tx, now, req, secret, first, second)
      ensures ok ==> View() == LookedUp(old(View()), tx, now, req, secret, first, second)
    {
      first, second := None, None;
      ok := BeginRedeem(tx, now, req, secret);
      if !ok {
        return;
      }
      first := SearchRow(tx);
      if open[tx].stage.Unmatched? {
        second := AdoptRow(tx);
      }
    }

    /** The whole of it: refused, with nothing changed, when the token is not redeemable or the transaction does not
        commit; otherwise the lookups and the write, and the identity they give. */
    method RedeemToken(tx: TxId, now: Instant, req: Request, secret: string, newId: DeviceId, committed: bool)
      returns (r: Result<Identity, Refusal>, first: Option<DeviceId>, second: Option<DeviceId>)
      requires Sound(View()) && tx !in open && newId !in used && newId !in devices
      modifies this`devices, this`open, this`used
      ensures r.Ok? <==> committed && Redeemable(old(View()), now, req.token)
      ensures r.Ok? ==> Hash(req.token) in old(tokens) && old(tokens)[Hash(req.token)].revokedAt == None &&
                        now < old(tokens)[Hash(req.token)].expiresAt
      ensures r.Err? ==> View() == old(View())
      ensures r.Err? ==> (r.error.TokenNotRedeemable? <==> !Redeemable(old(View()), now, req.token))
      ensures r.Ok? ==> MayLookUp(old(View()), tx, now, req, secret, first, second)
      ensures r.Ok? ==> var looked := LookedUp(old(View()), tx, now, req, secret, first, second);
                        Enabled(looked, Write(tx, r.value.device)) && View() == Step(looked, Write(tx, r.value.device))
      ensures r.Ok? ==> r.value.device in View().devices && r.value.secret == secret
      ensures r.Ok? ==> r.value.org == View().devices[r.value.device].org
    {
      ghost var db := View();
      var ok;
      ok, first, second := LookUp(tx, now, req, secret);
      if !ok {
        return Err(TokenNotRedeemable), first, second;
      }
      ghost var looked := View();
      LookedUpIsReady(db, tx, now, req, secret, first, second);
      var org := open[tx].token.org;
      var granted, id := WriteRow(tx, newId, committed);
      AloneIsSafe(db, tx, now, req, secret, first, second, id);
      if !granted {
        return Err(DatabaseFailed), first, second;
      }
      RowAfterWrite(looked, Write(tx, id));
      return Ok(Identity(id, org, secret)), first, second;
    }

    /** `AssignDevice` and `DeleteDevice`, in the tables. */
    method AssignDevice(now: Instant, id: DeviceId, org: OrgId, admin: Option<UserId>, team: Option<nat>)
      returns (found: bool)
      modifies this`devices
      ensures View() == Step(old(View()), Assign(now, id, org, admin, team))
      ensures found <==> id in old(devices) && old(devices)[id].org == org
      ensures found ==> id in devices && devices[id].assignedAdmin == admin && devices[id].group == team
      ensures found ==> devices[id].updatedAt == now
    {
      found := id in devices && devices[id].org == org;
      if found {
        devices := devices[id := devices[id].(assignedAdmin := admin, group := team, updatedAt := now)];
      }
    }

    method DeleteDevice(id: DeviceId, org: OrgId) returns (found: bool)
      modifies this`devices
      ensures View() == Step(old(View()), Delete(id, org))
      ensures found <==> id in old(devices) && old(devices)[id].org == org
    {
      found := id in devices && devices[id].org == org;
      if found {
        devices := devices - {id};
      }
    }

    /** `found` is false for a link that is unknown, somebody else's or already revoked, all alike. */
    method RevokeEnrollmentToken(now: Instant, user: User, token: TokenId) returns (found: bool)
      modifies this`tokens
      ensures View() == Step(old(View()), Revoke(now, user, token))
      ensures found <==> exists h :: h in old(tokens) && Revocable(old(tokens)[h], user, token)
      ensures !found ==> View() == old(View())
      ensures tokens.Keys == old(tokens).Keys
      ensures forall h :: h in tokens && tokens[h] != old(tokens)[h] ==>
                tokens[h] == old(tokens)[h].(revokedAt := Some(now), revokedBy := Some(user.id))
    {
      var hit := set h | h in tokens && Revocable(tokens[h], user, token);
      tokens := map h | h in tokens ::
        if h in hit then tokens[h].(revokedAt := Some(now), revokedBy := Some(user.id)) else tokens[h];
      found := hit != {};
      assert tokens == Step(old(View()), Revoke(now, user, token)).tokens;
      if !found {
        assert forall h :: h in old(tokens) ==> h !in hit;
        assert tokens == old(tokens);
      }
    }
  }
}
