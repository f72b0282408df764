/** What enrolment promises of device identity, for every interleaving of redemptions, and where it stops. */
module EnrolmentProperties {
  import opened Basics
  import opened Enrolment

  // ----- One write -----

  /** Over one step a claimed row that stays changes its machine exactly when a redemption for another machine
      writes the row it once picked. */
  lemma MachineIdChangesIff(db: Db, a: Action, id: DeviceId)
    requires Enabled(db, a) && id in db.devices && db.devices[id].machineId.Some? && id in Step(db, a).devices
    ensures Step(db, a).devices[id].machineId != db.devices[id].machineId <==> Overwrites(db, a) && a.id == id
  {
  }

  /** The write is for this machine of this organisation. */
  predicate For(db: Db, a: Action, org: OrgId, machine: string) {
    a.Write? && Enabled(db, a) && db.open[a.tx].token.org == org && Machine(db.open[a.tx]) == machine
  }

  predicate Holds(db: Db, org: OrgId, machine: string, id: DeviceId, secret: string) {
    Rows(db, org, machine) == {id} && id in db.devices && db.devices[id].secretHash == Hash(secret)
  }

  lemma ReachGivesOneRow(db: Db, a: Action, org: OrgId, machine: string)
    requires Sound(db) && machine != "" && For(db, a, org, machine) && Reaches(db, a)
    ensures Holds(Step(db, a), org, machine, a.id, db.open[a.tx].secret)
  {
    StepKeepsUnique(db, a);
    var after := Step(db, a);
    assert a.id in Rows(after, org, machine);
    assert forall i :: i in Rows(after, org, machine) ==> SameMachine(after.devices[i], after.devices[a.id]);
  }

  /** A redemption that names its machine and is granted leaves that machine exactly one row, holding the identity
      and secret granted, exactly when the row it picked has not been deleted since. */
  lemma GrantHoldsIff(db: Db, a: Action, org: OrgId, machine: string)
    requires Sound(db) && machine != "" && For(db, a, org, machine) && (Reaches(db, a) || Vanishes(db, a))
    ensures Holds(Step(db, a), org, machine, a.id, db.open[a.tx].secret) <==> !Vanishes(db, a)
  {
    if Reaches(db, a) { ReachGivesOneRow(db, a, org, machine); }
  }

  /** The row a write leaves: rotated secret, the request's name, the token's assignment, the screen unless it was
      declined, the terminal only if it was offered; the machine named, or else the one it had; type and metadata
      of an existing row stay. */
  lemma RowAfterWrite(db: Db, a: Action)
    requires Sound(db) && Reaches(db, a)
    ensures a.id in Step(db, a).devices
    ensures var t, row := db.open[a.tx], Step(db, a).devices[a.id];
            && row.secretHash == Hash(t.secret) && row.org == t.token.org && row.name == t.req.name
            && row.osVersion == t.req.osVersion && row.enrolledVia == t.token.id
            && row.assignedAdmin == t.token.assignedAdmin && row.group == t.token.group
            && row.status.Offline? && row.lastSeen == row.updatedAt == t.now
            && (!row.allowScreen <==> t.req.allowScreen == Some(false))
            && (row.allowTerminal <==> t.req.allowTerminal == Some(true))
            && (Machine(t) != "" ==> row.machineId == Some(Machine(t)))
    ensures a.id in db.devices ==>
              var was, row := db.devices[a.id], Step(db, a).devices[a.id];
              && row.kind == was.kind && row.metadata == was.metadata && row.createdAt == was.createdAt
              && (Machine(db.open[a.tx]) == "" ==> row.machineId == was.machineId)
    ensures a.id !in db.devices ==>
              var t, row := db.open[a.tx], Step(db, a).devices[a.id];
              && row.createdAt == t.now && row.kind == t.req.kind
              && row.metadata == (if t.req.metadata == "" then "{}" else t.req.metadata)
  {
  }

  predicate SameHolder(before: Db, after: Db, org: OrgId, machine: string) {
    && Rows(after, org, machine) == Rows(before, org, machine)
    && forall id :: id in Rows(before, org, machine) ==>
         id in before.devices && id in after.devices && after.devices[id].secretHash == before.devices[id].secretHash
  }

  /** The step deletes this machine's row. */
  predicate Removes(db: Db, a: Action, org: OrgId, machine: string) {
    a.Delete? && a.device in Rows(db, org, machine) && a.org == org
  }

  /** Every redemption under way names its machine. */
  predicate AllOpenName(db: Db) { forall tx :: tx in db.open ==> Machine(db.open[tx]) != "" }

  /** Any other step leaves this machine's row and secret alone, whatever the names, unless it overwrites. */
  lemma OthersLeaveItAlone(db: Db, a: Action, org: OrgId, machine: string)
    requires Sound(db) && Enabled(db, a) && machine != "" && AllOpenName(db) && !Overwrites(db, a)
    requires !(For(db, a, org, machine) && Reaches(db, a)) && !Removes(db, a, org, machine)
    ensures SameHolder(db, Step(db, a), org, machine)
  {
    var after := Step(db, a);
    if Reaches(db, a) {
      assert a.id !in Rows(db, org, machine) && a.id !in Rows(after, org, machine);
      assert forall id :: id != a.id ==> (id in Rows(after, org, machine) <==> id in Rows(db, org, machine));
    }
    assert Rows(after, org, machine) == Rows(db, org, machine);
  }

  lemma RemovedIsGone(db: Db, a: Action, org: OrgId, machine: string)
    requires Sound(db) && Enabled(db, a) && Removes(db, a, org, machine)
    ensures Rows(Step(db, a), org, machine) == {}
  {
    assert forall i :: i in Rows(db, org, machine) ==> SameMachine(db.devices[i], db.devices[a.device]);
  }

  // ----- Whole runs -----

  predicate AllBeginNamed(run: seq<Action>) {
    forall i :: 0 <= i < |run| && run[i].Begin? ==> TrimSpace(run[i].req.machineId) != ""
  }

  /** No write of the run lands on a row that another machine has claimed, or that has been deleted, since it was
      picked. */
  predicate Untroubled(db: Db, run: seq<Action>)
    requires ValidRun(db, run)
    decreases |run|
  {
    run == [] ||
    (!Overwrites(db, run[0]) && !Vanishes(db, run[0]) && Untroubled(Step(db, run[0]), run[1..]))
  }

  datatype Grant = Grant(id: DeviceId, secret: string)

  /** What a run did to a machine last. */
  datatype Fate = Untouched | Issued(g: Grant) | Deleted

  function FateOf(db: Db, run: seq<Action>, org: OrgId, machine: string): Fate
    requires ValidRun(db, run)
    decreases |run|
  {
    if run == [] then Untouched else
      var later := FateOf(Step(db, run[0]), run[1..], org, machine);
      if !later.Untouched? then later
      else if For(db, run[0], org, machine) && (Reaches(db, run[0]) || Vanishes(db, run[0])) then
        Issued(Grant(run[0].id, db.open[run[0].tx].secret))
      else if Removes(db, run[0], org, machine) then Deleted
      else Untouched
  }

  /** After any interleaving of redemptions that all name their machine, with any revocations, assignments and
      deletions among them, in which no write came too late: a machine whose last event was a granted redemption
      has exactly one row in its organisation, holding the identity and secret granted then; one that was deleted
      last has none; one that was neither is as it was. */
  lemma {:induction false} NobodyIsLockedOut(db: Db, run: seq<Action>, org: OrgId, machine: string)
    requires Sound(db) && ValidRun(db, run) && AllOpenName(db) && AllBeginNamed(run) && machine != ""
    requires Untroubled(db, run)
    ensures match FateOf(db, run, org, machine)
            case Untouched => SameHolder(db, Exec(db, run), org, machine)
            case Deleted => Rows(Exec(db, run), org, machine) == {}
            case Issued(g) => Holds(Exec(db, run), org, machine, g.id, g.secret)
    decreases |run|
  {
    if run != [] {
      var a, next := run[0], Step(db, run[0]);
      StepKeepsSound(db, a);
      assert forall i :: 0 <= i < |run[1..]| ==> run[1..][i] == run[i + 1];
      NobodyIsLockedOut(next, run[1..], org, machine);
      if For(db, a, org, machine) && Reaches(db, a) {
        ReachGivesOneRow(db, a, org, machine);
        assert a.id in Rows(next, org, machine);
      } else if Removes(db, a, org, machine) {
        RemovedIsGone(db, a, org, machine);
      } else {
        OthersLeaveItAlone(db, a, org, machine);
      }
    }
  }

  predicate NeverDeleted(run: seq<Action>, id: DeviceId) {
    forall i :: 0 <= i < |run| ==> !(run[i].Delete? && run[i].device == id)
  }

  /** No write of the run lands on this row after another machine has claimed it. */
  predicate NeverOverwritten(db: Db, run: seq<Action>, id: DeviceId)
    requires ValidRun(db, run)
    decreases |run|
  {
    run == [] ||
    (!(Overwrites(db, run[0]) && run[0].id == id) && NeverOverwritten(Step(db, run[0]), run[1..], id))
  }

  /** Over all runs, with or without machine ids: a claimed row keeps its machine id as long as it is neither
      deleted nor overwritten, and stays the machine's one row. */
  lemma {:induction false} MachineIdStays(db: Db, run: seq<Action>, id: DeviceId)
    requires Sound(db) && ValidRun(db, run) && id in db.devices && db.devices[id].machineId.Some?
    requires NeverDeleted(run, id) && NeverOverwritten(db, run, id)
    ensures Sound(Exec(db, run)) && id in Exec(db, run).devices
    ensures Exec(db, run).devices[id].machineId == db.devices[id].machineId
    ensures Rows(Exec(db, run), db.devices[id].org, db.devices[id].machineId.value) == {id}
    decreases |run|
  {
    var org, machine := db.devices[id].org, db.devices[id].machineId.value;
    if run == [] {
      assert id in Rows(db, org, machine);
      assert forall i :: i in Rows(db, org, machine) ==> SameMachine(db.devices[i], db.devices[id]);
    } else {
      StepKeepsSound(db, run[0]);
      RowStays(db, run[0], id);
      assert forall i :: 0 <= i < |run[1..]| ==> run[1..][i] == run[i + 1];
      MachineIdStays(Step(db, run[0]), run[1..], id);
    }
  }

  lemma RowStays(db: Db, a: Action, id: DeviceId)
    requires Sound(db) && Enabled(db, a) && id in db.devices && !(a.Delete? && a.device == id)
    ensures id in Step(db, a).devices && Step(db, a).devices[id].org == db.devices[id].org
    ensures db.devices[id].machineId.Some? && !(Overwrites(db, a) && a.id == id) ==>
              Step(db, a).devices[id].machineId == db.devices[id].machineId
  {
    if id in Step(db, a).devices && db.devices[id].machineId.Some? { MachineIdChangesIff(db, a, id); }
  }

  // ----- Exactly when a write comes too late -----

  /** The step claims an unclaimed row for a machine. */
  predicate Claims(db: Db, a: Action, id: DeviceId, machine: string) {
    && Reaches(db, a) && a.id == id && id in db.devices && db.devices[id].machineId.None?
    && Machine(db.open[a.tx]) == machine != ""
  }

  /** Some step of the run claims the row for a machine other than this one. */
  ghost predicate ClaimedByAnother(db: Db, run: seq<Action>, id: DeviceId, machine: string)
    requires ValidRun(db, run)
    decreases |run|
  {
    run != [] &&
    ((exists m: string :: m != machine && Claims(db, run[0], id, m)) ||
     ClaimedByAnother(Step(db, run[0]), run[1..], id, machine))
  }

  lemma {:induction false} NoClaimLeft(db: Db, run: seq<Action>, id: DeviceId, machine: string)
    requires Sound(db) && ValidRun(db, run) && id in db.devices && db.devices[id].machineId.Some?
    requires NeverDeleted(run, id) && NeverOverwritten(db, run, id)
    ensures !ClaimedByAnother(db, run, id, machine)
    decreases |run|
  {
    if run != [] {
      StepKeepsSound(db, run[0]);
      RowStays(db, run[0], id);
      assert forall i :: 0 <= i < |run[1..]| ==> run[1..][i] == run[i + 1];
      NoClaimLeft(Step(db, run[0]), run[1..], id, machine);
    }
  }

  /** Whose an unclaimed row is after a run in which nobody overwrites or deletes it. */
  lemma {:induction false} WhoseIff(db: Db, run: seq<Action>, id: DeviceId, machine: string)
    requires Sound(db) && ValidRun(db, run) && id in db.devices && db.devices[id].machineId.None?
    requires NeverDeleted(run, id) && NeverOverwritten(db, run, id)
    ensures id in Exec(db, run).devices
    ensures var now := Exec(db, run).devices[id].machineId;
            now.Some? && now != Some(machine) <==> ClaimedByAnother(db, run, id, machine)
    decreases |run|
  {
    if run != [] {
      var a, next := run[0], Step(db, run[0]);
      StepKeepsSound(db, a);
      RowStays(db, a, id);
      assert forall i :: 0 <= i < |run[1..]| ==> run[1..][i] == run[i + 1];
      if next.devices[id].machineId.None? {
        assert !exists m: string :: Claims(db, a, id, m);
        WhoseIff(next, run[1..], id, machine);
      } else {
        var m := next.devices[id].machineId.value;
        assert Claims(db, a, id, m);
        NoClaimLeft(next, run[1..], id, machine);
        MachineIdStays(next, run[1..], id);
        assert forall m': string :: Claims(db, a, id, m') ==> m' == m;
      }
    }
  }

  /** A redemption that picked an unclaimed row for its name overwrites it, when it comes to write and the row is
      still there, exactly when another machine has claimed the row since; whatever happens in between, short of
      another overwriting. */
  lemma OverwritesIff(db: Db, between: seq<Action>, tx: TxId, id: DeviceId)
    requires Sound(db) && tx in db.open && db.open[tx].stage == Picked(id) && Machine(db.open[tx]) != ""
    requires id in db.devices && db.devices[id].machineId.None?
    requires ValidRun(db, between) && NeverDeleted(between, id) && NeverOverwritten(db, between, id)
    requires tx in Exec(db, between).open && Exec(db, between).open[tx] == db.open[tx]
    requires Reaches(Exec(db, between), Write(tx, id))
    ensures Overwrites(Exec(db, between), Write(tx, id)) <==>
            ClaimedByAnother(db, between, id, Machine(db.open[tx]))
  {
    WhoseIff(db, between, id, Machine(db.open[tx]));
  }

  predicate PicksOwn(t: Tx) { t.stage.Picked? && !t.adopts && Machine(t) != "" }

  /** A row picked by its own machine id is still that machine's when it is written. */
  ghost predicate PicksHold(db: Db) {
    forall tx :: tx in db.open && PicksOwn(db.open[tx]) && db.open[tx].stage.id in db.devices ==>
      db.devices[db.open[tx].stage.id].machineId == Some(Machine(db.open[tx]))
  }

  lemma StepKeepsPicks(db: Db, a: Action)
    requires Sound(db) && PicksHold(db) && Enabled(db, a) && !Overwrites(db, a)
    ensures PicksHold(Step(db, a))
  {
    var after := Step(db, a);
    forall tx | tx in after.open && PicksOwn(after.open[tx]) && after.open[tx].stage.id in after.devices
      ensures after.devices[after.open[tx].stage.id].machineId == Some(Machine(after.open[tx]))
    {
      var id := after.open[tx].stage.id;
      assert tx in db.open;
      if db.open[tx].stage.Picked? {
        assert db.open[tx] == after.open[tx];
        assert id in db.used;
        if id in db.devices { MachineIdChangesIff(db, a, id); }
      }
    }
  }

  lemma {:induction false} RunKeepsPicks(db: Db, run: seq<Action>)
    requires Sound(db) && PicksHold(db) && ValidRun(db, run)
    requires forall id :: NeverOverwritten(db, run, id)
    ensures Sound(Exec(db, run)) && PicksHold(Exec(db, run))
    decreases |run|
  {
    if run != [] {
      assert run[0].Write? ==> NeverOverwritten(db, run, run[0].id);
      StepKeepsSound(db, run[0]);
      StepKeepsPicks(db, run[0]);
      forall id ensures NeverOverwritten(Step(db, run[0]), run[1..], id) { assert NeverOverwritten(db, run, id); }
      RunKeepsPicks(Step(db, run[0]), run[1..]);
    }
  }

  /** The first overwriting of any run is by a redemption that adopted an unclaimed row for its name: nothing else
      begins it. */
  lemma OverwritingBeginsWithAdoption(db: Db, run: seq<Action>, a: Action)
    requires Sound(db) && db.open == map[] && ValidRun(db, run)
    requires forall id :: NeverOverwritten(db, run, id)
    requires Overwrites(Exec(db, run), a)
    ensures Exec(db, run).open[a.tx].adopts
  {
    RunKeepsPicks(db, run);
  }

  // ----- Runs that show it -----

  lemma {:induction false} Extend(db: Db, run: seq<Action>, a: Action) returns (r: seq<Action>)
    requires ValidRun(db, run) && Enabled(Exec(db, run), a)
    ensures r == run + [a] && ValidRun(db, r) && Exec(db, r) == Step(Exec(db, run), a)
    decreases |run|
  {
    r := run + [a];
    if run != [] {
      var rest := Extend(Step(db, run[0]), run[1..], a);
      assert r[1..] == rest;
    } else {
      assert r[1..] == [];
    }
  }

  /** A table of one unclaimed row and one live link. */
  ghost predicate OneUnclaimed(db: Db, d: Device, t: Token, token: string) {
    && db == Db(map[1 := d], map[Hash(token) := t], map[], {1})
    && d.machineId.None? && d.org == t.org && t.revokedAt.None? && t.expiresAt > 0
  }

  predicate AsksFor(req: Request, d: Device, token: string) {
    req.token == token && req.name == d.name && req.kind == d.kind && TrimSpace(req.machineId) != ""
  }

  /** A redemption up to the point where it has picked the unclaimed row. */
  lemma PickUnclaimed(db: Db, run: seq<Action>, tx: TxId, req: Request, secret: string) returns (r: seq<Action>)
    requires ValidRun(db, run) && tx !in Exec(db, run).open
    requires var e := Exec(db, run);
             && e.devices.Keys == {1} && e.devices[1].machineId.None? && Hash(req.token) in e.tokens
             && Redeemable(e, 0, req.token) && e.devices[1].org == e.tokens[Hash(req.token)].org
             && AsksFor(req, e.devices[1], req.token)
    ensures ValidRun(db, r)
    ensures var e, e' := Exec(db, run), Exec(db, r);
            e' == e.(open := e.open[tx := Tx(0, req, secret, e.tokens[Hash(req.token)], Picked(1), true)])
  {
    r := Extend(db, run, Begin(tx, 0, req, secret));
    assert Rows(Exec(db, r), Exec(db, r).open[tx].token.org, Machine(Exec(db, r).open[tx])) == {};
    r := Extend(db, r, Search(tx, None));
    assert 1 in Adoptable(Exec(db, r), Exec(db, r).open[tx]);
    r := Extend(db, r, Adopt(tx, Some(1)));
    assert Exec(db, r).open == Exec(db, run).open[tx := Exec(db, r).open[tx]];
  }

  /** Two clones of one machine, enrolling at once, both pick the row of their name. The first takes it, the second
      takes it over: the first has no row any more, its secret is gone, and the index has nothing to object. */
  lemma AdoptionRaceHappens(
      db: Db, d: Device, t: Token, token: string, first: Request, second: Request, one: string, two: string)
    returns (r: seq<Action>)
    requires OneUnclaimed(db, d, t, token) && AsksFor(first, d, token) && AsksFor(second, d, token)
    requires TrimSpace(first.machineId) != TrimSpace(second.machineId)
    ensures Sound(db) && ValidRun(db, r)
    ensures FateOf(db, r, t.org, TrimSpace(first.machineId)) == Issued(Grant(1, one))
    ensures Rows(Exec(db, r), t.org, TrimSpace(first.machineId)) == {}
    ensures Holds(Exec(db, r), t.org, TrimSpace(second.machineId), 1, two)
  {
    r := PickUnclaimed(db, [], 1, first, one);
    r := PickUnclaimed(db, r, 2, second, two);
    var both, m1 := r, TrimSpace(first.machineId);
    var e := Exec(db, both);
    r := Extend(db, both, Write(1, 1));
    var e1 := Exec(db, r);
    assert For(e, Write(1, 1), t.org, m1) && Reaches(e, Write(1, 1));
    assert Overwrites(e1, Write(2, 1));
    r := Extend(db, r, Write(2, 1));
    assert r == both + [Write(1, 1), Write(2, 1)];
    assert [Write(1, 1), Write(2, 1)][1..] == [Write(2, 1)] && [Write(2, 1)][1..] == [];
    assert ValidRun(Step(e1, Write(2, 1)), []) && ValidRun(e1, [Write(2, 1)]);
    assert FateOf(e, [Write(1, 1), Write(2, 1)], t.org, m1) == Issued(Grant(1, one));
    FateOfEnd(db, both, [Write(1, 1), Write(2, 1)], t.org, m1);
    assert 1 in Rows(Exec(db, r), t.org, TrimSpace(second.machineId));
  }

  lemma {:induction false} FateOfEnd(db: Db, run: seq<Action>, more: seq<Action>, org: OrgId, machine: string)
    requires ValidRun(db, run) && ValidRun(Exec(db, run), more)
    ensures ValidRun(db, run + more)
    ensures !FateOf(Exec(db, run), more, org, machine).Untouched? ==>
              FateOf(db, run + more, org, machine) == FateOf(Exec(db, run), more, org, machine)
    decreases |run|
  {
    if run == [] {
      assert run + more == more;
    } else {
      assert (run + more)[1..] == run[1..] + more;
      FateOfEnd(Step(db, run[0]), run[1..], more, org, machine);
    }
  }

  /** A row deleted between its lookup and its write: the redemption is granted, for a row that is not there. */
  lemma VanishingHappens(db: Db, d: Device, t: Token, token: string, req: Request, secret: string)
    returns (r: seq<Action>)
    requires OneUnclaimed(db, d, t, token) && AsksFor(req, d, token)
    ensures Sound(db) && ValidRun(db, r) && Vanishes(Exec(db, r), Write(1, 1))
    ensures Step(Exec(db, r), Write(1, 1)).devices == map[]
  {
    r := PickUnclaimed(db, [], 1, req, secret);
    r := Extend(db, r, Delete(1, d.org));
  }

  // ----- Redemptions one at a time -----

  /** A redemption that nothing comes between neither overwrites nor vanishes nor clashes: it reaches its row. */
  lemma AloneIsSafe(
      db: Db, tx: TxId, now: Instant, req: Request, secret: string, first: Option<DeviceId>, second: Option<DeviceId>,
      id: DeviceId)
    requires Sound(db) && MayLookUp(db, tx, now, req, secret, first, second)
    requires Enabled(LookedUp(db, tx, now, req, secret, first, second), Write(tx, id))
    ensures var looked := LookedUp(db, tx, now, req, secret, first, second);
            Reaches(looked, Write(tx, id)) && !Overwrites(looked, Write(tx, id)) && !Vanishes(looked, Write(tx, id))
  {
    var looked := LookedUp(db, tx, now, req, secret, first, second);
    var t := looked.open[tx];
    assert looked.devices == db.devices;
    assert forall j :: j in db.devices ==>
      (j in Rows(db, t.token.org, Machine(t)) <==>
       db.devices[j].org == t.token.org && db.devices[j].machineId == Some(Machine(t)));
  }

  /** Then a named machine gets a new row exactly when it has none and no unclaimed row bears its name and type: a
      row from before machine ids is adopted, and a twin's claimed row never is. */
  lemma NewRowIff(
      db: Db, tx: TxId, now: Instant, req: Request, secret: string, first: Option<DeviceId>, second: Option<DeviceId>,
      id: DeviceId)
    requires Sound(db) && MayLookUp(db, tx, now, req, secret, first, second) && TrimSpace(req.machineId) != ""
    requires Enabled(LookedUp(db, tx, now, req, secret, first, second), Write(tx, id))
    ensures var org := db.tokens[Hash(req.token)].org;
            var after := Step(LookedUp(db, tx, now, req, secret, first, second), Write(tx, id));
            && (after.devices.Keys != db.devices.Keys <==>
                  Rows(db, org, TrimSpace(req.machineId)) == {} && Unclaimed(db, Namesakes(db, org, req)) == {})
            && (id in db.devices && Rows(db, org, TrimSpace(req.machineId)) == {} ==>
                  SameName(db.devices[id], org, req) && db.devices[id].machineId.None?)
  {
    AloneIsSafe(db, tx, now, req, secret, first, second, id);
    var looked := LookedUp(db, tx, now, req, secret, first, second);
    assert looked.devices == db.devices;
    assert id in Step(looked, Write(tx, id)).devices.Keys;
    assert id in db.devices ==> Step(looked, Write(tx, id)).devices.Keys == db.devices.Keys;
  }

  ghost predicate Replaces(
    db: Db, tx: TxId, now: Instant, req: Request, secret: string, pick: Option<DeviceId>, w: DeviceId, id: DeviceId)
  {
    && MayLookUp(db, tx, now, req, secret, pick, None)
    && var looked := LookedUp(db, tx, now, req, secret, pick, None);
    && Enabled(looked, Write(tx, w)) && id in Step(looked, Write(tx, w)).devices
    && id in db.devices && Step(looked, Write(tx, w)).devices[id].secretHash != db.devices[id].secretHash
  }

  /** What an enrolment without a machine id can do to a claimed row, even by itself: some outcome of it replaces
      the machine's secret just when the token is redeemable in its organisation and the row has the request's
      name and type. */
  lemma TakeoverIff(db: Db, tx: TxId, now: Instant, req: Request, secret: string, id: DeviceId)
    requires Sound(db) && tx !in db.open && TrimSpace(req.machineId) == ""
    requires id in db.devices && db.devices[id].machineId.Some? && db.devices[id].secretHash != Hash(secret)
    ensures (exists pick: Option<DeviceId>, w: DeviceId :: Replaces(db, tx, now, req, secret, pick, w, id)) <==>
            && Hash(req.token) in db.tokens
            && db.tokens[Hash(req.token)].revokedAt == None && now < db.tokens[Hash(req.token)].expiresAt
            && db.devices[id].org == db.tokens[Hash(req.token)].org
            && db.devices[id].name == req.name && db.devices[id].kind == req.kind
  {
    if Redeemable(db, now, req.token) {
      var begun := Step(db, Begin(tx, now, req, secret));
      assert Found(begun, begun.open[tx]) == Namesakes(db, db.tokens[Hash(req.token)].org, req);
      if SameName(db.devices[id], db.tokens[Hash(req.token)].org, req) {
        assert id in Found(begun, begun.open[tx]);
        assert MayLookUp(db, tx, now, req, secret, Some(id), None);
        AloneIsSafe(db, tx, now, req, secret, Some(id), None, id);
        assert Replaces(db, tx, now, req, secret, Some(id), id, id);
      }
    }
  }

  /** It does happen: a claimed row, and an agent that sends no machine id, under the same name. */
  lemma TakeoverHappens(d: Device, t: Token, token: string, req: Request, secret: string) returns (db: Db, r: seq<Action>)
    requires d.machineId.Some? && d.org == t.org && t.revokedAt.None? && t.expiresAt > 0
    requires req.token == token && req.name == d.name && req.kind == d.kind && TrimSpace(req.machineId) == ""
    ensures Sound(db) && db.devices == map[1 := d] && ValidRun(db, r)
    ensures Holds(Exec(db, r), d.org, d.machineId.value, 1, secret)
  {
    db := Db(map[1 := d], map[Hash(token) := t], map[], {1});
    r := Extend(db, [], Begin(1, 0, req, secret));
    assert 1 in Found(Exec(db, r), Exec(db, r).open[1]);
    r := Extend(db, r, Search(1, Some(1)));
    r := Extend(db, r, Write(1, 1));
    assert 1 in Rows(Exec(db, r), d.org, d.machineId.value);
  }

  // ----- Revocation -----

  ghost predicate Dead(db: Db, token: string) { Hash(token) in db.tokens && db.tokens[Hash(token)].revokedAt.Some? }

  /** No redemption that has read this link is under way. */
  predicate NoneInFlight(db: Db, token: string) { forall tx :: tx in db.open ==> db.open[tx].req.token != token }

  /** A dead link with no redemption under way enrols nothing ever after: no redemption reads it again, in any run,
      and so none writes by it. */
  lemma {:induction false} RevokedForEver(db: Db, run: seq<Action>, token: string)
    requires Dead(db, token) && NoneInFlight(db, token) && ValidRun(db, run)
    ensures Dead(Exec(db, run), token) && NoneInFlight(Exec(db, run), token)
    ensures forall i :: 0 <= i < |run| && run[i].Write? ==>
              run[i].tx in At(db, run, i).open && At(db, run, i).open[run[i].tx].req.token != token
    decreases |run|
  {
    if run != [] {
      var next := Step(db, run[0]);
      assert Dead(next, token) && NoneInFlight(next, token);
      RevokedForEver(next, run[1..], token);
      forall i | 0 <= i < |run| && run[i].Write?
        ensures run[i].tx in At(db, run, i).open && At(db, run, i).open[run[i].tx].req.token != token
      {
        if i > 0 { assert run[1..][i - 1] == run[i] && At(db, run, i) == At(next, run[1..], i - 1); }
      }
    }
  }

  /** A redemption under way when its link is revoked still goes through. */
  lemma RevocationOvertakenHappens(
      db: Db, d: Device, t: Token, token: string, req: Request, secret: string, now: Instant, admin: User)
    returns (r: seq<Action>)
    requires OneUnclaimed(db, d, t, token) && AsksFor(req, d, token) && Revocable(t, admin, t.id)
    ensures Sound(db) && ValidRun(db, r) && Dead(Exec(db, r), token)
    ensures Reaches(Exec(db, r), Write(1, 1)) && Exec(db, r).open[1].req.token == token
  {
    r := PickUnclaimed(db, [], 1, req, secret);
    r := Extend(db, r, Revoke(now, admin, t.id));
  }

  /** Revoking kills a link exactly when it is the user's to revoke and still alive; it touches no device and
      no other link, and so does not lock out what the link enrolled. */
  lemma RevokeIff(db: Db, now: Instant, user: User, id: TokenId, token: string)
    requires Hash(token) in db.tokens
    ensures Step(db, Revoke(now, user, id)).devices == db.devices
    ensures Dead(Step(db, Revoke(now, user, id)), token) <==>
              Dead(db, token) || Revocable(db.tokens[Hash(token)], user, id)
    ensures !Revocable(db.tokens[Hash(token)], user, id) ==>
              Step(db, Revoke(now, user, id)).tokens[Hash(token)] == db.tokens[Hash(token)]
  {
  }

  /** Some step of the run revokes the link, by a super admin of its organisation or by its creator. */
  ghost predicate Killed(db: Db, run: seq<Action>, token: string)
    requires ValidRun(db, run) && Hash(token) in db.tokens
    decreases |run|
  {
    run != [] &&
    ((run[0].Revoke? &&
      var t, user := db.tokens[Hash(token)], run[0].user;
      && t.id == run[0].token && t.revokedAt == None && user.org == t.org
      && (user.superAdmin || t.createdBy == Some(user.id))) ||
     Killed(Step(db, run[0]), run[1..], token))
  }

  /** Over a whole run a link is dead at the end exactly when it was dead or was revoked by its creator or a super
      admin of its organisation; whoever else tries, and whatever is enrolled, it stays alive. */
  lemma {:induction false} DeadIff(db: Db, run: seq<Action>, token: string)
    requires ValidRun(db, run) && Hash(token) in db.tokens
    ensures Hash(token) in Exec(db, run).tokens
    ensures Dead(Exec(db, run), token) <==> Dead(db, token) || Killed(db, run, token)
    decreases |run|
  {
    if run != [] {
      DeadIff(Step(db, run[0]), run[1..], token);
      if Dead(db, token) { assert Dead(Step(db, run[0]), token); }
    }
  }

  /** The state after the first `n` steps of a run. */
  function At(db: Db, run: seq<Action>, n: nat): Db
    requires ValidRun(db, run) && n <= |run|
    decreases n
  {
    if n == 0 then db else At(Step(db, run[0]), run[1..], n - 1)
  }

  /** Step `i` of the run reads the link for this redemption, and it is neither revoked nor expired. */
  ghost predicate ReadsLive(db: Db, run: seq<Action>, i: nat, tx: TxId, token: string)
    requires ValidRun(db, run) && i < |run|
  {
    && run[i].Begin? && run[i].tx == tx && run[i].req.token == token && Hash(token) in At(db, run, i).tokens
    && At(db, run, i).tokens[Hash(token)].revokedAt == None
    && run[i].now < At(db, run, i).tokens[Hash(token)].expiresAt
  }

  lemma {:induction false} OpenHasRead(db: Db, run: seq<Action>, n: nat, tx: TxId)
    requires ValidRun(db, run) && n <= |run| && tx in At(db, run, n).open
    ensures var token := At(db, run, n).open[tx].req.token;
            (tx in db.open && db.open[tx].req.token == token) ||
            exists i :: 0 <= i < n && ReadsLive(db, run, i, tx, token)
    decreases n
  {
    if n > 0 {
      var next, rest := Step(db, run[0]), run[1..];
      var token := At(db, run, n).open[tx].req.token;
      OpenHasRead(next, rest, n - 1, tx);
      if tx in next.open && next.open[tx].req.token == token {
        if !(tx in db.open && db.open[tx].req.token == token) {
          assert At(db, run, 0) == db;
          assert ReadsLive(db, run, 0, tx, token);
        }
      } else {
        var i :| 0 <= i < n - 1 && ReadsLive(next, rest, i, tx, token);
        assert At(db, run, i + 1) == At(next, rest, i);
        assert ReadsLive(db, run, i + 1, tx, token);
      }
    }
  }

  ghost predicate WritesRow(db: Db, run: seq<Action>, j: nat, id: DeviceId)
    requires ValidRun(db, run) && j < |run|
  {
    run[j].Write? && run[j].id == id && Reaches(At(db, run, j), run[j])
  }

  lemma {:induction false} RowWasWritten(db: Db, run: seq<Action>, id: DeviceId)
    requires ValidRun(db, run) && id in Exec(db, run).devices
    requires id in db.devices ==> Exec(db, run).devices[id].secretHash != db.devices[id].secretHash
    ensures exists j :: 0 <= j < |run| && WritesRow(db, run, j, id)
    decreases |run|
  {
    if run != [] {
      var a, next := run[0], Step(db, run[0]);
      if a.Write? && a.id == id && Reaches(db, a) {
        assert At(db, run, 0) == db;
        assert WritesRow(db, run, 0, id);
      } else {
        assert id in next.devices ==> id in db.devices && next.devices[id].secretHash == db.devices[id].secretHash;
        RowWasWritten(next, run[1..], id);
        var j :| 0 <= j < |run[1..]| && WritesRow(next, run[1..], j, id);
        assert At(db, run, j + 1) == At(next, run[1..], j);
        assert WritesRow(db, run, j + 1, id);
      }
    }
  }

  /** Over a whole run a row is new or holds another secret at the end only if some redemption wrote it whose link
      was neither revoked nor expired when that redemption read it, earlier in the run. */
  lemma RowsChangeOnlyByLiveTokens(db: Db, run: seq<Action>, id: DeviceId) returns (i: nat, j: nat)
    requires db.open == map[] && ValidRun(db, run) && id in Exec(db, run).devices
    requires id in db.devices ==> Exec(db, run).devices[id].secretHash != db.devices[id].secretHash
    ensures i < j < |run| && WritesRow(db, run, j, id)
    ensures ReadsLive(db, run, i, run[j].tx, At(db, run, j).open[run[j].tx].req.token)
  {
    RowWasWritten(db, run, id);
    j :| 0 <= j < |run| && WritesRow(db, run, j, id);
    OpenHasRead(db, run, j, run[j].tx);
    i :| 0 <= i < j && ReadsLive(db, run, i, run[j].tx, At(db, run, j).open[run[j].tx].req.token);
  }
}
