/** Enrolment over whole runs, told from the columns: when a link stops working, whom a step can touch, and what a row
    holds since it was written. */
module EnrolmentHistory {
  import opened Basics
  import opened Enrolment
  import opened EnrolmentProperties

  // ----- Expiry -----

  /** No redemption of the run begins with this link before it expires. */
  predicate OnlyAfterExpiry(run: seq<Action>, token: string, expiresAt: Instant) {
    forall i :: 0 <= i < |run| && run[i].Begin? && run[i].req.token == token ==> expiresAt <= run[i].now
  }

  predicate ExpiresAt(db: Db, token: string, at: Instant) {
    Hash(token) in db.tokens && db.tokens[Hash(token)].expiresAt == at
  }

  /** A link that expires before any redemption of the run begins, never revoked though it may be, is never read and
      writes no row. */
  lemma {:induction false} ExpiredForEver(db: Db, run: seq<Action>, token: string, at: Instant)
    requires ExpiresAt(db, token, at) && NoneInFlight(db, token) && ValidRun(db, run)
    requires OnlyAfterExpiry(run, token, at)
    ensures ExpiresAt(Exec(db, run), token, at) && NoneInFlight(Exec(db, run), token)
    ensures forall i :: 0 <= i < |run| && run[i].Write? ==>
              run[i].tx in At(db, run, i).open && At(db, run, i).open[run[i].tx].req.token != token
    decreases |run|
  {
    if run != [] {
      var next := Step(db, run[0]);
      assert forall i :: 0 <= i < |run[1..]| ==> run[1..][i] == run[i + 1];
      assert ExpiresAt(next, token, at) && NoneInFlight(next, token);
      ExpiredForEver(next, run[1..], token, at);
      forall i | 0 <= i < |run| && run[i].Write?
        ensures run[i].tx in At(db, run, i).open && At(db, run, i).open[run[i].tx].req.token != token
      {
        if i > 0 { assert run[1..][i - 1] == run[i] && At(db, run, i) == At(next, run[1..], i - 1); }
      }
    }
  }

  /** A redemption begins exactly with a link that is there, not revoked and not expired. */
  lemma BeginsIff(db: Db, tx: TxId, now: Instant, req: Request, secret: string)
    requires tx !in db.open
    ensures var next := Step(db, Begin(tx, now, req, secret));
            && (tx in next.open <==>
                  && Hash(req.token) in db.tokens && db.tokens[Hash(req.token)].revokedAt == None
                  && now < db.tokens[Hash(req.token)].expiresAt)
            && (tx in next.open ==>
                  && next.open[tx].now == now && next.open[tx].req == req && next.open[tx].secret == secret
                  && next.open[tx].token == db.tokens[Hash(req.token)])
            && next.devices == db.devices && next.tokens == db.tokens
  {
  }

  // ----- One write each -----

  predicate BeginsBefore(run: seq<Action>, tx: TxId, j: nat)
    requires j <= |run|
  {
    exists k :: 0 <= k < j && run[k].Begin? && run[k].tx == tx
  }

  lemma {:induction false} WriteNeedsBegin(db: Db, run: seq<Action>, tx: TxId, j: nat)
    requires ValidRun(db, run) && tx !in db.open && j < |run| && run[j].Write? && run[j].tx == tx
    ensures BeginsBefore(run, tx, j)
    decreases j
  {
    if j > 0 && !(run[0].Begin? && run[0].tx == tx) {
      assert run[1..][j - 1] == run[j];
      WriteNeedsBegin(Step(db, run[0]), run[1..], tx, j - 1);
      var k :| 0 <= k < j - 1 && run[1..][k].Begin? && run[1..][k].tx == tx;
      assert run[k + 1] == run[1..][k];
    }
  }

  /** A redemption writes once: between two writes of a transaction it was begun anew. */
  lemma {:induction false} WritesOnce(db: Db, run: seq<Action>, tx: TxId, i: nat, j: nat) returns (k: nat)
    requires ValidRun(db, run) && i < j < |run|
    requires run[i].Write? && run[i].tx == tx && run[j].Write? && run[j].tx == tx
    ensures i < k < j && run[k].Begin? && run[k].tx == tx
    decreases i
  {
    var next := Step(db, run[0]);
    assert run[1..][j - 1] == run[j];
    if i == 0 {
      WriteNeedsBegin(next, run[1..], tx, j - 1);
      k :| 0 <= k < j - 1 && run[1..][k].Begin? && run[1..][k].tx == tx;
    } else {
      assert run[1..][i - 1] == run[i];
      k := WritesOnce(next, run[1..], tx, i - 1, j - 1);
    }
    assert run[k + 1] == run[1..][k];
    k := k + 1;
  }

  /** A request without a machine id makes one lookup and then inserts; one with an id makes a second, by name. */
  lemma OneLookupWithoutAnId(db: Db, tx: TxId)
    requires Enabled(db, Search(tx, None))
    ensures Step(db, Search(tx, None)).open[tx].stage ==
            if TrimSpace(db.open[tx].req.machineId) == "" then Missing else Unmatched
  {
  }

  // ----- Organisations -----

  /** The organisation in whose name a step acts on the devices: that of the link redeemed, or of the administrator. */
  function ActsFor(db: Db, a: Action): Option<OrgId>
    requires Enabled(db, a)
  {
    match a
    case Write(tx, _) => Some(db.open[tx].token.org)
    case Assign(_, _, org, _, _) => Some(org)
    case Delete(_, org) => Some(org)
    case _ => None
  }

  /** The devices of one organisation. */
  function DevicesOf(db: Db, org: OrgId): map<DeviceId, Device> {
    map id | id in db.devices && db.devices[id].org == org :: db.devices[id]
  }

  predicate NobodyActsFor(db: Db, run: seq<Action>, org: OrgId)
    requires ValidRun(db, run)
    decreases |run|
  {
    run == [] || (ActsFor(db, run[0]) != Some(org) && NobodyActsFor(Step(db, run[0]), run[1..], org))
  }

  lemma OthersStayApart(db: Db, a: Action, org: OrgId)
    requires Sound(db) && Enabled(db, a) && ActsFor(db, a) != Some(org)
    ensures DevicesOf(Step(db, a), org) == DevicesOf(db, org)
  {
    hide Clashes;
    var next := Step(db, a);
    forall id ensures id in DevicesOf(next, org) <==> id in DevicesOf(db, org)
              ensures id in DevicesOf(db, org) ==> DevicesOf(next, org)[id] == DevicesOf(db, org)[id]
    {
    }
  }

  /** Organisations are apart: over every run, whatever redemptions, assignments and deletions others make, under
      whatever names and machine ids, the devices of one change only by steps made in its name. */
  lemma {:induction false} OrganisationsAreApart(db: Db, run: seq<Action>, org: OrgId)
    requires Sound(db) && ValidRun(db, run) && NobodyActsFor(db, run, org)
    ensures DevicesOf(Exec(db, run), org) == DevicesOf(db, org)
    decreases |run|
  {
    if run != [] {
      StepKeepsSound(db, run[0]);
      OthersStayApart(db, run[0], org);
      OrganisationsAreApart(Step(db, run[0]), run[1..], org);
    }
  }

  // ----- What a row holds -----

  /** The run neither writes nor deletes this row. */
  predicate LeavesRow(run: seq<Action>, id: DeviceId) {
    forall i :: 0 <= i < |run| ==> !(run[i].Write? && run[i].id == id) && !(run[i].Delete? && run[i].device == id)
  }

  /** The assignment of a row: the last that an administrator of its organisation made, or else the one it had. */
  function LastAssigned(run: seq<Action>, id: DeviceId, org: OrgId, was: (Option<UserId>, Option<nat>)):
    (Option<UserId>, Option<nat>)
    decreases |run|
  {
    if run == [] then was
    else
      var a := run[|run| - 1];
      if a.Assign? && a.device == id && a.org == org then (a.admin, a.team)
      else LastAssigned(run[..|run| - 1], id, org, was)
  }

  lemma {:induction false} ExecSnoc(db: Db, run: seq<Action>)
    requires run != [] && ValidRun(db, run)
    ensures ValidRun(db, run[..|run| - 1]) && Enabled(Exec(db, run[..|run| - 1]), run[|run| - 1])
    ensures Exec(db, run) == Step(Exec(db, run[..|run| - 1]), run[|run| - 1])
    decreases |run|
  {
    if |run| > 1 {
      assert run[1..][..|run[1..]| - 1] == run[..|run| - 1][1..];
      ExecSnoc(Step(db, run[0]), run[1..]);
    } else {
      assert run[1..] == [] && run[..0] == [];
    }
  }

  /** Between two writes a row keeps every column but its assignment, which is the last one made for it. */
  lemma {:induction false} RowKeepsWhatWasWritten(db: Db, run: seq<Action>, id: DeviceId)
    requires ValidRun(db, run) && id in db.devices && LeavesRow(run, id)
    ensures id in Exec(db, run).devices
    ensures var was, row := db.devices[id], Exec(db, run).devices[id];
            && (row.assignedAdmin, row.group) == LastAssigned(run, id, was.org, (was.assignedAdmin, was.group))
            && row == was.(assignedAdmin := row.assignedAdmin, group := row.group, updatedAt := row.updatedAt)
    decreases |run|
  {
    if run != [] {
      hide Clashes, Written;
      var before, a := run[..|run| - 1], run[|run| - 1];
      ExecSnoc(db, run);
      RowKeepsWhatWasWritten(db, before, id);
      assert a == run[|run| - 1];
    }
  }
}
