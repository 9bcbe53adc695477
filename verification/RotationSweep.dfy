/** The sweep of `scripts/reencrypt-secrets.ts` as it runs: snapshots, compare-and-set updates, audit rows and
    counters. */
module RotationSweep {
  import opened Prelude
  import opened Secrets
  import opened Rotation

  datatype Replacement = Skip | Next(envelope: Envelope) | Thrown

  method Snapshot(db: Database, table: Table) returns (rows: seq<Row>)
    ensures SnapshotOf(rows, db, table)
  {
    rows := [];
    var left := set s | s in db && TableOf(s) == table;
    while left != {}
      invariant left <= db.Keys
      invariant forall i :: 0 <= i < |rows| ==>
              rows[i].slot in db && rows[i].slot !in left && db[rows[i].slot] == rows[i].envelope
      invariant forall i, j :: 0 <= i < j < |rows| ==> rows[i].slot != rows[j].slot
      invariant forall s :: s in db && TableOf(s) == table && s !in left ==>
              exists i :: 0 <= i < |rows| && rows[i].slot == s
      decreases |left|
    {
      var slot :| slot in left;
      ghost var before := rows;
      left := left - {slot};
      rows := rows + [Row(slot, db[slot])];
      forall s | s in db && TableOf(s) == table && s !in left ensures exists i :: 0 <= i < |rows| && rows[i].slot == s {
        if s == slot {
          assert rows[|before|].slot == s;
        } else {
          var i :| 0 <= i < |before| && before[i].slot == s;
          assert rows[i].slot == s;
        }
      }
    }
  }

  class Sweep {
    const ring: Ring
    const env: Environment
    var db: Database
    var audits: seq<Slot>
    var rotated: nat
    var skipped: nat
    var turn: nat

    /** The database the sweep began with; what the application's own writes would have made of it by now, and which
        columns they touched. */
    ghost const initial: Database
    ghost var app: Database
    ghost var touched: set<Slot>

    constructor (ring: Ring, env: Environment, db: Database)
      requires ValidRing(ring)
      ensures this.ring == ring && this.env == env && this.db == app == initial == db && Valid()
      ensures audits == [] && rotated == skipped == turn == 0 && touched == {}
    {
      this.ring, this.env, this.db, this.app, this.initial := ring, env, db, db, db;
      audits, rotated, skipped, turn, touched := [], 0, 0, 0, {};
    }

    /** The database is what the application's writes alone would have left, with some of it resealed and audited. */
    ghost predicate Valid()
      reads this
    {
      && ValidRing(ring) && AllTrack(ring, db, app, audits)
      && app == Alone(initial, env, turn) && touched == Touched(env, turn) && AuditsTrue(db, app, audits, touched)
    }

    /** The column holds nothing older than the current key, unless the application wrote it meanwhile. */
    ghost predicate Fine(s: Slot)
      reads this
    {
      s in touched || s !in db || Settled(ring, db[s])
    }

    /** The column is as the snapshot saw it, unless the application wrote it meanwhile. */
    ghost predicate Pending(row: Row)
      reads this
    {
      row.slot in touched || (row.slot in db && db[row.slot] == row.envelope)
    }

    /** A turn begins: the application's writes come before the sweep's next statement. */
    method Interfere() returns (now: Turn)
      requires Valid()
      modifies this`db, this`app, this`touched, this`turn
      ensures Valid() && now == env(old(turn)) && turn == old(turn) + 1
      ensures db == ApplyAll(old(db), now.writes) && touched == old(touched) + Written(now.writes)
      ensures forall s :: s !in touched ==> (s in db <==> s in old(db)) && (s in db ==> db[s] == old(db)[s])
    {
      now := env(turn);
      ApplyAllTracks(ring, db, app, audits, now.writes);
      ApplyAllAudited(db, app, audits, touched, now.writes);
      forall s | s !in Written(now.writes)
        ensures (s in ApplyAll(db, now.writes) <==> s in db) && (s in db ==> ApplyAll(db, now.writes)[s] == db[s])
      {
        UnwrittenStays(db, now.writes, s);
      }
      db, app := ApplyAll(db, now.writes), ApplyAll(app, now.writes);
      touched, turn := touched + Written(now.writes), turn + 1;
    }

    method Replace(slot: Slot, envelope: Envelope, nonce: nat) returns (r: Replacement)
      requires ValidRing(ring)
      modifies this`skipped
      ensures r.Skip? <==> IsCurrent(ring, envelope)
      ensures skipped == old(skipped) + if r.Skip? then 1 else 0
      ensures r.Thrown? <==> Blocks(ring, slot, Some(envelope))
      ensures r.Next? ==> Resealed(ring, slot, envelope, r.envelope)
    {
      if IsCurrent(ring, envelope) {
        skipped := skipped + 1;
        return Skip;
      }
      var plaintext := Decrypt(ring, envelope, SweepContext(slot));
      if plaintext.None? {
        return Thrown;
      }
      var next := Encrypt(ring, plaintext.value, SweepContext(slot), nonce);
      // the check that the new envelope opens to the same text never fails
      assert Decrypt(ring, next.value, SweepContext(slot)) == plaintext;
      return Next(next.value);
    }

    /** One transaction: the compare-and-set, its audit row and the count stand or fall together, save that the count
        is not undone when the commit throws. */
    method Transact(slot: Slot, envelope: Envelope, next: Envelope) returns (ok: bool)
      requires Valid() && Resealed(ring, slot, envelope, next)
      modifies this`db, this`app, this`touched, this`audits, this`rotated, this`turn
      ensures Valid() && turn == old(turn) + 1
      ensures touched == old(touched) + Written(env(old(turn)).writes)
      ensures var seen, fate := ApplyAll(old(db), env(old(turn)).writes), env(old(turn)).fate;
              var hit := slot in seen && seen[slot] == Some(envelope);
              var kept := hit && (fate.Committed? || fate.CommitLost?);
              && ok == fate.Committed?
              && db == (if kept then seen[slot := Some(next)] else seen)
              && audits == (if kept then old(audits) + [slot] else old(audits))
              && rotated == old(rotated) + (if hit && !fate.Failed? then 1 else 0)
      ensures forall s :: s !in touched ==>
              (s in db <==> s in old(db)) && (s in db && s != slot ==> db[s] == old(db)[s])
      ensures ok && slot !in touched && old(slot in db && db[slot] == Some(envelope)) ==>
                slot in db && db[slot] == Some(next)
    {
      var now := Interfere();
      if now.fate.Failed? {
        return false;
      }
      if slot in db && db[slot] == Some(envelope) {
        rotated := rotated + 1;
        if !now.fate.CommitFailed? {
          ResealTracks(ring, db, app, audits, slot, next);
          ResealAudited(ring, db, app, audits, touched, slot, next);
          db := db[slot := Some(next)];
          audits := audits + [slot];
        }
      }
      return now.fate.Committed?;
    }

    /** Between transactions every rotation has its audit row; one that threw may have been counted without. */
    ghost predicate Counted(ok: bool)
      reads this
    {
      |audits| <= rotated <= |audits| + if ok then 0 else 1
    }

    method RotateRow(row: Row) returns (ok: bool)
      requires Valid() && Pending(row) && Counted(true)
      modifies this`db, this`app, this`touched, this`audits, this`rotated, this`skipped, this`turn
      ensures Valid() && old(touched) <= touched && turn >= old(turn) && Counted(ok)
      ensures ok ==> Fine(row.slot)
      ensures forall s :: old(Fine(s)) ==> Fine(s)
      ensures forall r: Row :: r.slot != row.slot && old(Pending(r)) ==> Pending(r)
      ensures !ok ==> Blocks(ring, row.slot, row.envelope) || Hindered(ring, initial, env, old(turn), turn)
    {
      if row.envelope.None? {
        return true;
      }
      var r := Replace(row.slot, row.envelope.value, env(turn).nonce);
      match r
      case Skip => ok := true;
      case Thrown => ok := false;
      case Next(next) =>
        ok := Transact(row.slot, row.envelope.value, next);
        assert !ok ==> Hinders(ring, initial, env, old(turn));
    }

    ghost predicate SomeRowBlocks(rows: seq<Row>)
      requires ValidRing(ring)
    {
      exists i :: 0 <= i < |rows| && Blocks(ring, rows[i].slot, rows[i].envelope)
    }

    /** The rows before the k-th are done with, the others as the snapshot saw them. */
    ghost predicate Reached(rows: seq<Row>, k: nat)
      reads this
    {
      && (forall i :: 0 <= i < |rows| && i < k ==> Fine(rows[i].slot))
      && (forall i :: k <= i < |rows| ==> Pending(rows[i]))
    }

    method RotateNext(rows: seq<Row>, k: nat) returns (ok: bool)
      requires Valid() && Counted(true) && k < |rows| && Reached(rows, k)
      requires forall i, j :: 0 <= i < j < |rows| ==> rows[i].slot != rows[j].slot
      modifies this`db, this`app, this`touched, this`audits, this`rotated, this`skipped, this`turn
      ensures Valid() && old(touched) <= touched && turn >= old(turn) && Counted(ok)
      ensures ok ==> Reached(rows, k + 1)
      ensures forall s :: old(Fine(s)) ==> Fine(s)
      ensures !ok ==> SomeRowBlocks(rows) || Hindered(ring, initial, env, old(turn), turn)
    {
      ok := RotateRow(rows[k]);
    }

    method RotateRows(rows: seq<Row>) returns (ok: bool)
      requires Valid() && Counted(true) && Reached(rows, 0)
      requires forall i, j :: 0 <= i < j < |rows| ==> rows[i].slot != rows[j].slot
      modifies this`db, this`app, this`touched, this`audits, this`rotated, this`skipped, this`turn
      ensures Valid() && old(touched) <= touched && turn >= old(turn) && Counted(ok)
      ensures ok ==> Reached(rows, |rows|)
      ensures forall s :: old(Fine(s)) ==> Fine(s)
      ensures !ok ==> SomeRowBlocks(rows) || Hindered(ring, initial, env, old(turn), turn)
    {
      for k := 0 to |rows|
        invariant Valid() && old(touched) <= touched && turn >= old(turn) && Counted(true)
        invariant Reached(rows, k)
        invariant forall s :: old(Fine(s)) ==> Fine(s)
      {
        ok := RotateNext(rows, k);
        if !ok {
          return;
        }
      }
      return true;
    }

    lemma SnapshotBlocks(rows: seq<Row>, table: Table)
      requires Valid() && SnapshotOf(rows, db, table) && SomeRowBlocks(rows)
      ensures SomeBlocks(ring, Alone(initial, env, turn))
    {
      var i :| 0 <= i < |rows| && Blocks(ring, rows[i].slot, rows[i].envelope);
      BlockingIsTheirs(ring, db, app, audits, rows[i].slot);
    }

    method TakeSnapshot(table: Table) returns (rows: seq<Row>)
      requires Valid()
      modifies this`db, this`app, this`touched, this`turn
      ensures Valid() && old(touched) <= touched && turn == old(turn) + 1
      ensures SnapshotOf(rows, db, table) && Reached(rows, 0)
      ensures forall s :: old(Fine(s)) ==> Fine(s)
      ensures SomeRowBlocks(rows) ==> Hinders(ring, initial, env, old(turn))
    {
      var now := Interfere();
      rows := Snapshot(db, table);
      if SomeRowBlocks(rows) {
        SnapshotBlocks(rows, table);
      }
    }

    method RotateTable(table: Table) returns (ok: bool)
      requires Valid() && Counted(true)
      modifies this`db, this`app, this`touched, this`audits, this`rotated, this`skipped, this`turn
      ensures Valid() && old(touched) <= touched && turn >= old(turn) && Counted(ok)
      ensures ok ==> forall s :: TableOf(s) == table ==> Fine(s)
      ensures forall s :: old(Fine(s)) ==> Fine(s)
      ensures !ok ==> Hindered(ring, initial, env, old(turn), turn)
    {
      var rows := TakeSnapshot(table);
      ok := RotateRows(rows);
    }

    /** However the application writes beside it: the sweep leaves what the application's writes alone would have left,
        read as the application wrote it; if it completes, only current envelopes and what was written meanwhile are
        left, with one audit row per rotation; and it stops only at a failed transaction or at an envelope it cannot
        open. Undisturbed it completes iff nothing blocks it, and does nothing if all is current. */
    method Run() returns (ok: bool)
      requires Valid() && Counted(true)
      modifies this`db, this`app, this`touched, this`audits, this`rotated, this`skipped, this`turn
      ensures Valid() && turn >= old(turn) && Counted(ok)
      ensures var written := Alone(initial, env, turn);
              db.Keys == written.Keys && forall s :: s in db ==> ReadsAsWritten(ring, s, db[s], written[s])
      ensures ok ==> forall s :: s in db && db[s].Some? && s !in Touched(env, turn) ==>
                var e := db[s].value;
                (e.V2? && e.id == ring.current) || (e.Malformed? && e.prefix == Some(ring.current))
      ensures ok && Touched(env, turn) == {} ==> AllSettled(ring, db)
      ensures !ok ==> Hindered(ring, initial, env, old(turn), turn)
      ensures Calm(env) ==> ok == !SomeBlocks(ring, initial)
      ensures Calm(env) && AllSettled(ring, initial) ==> db == initial && audits == []
    {
      ok := RotateTable(Providers);
      if ok {
        ok := RotateTable(Integrations);
      }
      if ok {
        ok := RotateTable(Servers);
      }
      if ok {
        ok := RotateTable(Approvals);
      }
      if ok {
        ok := RotateTable(Checkpoints);
      }
      assert ok ==> forall s :: Fine(s);
      assert ok ==> forall s :: s in db ==> Fine(s);
      ReadingsAgree(ring, db, app, audits);
      if Calm(env) {
        Undisturbed(ok, old(turn));
      }
    }

    lemma Undisturbed(ok: bool, from: nat)
      requires Valid() && Calm(env)
      requires ok ==> forall s :: Fine(s)
      requires !ok ==> Hindered(ring, initial, env, from, turn)
      ensures ok == !SomeBlocks(ring, initial)
      ensures AllSettled(ring, initial) ==> db == initial && audits == []
    {
      CalmAlone(initial, env, turn);
      if ok {
        assert forall s :: s in db ==> Fine(s);
        SettledMeansUnblocked(ring, db, initial, audits);
      } else {
        var k :| from <= k < turn && Hinders(ring, initial, env, k);
        CalmAlone(initial, env, k + 1);
      }
      if AllSettled(ring, initial) {
        SettledStays(ring, db, initial, audits);
      }
    }
  }

  /** Undisturbed, a second sweep after a completed one finds everything current and rotates nothing. */
  method SweepTwice(ring: Ring, env: Environment, db: Database)
    returns (once: Database, twice: Database, first: bool, second: bool, rotatedAgain: nat)
    requires ValidRing(ring) && Calm(env)
    ensures first == !SomeBlocks(ring, db)
    ensures once.Keys == db.Keys && forall s :: s in db ==> Tracks(ring, s, once[s], db[s])
    ensures first ==> second && AllSettled(ring, once) && twice == once && rotatedAgain == 0
  {
    var sweep := new Sweep(ring, env, db);
    first := sweep.Run();
    once := sweep.db;
    CalmAlone(db, env, sweep.turn);
    var again := new Sweep(ring, env, once);
    second := again.Run();
    twice, rotatedAgain := again.db, again.rotated;
  }
}
