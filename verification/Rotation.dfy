/** The re-encryption sweep, `scripts/reencrypt-secrets.ts`, beside an application that goes on writing. */
module Rotation {
  import opened Prelude
  import opened Secrets

  /** One encrypted column of one row; the row's organization, run and approval id never change. */
  datatype Slot = Slot(column: Column, row: string, organization: string, run: Option<string>, approval: string)

  type Database = map<Slot, Option<Envelope>>

  datatype Table = Providers | Integrations | Servers | Approvals | Checkpoints

  function TableOf(slot: Slot): Table {
    match slot.column
    case ProviderSecret => Providers
    case IntegrationToken => Integrations
    case BearerToken => Servers
    case OAuthData => Servers
    case ApprovalArguments => Approvals
    case CheckpointState => Checkpoints
  }

  /** The context the application seals and opens a column with. */
  function AppContext(slot: Slot): Context {
    Context(slot.column, slot.organization,
            if slot.column == ApprovalArguments && slot.run.None? then External(slot.approval)
            else if slot.column == ApprovalArguments || slot.column == CheckpointState then OfRun(slot.run) else Whole)
  }

  /** The context the sweep uses, which knows no external approvals. */
  function SweepContext(slot: Slot): Context {
    Context(slot.column, slot.organization,
            if slot.column == ApprovalArguments || slot.column == CheckpointState then OfRun(slot.run) else Whole)
  }

  predicate IsExternal(slot: Slot) {
    slot.column == ApprovalArguments && slot.run.None?
  }

  lemma ContextsDifferIff(slot: Slot)
    ensures AppContext(slot) != SweepContext(slot) <==> IsExternal(slot)
  {
  }

  /** A context ties an envelope to its column and organization; an approval's or checkpoint's also to its run, and an
      external approval's to that approval, which the sweep's context does not. */
  lemma ContextsBind(a: Slot, b: Slot)
    ensures SweepContext(a) == SweepContext(b) <==>
              && a.column == b.column && a.organization == b.organization
              && (a.column in {ApprovalArguments, CheckpointState} ==> a.run == b.run)
    ensures AppContext(a) == AppContext(b) <==>
              && a.column == b.column && a.organization == b.organization
              && (a.column in {ApprovalArguments, CheckpointState} ==> a.run == b.run)
              && (a.column == ApprovalArguments && a.run.None? ==> a.approval == b.approval)
  {
  }

  // ---- One envelope

  /** What the application reads in a column. */
  datatype Reading = Nothing | Secret(text: string) | Unreadable

  function Read(ring: Ring, slot: Slot, e: Option<Envelope>): Reading
    requires ValidRing(ring)
  {
    if e.None? then Nothing
    else if Decrypt(ring, e.value, AppContext(slot)).Some? then Secret(Decrypt(ring, e.value, AppContext(slot)).value)
    else Unreadable
  }

  /** The sweep throws on this envelope. */
  predicate Blocks(ring: Ring, slot: Slot, e: Option<Envelope>)
    requires ValidRing(ring)
  {
    e.Some? && !IsCurrent(ring, e.value) && Decrypt(ring, e.value, SweepContext(slot)).None?
  }

  /** `next` is `e` opened and sealed again under the current key. */
  ghost predicate Resealed(ring: Ring, slot: Slot, e: Envelope, next: Envelope)
    requires ValidRing(ring)
  {
    var text := Decrypt(ring, e, SweepContext(slot));
    && !IsCurrent(ring, e) && text.Some? && IsCurrent(ring, next)
    && forall c :: Decrypt(ring, next, c) == if c == SweepContext(slot) then text else None
  }

  /** Resealing leaves the application's reading as it was, except that of an external approval in the old version. */
  lemma ResealedReadsSameIff(ring: Ring, slot: Slot, e: Envelope, next: Envelope)
    requires ValidRing(ring) && Resealed(ring, slot, e, next)
    ensures Read(ring, slot, Some(next)) == Read(ring, slot, Some(e)) <==> !(IsExternal(slot) && e.V1?)
    ensures IsExternal(slot) && e.V1? ==>
            Read(ring, slot, Some(e)).Secret? && Read(ring, slot, Some(next)) == Unreadable
  {
    ContextsDifferIff(slot);
  }

  /** Whatever the application seals under an older key of the ring, the sweep can reseal iff it is no external
      approval. */
  lemma ApplicationEnvelopeBlocksIff(ring: Ring, older: Ring, slot: Slot, text: string, nonce: nat)
    requires ValidRing(ring) && ValidRing(older) && text != "" && older.current != ring.current
    requires older.current in ring.keys && ring.keys[older.current] == older.keys[older.current]
    ensures var e := Encrypt(older, text, AppContext(slot), nonce);
            Read(ring, slot, e) == Secret(text) && (Blocks(ring, slot, e) <==> IsExternal(slot))
  {
    ContextsDifferIff(slot);
  }

  // ---- The application

  datatype AppWrite = Put(slot: Slot, envelope: Option<Envelope>) | Delete(slot: Slot)

  function Apply(db: Database, w: AppWrite): Database {
    match w
    case Put(slot, e) => db[slot := e]
    case Delete(slot) => db - {slot}
  }

  function ApplyAll(db: Database, ws: seq<AppWrite>): Database {
    if ws == [] then db else Apply(ApplyAll(db, ws[..|ws| - 1]), ws[|ws| - 1])
  }

  function Written(ws: seq<AppWrite>): set<Slot> {
    set i | 0 <= i < |ws| :: ws[i].slot
  }

  /** Of several writes to one column the last stands. */
  lemma {:induction false} LastWriteStands(db: Database, ws: seq<AppWrite>, i: nat)
    requires i < |ws| && forall j :: i < j < |ws| ==> ws[j].slot != ws[i].slot
    ensures match ws[i]
            case Put(slot, e) => slot in ApplyAll(db, ws) && ApplyAll(db, ws)[slot] == e
            case Delete(slot) => slot !in ApplyAll(db, ws)
  {
    if i < |ws| - 1 {
      LastWriteStands(db, ws[..|ws| - 1], i);
    }
  }

  /** How a transaction of the sweep ends: it commits, it throws before or while committing, or it commits and the
      acknowledgement is lost. */
  datatype Fate = Committed | Failed | CommitFailed | CommitLost

  /** What happens around one statement of the sweep: the writes that come before it, the nonce it draws, and how it
      ends. */
  datatype Turn = Turn(writes: seq<AppWrite>, nonce: nat, fate: Fate)

  type Environment = nat -> Turn

  ghost predicate Calm(env: Environment) {
    forall i :: env(i).writes == [] && env(i).fate == Committed
  }

  /** What the application's writes of the first `turns` turns alone would have left. */
  function Alone(db: Database, env: Environment, turns: nat): Database {
    if turns == 0 then db else ApplyAll(Alone(db, env, turns - 1), env(turns - 1).writes)
  }

  /** What the application has written in the first `turns` turns. */
  function Touched(env: Environment, turns: nat): set<Slot> {
    if turns == 0 then {} else Touched(env, turns - 1) + Written(env(turns - 1).writes)
  }

  lemma {:induction false} CalmAlone(db: Database, env: Environment, turns: nat)
    requires Calm(env)
    ensures Alone(db, env, turns) == db && Touched(env, turns) == {}
  {
    if turns > 0 {
      CalmAlone(db, env, turns - 1);
    }
  }

  /** In this turn a transaction of the sweep fails, or the application has an envelope that the sweep throws on. */
  ghost predicate Hinders(ring: Ring, db: Database, env: Environment, turn: nat)
    requires ValidRing(ring)
  {
    !env(turn).fate.Committed? || SomeBlocks(ring, Alone(db, env, turn + 1))
  }

  ghost predicate Hindered(ring: Ring, db: Database, env: Environment, from: nat, to: nat)
    requires ValidRing(ring)
  {
    exists k :: from <= k < to && Hinders(ring, db, env, k)
  }

  ghost predicate SomeBlocks(ring: Ring, db: Database)
    requires ValidRing(ring)
  {
    exists s :: s in db && Blocks(ring, s, db[s])
  }

  // ---- The two databases side by side

  /** `mine` is what the application wrote, or that resealed. */
  ghost predicate Tracks(ring: Ring, slot: Slot, mine: Option<Envelope>, theirs: Option<Envelope>)
    requires ValidRing(ring)
  {
    mine == theirs || (mine.Some? && theirs.Some? && Resealed(ring, slot, theirs.value, mine.value))
  }

  /** Every column holds what the application wrote, or that resealed and audited. */
  ghost predicate AllTrack(ring: Ring, db: Database, app: Database, audits: seq<Slot>)
    requires ValidRing(ring)
  {
    && db.Keys == app.Keys
    && forall s :: s in db ==> Tracks(ring, s, db[s], app[s]) && (db[s] != app[s] ==> s in audits)
  }

  /** An audit row tells of a resealed column, or of one the application has written meanwhile. */
  ghost predicate AuditsTrue(db: Database, app: Database, audits: seq<Slot>, touched: set<Slot>) {
    forall s :: s in audits && s !in touched ==> s in db && s in app && db[s] != app[s]
  }

  lemma ApplyTracks(ring: Ring, db: Database, app: Database, audits: seq<Slot>, w: AppWrite)
    requires ValidRing(ring) && AllTrack(ring, db, app, audits)
    ensures AllTrack(ring, Apply(db, w), Apply(app, w), audits)
  {
  }

  lemma {:induction false} ApplyAllTracks(ring: Ring, db: Database, app: Database, audits: seq<Slot>, ws: seq<AppWrite>)
    requires ValidRing(ring) && AllTrack(ring, db, app, audits)
    ensures AllTrack(ring, ApplyAll(db, ws), ApplyAll(app, ws), audits)
  {
    if ws != [] {
      var init := ws[..|ws| - 1];
      ApplyAllTracks(ring, db, app, audits, init);
      ApplyTracks(ring, ApplyAll(db, init), ApplyAll(app, init), audits, ws[|ws| - 1]);
    }
  }

  lemma {:induction false} UnwrittenStays(db: Database, ws: seq<AppWrite>, s: Slot)
    requires s !in Written(ws)
    ensures s in ApplyAll(db, ws) <==> s in db
    ensures s in db ==> ApplyAll(db, ws)[s] == db[s]
  {
    if ws != [] {
      var init := ws[..|ws| - 1];
      assert ws[|ws| - 1].slot in Written(ws);
      forall i | 0 <= i < |init| ensures init[i].slot in Written(ws) {
        assert init[i] == ws[i];
      }
      UnwrittenStays(db, init, s);
    }
  }

  lemma ResealTracks(ring: Ring, db: Database, app: Database, audits: seq<Slot>, slot: Slot, next: Envelope)
    requires ValidRing(ring) && AllTrack(ring, db, app, audits)
    requires slot in db && db[slot].Some? && Resealed(ring, slot, db[slot].value, next)
    ensures AllTrack(ring, db[slot := Some(next)], app, audits + [slot])
  {
  }

  lemma ResealAudited(ring: Ring, db: Database, app: Database, audits: seq<Slot>, touched: set<Slot>, slot: Slot,
                      next: Envelope)
    requires ValidRing(ring) && AllTrack(ring, db, app, audits) && AuditsTrue(db, app, audits, touched)
    requires slot in db && db[slot].Some? && Resealed(ring, slot, db[slot].value, next)
    ensures AuditsTrue(db[slot := Some(next)], app, audits + [slot], touched)
  {
  }

  lemma ApplyAllAudited(db: Database, app: Database, audits: seq<Slot>, touched: set<Slot>, ws: seq<AppWrite>)
    requires AuditsTrue(db, app, audits, touched)
    ensures AuditsTrue(ApplyAll(db, ws), ApplyAll(app, ws), audits, touched + Written(ws))
  {
    forall s | s in audits && s !in touched + Written(ws)
      ensures s in ApplyAll(db, ws) && s in ApplyAll(app, ws) && ApplyAll(db, ws)[s] != ApplyAll(app, ws)[s]
    {
      UnwrittenStays(db, ws, s);
      UnwrittenStays(app, ws, s);
    }
  }

  /** The application reads what its own writes alone would have left, except in an external approval whose last write
      was an envelope of the old version. */
  ghost predicate ReadsAsWritten(ring: Ring, s: Slot, mine: Option<Envelope>, theirs: Option<Envelope>)
    requires ValidRing(ring)
  {
    Read(ring, s, mine) == Read(ring, s, theirs) ||
    (IsExternal(s) && theirs.Some? && theirs.value.V1? && Read(ring, s, mine) == Unreadable)
  }

  lemma ReadingsAgree(ring: Ring, db: Database, app: Database, audits: seq<Slot>)
    requires ValidRing(ring) && AllTrack(ring, db, app, audits)
    ensures forall s :: s in db ==> ReadsAsWritten(ring, s, db[s], app[s])
  {
    forall s | s in db && db[s] != app[s] ensures ReadsAsWritten(ring, s, db[s], app[s]) {
      ResealedReadsSameIff(ring, s, app[s].value, db[s].value);
    }
  }

  /** What the sweep throws on is what the application wrote. */
  lemma BlockingIsTheirs(ring: Ring, db: Database, app: Database, audits: seq<Slot>, s: Slot)
    requires ValidRing(ring) && AllTrack(ring, db, app, audits) && s in db && Blocks(ring, s, db[s])
    ensures s in app && app[s] == db[s] && SomeBlocks(ring, app)
  {
  }

  // ---- The sweep

  ghost predicate AllSettled(ring: Ring, db: Database) {
    forall s :: s in db ==> Settled(ring, db[s])
  }

  /** Where nobody writes, a database that is settled throughout came from one in which nothing blocks. */
  lemma SettledMeansUnblocked(ring: Ring, db: Database, app: Database, audits: seq<Slot>)
    requires ValidRing(ring) && AllTrack(ring, db, app, audits) && AllSettled(ring, db)
    ensures !SomeBlocks(ring, app)
  {
  }

  /** What is settled is never resealed. */
  lemma SettledStays(ring: Ring, db: Database, app: Database, audits: seq<Slot>)
    requires ValidRing(ring) && AllTrack(ring, db, app, audits) && AuditsTrue(db, app, audits, {})
    requires AllSettled(ring, app)
    ensures db == app && audits == []
  {
    FirstMember(audits);
  }

  lemma FirstMember(audits: seq<Slot>)
    ensures audits != [] ==> exists s :: s in audits
  {
    assert audits != [] ==> audits[0] in audits;
  }

  datatype Row = Row(slot: Slot, envelope: Option<Envelope>)

  /** Nothing is left to do: no envelope, or one under the current key. */
  predicate Settled(ring: Ring, e: Option<Envelope>) {
    e.None? || IsCurrent(ring, e.value)
  }

  ghost predicate SnapshotOf(rows: seq<Row>, db: Database, table: Table) {
    && (forall i :: 0 <= i < |rows| ==> rows[i].slot in db && db[rows[i].slot] == rows[i].envelope)
    && (forall i, j :: 0 <= i < j < |rows| ==> rows[i].slot != rows[j].slot)
    && (forall s :: s in db && TableOf(s) == table ==> exists i :: 0 <= i < |rows| && rows[i].slot == s)
  }
}
