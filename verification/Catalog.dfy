/** Reconciling a stored catalog with a discovered one: the upsert loops and the disable pass of `syncMcpServer` in
    `src/ai/mcp/service.ts`, and the operator's show/hide route in `src/app/api/dashboard/mcp/route.ts`. */
module Catalog {
  import opened Discovery

  /** A catalog row: the columns the server describes, and whether the entry is shown. */
  datatype Entry = Entry(columns: map<string, Value>, enabled: bool)

  /** The rows of one kind of one server, by their unique key. */
  type Table = map<string, Entry>

  function Keys(ds: seq<Descriptor>): set<string> {
    set i | 0 <= i < |ds| :: ds[i].key
  }

  /** Insert with `enabled: true`, or on conflict set the columns that have a value and nothing else. */
  function Upsert(t: Table, d: Descriptor): Table {
    t[d.key := if d.key in t then Entry(t[d.key].columns + d.columns, t[d.key].enabled) else Entry(d.columns, true)]
  }

  function UpsertAll(t: Table, ds: seq<Descriptor>): Table {
    if ds == [] then t else Upsert(UpsertAll(t, ds[..|ds| - 1]), ds[|ds| - 1])
  }

  function DisableAbsent(t: Table, present: set<string>): Table {
    map k | k in t :: if k in present then t[k] else t[k].(enabled := false)
  }

  function Reconcile(t: Table, found: Found): Table {
    var upserted := UpsertAll(t, found.items);
    if found.failed then upserted else DisableAbsent(upserted, Keys(found.items))
  }

  // ---- Closed form

  /** The columns a key ends up with: later descriptors of the same key win, column by column. */
  function Described(ds: seq<Descriptor>, k: string): map<string, Value> {
    if ds == [] then map[]
    else
      var d := ds[|ds| - 1];
      Described(ds[..|ds| - 1], k) + if d.key == k then d.columns else map[]
  }

  function Columns(t: Table, k: string): map<string, Value> {
    if k in t then t[k].columns else map[]
  }

  lemma KeysSnoc(ds: seq<Descriptor>)
    requires ds != []
    ensures Keys(ds) == Keys(ds[..|ds| - 1]) + {ds[|ds| - 1].key}
  {
    var init := ds[..|ds| - 1];
    assert forall i :: 0 <= i < |init| ==> init[i] == ds[i];
  }

  lemma MergeAssociates(a: map<string, Value>, b: map<string, Value>, c: map<string, Value>)
    ensures (a + b) + c == a + (b + c)
  {
  }

  ghost predicate UpsertedFor(t: Table, ds: seq<Descriptor>, k: string, u: Table) {
    && (k in u <==> k in t || k in Keys(ds))
    && (k in u ==> u[k].enabled == (k !in t || t[k].enabled))
    && Columns(u, k) == Columns(t, k) + Described(ds, k)
  }

  lemma {:induction false} UpsertAllClosed(t: Table, ds: seq<Descriptor>, k: string)
    ensures UpsertedFor(t, ds, k, UpsertAll(t, ds))
  {
    if ds != [] {
      var init, d := ds[..|ds| - 1], ds[|ds| - 1];
      UpsertAllClosed(t, init, k);
      KeysSnoc(ds);
      MergeAssociates(Columns(t, k), Described(init, k), d.columns);
      if d.key == k && k !in UpsertAll(t, init) {
        assert map[] + d.columns == d.columns;
      }
    }
  }

  /** After a successful discovery an entry is shown iff it was discovered and was new or already shown; a failed
      discovery, which lists nothing, changes nothing. */
  lemma ReconcileClosed(t: Table, found: Found, k: string)
    requires found.failed ==> found.items == []
    ensures var r := Reconcile(t, found);
            if found.failed then r == t
            else && (k in r <==> k in t || k in Keys(found.items))
                 && (k in r ==> r[k].enabled == (k in Keys(found.items) && (k !in t || t[k].enabled)))
                 && (k in r ==> r[k].columns == Columns(t, k) + Described(found.items, k))
  {
    UpsertAllClosed(t, found.items, k);
  }

  /** Syncing again with the same discovery changes nothing. */
  lemma ReconcileTwice(t: Table, found: Found)
    requires found.failed ==> found.items == []
    ensures Reconcile(Reconcile(t, found), found) == Reconcile(t, found)
  {
    var once, twice := Reconcile(t, found), Reconcile(Reconcile(t, found), found);
    forall k ensures (k in twice <==> k in once) && (k in once ==> twice[k] == once[k]) {
      ReconcileClosed(t, found, k);
      ReconcileClosed(once, found, k);
      if k in once && !found.failed {
        var was, said := Columns(t, k), Described(found.items, k);
        assert (was + said) + said == was + said;
      }
    }
  }

  /** A later listing of a key overrides an earlier one, but a column the server no longer mentions keeps its value. */
  lemma DroppedColumnsStay(t: Table, d: Descriptor, column: string)
    requires d.key in t && column in t[d.key].columns && column !in d.columns
    ensures var r := Reconcile(t, Found([d], false));
            d.key in r && column in r[d.key].columns && r[d.key].columns[column] == t[d.key].columns[column]
  {
    assert [d][..0] == [];
    assert Described([d], d.key) == map[] + d.columns;
    assert d.key in Keys([d]) by {
      assert [d][0].key == d.key;
    }
    ReconcileClosed(t, Found([d], false), d.key);
  }

  // ---- History

  /** What can happen to a catalog: a sync that discovered this kind, one that did not or was rolled back, and an
      operator's choice, which fails when the entry does not exist. */
  datatype Event = Synced(items: seq<Descriptor>) | SyncFailed | Toggled(key: string, enabled: bool)

  function Apply(t: Table, e: Event): Table {
    match e
    case Synced(items) => Reconcile(t, Found(items, false))
    case SyncFailed => t
    case Toggled(k, enabled) => if k in t then t[k := t[k].(enabled := enabled)] else t
  }

  function Play(h: seq<Event>): Table {
    if h == [] then map[] else Apply(Play(h[..|h| - 1]), h[|h| - 1])
  }

  predicate Lists(e: Event, k: string) {
    e.Synced? && k in Keys(e.items)
  }

  ghost predicate Known(h: seq<Event>, upto: nat, k: string)
    requires upto <= |h|
  {
    exists i :: 0 <= i < upto && Lists(h[i], k)
  }

  /** The i-th event shows `k`: its first listing ever, or an operator's choice once it is known. */
  ghost predicate Shows(h: seq<Event>, i: nat, k: string)
    requires i < |h|
  {
    if Known(h, i, k) then h[i] == Toggled(k, true) else Lists(h[i], k)
  }

  /** The event hides `k`: a successful listing without it, or an operator's choice. */
  predicate Hides(e: Event, k: string) {
    e == Toggled(k, false) || (e.Synced? && k !in Keys(e.items))
  }

  ghost predicate ShownSince(h: seq<Event>, i: nat, k: string)
    requires i < |h|
  {
    Shows(h, i, k) && forall j :: i < j < |h| ==> !Hides(h[j], k)
  }

  ghost predicate ShownByHistory(h: seq<Event>, k: string) {
    exists i :: 0 <= i < |h| && ShownSince(h, i, k)
  }

  lemma KnownPrefix(h: seq<Event>, upto: nat, k: string)
    requires upto < |h|
    ensures Known(h[..|h| - 1], upto, k) <==> Known(h, upto, k)
  {
    var init := h[..|h| - 1];
    if Known(h, upto, k) {
      var i :| 0 <= i < upto && Lists(h[i], k);
      assert Lists(init[i], k);
    }
    if Known(init, upto, k) {
      var i :| 0 <= i < upto && Lists(init[i], k);
      assert Lists(h[i], k);
    }
  }

  /** What the last event adds to the history of `k`. */
  lemma ShownStep(h: seq<Event>, k: string)
    requires h != []
    ensures var init, last := h[..|h| - 1], h[|h| - 1];
            ShownByHistory(h, k) <==> Shows(h, |h| - 1, k) || (ShownByHistory(init, k) && !Hides(last, k))
  {
    var n := |h| - 1;
    var init := h[..n];
    if ShownByHistory(h, k) {
      var i :| 0 <= i < |h| && ShownSince(h, i, k);
      if i < n {
        KnownPrefix(h, i, k);
        assert Shows(init, i, k);
        assert forall j :: i < j < n ==> init[j] == h[j];
        assert ShownSince(init, i, k);
      }
    }
    if Shows(h, n, k) {
      assert ShownSince(h, n, k);
    } else if ShownByHistory(init, k) && !Hides(h[n], k) {
      var i :| 0 <= i < |init| && ShownSince(init, i, k);
      KnownPrefix(h, i, k);
      assert Shows(h, i, k);
      forall j | i < j < |h| ensures !Hides(h[j], k) {
        if j < n {
          assert init[j] == h[j];
        }
      }
      assert ShownSince(h, i, k);
    }
  }

  /** Over any history an entry exists iff it was ever listed, and is shown iff since some event that showed it neither
      a successful listing left it out nor an operator hid it. */
  lemma {:induction false} ShownIff(h: seq<Event>, k: string)
    ensures k in Play(h) <==> Known(h, |h|, k)
    ensures k in Play(h) && Play(h)[k].enabled <==> ShownByHistory(h, k)
  {
    if h != [] {
      var n := |h| - 1;
      var init, last := h[..n], h[n];
      ShownIff(init, k);
      assert Known(h, n, k) <==> Known(init, n, k) by {
        KnownPrefix(h, n, k);
      }
      assert Known(h, |h|, k) <==> Known(h, n, k) || Lists(last, k);
      ShownStep(h, k);
      if last.Synced? {
        ReconcileClosed(Play(init), Found(last.items, false), k);
      }
    }
  }

  /** An entry that vanished stays hidden when it comes back, until an operator shows it again. */
  lemma VanishedStaysHidden(h: seq<Event>, gone: nat, k: string)
    requires gone < |h| && h[gone].Synced? && !Lists(h[gone], k) && Known(h, gone, k)
    requires forall j :: gone < j < |h| ==> h[j] != Toggled(k, true)
    ensures k in Play(h) && !Play(h)[k].enabled
  {
    ShownIff(h, k);
    assert Hides(h[gone], k);
    forall i | 0 <= i < |h| ensures !ShownSince(h, i, k) {
      if i > gone {
        var j :| 0 <= j < gone && Lists(h[j], k);
        assert Known(h, i, k);
      }
    }
    var j :| 0 <= j < gone && Lists(h[j], k);
    assert Known(h, |h|, k);
  }
}
