/** Connection pools, `src/db/pool.ts`: the budget they share and the session each checked-out client carries. */
module Pools {
  import opened Prelude

  datatype ProcessKind = Web | Worker
  datatype PoolKind = SystemPool | TenantPool | PlatformPool | WorkerPool

  datatype Context =
    | TenantContext(organization: string, user: Option<string>)
    | PlatformContext(admin: string)
    | SystemContext

  /** The configured maximum, read as an integer when it is a safe one. */
  function Budget(setting: Option<int>): int {
    match setting
    case Some(n) => Min(40, Max(6, n))
    case None => 10
  }

  function HalfRoundedUp(n: nat): nat { (n + 1) / 2 }

  function Limit(budget: int, process: ProcessKind, pool: PoolKind): int
    requires budget >= 0
  {
    if process == Worker then
      var system := Max(3, HalfRoundedUp(budget));
      if pool == SystemPool then system else Max(3, budget - system)
    else if pool == SystemPool || pool == PlatformPool then 2
    else Max(2, budget - 4)
  }

  function MaximumOf(live: map<PoolKind, int>, pool: PoolKind): int {
    if pool in live then live[pool] else 0
  }

  function Total(live: map<PoolKind, int>): int {
    MaximumOf(live, SystemPool) + MaximumOf(live, TenantPool) + MaximumOf(live, PlatformPool)
    + MaximumOf(live, WorkerPool)
  }

  /** The pools a process of this kind ever opens. */
  function Usable(process: ProcessKind): set<PoolKind> {
    if process == Worker then {SystemPool, WorkerPool} else {SystemPool, TenantPool, PlatformPool}
  }

  ghost predicate WithinPlan(live: map<PoolKind, int>, budget: int, process: ProcessKind)
    requires budget >= 0
  {
    forall p :: p in live ==> p in Usable(process) && live[p] == Limit(budget, process, p)
  }

  /** The live pools together stay within the budget, and use it up exactly when all usable ones are live. */
  lemma PlanFitsBudget(live: map<PoolKind, int>, setting: Option<int>, process: ProcessKind)
    requires WithinPlan(live, Budget(setting), process)
    ensures 6 <= Budget(setting) <= 40 && Total(live) <= Budget(setting)
    ensures Total(live) == Budget(setting) <==> live.Keys == Usable(process)
    ensures forall p :: p in live ==> live[p] >= 2
  {
    var budget := Budget(setting);
    assert forall p :: p in Usable(process) ==> Limit(budget, process, p) >= 2;
    forall p | p in Usable(process) ensures MaximumOf(live, p) == (if p in live then Limit(budget, process, p) else 0) {
    }
    if process == Worker {
      assert Limit(budget, Worker, SystemPool) + Limit(budget, Worker, WorkerPool) == budget;
      assert live.Keys == Usable(Worker) <==> SystemPool in live && WorkerPool in live;
    } else {
      assert live.Keys == Usable(Web) <==> SystemPool in live && TenantPool in live && PlatformPool in live;
    }
  }

  /** How the budget is divided: a web process gives the system and the platform pool two connections each and the
      tenant
      pool the rest, a worker process halves it. */
  lemma LimitTable(setting: Option<int>)
    ensures var b := Budget(setting);
            && b == (if setting.None? then 10 else if setting.value < 6 then 6 else if setting.value > 40 then 40
                     else setting.value)
            && Limit(b, Web, SystemPool) == 2 && Limit(b, Web, PlatformPool) == 2 && Limit(b, Web, TenantPool) == b - 4
            && Limit(b, Worker, WorkerPool) == b / 2 && Limit(b, Worker, SystemPool) == b - b / 2
  {
  }

  /** The process-wide registry of pools. */
  class Registry {
    const setting: Option<int>
    var configured: Option<ProcessKind>
    var live: map<PoolKind, int>

    constructor (setting: Option<int>)
      ensures Valid() && this.setting == setting && configured == None && live == map[]
    {
      this.setting := setting;
      configured, live := None, map[];
    }

    function Process(): ProcessKind
      reads this
    {
      if configured.Some? then configured.value else Web
    }

    ghost predicate Valid()
      reads this
    {
      WithinPlan(live, Budget(setting), Process())
    }

    method Configure(kind: ProcessKind) returns (ok: bool)
      requires Valid()
      modifies this`configured
      ensures Valid()
      ensures ok <==>
                && (old(configured) == None || old(configured) == Some(kind))
                && (live == map[] || old(Process()) == kind)
      ensures configured == if ok then Some(kind) else old(configured)
    {
      if configured.Some? && configured.value != kind {
        return false;
      }
      if live != map[] && Process() != kind {
        return false;
      }
      configured := Some(kind);
      return true;
    }

    method Open(pool: PoolKind)
      requires Valid() && pool in Usable(Process())
      modifies this`live
      ensures Valid() && Total(live) <= Budget(setting)
      ensures live == if pool in old(live) then old(live)
              else old(live)[pool := Limit(Budget(setting), Process(), pool)]
    {
      if pool !in live {
        live := live[pool := Limit(Budget(setting), Process(), pool)];
      }
      PlanFitsBudget(live, setting, Process());
    }

    /** A worker process has one pool for everything; a web process has one per kind of context. */
    method Get(context: Option<Context>) returns (pool: PoolKind)
      requires Valid()
      modifies this`live
      ensures Valid() && Total(live) <= Budget(setting) && pool in live
      ensures forall p :: p in old(live) ==> p in live && live[p] == old(live)[p]
      ensures Process() == Worker <==> pool == WorkerPool
      ensures Process() == Web && context.Some? ==>
                && (pool == TenantPool <==> context.value.TenantContext?)
                && (pool == PlatformPool <==> context.value.PlatformContext?)
      ensures Process() == Web && context.None? ==> pool == SystemPool
    {
      if Process() == Worker {
        pool := WorkerPool;
      } else if context.Some? && context.value.TenantContext? {
        pool := TenantPool;
      } else if context.Some? && context.value.PlatformContext? {
        pool := PlatformPool;
      } else {
        pool := SystemPool;
      }
      Open(pool);
    }

    method Close()
      requires Valid()
      modifies this`live
      ensures Valid() && live == map[]
    {
      live := map[];
    }
  }

  // ---- Sessions

  type RoleName = string

  /** What a database session remembers between checkouts. */
  datatype Session = Session(role: RoleName, organization: string, user: string)

  type ClientId = nat

  /** What preparing does to a session: it may be refused, or a statement may fail with the role set or not. */
  datatype Fault = NoFault | RoleFails | SettingsFail

  function RoleOf(pool: PoolKind): RoleName {
    match pool
    case SystemPool => ""
    case TenantPool => "moataz_app"
    case PlatformPool => "moataz_platform"
    case WorkerPool => "moataz_worker"
  }

  predicate Admits(pool: PoolKind, context: Option<Context>) {
    match pool
    case TenantPool => context.Some? && context.value.TenantContext?
    case PlatformPool => context.Some? && context.value.PlatformContext?
    case _ => true
  }

  /** The session a caller in this context is promised. */
  function Promised(pool: PoolKind, context: Option<Context>): Session
    requires Admits(pool, context)
  {
    match pool
    case TenantPool =>
      var user := context.value.user;
      Session(RoleOf(pool), context.value.organization, if user.Some? then user.value else "")
    case PlatformPool => Session(RoleOf(pool), "", context.value.admin)
    case _ => Session(RoleOf(pool), "", "")
  }

  /** Pool by pool: whom it admits, and what they are promised. */
  lemma PromisedSession(context: Option<Context>)
    ensures Admits(WorkerPool, context) && Promised(WorkerPool, context) == Session("moataz_worker", "", "")
    ensures Admits(TenantPool, context) <==> context.Some? && context.value.TenantContext?
    ensures Admits(PlatformPool, context) <==> context.Some? && context.value.PlatformContext?
    ensures forall organization, user :: context == Some(TenantContext(organization, Some(user))) ==>
              Promised(TenantPool, context) == Session("moataz_app", organization, user)
    ensures forall organization :: context == Some(TenantContext(organization, None)) ==>
              Promised(TenantPool, context) == Session("moataz_app", organization, "")
    ensures forall user :: context == Some(PlatformContext(user)) ==>
              Promised(PlatformPool, context) == Session("moataz_platform", "", user)
  {
  }

  /** A pool whose clients assume a role before a caller gets them. */
  class RolePool {
    const pool: PoolKind
    const max: nat
    var clients: map<ClientId, Session>
    var busy: set<ClientId>

    /** For whom each busy client was checked out, and whose sessions their holders have changed themselves. */
    ghost var holders: map<ClientId, Option<Context>>
    ghost var altered: set<ClientId>

    constructor (pool: PoolKind, max: nat)
      requires pool != SystemPool
      ensures Valid() && this.pool == pool && this.max == max && clients == map[] && busy == {}
    {
      this.pool, this.max := pool, max;
      clients, busy, holders, altered := map[], {}, map[], {};
    }

    /** Every busy client carries what its holder was promised, until the holder itself changes it. */
    ghost predicate Valid()
      reads this
    {
      && pool != SystemPool && |clients| <= max
      && busy <= clients.Keys && holders.Keys == busy
      && forall c :: c in busy ==> Served(c)
    }

    ghost predicate Served(c: ClientId)
      reads this
    {
      && c in clients && c in holders && Admits(pool, holders[c])
      && (c in altered || clients[c] == Promised(pool, holders[c]))
    }

    /** An idle client, or a new connection while there is room. */
    method Acquire() returns (client: Option<ClientId>)
      requires Valid()
      modifies this`clients
      ensures Valid()
      ensures client.None? <==> old(clients.Keys == busy && |clients| >= max)
      ensures client.None? ==> clients == old(clients)
      ensures client.Some? ==> client.value in clients && client.value !in busy
      ensures forall c :: c in old(clients) ==> c in clients && clients[c] == old(clients)[c]
      ensures client.Some? ==> clients.Keys == old(clients.Keys) + {client.value}
    {
      var idle := clients.Keys - busy;
      if idle != {} {
        var c :| c in idle;
        return Some(c);
      }
      assert forall c :: c in clients && c !in busy ==> c in idle;
      assert clients.Keys == busy;
      if |clients| >= max {
        return None;
      }
      var id := FreshId(clients.Keys);
      assert (clients[id := Session("", "", "")]).Keys == clients.Keys + {id};
      assert |clients| == |clients.Keys|;
      assert |(clients[id := Session("", "", "")]).Keys| == |clients.Keys| + 1;
      clients := clients[id := Session("", "", "")];
      return Some(id);
    }

    /** Set the role, then both settings; a failure of either statement leaves what came before it. */
    method Prepare(client: ClientId, context: Option<Context>, fault: Fault) returns (ok: bool)
      requires Valid() && client in clients && client !in busy
      modifies this`clients
      ensures Valid() && clients.Keys == old(clients.Keys)
      ensures forall c :: c in clients && c != client ==> clients[c] == old(clients)[c]
      ensures ok <==> Admits(pool, context) && fault == NoFault
      ensures ok ==> clients[client] == Promised(pool, context)
    {
      if !Admits(pool, context) || fault == RoleFails {
        return false;
      }
      clients := clients[client := clients[client].(role := RoleOf(pool))];
      if fault == SettingsFail {
        return false;
      }
      var organization, user := "", "";
      if pool == TenantPool {
        organization := context.value.organization;
        user := if context.value.user.Some? then context.value.user.value else "";
      } else if pool == PlatformPool {
        user := context.value.admin;
      }
      clients := clients[client := clients[client].(organization := organization, user := user)];
      return true;
    }

    method Hand(client: ClientId, context: Option<Context>)
      requires Valid() && client in clients && client !in busy
      requires Admits(pool, context) && clients[client] == Promised(pool, context)
      modifies this`busy, this`holders, this`altered
      ensures Valid() && busy == old(busy) + {client} && holders == old(holders)[client := context]
      ensures altered == old(altered) - {client}
    {
      busy := busy + {client};
      holders := holders[client := context];
      altered := altered - {client};
      assert forall c :: c in busy && c != client ==> old(Served(c));
    }

    /** Whatever earlier holders left in the sessions, a checkout hands out exactly the promised session or destroys the
        client, and touches no client another caller holds. */
    method Connect(context: Option<Context>, fault: Fault) returns (client: Option<ClientId>)
      requires Valid()
      modifies this
      ensures Valid()
      ensures client.Some? <==>
                && Admits(pool, context) && fault == NoFault
                && !old(clients.Keys == busy && |clients| >= max)
      ensures client.Some? ==>
                && client.value !in old(busy) && busy == old(busy) + {client.value}
                && client.value in clients && clients[client.value] == Promised(pool, context)
                && holders == old(holders)[client.value := context] && client.value !in altered
      ensures client.None? ==> busy == old(busy) && holders == old(holders) && clients.Keys <= old(clients.Keys)
      ensures forall c :: c in old(busy) ==>
              c in clients && clients[c] == old(clients)[c] && (c in altered <==> c in old(altered))
    {
      client := Acquire();
      if client.None? {
        return;
      }
      var id := client.value;
      var ok := Prepare(id, context, fault);
      if ok {
        Hand(id, context);
      } else {
        Destroy(id);
        client := None;
      }
    }

    method Destroy(client: ClientId)
      requires Valid() && client in clients && client !in busy
      modifies this`clients
      ensures Valid() && clients == old(clients) - {client}
    {
      assert clients.Keys == (clients - {client}).Keys + {client};
      assert |(clients - {client}).Keys| <= |clients.Keys|;
      assert |clients - {client}| == |(clients - {client}).Keys| && |clients| == |clients.Keys|;
      clients := clients - {client};
    }

    /** A holder may leave anything at all in its session. */
    method Alter(client: ClientId, session: Session)
      requires Valid() && client in busy
      modifies this`clients, this`altered
      ensures Valid() && clients == old(clients)[client := session] && altered == old(altered) + {client}
    {
      assert (clients[client := session]).Keys == clients.Keys;
      assert |clients[client := session]| == |(clients[client := session]).Keys| && |clients| == |clients.Keys|;
      clients := clients[client := session];
      altered := altered + {client};
    }

    method Release(client: ClientId, destroy: bool)
      requires Valid() && client in busy
      modifies this
      ensures Valid() && busy == old(busy) - {client} && holders == old(holders) - {client} && altered == old(altered)
      ensures clients == if destroy then old(clients) - {client} else old(clients)
    {
      busy := busy - {client};
      holders := holders - {client};
      if destroy {
        Destroy(client);
      }
    }
  }

  method FreshId(ids: set<ClientId>) returns (id: ClientId)
    ensures id !in ids
  {
    id := 0;
    ghost var seen := {};
    while id in ids
      invariant seen <= ids && |seen| == id && forall i :: 0 <= i < id ==> i in seen
      invariant forall i :: i in seen ==> i < id
      decreases |ids - seen|
    {
      seen := seen + {id};
      id := id + 1;
    }
  }
}
