/**
  Many tenants in one database. The queries of the build services carry no tenant filter;
  each transaction sees and writes only its tenant's rows, because row-level security
  filters what it reads and leaves every other row alone when it commits.
 */
module TenantIsolation {
  import opened Common
  import opened SiteBuilds
  import opened SiteBuildSafety
  import opened SiteBuildRuns

  type Tenant = nat

  datatype Row<T> = Row(tenant: Tenant, data: T)

  /** The rows a session of tenant `t` sees, in table order. */
  function Visible<T>(rows: seq<Row<T>>, t: Tenant): seq<T> {
    if rows == [] then []
    else (if rows[0].tenant == t then [rows[0].data] else []) + Visible(rows[1..], t)
  }

  function Tagged<T>(data: seq<T>, t: Tenant): seq<Row<T>> {
    if data == [] then [] else [Row(t, data[0])] + Tagged(data[1..], t)
  }

  /** Writes a session's rows back in place and appends the ones it inserted. */
  function Commit<T>(rows: seq<Row<T>>, t: Tenant, data: seq<T>): seq<Row<T>> {
    if rows == [] then Tagged(data, t)
    else if rows[0].tenant == t && data != [] then [Row(t, data[0])] + Commit(rows[1..], t, data[1..])
    else [rows[0]] + Commit(rows[1..], t, data)
  }

  lemma {:induction false} TaggedVisible<T>(data: seq<T>, t: Tenant, u: Tenant)
    ensures Visible(Tagged(data, t), u) == if u == t then data else []
  {
    if data != [] {
      TaggedVisible(data[1..], t, u);
      assert Tagged(data, t)[1..] == Tagged(data[1..], t);
    }
  }

  /** A session reads back what it wrote. */
  lemma {:induction false} ReadsOwnWrites<T>(rows: seq<Row<T>>, t: Tenant, data: seq<T>)
    requires |Visible(rows, t)| <= |data|
    ensures Visible(Commit(rows, t, data), t) == data
  {
    if rows == [] {
      TaggedVisible(data, t, t);
    } else {
      var own := rows[0].tenant == t;
      ReadsOwnWrites(rows[1..], t, if own then data[1..] else data);
      assert Commit(rows, t, data)[1..] == Commit(rows[1..], t, if own then data[1..] else data);
    }
  }

  /** Every other tenant reads what it read before. */
  lemma {:induction false} OthersUndisturbed<T>(rows: seq<Row<T>>, t: Tenant, data: seq<T>, u: Tenant)
    requires u != t
    ensures Visible(Commit(rows, t, data), u) == Visible(rows, u)
  {
    if rows == [] {
      TaggedVisible(data, t, u);
    } else {
      var rest := if rows[0].tenant == t && data != [] then data[1..] else data;
      OthersUndisturbed(rows[1..], t, rest, u);
      assert Commit(rows, t, data)[1..] == Commit(rows[1..], t, rest);
    }
  }

  // A tenant's own state row and build configuration.
  datatype StateRow = StateRow(content: nat, deployed: Option<nat>, lastBuildAt: Option<int>, enabled: bool)

  datatype Database = Database(states: map<Tenant, StateRow>, requests: seq<Row<Request>>)

  function View(d: Database, t: Tenant): Site {
    var row := if t in d.states then d.states[t] else StateRow(0, None, None, false);
    Site(row.content, row.deployed, row.lastBuildAt, row.enabled, Visible(d.requests, t))
  }

  /** One transaction of tenant `t`, over the shared tables. */
  function Transact(d: Database, t: Tenant, e: Event): Database {
    var s := Step(View(d, t), e);
    Database(d.states[t := StateRow(s.content, s.deployed, s.lastBuildAt, s.enabled)],
             Commit(d.requests, t, s.requests))
  }

  lemma StepGrows(s: Site, e: Event)
    ensures |s.requests| <= |Step(s, e).requests|
  {
  }

  lemma TransactIsLocal(d: Database, t: Tenant, e: Event, u: Tenant)
    ensures View(Transact(d, t, e), u) == if u == t then Step(View(d, t), e) else View(d, u)
  {
    var s := Step(View(d, t), e);
    StepGrows(View(d, t), e);
    if u == t { ReadsOwnWrites(d.requests, t, s.requests); } else { OthersUndisturbed(d.requests, t, s.requests, u); }
  }

  /** Transactions of different tenants commute, for every tenant that looks. */
  lemma TenantsCommute(d: Database, t: Tenant, e: Event, u: Tenant, f: Event, observer: Tenant)
    requires t != u
    ensures View(Transact(Transact(d, t, e), u, f), observer) == View(Transact(Transact(d, u, f), t, e), observer)
  {
    TransactIsLocal(d, t, e, u);
    TransactIsLocal(d, u, f, t);
    TransactIsLocal(d, t, e, observer);
    TransactIsLocal(d, u, f, observer);
    TransactIsLocal(Transact(d, t, e), u, f, observer);
    TransactIsLocal(Transact(d, u, f), t, e, observer);
  }

  function RunAll(d: Database, es: seq<(Tenant, Event)>): Database {
    if es == [] then d else Transact(RunAll(d, Init(es)), Last(es).0, Last(es).1)
  }

  function EventsOf(es: seq<(Tenant, Event)>, t: Tenant): seq<Event> {
    if es == [] then []
    else EventsOf(Init(es), t) + (if Last(es).0 == t then [Last(es).1] else [])
  }

  /** A run of all tenants together is, for each tenant, a run of its own events alone. */
  lemma {:induction false} RunProjects(d: Database, es: seq<(Tenant, Event)>, t: Tenant)
    ensures View(RunAll(d, es), t) == Run(View(d, t), EventsOf(es, t))
  {
    if es != [] {
      RunProjects(d, Init(es), t);
      TransactIsLocal(RunAll(d, Init(es)), Last(es).0, Last(es).1, t);
      if Last(es).0 == t {
        RunSnoc(View(d, t), EventsOf(Init(es), t), Last(es).1);
      } else {
        assert EventsOf(es, t) == EventsOf(Init(es), t);
      }
    }
  }

  /** No tenant's revision is lost, whatever the others do. */
  lemma NoTenantLosesARevision(es: seq<(Tenant, Event)>, t: Tenant)
    requires Clean(EMPTY_SITE, EventsOf(es, t))
    ensures Inv(View(RunAll(Database(map[], []), es), t)) && NoneLost(View(RunAll(Database(map[], []), es), t))
  {
    RunProjects(Database(map[], []), es, t);
    NoRevisionIsLost(EventsOf(es, t));
    RunKeepsInv(EMPTY_SITE, EventsOf(es, t));
  }
}
