/** The durable order and fill history: single writes, their replay, and the at-least-once consumer
    (backend/app/db.py, persist; backend/app/worker.py, durable_consumer). */
module History {
  import opened Numbers
  import opened Orders

  datatype OrderDoc = OrderDoc(order: Order, connection: string)
  datatype ExecutionDoc = ExecutionDoc(execution: Execution, connection: string)
  datatype Stamp = Stamp(value: string, at: int)

  /** One tenant's collections. */
  datatype Database = Database(
    connections: map<string, Stamp>,
    accounts: map<string, Stamp>,
    orders: map<OrderKey, OrderDoc>,
    orderEvents: map<string, Entry>,
    alerts: map<string, Entry>,
    executions: map<string, ExecutionDoc>)

  /** The single writes that `persist` issues; each is atomic on its own, no two together are. */
  datatype Write =
    | SetLastState(connection: string, stamp: Stamp)
    | UpsertAccount(account: string, stamp: Stamp)
    | ReplaceOrder(key: OrderKey, doc: OrderDoc)
    | DeleteOrder(key: OrderKey)
    | InsertOrderEvent(id: string, entry: Entry)
    | InsertAlert(id: string, entry: Entry)
    | InsertExecution(id: string, fill: ExecutionDoc)
    | EnrichExecution(id: string, commission: Option<real>, realized: Option<real>)

  function InsertOnce<K, V>(m: map<K, V>, k: K, v: V): map<K, V> {
    if k in m then m else m[k := v]
  }

  function Or<T>(x: Option<T>, y: Option<T>): Option<T> {
    if x.Some? then x else y
  }

  function Apply(db: Database, w: Write): Database {
    match w
    case SetLastState(connection, stamp) =>
      if connection in db.connections then db.(connections := db.connections[connection := stamp]) else db
    case UpsertAccount(account, stamp) => db.(accounts := db.accounts[account := stamp])
    case ReplaceOrder(key, doc) => db.(orders := db.orders[key := doc])
    case DeleteOrder(key) => db.(orders := db.orders - {key})
    case InsertOrderEvent(id, entry) => db.(orderEvents := InsertOnce(db.orderEvents, id, entry))
    case InsertAlert(id, entry) => db.(alerts := InsertOnce(db.alerts, id, entry))
    case InsertExecution(id, fill) => db.(executions := InsertOnce(db.executions, id, fill))
    case EnrichExecution(id, commission, realized) =>
      if id in db.executions then
        db.(executions := db.executions[id := Enriched(db.executions[id], commission, realized)])
      else db
  }

  function Enriched(doc: ExecutionDoc, commission: Option<real>, realized: Option<real>): ExecutionDoc {
    var e := doc.execution;
    ExecutionDoc(e.(commission := Or(commission, e.commission), realized := Or(realized, e.realized)), doc.connection)
  }

  function ApplyAll(db: Database, ws: seq<Write>): Database {
    if ws == [] then db else Apply(ApplyAll(db, ws[..|ws| - 1]), ws[|ws| - 1])
  }

  /** The provisional key an order update may have to retire. */
  function ProvisionalKey(account: string, o: Order): OrderKey {
    Provisional(account, o.clientId, o.orderId)
  }

  /** The document under the provisional key, looked up only when it is another key. */
  function FindProvisional(db: Database, account: string, o: Order): Option<OrderDoc> {
    var former := ProvisionalKey(account, o);
    if KeyOf(o) != former && former in db.orders then Some(db.orders[former]) else None
  }

  function FindPrevious(db: Database, account: string, o: Order): Option<OrderDoc> {
    if KeyOf(o) in db.orders then Some(db.orders[KeyOf(o)]) else FindProvisional(db, account, o)
  }

  /** The order as stored: first-seen time carried over from whatever document it replaces. */
  function StoredOrder(db: Database, account: string, o: Order): Order {
    var previous := FindPrevious(db, account, o);
    if previous.Some? then o.(createdAt := previous.value.order.createdAt) else o
  }

  /** The writes that handling an entry issues, decided by what it reads before the first of them. */
  function Plan(db: Database, entry: Entry): seq<Write> {
    match entry.event
    case GatewayUpdated(state, at) => [SetLastState(entry.connection, Stamp(state, at))]
    case AccountUpdated(account, at) => [UpsertAccount(account, Stamp(entry.connection, at))]
    case OrderUpdated(eventId, account, o) =>
      [ReplaceOrder(KeyOf(o), OrderDoc(StoredOrder(db, account, o), entry.connection))] +
      (if FindProvisional(db, account, o).Some? then [DeleteOrder(ProvisionalKey(account, o))] else []) +
      [InsertOrderEvent(eventId, entry)]
    case AlertRaised(eventId, _) => [InsertAlert(eventId, entry)]
    case ExecutionCreated(e) =>
      [InsertExecution(e.id, ExecutionDoc(e, entry.connection))] +
      (if e.commission.Some? || e.realized.Some? then [EnrichExecution(e.id, e.commission, e.realized)] else [])
    case _ => []
  }

  /** Handling stopped after `k` writes. */
  function Partial(db: Database, entry: Entry, k: nat): Database
    requires k <= |Plan(db, entry)|
  {
    ApplyAll(db, Plan(db, entry)[..k])
  }

  function Persisted(db: Database, entry: Entry): Database {
    Partial(db, entry, |Plan(db, entry)|)
  }

  /** One clean pass over a list of entries. */
  function Fold(db: Database, entries: seq<Entry>): Database {
    if entries == [] then db else Persisted(Fold(db, entries[..|entries| - 1]), entries[|entries| - 1])
  }

  // ---- Replay after a fault ----

  lemma ApplyOne(db: Database, w: Write)
    ensures ApplyAll(db, [w]) == Apply(db, w)
  {
    assert [w][..0] == [];
  }

  lemma ApplyTwo(db: Database, w: Write, w': Write)
    ensures ApplyAll(db, [w, w']) == Apply(Apply(db, w), w')
  {
    assert [w, w'][..1] == [w];
    ApplyOne(db, w);
  }

  lemma ApplyThree(db: Database, w: Write, w': Write, w'': Write)
    ensures ApplyAll(db, [w, w', w'']) == Apply(Apply(Apply(db, w), w'), w'')
  {
    assert [w, w', w''][..2] == [w, w'];
    ApplyTwo(db, w, w');
  }

  /** What the prefixes of a plan amount to; no plan is longer than three writes. */
  lemma PrefixesOfPlan(db: Database, plan: seq<Write>)
    ensures ApplyAll(db, plan[..0]) == db
    ensures |plan| >= 1 ==> ApplyAll(db, plan[..1]) == Apply(db, plan[0])
    ensures |plan| >= 2 ==> ApplyAll(db, plan[..2]) == Apply(Apply(db, plan[0]), plan[1])
    ensures |plan| >= 3 ==> ApplyAll(db, plan[..3]) == Apply(Apply(Apply(db, plan[0]), plan[1]), plan[2])
  {
    hide Apply;
    if |plan| >= 1 { assert plan[..1] == [plan[0]]; ApplyOne(db, plan[0]); }
    if |plan| >= 2 { assert plan[..2] == [plan[0], plan[1]]; ApplyTwo(db, plan[0], plan[1]); }
    if |plan| >= 3 { assert plan[..3] == [plan[0], plan[1], plan[2]]; ApplyThree(db, plan[0], plan[1], plan[2]); }
  }

  ghost predicate Done(db: Database, w: Write) {
    Apply(db, w) == db
  }

  lemma Idempotent(db: Database, w: Write)
    ensures Done(Apply(db, w), w)
  {
    match w
    case SetLastState(connection, stamp) =>
      if connection in db.connections {
        assert db.connections[connection := stamp][connection := stamp] == db.connections[connection := stamp];
      }
    case UpsertAccount(account, stamp) =>
      assert db.accounts[account := stamp][account := stamp] == db.accounts[account := stamp];
    case ReplaceOrder(key, doc) =>
      assert db.orders[key := doc][key := doc] == db.orders[key := doc];
    case DeleteOrder(key) =>
      assert db.orders - {key} - {key} == db.orders - {key};
    case EnrichExecution(id, commission, realized) =>
      if id in db.executions {
        var doc := Enriched(db.executions[id], commission, realized);
        assert db.executions[id := doc][id := doc] == db.executions[id := doc];
      }
    case _ =>
  }

  /** `w'` comes after `w` in some plan. */
  predicate Follows(w: Write, w': Write) {
    || (w.ReplaceOrder? && w'.DeleteOrder? && w.key != w'.key)
    || ((w.ReplaceOrder? || w.DeleteOrder?) && w'.InsertOrderEvent?)
    || (w.InsertExecution? && w'.EnrichExecution?)
  }

  lemma LaterWriteKeepsDone(db: Database, w: Write, w': Write)
    requires Done(db, w) && Follows(w, w')
    ensures Done(Apply(db, w'), w)
  {
    if w.ReplaceOrder? && w'.DeleteOrder? {
      assert db.orders[w.key := w.doc] == db.orders;
      assert (db.orders - {w'.key})[w.key := w.doc] == db.orders[w.key := w.doc] - {w'.key};
    }
  }

  lemma PlanInOrder(db: Database, entry: Entry, i: nat, j: nat)
    requires i < j < |Plan(db, entry)|
    ensures Follows(Plan(db, entry)[i], Plan(db, entry)[j])
  {
  }

  /** Writes that already took effect change nothing when they are issued again. */
  lemma {:induction false} WritesStayDone(db: Database, entry: Entry, k: nat, i: nat)
    requires i < k <= |Plan(db, entry)|
    ensures Done(Partial(db, entry, k), Plan(db, entry)[i])
  {
    hide Plan, Apply, Done, Follows;
    var plan := Plan(db, entry);
    assert plan[..k][..k - 1] == plan[..k - 1];
    if i == k - 1 {
      Idempotent(Partial(db, entry, k - 1), plan[i]);
    } else {
      WritesStayDone(db, entry, k - 1, i);
      PlanInOrder(db, entry, i, k - 1);
      LaterWriteKeepsDone(Partial(db, entry, k - 1), plan[i], plan[k - 1]);
    }
  }

  /** Reissuing a plan over its own first `k` writes ends at the further of the two points. */
  lemma {:induction false} Resume(db: Database, plan: seq<Write>, k: nat, j: nat)
    requires k <= |plan| && j <= |plan|
    requires forall i :: 0 <= i < k ==> Done(ApplyAll(db, plan[..k]), plan[i])
    ensures ApplyAll(ApplyAll(db, plan[..k]), plan[..j]) == ApplyAll(db, plan[..if j > k then j else k])
  {
    hide Apply;
    var p := ApplyAll(db, plan[..k]);
    if j > 0 {
      Resume(db, plan, k, j - 1);
      assert plan[..j][..j - 1] == plan[..j - 1];
      assert ApplyAll(p, plan[..j]) == Apply(ApplyAll(p, plan[..j - 1]), plan[j - 1]);
      if j <= k {
        assert Done(p, plan[j - 1]);
      } else {
        assert ApplyAll(db, plan[..j]) == Apply(ApplyAll(db, plan[..j - 1]), plan[j - 1]);
      }
    }
  }

  /** The order collection after `k` writes of an order update. */
  lemma OrdersAfter(db: Database, entry: Entry, k: nat)
    requires entry.event.OrderUpdated? && k <= |Plan(db, entry)|
    ensures
      var account, o := entry.event.account, entry.event.order;
      var stored := db.orders[KeyOf(o) := OrderDoc(StoredOrder(db, account, o), entry.connection)];
      Partial(db, entry, k).orders ==
        if k == 0 then db.orders
        else if k >= 2 && FindProvisional(db, account, o).Some? then stored - {ProvisionalKey(account, o)}
        else stored
  {
    hide ApplyAll, StoredOrder, FindProvisional;
    PrefixesOfPlan(db, Plan(db, entry));
  }

  /** What a replay plans over a partial application: the same writes, less a deletion already made. */
  lemma ReplayPlan(db: Database, entry: Entry, k: nat)
    requires k <= |Plan(db, entry)|
    ensures
      var plan, again := Plan(db, entry), Plan(Partial(db, entry, k), entry);
      again == plan || (|plan| == 3 && k >= 2 && again == [plan[0], plan[2]])
  {
    hide ApplyAll, Apply, Partial;
    if entry.event.OrderUpdated? {
      OrdersAfter(db, entry, k);
      var account, o := entry.event.account, entry.event.order;
      assert StoredOrder(Partial(db, entry, k), account, o) == StoredOrder(db, account, o);
    }
  }

  /** Handling the same entry again over any partial application of it never goes back: after `j` writes of the
      replay the database is some partial application at least as far along, and a finished replay is exactly one
      finished handling. */
  lemma ReplayResumes(db: Database, entry: Entry, k: nat, j: nat) returns (reached: nat)
    requires k <= |Plan(db, entry)| && j <= |Plan(Partial(db, entry, k), entry)|
    ensures k <= reached <= |Plan(db, entry)|
    ensures Partial(Partial(db, entry, k), entry, j) == Partial(db, entry, reached)
    ensures j == |Plan(Partial(db, entry, k), entry)| ==> reached == |Plan(db, entry)|
  {
    hide Plan, Apply, ApplyAll;
    var plan, p := Plan(db, entry), Partial(db, entry, k);
    var again := Plan(p, entry);
    ReplayPlan(db, entry, k);
    forall i | 0 <= i < k
      ensures Done(p, plan[i])
    {
      WritesStayDone(db, entry, k, i);
    }
    if again == plan {
      Resume(db, plan, k, j);
      reached := if j > k then j else k;
    } else {
      reached := if j == 2 then 3 else k;
      PrefixesOfPlan(p, again);
      PrefixesOfPlan(db, plan);
    }
  }

  // ---- What a handled entry leaves behind ----

  lemma PersistedByPlan(db: Database, entry: Entry)
    ensures
      var plan, after := Plan(db, entry), Persisted(db, entry);
      && (|plan| == 0 ==> after == db)
      && (|plan| == 1 ==> after == Apply(db, plan[0]))
      && (|plan| == 2 ==> after == Apply(Apply(db, plan[0]), plan[1]))
  {
    hide Apply, ApplyAll;
    PrefixesOfPlan(db, Plan(db, entry));
  }

  /** A fill is stored once, and each of its two figures is the one given last: the rest is as first written. */
  lemma FillIsStored(db: Database, entry: Entry)
    requires entry.event.ExecutionCreated?
    ensures
      var e, after := entry.event.execution, Persisted(db, entry);
      && e.id in after.executions
      && var stored := after.executions[e.id];
        && (e.id !in db.executions ==>
              && stored.connection == entry.connection && stored.execution.id == e.id
              && stored.execution.details == e.details
              && stored.execution.commission == e.commission && stored.execution.realized == e.realized)
        && (e.id in db.executions ==>
              var was := db.executions[e.id];
              && stored.connection == was.connection && stored.execution.id == was.execution.id
              && stored.execution.details == was.execution.details
              && stored.execution.commission == (if e.commission.Some? then e.commission else was.execution.commission)
              && stored.execution.realized == (if e.realized.Some? then e.realized else was.execution.realized))
        && (forall id :: id != e.id ==> (id in after.executions <==> id in db.executions))
        && (forall id :: id != e.id && id in db.executions ==> after.executions[id] == db.executions[id])
        && after == db.(executions := after.executions)
  {
    hide Persisted;
    PersistedByPlan(db, entry);
  }

  /** A gateway state changes the last state of a known connection, and nothing else. */
  lemma GatewayStateIsStored(db: Database, entry: Entry)
    requires entry.event.GatewayUpdated?
    ensures
      var after := Persisted(db, entry);
      && after == db.(connections := after.connections) && after.connections.Keys == db.connections.Keys
      && (forall c :: c in db.connections ==>
            after.connections[c] == if c == entry.connection then Stamp(entry.event.state, entry.event.at) else db.connections[c])
  {
    hide Persisted;
    PersistedByPlan(db, entry);
  }

  /** An account update records the connection that sent it, whether or not the account was known. */
  lemma AccountIsStored(db: Database, entry: Entry)
    requires entry.event.AccountUpdated?
    ensures
      var after := Persisted(db, entry);
      && after == db.(accounts := after.accounts) && after.accounts.Keys == db.accounts.Keys + {entry.event.account}
      && (forall a :: a in after.accounts ==>
            after.accounts[a] == if a == entry.event.account then Stamp(entry.connection, entry.event.at) else db.accounts[a])
  {
    hide Persisted;
    PersistedByPlan(db, entry);
  }

  /** An alert is stored under its event's id, once. */
  lemma AlertIsStored(db: Database, entry: Entry)
    requires entry.event.AlertRaised?
    ensures
      var after := Persisted(db, entry);
      && after == db.(alerts := after.alerts) && after.alerts.Keys == db.alerts.Keys + {entry.event.eventId}
      && (forall id :: id in after.alerts ==> after.alerts[id] == if id in db.alerts then db.alerts[id] else entry)
  {
    hide Persisted;
    PersistedByPlan(db, entry);
  }

  /** An order update is logged under its event's id, once, and touches only the orders besides. */
  lemma OrderEventIsLogged(db: Database, entry: Entry)
    requires entry.event.OrderUpdated?
    ensures
      var after := Persisted(db, entry);
      && after == db.(orders := after.orders, orderEvents := after.orderEvents)
      && after.orderEvents.Keys == db.orderEvents.Keys + {entry.event.eventId}
      && (forall id :: id in after.orderEvents ==>
            after.orderEvents[id] == if id in db.orderEvents then db.orderEvents[id] else entry)
  {
    hide StoredOrder, ApplyAll, FindProvisional;
    PrefixesOfPlan(db, Plan(db, entry));
  }

  /** Every other event leaves the history as it was. */
  lemma OthersStoreNothing(db: Database, entry: Entry)
    requires entry.event.OrdersReconciled? || entry.event.PositionUpdated? || entry.event.PositionClosed? || entry.event.OtherEvent?
    ensures Persisted(db, entry) == db
  {
    hide Persisted;
    PersistedByPlan(db, entry);
  }

  predicate IsFill(entry: Entry, id: string) {
    entry.event.ExecutionCreated? && entry.event.execution.id == id
  }

  /** What the last report of the fill that gave a figure gave for it. */
  function LastGiven(entries: seq<Entry>, id: string, figure: Execution -> Option<real>): Option<real> {
    if entries == [] then None
    else
      var last := entries[|entries| - 1];
      if IsFill(last, id) && figure(last.event.execution).Some? then figure(last.event.execution)
      else LastGiven(entries[..|entries| - 1], id, figure)
  }

  predicate HasFill(entries: seq<Entry>, id: string) {
    exists i :: 0 <= i < |entries| && IsFill(entries[i], id)
  }

  function CommissionOf(e: Execution): Option<real> {
    e.commission
  }

  function RealizedOf(e: Execution): Option<real> {
    e.realized
  }

  lemma HasFillStep(entries: seq<Entry>, more: Entry, id: string)
    ensures HasFill(entries + [more], id) <==> HasFill(entries, id) || IsFill(more, id)
  {
    var longer := entries + [more];
    if i :| 0 <= i < |entries| && IsFill(entries[i], id) {
      assert longer[i] == entries[i];
    }
    assert longer[|entries|] == more;
  }

  /** After any run over an empty collection exactly the reported fills have a document, and each holds the last
      commission and the last realised P&L that any of its reports gave, or none where none gave one. */
  lemma {:induction false} FillHoldsLastFigures(origin: Database, entries: seq<Entry>, id: string)
    requires origin.executions == map[]
    ensures id in Fold(origin, entries).executions <==> HasFill(entries, id)
    ensures !HasFill(entries, id) ==>
      LastGiven(entries, id, CommissionOf) == LastGiven(entries, id, RealizedOf) == None
    ensures HasFill(entries, id) ==>
      && Fold(origin, entries).executions[id].execution.commission == LastGiven(entries, id, CommissionOf)
      && Fold(origin, entries).executions[id].execution.realized == LastGiven(entries, id, RealizedOf)
  {
    if entries != [] {
      var before, last := entries[..|entries| - 1], entries[|entries| - 1];
      FillHoldsLastFigures(origin, before, id);
      assert entries == before + [last];
      HasFillStep(before, last, id);
      hide Persisted, HasFill;
      match last.event
      case ExecutionCreated(e) => FillIsStored(Fold(origin, before), last);
      case _ => FillsUntouched(Fold(origin, before), last);
    }
  }

  lemma FillsUntouched(db: Database, entry: Entry)
    requires !entry.event.ExecutionCreated?
    ensures Persisted(db, entry).executions == db.executions
  {
    hide Persisted;
    match entry.event
    case GatewayUpdated(_, _) => GatewayStateIsStored(db, entry);
    case AccountUpdated(_, _) => AccountIsStored(db, entry);
    case AlertRaised(_, _) => AlertIsStored(db, entry);
    case OrderUpdated(_, _, _) => OrderEventIsLogged(db, entry);
    case _ => OthersStoreNothing(db, entry);
  }
}
