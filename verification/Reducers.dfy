/** Three reducers over one event stream: Redis (backend/app/state.py, publish), the durable history
    (backend/app/db.py, persist) and the browser's cached rows (frontend/lib/live.ts, applyEvent). */
module Reducers {
  import opened Numbers
  import opened Orders
  import opened History
  import DurableConsumer

  // ---- Redis ----

  type OrderHash = map<OrderKey, Order>

  function HashOf<K, V>(hashes: map<string, map<K, V>>, account: string): map<K, V> {
    if account in hashes then hashes[account] else map[]
  }

  /** An account's order hash after one order update. */
  function HashAfter(h: OrderHash, account: string, o: Order): OrderHash {
    var kept := if o.permId > 0 then h - {ProvisionalKey(account, o)} else h;
    if IsTerminal(o.status) then kept - {KeyOf(o)} else kept[KeyOf(o) := o]
  }

  /** An account's order hash after a reconciliation: the working orders listed, a later row replacing an earlier
      one with the same key. */
  function WorkingHash(rows: seq<Order>): OrderHash {
    if rows == [] then map[]
    else
      var before, row := WorkingHash(rows[..|rows| - 1]), rows[|rows| - 1];
      if IsTerminal(row.status) then before else before[KeyOf(row) := row]
  }

  function PositionsAfter(h: map<int, Position>, p: Position, closed: bool): map<int, Position> {
    if closed then h - {p.conId} else h[p.conId := p]
  }

  function OrderHashes(hashes: map<string, OrderHash>, event: Event): map<string, OrderHash> {
    match event
    case OrderUpdated(_, account, o) => hashes[account := HashAfter(HashOf(hashes, account), account, o)]
    case OrdersReconciled(account, rows) => hashes[account := WorkingHash(rows)]
    case _ => hashes
  }

  function PositionHashes(hashes: map<string, map<int, Position>>, event: Event): map<string, map<int, Position>> {
    match event
    case PositionUpdated(p) => hashes[p.account := PositionsAfter(HashOf(hashes, p.account), p, false)]
    case PositionClosed(p) => hashes[p.account := PositionsAfter(HashOf(hashes, p.account), p, true)]
    case _ => hashes
  }

  function RedisOrders(entries: seq<Entry>): map<string, OrderHash> {
    if entries == [] then map[] else OrderHashes(RedisOrders(entries[..|entries| - 1]), entries[|entries| - 1].event)
  }

  function RedisPositions(entries: seq<Entry>): map<string, map<int, Position>> {
    if entries == [] then map[]
    else PositionHashes(RedisPositions(entries[..|entries| - 1]), entries[|entries| - 1].event)
  }

  /** After an update the hash holds the order, as sent, exactly when it is not filled, cancelled or inactive; a
      permanent update always ends the provisional entry, and no other entry changes. */
  lemma UpdateEndsFinished(h: OrderHash, account: string, o: Order)
    requires o.account == account
    ensures
      var after, key := HashAfter(h, account, o),
        if o.permId > 0 then Permanent(account, o.permId) else Provisional(account, o.clientId, o.orderId);
      var ended := o.status == "Filled" || o.status == "Cancelled" || o.status == "ApiCancelled" || o.status == "Inactive";
      && (key in after <==> !ended) && (key in after ==> after[key] == o)
      && (o.permId > 0 ==> Provisional(account, o.clientId, o.orderId) !in after)
      && (forall k :: k != key && k != Provisional(account, o.clientId, o.orderId) ==>
            (k in after <==> k in h) && (k in h ==> after[k] == h[k]))
  {
  }

  predicate ListsWorking(rows: seq<Order>, k: OrderKey) {
    exists row :: row in rows && KeyOf(row) == k && row.status != "Filled" && row.status != "Cancelled"
      && row.status != "ApiCancelled" && row.status != "Inactive"
  }

  /** A reconciliation leaves exactly the listed orders that are not filled, cancelled or inactive. */
  lemma ReconciledHoldsWorking(rows: seq<Order>, k: OrderKey)
    ensures k in WorkingHash(rows) <==> ListsWorking(rows, k)
  {
    WorkingHashHolds(rows);
    hide WorkingHash;
  }

  lemma LiveAfter(entries: seq<Entry>, entry: Entry)
    ensures RedisOrders(entries + [entry]) == OrderHashes(RedisOrders(entries), entry.event)
    ensures RedisPositions(entries + [entry]) == PositionHashes(RedisPositions(entries), entry.event)
  {
    assert (entries + [entry])[..|entries|] == entries;
  }

  /** One tenant's live state. */
  class Redis {
    var orders: map<string, OrderHash>
    var positions: map<string, map<int, Position>>
    var stream: seq<Entry>

    ghost predicate Valid()
      reads this
    {
      orders == RedisOrders(stream) && positions == RedisPositions(stream)
    }

    constructor ()
      ensures Valid() && stream == [] && positions == map[]
    {
      orders, positions, stream := map[], map[], [];
    }

    /** Publishing an event changes the live state and appends to the stream in one transaction. */
    method Publish(entry: Entry)
      requires Valid()
      modifies this
      ensures Valid()
      ensures orders == OrderHashes(old(orders), entry.event)
      ensures positions == PositionHashes(old(positions), entry.event)
      ensures stream == old(stream) + [entry]
    {
      hide RedisOrders, RedisPositions, HashAfter, WorkingHash;
      LiveAfter(stream, entry);
      match entry.event {
        case OrdersReconciled(account, rows) =>
          ReconcileOrders(account, rows);
        case PositionUpdated(p) =>
          positions := positions[p.account := HashOf(positions, p.account)[p.conId := p]];
        case PositionClosed(p) =>
          positions := positions[p.account := HashOf(positions, p.account) - {p.conId}];
        case OrderUpdated(_, account, o) =>
          UpdateOrder(account, o);
        case _ =>
      }
      stream := stream + [entry];
    }

    method UpdateOrder(account: string, o: Order)
      modifies this`orders
      ensures orders == old(orders)[account := HashAfter(HashOf(old(orders), account), account, o)]
    {
      hide IsTerminal, KeyOf;
      if o.permId > 0 {
        orders := orders[account := HashOf(orders, account) - {ProvisionalKey(account, o)}];
      }
      if IsTerminal(o.status) {
        orders := orders[account := HashOf(orders, account) - {KeyOf(o)}];
      } else {
        orders := orders[account := HashOf(orders, account)[KeyOf(o) := o]];
      }
    }

    method ReconcileOrders(account: string, rows: seq<Order>)
      modifies this`orders
      ensures orders == old(orders)[account := WorkingHash(rows)]
    {
      orders := orders[account := map[]];
      for i := 0 to |rows|
        invariant orders == old(orders)[account := WorkingHash(rows[..i])]
      {
        assert rows[..i + 1][..i] == rows[..i];
        if !IsTerminal(rows[i].status) {
          orders := orders[account := orders[account][KeyOf(rows[i]) := rows[i]]];
        }
      }
      assert rows[..|rows|] == rows;
    }
  }

  // ---- Redis against the durable history ----

  /** The live hash holds exactly the account's documents that are still working, with the same data apart from
      the first-seen time. */
  ghost predicate Mirrors(h: OrderHash, account: string, docs: map<OrderKey, OrderDoc>) {
    forall k: OrderKey ::
      && (k in h <==> k.account == account && k in docs && !IsTerminal(docs[k].order.status))
      && (k in h ==> docs[k].order == h[k].(createdAt := docs[k].order.createdAt))
  }

  /** Order updates name the order's own account, and no reconciliation rewrites the live hash. */
  predicate IsIndividual(event: Event) {
    (event.OrderUpdated? ==> event.account == event.order.account) && !event.OrdersReconciled?
  }

  lemma WholePlan(db: Database, entry: Entry)
    requires !entry.event.OrderUpdated?
    ensures Persisted(db, entry).orders == db.orders
  {
    assert forall w :: w in Plan(db, entry) ==> !w.ReplaceOrder? && !w.DeleteOrder?;
    hide Plan;
    OrdersUntouched(db, Plan(db, entry)[..|Plan(db, entry)|]);
  }

  lemma {:induction false} OrdersUntouched(db: Database, ws: seq<Write>)
    requires forall w :: w in ws ==> !w.ReplaceOrder? && !w.DeleteOrder?
    ensures ApplyAll(db, ws).orders == db.orders
  {
    if ws != [] {
      hide Apply;
      var rest, w := ws[..|ws| - 1], ws[|ws| - 1];
      assert w in ws && forall v :: v in rest ==> v in ws;
      OrdersUntouched(db, rest);
      OrdersUntouchedByOne(ApplyAll(db, rest), w);
    }
  }

  lemma OrdersUntouchedByOne(db: Database, w: Write)
    requires !w.ReplaceOrder? && !w.DeleteOrder?
    ensures Apply(db, w).orders == db.orders
  {
  }

  lemma OrdersPersisted(db: Database, entry: Entry)
    ensures entry.event.OrderUpdated? ==>
      var account, o := entry.event.account, entry.event.order;
      Persisted(db, entry).orders ==
        db.orders[KeyOf(o) := OrderDoc(StoredOrder(db, account, o), entry.connection)] -
        (if KeyOf(o) == ProvisionalKey(account, o) then {} else {ProvisionalKey(account, o)})
    ensures !entry.event.OrderUpdated? ==> Persisted(db, entry).orders == db.orders
  {
    hide ApplyAll, StoredOrder, Partial;
    if entry.event.OrderUpdated? {
      hide Apply, KeyOf;
      OrdersAfter(db, entry, |Plan(db, entry)|);
    } else {
      WholePlan(db, entry);
    }
  }

  /** One update, whatever the account it belongs to, keeps an account's hash and documents together. */
  lemma MirrorsStep(hashes: map<string, OrderHash>, account: string, db: Database, entry: Entry)
    requires IsIndividual(entry.event)
    requires Mirrors(HashOf(hashes, account), account, db.orders)
    ensures Mirrors(HashOf(OrderHashes(hashes, entry.event), account), account, Persisted(db, entry).orders)
  {
    hide Persisted, StoredOrder, IsTerminal, HashAfter, KeyOf, ProvisionalKey, Mirrors;
    OrdersPersisted(db, entry);
    if entry.event.OrderUpdated? {
      var o := entry.event.order;
      var stored := OrderDoc(StoredOrder(db, o.account, o), entry.connection);
      StoredOrderKeepsData(db, o.account, o);
      if account == o.account {
        MirrorsOwnUpdate(HashOf(hashes, account), db.orders, o, stored);
      } else {
        MirrorsOtherUpdate(HashOf(hashes, account), account, db.orders, o, stored);
      }
    }
  }

  /** The order documents after an update stores `stored`. */
  function DocsAfter(docs: map<OrderKey, OrderDoc>, o: Order, stored: OrderDoc): map<OrderKey, OrderDoc> {
    docs[KeyOf(o) := stored] -
      if KeyOf(o) == ProvisionalKey(o.account, o) then {} else {ProvisionalKey(o.account, o)}
  }

  lemma MirrorsOwnUpdate(h: OrderHash, docs: map<OrderKey, OrderDoc>, o: Order, stored: OrderDoc)
    requires Mirrors(h, o.account, docs) && stored.order == o.(createdAt := stored.order.createdAt)
    ensures Mirrors(HashAfter(h, o.account, o), o.account, DocsAfter(docs, o, stored))
  {
    hide IsTerminal;
    assert IsTerminal(stored.order.status) == IsTerminal(o.status);
  }

  lemma MirrorsOtherUpdate(h: OrderHash, account: string, docs: map<OrderKey, OrderDoc>, o: Order, stored: OrderDoc)
    requires Mirrors(h, account, docs) && account != o.account
    ensures Mirrors(h, account, DocsAfter(docs, o, stored))
  {
    hide IsTerminal;
  }

  lemma StoredOrderKeepsData(db: Database, account: string, o: Order)
    ensures StoredOrder(db, account, o) == o.(createdAt := StoredOrder(db, account, o).createdAt)
  {
  }

  /** Whatever sequence of updates a tenant's connections publish, every account's live hash has exactly the keys of
      its working documents, with the same data apart from the first-seen time. */
  lemma {:induction false} LiveMirrorsHistory(entries: seq<Entry>, origin: Database, account: string)
    requires origin.orders == map[]
    requires forall i :: 0 <= i < |entries| ==> IsIndividual(entries[i].event)
    ensures Mirrors(HashOf(RedisOrders(entries), account), account, Fold(origin, entries).orders)
  {
    if entries != [] {
      var before, entry := entries[..|entries| - 1], entries[|entries| - 1];
      LiveMirrorsHistory(before, origin, account);
      OrdersPersisted(Fold(origin, before), entry);
      assert IsIndividual(entry.event);
      assert Fold(origin, entries) == Persisted(Fold(origin, before), entry);
      assert RedisOrders(entries) == OrderHashes(RedisOrders(before), entry.event);
      hide Fold, RedisOrders, Persisted;
      MirrorsStep(RedisOrders(before), account, Fold(origin, before), entry);
    }
  }

  /** Once the history consumer has acknowledged the whole stream, after whatever faults and restarts, the database
      it wrote mirrors the live hash of every account. */
  lemma CaughtUpHistoryMirrorsLive(redis: Redis, consumer: DurableConsumer.Consumer, account: string)
    requires redis.Valid() && consumer.Valid()
    requires consumer.stream == redis.stream && consumer.Acked() == |consumer.stream|
    requires consumer.origin.orders == map[]
    requires forall i :: 0 <= i < |redis.stream| ==> IsIndividual(redis.stream[i].event)
    ensures Mirrors(HashOf(redis.orders, account), account, consumer.mongo.Now().orders)
  {
    hide Mirrors, RedisOrders, Fold;
    LiveMirrorsHistory(redis.stream, consumer.origin, account);
  }

  // ---- First-seen times ----

  /** One entry never changes a surviving document's first-seen time, and retires a document only by handing its
      first-seen time to the permanent one, unless that one already had its own. */
  lemma FirstSeenStep(db: Database, entry: Entry, k: OrderKey)
    requires k in db.orders
    ensures k in Persisted(db, entry).orders ==>
      Persisted(db, entry).orders[k].order.createdAt == db.orders[k].order.createdAt
    ensures k !in Persisted(db, entry).orders ==>
      && entry.event.OrderUpdated? && k == ProvisionalKey(entry.event.account, entry.event.order)
      && var heir := KeyOf(entry.event.order);
        && heir in Persisted(db, entry).orders
        && Persisted(db, entry).orders[heir].order.createdAt ==
          (if heir in db.orders then db.orders[heir] else db.orders[k]).order.createdAt
    ensures k.Permanent? ==> k in Persisted(db, entry).orders
  {
    hide Persisted;
    OrdersPersisted(db, entry);
  }

  /** Through any run, a permanent document stays and keeps the first-seen time it was created with; a provisional
      one does as long as no update retires it. */
  lemma {:induction false} FirstSeenNeverChanges(db: Database, entries: seq<Entry>, k: OrderKey)
    requires k in db.orders
    requires k.Permanent? || forall n :: 0 <= n <= |entries| ==> k in Fold(db, entries[..n]).orders
    ensures k in Fold(db, entries).orders
    ensures Fold(db, entries).orders[k].order.createdAt == db.orders[k].order.createdAt
  {
    if entries != [] {
      var before := entries[..|entries| - 1];
      if !k.Permanent? {
        forall n | 0 <= n <= |before|
          ensures k in Fold(db, before[..n]).orders
        {
          assert before[..n] == entries[..n];
        }
        assert entries[..|entries|] == entries;
      }
      FirstSeenNeverChanges(db, before, k);
      FirstSeenStep(Fold(db, before), entries[|entries| - 1], k);
    }
  }

  // ---- The browser's cached rows ----

  /** How the browser tells one account's orders apart. */
  datatype RowId = ById(permId: int) | ByClient(clientId: int, orderId: int)

  function Identity(o: Order): RowId {
    if o.permId > 0 then ById(o.permId) else ByClient(o.clientId, o.orderId)
  }

  /** The statuses that take a row off the browser's list. */
  predicate IsRemoved(status: string) {
    status in ["Filled", "Cancelled", "ApiCancelled", "Inactive"]
  }

  /** The browser and the server end an order on the same statuses. */
  lemma SameEndings(status: string)
    ensures IsRemoved(status) <==> IsTerminal(status)
  {
  }

  /** The cached row is the incoming order's, or its provisional predecessor. */
  predicate Matches(row: Order, o: Order) {
    || Identity(row) == Identity(o)
    || (o.permId > 0 && row.permId == 0 && row.clientId == o.clientId && row.orderId == o.orderId)
  }

  predicate IsFirstOrder(rows: seq<Order>, o: Order, i: nat) {
    i <= |rows| && (i < |rows| ==> Matches(rows[i], o)) && forall j :: 0 <= j < i ==> !Matches(rows[j], o)
  }

  predicate IsFirstPosition(rows: seq<Position>, p: Position, i: nat) {
    i <= |rows| && (i < |rows| ==> rows[i].conId == p.conId) && forall j :: 0 <= j < i ==> rows[j].conId != p.conId
  }

  function Without<T>(rows: seq<T>, i: nat): seq<T>
    requires i <= |rows|
  {
    if i == |rows| then rows else rows[..i] + rows[i + 1..]
  }

  function OrderRowsAfter(rows: seq<Order>, o: Order, i: nat): seq<Order>
    requires i <= |rows|
  {
    if IsRemoved(o.status) then Without(rows, i) else [o] + Without(rows, i)
  }

  function PositionRowsAfter(rows: seq<Position>, p: Position, closed: bool, i: nat): seq<Position>
    requires i <= |rows|
  {
    if closed then Without(rows, i) else if i == |rows| then rows + [p] else rows[i := p]
  }

  /** One account's cached lists; either may not have been loaded yet. */
  class Cache {
    const account: string
    var orders: Option<seq<Order>>
    var positions: Option<seq<Position>>

    constructor (account: string)
      ensures this.account == account && orders == None && positions == None
    {
      this.account := account;
      orders, positions := None, None;
    }

    /** Applies any event to the lists of its account; lists not loaded stay so. */
    method ApplyEvent(event: Event) returns (refresh: bool)
      modifies this
      ensures old(orders).None? <==> orders.None?
      ensures old(positions).None? <==> positions.None?
      ensures old(orders).Some? ==> RowStep(old(orders).value, orders.value, account, event)
      ensures old(positions).Some? ==> PositionStep(old(positions).value, positions.value, account, event)
      ensures refresh <==>
        || ((event.OrderUpdated? || event.OrdersReconciled?) && event.account == account
            && (old(orders).None? || |orders.value| != |old(orders).value|))
        || ((event.PositionUpdated? || event.PositionClosed?) && event.position.account == account
            && (old(positions).None? || |positions.value| != |old(positions).value|))
    {
      hide Matches, IsRemoved, IsFirstOrder, IsFirstPosition, OrderRowsAfter, PositionRowsAfter;
      refresh := false;
      ghost var at: nat;
      match event {
        case OrderUpdated(_, a, o) =>
          if a == account { refresh, at := ApplyOrder(o); }
        case OrdersReconciled(a, listed) =>
          if a == account { refresh := ApplyReconciled(listed); }
        case PositionUpdated(p) =>
          if p.account == account { refresh, at := ApplyPosition(p, false); }
        case PositionClosed(p) =>
          if p.account == account { refresh, at := ApplyPosition(p, true); }
        case _ =>
      }
    }

    /** Applies an order update; `refresh` says that the account list has to be fetched again. */
    method ApplyOrder(o: Order) returns (refresh: bool, ghost at: nat)
      modifies this`orders
      ensures old(orders).None? ==> orders.None? && refresh
      ensures old(orders).Some? ==>
        && IsFirstOrder(old(orders).value, o, at)
        && orders == Some(OrderRowsAfter(old(orders).value, o, at))
        && (refresh <==> IsRemoved(o.status) == (at < |old(orders).value|))
        && (refresh <==> |orders.value| != |old(orders).value|)
    {
      at := 0;
      if orders.None? { return true, 0; }
      var rows := orders.value;
      var index := 0;
      while index < |rows| && !Matches(rows[index], o)
        invariant index <= |rows|
        invariant forall j :: 0 <= j < index ==> !Matches(rows[j], o)
      {
        index := index + 1;
      }
      at := index;
      var others := if index == |rows| then rows else rows[..index] + rows[index + 1..];
      orders := Some(if IsRemoved(o.status) then others else [o] + others);
      refresh := |orders.value| != |rows|;
    }

    method ApplyReconciled(listed: seq<Order>) returns (refresh: bool)
      modifies this`orders
      ensures orders == if old(orders).None? then None else Some(listed)
      ensures refresh <==> old(orders).None? || |listed| != |old(orders).value|
    {
      refresh := orders.None? || |listed| != |orders.value|;
      if orders.Some? {
        orders := Some(listed);
      }
    }

    method ApplyPosition(p: Position, closed: bool) returns (refresh: bool, ghost at: nat)
      modifies this`positions
      ensures old(positions).None? ==> positions.None? && refresh
      ensures old(positions).Some? ==>
        && IsFirstPosition(old(positions).value, p, at)
        && positions == Some(PositionRowsAfter(old(positions).value, p, closed, at))
        && (refresh <==> closed == (at < |old(positions).value|))
        && (refresh <==> |positions.value| != |old(positions).value|)
    {
      at := 0;
      if positions.None? { return true, 0; }
      var rows := positions.value;
      var index := 0;
      while index < |rows| && rows[index].conId != p.conId
        invariant index <= |rows|
        invariant forall j :: 0 <= j < index ==> rows[j].conId != p.conId
      {
        index := index + 1;
      }
      at := index;
      if closed {
        positions := Some(if index == |rows| then rows else rows[..index] + rows[index + 1..]);
      } else if index == |rows| {
        positions := Some(rows + [p]);
      } else {
        positions := Some(rows[index := p]);
      }
      refresh := |positions.value| != |rows|;
    }
  }

  // ---- The browser against Redis ----

  /** The rows have distinct keys and are, as a map from key to row, the hash. */
  ghost predicate Agrees<K(!new), T(!new)>(rows: seq<T>, key: T -> K, h: map<K, T>) {
    && (forall i, j :: 0 <= i < j < |rows| ==> key(rows[i]) != key(rows[j]))
    && (forall i :: 0 <= i < |rows| ==> key(rows[i]) in h && h[key(rows[i])] == rows[i])
    && (forall k :: k in h ==> exists i :: 0 <= i < |rows| && key(rows[i]) == k)
  }

  lemma WithoutAgrees<K(!new), T(!new)>(rows: seq<T>, key: T -> K, h: map<K, T>, i: nat)
    requires Agrees(rows, key, h) && i < |rows|
    ensures Agrees(Without(rows, i), key, h - {key(rows[i])})
  {
    var rest, h' := Without(rows, i), h - {key(rows[i])};
    forall j | 0 <= j < |rest|
      ensures key(rest[j]) in h' && h'[key(rest[j])] == rest[j]
    {
      assert rest[j] == rows[if j < i then j else j + 1];
    }
    forall k | k in h'
      ensures exists j :: 0 <= j < |rest| && key(rest[j]) == k
    {
      var j :| 0 <= j < |rows| && key(rows[j]) == k;
      assert rest[if j < i then j else j - 1] == rows[j];
    }
  }

  lemma FrontAgrees<K(!new), T(!new)>(rows: seq<T>, key: T -> K, h: map<K, T>, row: T)
    requires Agrees(rows, key, h) && key(row) !in h
    ensures Agrees([row] + rows, key, h[key(row) := row])
  {
    var more, h' := [row] + rows, h[key(row) := row];
    assert more[0] == row;
    forall k | k in h'
      ensures exists j :: 0 <= j < |more| && key(more[j]) == k
    {
      if k in h {
        var j :| 0 <= j < |rows| && key(rows[j]) == k;
        assert more[j + 1] == rows[j];
      }
    }
  }

  lemma AppendAgrees<K(!new), T(!new)>(rows: seq<T>, key: T -> K, h: map<K, T>, row: T)
    requires Agrees(rows, key, h) && key(row) !in h
    ensures Agrees(rows + [row], key, h[key(row) := row])
  {
    var more, h' := rows + [row], h[key(row) := row];
    assert more[|rows|] == row;
    forall k | k in h'
      ensures exists j :: 0 <= j < |more| && key(more[j]) == k
    {
      if k in h {
        var j :| 0 <= j < |rows| && key(rows[j]) == k;
        assert more[j] == rows[j];
      }
    }
  }

  lemma ReplaceAgrees<K(!new), T(!new)>(rows: seq<T>, key: T -> K, h: map<K, T>, i: nat, row: T)
    requires Agrees(rows, key, h) && i < |rows| && key(rows[i]) == key(row)
    ensures Agrees(rows[i := row], key, h[key(row) := row])
  {
    var after, h' := rows[i := row], h[key(row) := row];
    forall k | k in h'
      ensures exists j :: 0 <= j < |after| && key(after[j]) == k
    {
      var j :| 0 <= j < |rows| && key(rows[j]) == k;
      assert key(after[j]) == k;
    }
  }

  /** Every position event, whatever it is, keeps a loaded list equal to the account's position hash. */
  lemma PositionsStayEqual(rows: seq<Position>, h: map<int, Position>, p: Position, closed: bool, i: nat)
    requires Agrees(rows, ConIdOf, h) && IsFirstPosition(rows, p, i)
    ensures Agrees(PositionRowsAfter(rows, p, closed, i), ConIdOf, PositionsAfter(h, p, closed))
  {
    var key := ConIdOf;
    if i == |rows| {
      assert p.conId !in h;
      AppendAgrees(rows, key, h, p);
      assert h - {p.conId} == h;
    } else {
      WithoutAgrees(rows, key, h, i);
      ReplaceAgrees(rows, key, h, i, p);
    }
  }

  /** The hash holds at most one row that the update supersedes, and a provisional one only without a broker id. */
  predicate OneForm(h: OrderHash, account: string, o: Order) {
    var former := ProvisionalKey(account, o);
    o.permId > 0 && former in h ==> h[former].permId == 0 && KeyOf(o) !in h
  }

  /** Within one account the browser's identities and the durable keys tell the same orders apart. */
  lemma IdentityIsKey(o: Order, o': Order)
    requires o.account == o'.account
    ensures Identity(o) == Identity(o') <==> KeyOf(o) == KeyOf(o')
  {
  }

  /** An order update keeps a loaded list equal to the account's hash exactly when the hash does not hold the order
      in both forms at once. */
  lemma OrdersStayEqualExactly(rows: seq<Order>, h: OrderHash, account: string, o: Order, i: nat)
    requires Agrees(rows, KeyOf, h) && IsFirstOrder(rows, o, i)
    requires o.account == account && forall j :: 0 <= j < |rows| ==> rows[j].account == account
    ensures Agrees(OrderRowsAfter(rows, o, i), KeyOf, HashAfter(h, account, o)) <==> OneForm(h, account, o)
  {
    if OneForm(h, account, o) {
      OneFormAgrees(rows, h, account, o, i);
    } else {
      BothFormsDisagree(rows, h, account, o, i);
    }
  }

  lemma OneFormAgrees(rows: seq<Order>, h: OrderHash, account: string, o: Order, i: nat)
    requires Agrees(rows, KeyOf, h) && IsFirstOrder(rows, o, i)
    requires o.account == account && forall j :: 0 <= j < |rows| ==> rows[j].account == account
    requires OneForm(h, account, o)
    ensures Agrees(OrderRowsAfter(rows, o, i), KeyOf, HashAfter(h, account, o))
  {
    SameEndings(o.status);
    hide IsTerminal, IsRemoved, Agrees;
    var rest := Superseded(h, account, o);
    MatchIsSuperseded(rows, h, account, o, i);
    if i < |rows| {
      WithoutAgrees(rows, KeyOf, h, i);
    }
    if !IsTerminal(o.status) {
      FrontAgrees(Without(rows, i), KeyOf, rest, o);
    }
    HashAfterSuperseded(h, account, o);
  }

  /** The hash without what an update supersedes. */
  function Superseded(h: OrderHash, account: string, o: Order): OrderHash {
    (if o.permId > 0 then h - {ProvisionalKey(account, o)} else h) - {KeyOf(o)}
  }

  lemma HashAfterSuperseded(h: OrderHash, account: string, o: Order)
    ensures HashAfter(h, account, o) ==
      if IsTerminal(o.status) then Superseded(h, account, o) else Superseded(h, account, o)[KeyOf(o) := o]
  {
    hide IsTerminal, KeyOf, ProvisionalKey;
  }

  lemma MatchIsSuperseded(rows: seq<Order>, h: OrderHash, account: string, o: Order, i: nat)
    requires Agrees(rows, KeyOf, h) && IsFirstOrder(rows, o, i)
    requires o.account == account && forall j :: 0 <= j < |rows| ==> rows[j].account == account
    requires OneForm(h, account, o)
    ensures Superseded(h, account, o) == if i < |rows| then h - {KeyOf(rows[i])} else h
  {
    hide IsTerminal;
    if i < |rows| {
      MatchedKey(rows[i], o);
    }
    forall k | k in h && (k == KeyOf(o) || (o.permId > 0 && k == ProvisionalKey(account, o)))
      ensures i < |rows| && k == KeyOf(rows[i])
    {
      var j :| 0 <= j < |rows| && KeyOf(rows[j]) == k;
      MatchedKey(rows[j], o);
      assert h[k] == rows[j];
    }
  }

  /** What matches an update, read as a durable key. */
  lemma MatchedKey(row: Order, o: Order)
    requires row.account == o.account
    ensures Matches(row, o) <==>
      KeyOf(row) == KeyOf(o) || (o.permId > 0 && row.permId == 0 && KeyOf(row) == ProvisionalKey(o.account, o))
  {
  }

  lemma BothFormsDisagree(rows: seq<Order>, h: OrderHash, account: string, o: Order, i: nat)
    requires Agrees(rows, KeyOf, h) && IsFirstOrder(rows, o, i)
    requires o.account == account && forall j :: 0 <= j < |rows| ==> rows[j].account == account
    requires !OneForm(h, account, o)
    ensures !Agrees(OrderRowsAfter(rows, o, i), KeyOf, HashAfter(h, account, o))
  {
    SameEndings(o.status);
    hide IsTerminal, IsRemoved, OrderRowsAfter;
    var former := ProvisionalKey(account, o);
    var b :| 0 <= b < |rows| && KeyOf(rows[b]) == former;
    assert h[former] == rows[b];
    if i != b {
      KeptRow(rows, o, i, b);
    } else {
      var a :| 0 <= a < |rows| && KeyOf(rows[a]) == KeyOf(o);
      KeptRow(rows, o, i, a);
    }
  }

  /** Any row but the matched one is still there, behind the new one if there is a new one. */
  lemma KeptRow(rows: seq<Order>, o: Order, i: nat, j: nat)
    requires i <= |rows| && j < |rows| && i != j
    ensures
      var after := OrderRowsAfter(rows, o, i);
      && (exists n :: (if IsRemoved(o.status) then 0 else 1) <= n < |after| && after[n] == rows[j])
      && (!IsRemoved(o.status) ==> after[0] == o)
  {
    var after := OrderRowsAfter(rows, o, i);
    var n := (if j < i then j else j - 1) + (if IsRemoved(o.status) then 0 else 1);
    assert i == |rows| ==> after[if IsRemoved(o.status) then j else j + 1] == rows[j];
    assert i < |rows| ==> after[n] == rows[j];
  }

  lemma {:induction false} WorkingHashHolds(rows: seq<Order>)
    ensures forall k :: k in WorkingHash(rows) ==>
      exists i :: 0 <= i < |rows| && KeyOf(rows[i]) == k && WorkingHash(rows)[k] == rows[i] && !IsTerminal(rows[i].status)
    ensures forall i :: 0 <= i < |rows| && !IsTerminal(rows[i].status) ==> KeyOf(rows[i]) in WorkingHash(rows)
  {
    if rows != [] {
      WorkingHashHolds(rows[..|rows| - 1]);
    }
  }

  /** A reconciliation makes a loaded list equal to the hash exactly when the list it carries names no order twice
      and only working ones: the server drops the others, the browser does not. */
  lemma ReconciledEqualExactly(rows: seq<Order>)
    ensures Agrees(rows, KeyOf, WorkingHash(rows)) <==>
      && (forall i, j :: 0 <= i < j < |rows| ==> KeyOf(rows[i]) != KeyOf(rows[j]))
      && (forall i :: 0 <= i < |rows| ==> !IsTerminal(rows[i].status))
  {
    hide WorkingHash;
    WorkingHashHolds(rows);
  }

  // ---- Whole runs of the browser ----

  function HashStep(h: OrderHash, account: string, event: Event): OrderHash {
    match event
    case OrderUpdated(_, a, o) => if a == account then HashAfter(h, account, o) else h
    case OrdersReconciled(a, listed) => if a == account then WorkingHash(listed) else h
    case _ => h
  }

  lemma HashStepIsPublish(hashes: map<string, OrderHash>, account: string, event: Event)
    ensures HashOf(OrderHashes(hashes, event), account) == HashStep(HashOf(hashes, account), account, event)
  {
  }

  /** What an event makes of a loaded list of orders. */
  ghost predicate RowStep(rows: seq<Order>, after: seq<Order>, account: string, event: Event) {
    match event
    case OrderUpdated(_, a, o) =>
      if a == account then exists i: nat :: IsFirstOrder(rows, o, i) && after == OrderRowsAfter(rows, o, i)
      else after == rows
    case OrdersReconciled(a, listed) => after == if a == account then listed else rows
    case _ => after == rows
  }

  /** What an event makes of a loaded list of positions. */
  ghost predicate PositionStep(rows: seq<Position>, after: seq<Position>, account: string, event: Event) {
    match event
    case PositionUpdated(p) => if p.account == account then PositionRow(rows, after, p, false) else after == rows
    case PositionClosed(p) => if p.account == account then PositionRow(rows, after, p, true) else after == rows
    case _ => after == rows
  }

  ghost predicate PositionRow(rows: seq<Position>, after: seq<Position>, p: Position, closed: bool) {
    exists i: nat :: IsFirstPosition(rows, p, i) && after == PositionRowsAfter(rows, p, closed, i)
  }

  predicate OwnRows(rows: seq<Order>, account: string) {
    forall i :: 0 <= i < |rows| ==> rows[i].account == account
  }

  /** The two preconditions, read off the hash and the incoming event. */
  predicate Unambiguous(h: OrderHash, account: string, event: Event) {
    match event
    case OrderUpdated(_, a, o) => a == account ==> o.account == account && OneForm(h, account, o)
    case OrdersReconciled(a, listed) => a == account ==>
      && OwnRows(listed, account)
      && (forall i, j :: 0 <= i < j < |listed| ==> KeyOf(listed[i]) != KeyOf(listed[j]))
      && (forall i :: 0 <= i < |listed| ==> !IsTerminal(listed[i].status))
    case _ => true
  }

  lemma RowStepAgrees(h: OrderHash, rows: seq<Order>, after: seq<Order>, account: string, event: Event)
    requires Agrees(rows, KeyOf, h) && OwnRows(rows, account)
    requires Unambiguous(h, account, event) && RowStep(rows, after, account, event)
    ensures Agrees(after, KeyOf, HashStep(h, account, event)) && OwnRows(after, account)
  {
    hide Agrees, OneForm, HashAfter, WorkingHash, IsTerminal, IsRemoved;
    match event
    case OrderUpdated(_, a, o) =>
      if a == account {
        var i: nat :| IsFirstOrder(rows, o, i) && after == OrderRowsAfter(rows, o, i);
        OrdersStayEqualExactly(rows, h, account, o, i);
      }
    case OrdersReconciled(a, listed) =>
      if a == account {
        ReconciledEqualExactly(listed);
      }
    case _ =>
  }

  function ConIdOf(p: Position): int {
    p.conId
  }

  lemma PositionStepAgrees(hashes: map<string, map<int, Position>>, rows: seq<Position>, after: seq<Position>,
                           account: string, event: Event)
    requires Agrees(rows, ConIdOf, HashOf(hashes, account)) && PositionStep(rows, after, account, event)
    ensures Agrees(after, ConIdOf, HashOf(PositionHashes(hashes, event), account))
  {
    hide Agrees, PositionRowsAfter;
    match event
    case PositionUpdated(p) =>
      if p.account == account {
        var i: nat :| IsFirstPosition(rows, p, i) && after == PositionRowsAfter(rows, p, false, i);
        PositionsStayEqual(rows, HashOf(hashes, account), p, false, i);
      }
    case PositionClosed(p) =>
      if p.account == account {
        var i: nat :| IsFirstPosition(rows, p, i) && after == PositionRowsAfter(rows, p, true, i);
        PositionsStayEqual(rows, HashOf(hashes, account), p, true, i);
      }
    case _ =>
  }

  /** No event from entry `from` on finds its account's hash ambiguous. */
  ghost predicate UnambiguousFrom(stream: seq<Entry>, from: nat, account: string) {
    forall n :: from <= n < |stream| ==>
      Unambiguous(HashOf(RedisOrders(stream[..n]), account), account, stream[n].event)
  }

  /** A list loaded when it equalled the account's hash equals the hash after every later event of the stream: orders
      over any run without an ambiguous event, positions over any run. */
  lemma {:induction false} CacheFollowsRedis(
      stream: seq<Entry>, from: nat, account: string, orders: seq<seq<Order>>, positions: seq<seq<Position>>, n: nat)
    requires from <= n <= |stream| && |orders| == |positions| == |stream| - from + 1
    requires forall i :: from <= i < |stream| ==>
      && RowStep(orders[i - from], orders[i - from + 1], account, stream[i].event)
      && PositionStep(positions[i - from], positions[i - from + 1], account, stream[i].event)
    requires Agrees(positions[0], ConIdOf, HashOf(RedisPositions(stream[..from]), account))
    ensures Agrees(positions[n - from], ConIdOf, HashOf(RedisPositions(stream[..n]), account))
    ensures
      && UnambiguousFrom(stream, from, account) && OwnRows(orders[0], account)
      && Agrees(orders[0], KeyOf, HashOf(RedisOrders(stream[..from]), account)) ==>
        OwnRows(orders[n - from], account) && Agrees(orders[n - from], KeyOf, HashOf(RedisOrders(stream[..n]), account))
  {
    hide Agrees, OwnRows, RowStep, PositionStep, HashStep, Unambiguous, HashOf, RedisOrders, RedisPositions,
         OrderHashes, PositionHashes;
    if n > from {
      CacheFollowsRedis(stream, from, account, orders, positions, n - 1);
      assert stream[..n] == stream[..n - 1] + [stream[n - 1]];
      LiveAfter(stream[..n - 1], stream[n - 1]);
      var event, i := stream[n - 1].event, n - 1 - from;
      assert positions[i + 1] == positions[n - from] && orders[i + 1] == orders[n - from];
      PositionStepAgrees(RedisPositions(stream[..n - 1]), positions[i], positions[i + 1], account, event);
      if UnambiguousFrom(stream, from, account) && OwnRows(orders[0], account)
        && Agrees(orders[0], KeyOf, HashOf(RedisOrders(stream[..from]), account)) {
        HashStepIsPublish(RedisOrders(stream[..n - 1]), account, event);
        RowStepAgrees(HashOf(RedisOrders(stream[..n - 1]), account), orders[i], orders[i + 1], account, event);
      }
    }
  }

  /** The account's list of orders is loaded and equals its hash. */
  ghost predicate OrdersAgree(redis: Redis, cache: Cache)
    reads redis, cache
  {
    cache.orders.Some? && OwnRows(cache.orders.value, cache.account)
      && Agrees(cache.orders.value, KeyOf, HashOf(redis.orders, cache.account))
  }

  ghost predicate PositionsAgree(redis: Redis, cache: Cache)
    reads redis, cache
  {
    cache.positions.Some? && Agrees(cache.positions.value, ConIdOf, HashOf(redis.positions, cache.account))
  }

  /** Publishes an event and delivers it to a browser. What was equal stays equal: positions always, orders unless
      the event finds the hash ambiguous. */
  method PublishAndDeliver(redis: Redis, cache: Cache, entry: Entry)
    requires redis.Valid()
    modifies redis, cache
    ensures redis.Valid() && redis.stream == old(redis.stream) + [entry]
    ensures old(PositionsAgree(redis, cache)) ==> PositionsAgree(redis, cache)
    ensures old(OrdersAgree(redis, cache)) && Unambiguous(HashOf(old(redis.orders), cache.account), cache.account, entry.event)
      ==> OrdersAgree(redis, cache)
  {
    hide Agrees, OwnRows, RowStep, PositionStep, Unambiguous, RedisOrders, RedisPositions, HashOf,
         HashStep, OrderHashes, PositionHashes;
    redis.Publish(entry);
    var refresh := cache.ApplyEvent(entry.event);
    HashStepIsPublish(old(redis.orders), cache.account, entry.event);
    if old(PositionsAgree(redis, cache)) {
      PositionStepAgrees(old(redis.positions), old(cache.positions).value, cache.positions.value, cache.account, entry.event);
    }
    if old(OrdersAgree(redis, cache)) && Unambiguous(HashOf(old(redis.orders), cache.account), cache.account, entry.event) {
      RowStepAgrees(HashOf(old(redis.orders), cache.account), old(cache.orders).value, cache.orders.value,
        cache.account, entry.event);
    }
  }

  /** The ambiguous case is reachable: a permanent update, then a late provisional one of the same order, and the
      hash holds the order in both forms when its next update comes. */
  lemma BothFormsReachable(o: Order)
    requires o.permId > 0 && !IsTerminal(o.status)
    ensures
      var late := o.(permId := 0);
      var stream := [Entry(OrderUpdated("1", o.account, o), "c"), Entry(OrderUpdated("2", o.account, late), "c")];
      var h := HashOf(RedisOrders(stream), o.account);
      && h == map[KeyOf(o) := o, KeyOf(late) := late]
      && !OneForm(h, o.account, o)
      && (forall rows: seq<Order>, i: nat :: Agrees(rows, KeyOf, h) && IsFirstOrder(rows, o, i) ==>
            !Agrees(OrderRowsAfter(rows, o, i), KeyOf, HashAfter(h, o.account, o)))
  {
    hide IsTerminal, IsRemoved, Agrees, OrderRowsAfter;
    var late := o.(permId := 0);
    var first, second := Entry(OrderUpdated("1", o.account, o), "c"), Entry(OrderUpdated("2", o.account, late), "c");
    LiveAfter([], first);
    LiveAfter([first], second);
    assert [] + [first] == [first] && [first] + [second] == [first, second];
    hide RedisOrders;
    assert RedisOrders([first]) == map[o.account := map[KeyOf(o) := o]];
    var h := HashOf(RedisOrders([first, second]), o.account);
    assert h == map[KeyOf(o) := o, KeyOf(late) := late];
    forall rows: seq<Order>, i: nat | Agrees(rows, KeyOf, h) && IsFirstOrder(rows, o, i)
      ensures !Agrees(OrderRowsAfter(rows, o, i), KeyOf, HashAfter(h, o.account, o))
    {
      RowsOfHash(rows, h, o.account);
      OrdersStayEqualExactly(rows, h, o.account, o, i);
    }
  }

  lemma RowsOfHash(rows: seq<Order>, h: OrderHash, account: string)
    requires Agrees(rows, KeyOf, h) && forall k :: k in h ==> h[k].account == account
    ensures OwnRows(rows, account)
  {
  }
}
