/** The at-least-once consumer that writes the durable history (backend/app/worker.py, durable_consumer;
    backend/app/db.py, persist), with a fault possible between any two single writes. */
module DurableConsumer {
  import opened Numbers
  import opened Orders
  import opened History

  /** One tenant's database. Each assignment below is one write; `budget` is how many writes still succeed before
      the connection fails. */
  class Mongo {
    var connections: map<string, Stamp>
    var accounts: map<string, Stamp>
    var orders: map<OrderKey, OrderDoc>
    var orderEvents: map<string, Entry>
    var alerts: map<string, Entry>
    var executions: map<string, ExecutionDoc>

    constructor ()
      ensures Now() == Database(map[], map[], map[], map[], map[], map[])
    {
      connections, accounts, orders, orderEvents, alerts, executions := map[], map[], map[], map[], map[], map[];
    }

    ghost function Now(): Database
      reads this
    {
      Database(connections, accounts, orders, orderEvents, alerts, executions)
    }

    /** Handles one entry; stops, without acknowledging anything, at the first write the budget does not cover. */
    method Persist(entry: Entry, budget: nat) returns (done: bool, left: nat)
      modifies this
      ensures done <==> budget >= |Plan(old(Now()), entry)|
      ensures done ==> Now() == Persisted(old(Now()), entry) && left == budget - |Plan(old(Now()), entry)|
      ensures !done ==> Now() == Partial(old(Now()), entry, budget) && left == 0
    {
      PrefixesOfPlan(Now(), Plan(Now(), entry));
      assert Plan(Now(), entry)[..|Plan(Now(), entry)|] == Plan(Now(), entry);
      hide ApplyAll, StoredOrder, FindProvisional;
      left := budget;
      match entry.event {
        case GatewayUpdated(state, at) =>
          if left == 0 { return false, 0; }
          if entry.connection in connections {
            connections := connections[entry.connection := Stamp(state, at)];
          }
          left := left - 1;
        case AccountUpdated(account, at) =>
          if left == 0 { return false, 0; }
          accounts := accounts[account := Stamp(entry.connection, at)];
          left := left - 1;
        case OrderUpdated(eventId, account, order) =>
          done, left := PersistOrder(entry, left);
          return;
        case AlertRaised(eventId, _) =>
          if left == 0 { return false, 0; }
          if eventId !in alerts {
            alerts := alerts[eventId := entry];
          }
          left := left - 1;
        case ExecutionCreated(execution) =>
          done, left := PersistExecution(entry, left);
          return;
        case _ =>
      }
      done := true;
    }

    method PersistExecution(entry: Entry, budget: nat) returns (done: bool, left: nat)
      requires entry.event.ExecutionCreated?
      modifies this
      ensures done <==> budget >= |Plan(old(Now()), entry)|
      ensures done ==> Now() == Persisted(old(Now()), entry) && left == budget - |Plan(old(Now()), entry)|
      ensures !done ==> Now() == Partial(old(Now()), entry, budget) && left == 0
    {
      PrefixesOfPlan(Now(), Plan(Now(), entry));
      assert Plan(Now(), entry)[..|Plan(Now(), entry)|] == Plan(Now(), entry);
      hide ApplyAll;
      var execution := entry.event.execution;
      if budget == 0 { return false, 0; }
      if execution.id !in executions {
        executions := executions[execution.id := ExecutionDoc(execution, entry.connection)];
      }
      left := budget - 1;
      if execution.commission.Some? || execution.realized.Some? {
        if left == 0 { return false, 0; }
        executions := executions[execution.id :=
          Enriched(executions[execution.id], execution.commission, execution.realized)];
        left := left - 1;
      }
      done := true;
    }

    method PersistOrder(entry: Entry, budget: nat) returns (done: bool, left: nat)
      requires entry.event.OrderUpdated?
      modifies this
      ensures done <==> budget >= |Plan(old(Now()), entry)|
      ensures done ==> Now() == Persisted(old(Now()), entry) && left == budget - |Plan(old(Now()), entry)|
      ensures !done ==> Now() == Partial(old(Now()), entry, budget) && left == 0
    {
      PrefixesOfPlan(Now(), Plan(Now(), entry));
      assert Plan(Now(), entry)[..|Plan(Now(), entry)|] == Plan(Now(), entry);
      hide ApplyAll;
      var OrderUpdated(eventId, account, order) := entry.event;
      var key, former, data := KeyOf(order), ProvisionalKey(account, order), order;
      var previous := if key in orders then Some(orders[key]) else None;
      var provisional: Option<OrderDoc> := None;
      if key != former {
        provisional := if former in orders then Some(orders[former]) else None;
      }
      previous := if previous.Some? then previous else provisional;
      if previous.Some? {
        data := data.(createdAt := previous.value.order.createdAt);
      }
      if budget == 0 { return false, 0; }
      orders := orders[key := OrderDoc(data, entry.connection)];
      left := budget - 1;
      if provisional.Some? {
        if left == 0 { return false, 0; }
        orders := orders - {former};
        left := left - 1;
      }
      if left == 0 { return false, 0; }
      if eventId !in orderEvents {
        orderEvents := orderEvents[eventId := entry];
      }
      left := left - 1;
      done := true;
    }
  }

  /** What one round of the loop meets: entries published before its read, whether the reply of the read or of its
      last acknowledgement is lost, and how many single writes and acknowledgements succeed before the next fault. */
  datatype Round = Round(arrivals: seq<Entry>, readLost: bool, ackLost: bool, budget: nat)

  /** No fault, no arrival, and enough budget for a full batch: at most three writes and an acknowledgement each. */
  predicate IsCalm(round: Round) {
    round.arrivals == [] && !round.readLost && !round.ackLost && round.budget >= 400
  }

  predicate CalmFrom(rounds: seq<Round>, k: int) {
    0 <= k <= |rounds| && forall r :: k <= r < |rounds| ==> IsCalm(rounds[r])
  }

  function Least(x: int, y: int): int {
    if x < y then x else y
  }

  function Range(from: nat, to: nat): seq<nat>
    requires from <= to
  {
    seq(to - from, i requires 0 <= i < to - from => from + i)
  }

  /** The database is a clean pass over the first `n` entries plus a partial handling of the next one. */
  ghost predicate ExactlyOnce(origin: Database, stream: seq<Entry>, n: nat, db: Database) {
    n <= |stream| && if n == |stream| then db == Fold(origin, stream) else HandledUpTo(origin, stream, n, db)
  }

  ghost predicate HandledUpTo(origin: Database, stream: seq<Entry>, n: nat, db: Database)
    requires n < |stream|
  {
    exists k: nat :: k <= |Plan(Fold(origin, stream[..n]), stream[n])| && db == Partial(Fold(origin, stream[..n]), stream[n], k)
  }

  lemma NothingHandled(origin: Database, stream: seq<Entry>, n: nat, db: Database)
    requires n <= |stream| && db == Fold(origin, stream[..n])
    ensures ExactlyOnce(origin, stream, n, db)
  {
    if n == |stream| {
      assert stream[..n] == stream;
    } else {
      assert db == Partial(Fold(origin, stream[..n]), stream[n], 0);
    }
  }

  /** Publishing more entries leaves the claim about the handled ones as it was. */
  lemma ArrivalsKeepExactlyOnce(origin: Database, stream: seq<Entry>, more: seq<Entry>, n: nat, db: Database)
    requires ExactlyOnce(origin, stream, n, db)
    ensures ExactlyOnce(origin, stream + more, n, db)
  {
    assert (stream + more)[..n] == stream[..n];
    if n == |stream| {
      assert stream[..n] == stream;
      NothingHandled(origin, stream + more, n, db);
    } else {
      assert (stream + more)[n] == stream[n];
    }
  }

  /** A replay of the next entry, finished or not, keeps the claim. */
  lemma HandlingKeepsExactlyOnce(origin: Database, stream: seq<Entry>, n: nat, db: Database, j: nat)
    requires n < |stream| && ExactlyOnce(origin, stream, n, db)
    requires j <= |Plan(db, stream[n])|
    ensures ExactlyOnce(origin, stream, n, Partial(db, stream[n], j))
    ensures j == |Plan(db, stream[n])| ==> Partial(db, stream[n], j) == Fold(origin, stream[..n + 1])
  {
    hide Plan, Partial;
    var base, entry := Fold(origin, stream[..n]), stream[n];
    var k: nat :| k <= |Plan(base, entry)| && db == Partial(base, entry, k);
    var reached := ReplayResumes(base, entry, k, j);
    assert stream[..n + 1][..n] == stream[..n];
    assert HandledUpTo(origin, stream, n, Partial(db, entry, j));
  }

  class Consumer {
    const mongo: Mongo
    var stream: seq<Entry>     // the tenant's event stream
    var delivered: nat         // the group's last delivered entry
    var unacked: seq<nat>      // the entries delivered to this consumer and not yet acknowledged, in order
    ghost const origin: Database

    ghost predicate Valid()
      reads this, mongo
    {
      && |unacked| <= delivered <= |stream|
      && unacked == Range(Acked(), delivered)
      && ExactlyOnce(origin, stream, Acked(), mongo.Now())
    }

    /** How many entries were acknowledged: by `Valid`, exactly the first ones. */
    ghost function Acked(): nat
      reads this
    {
      if |unacked| <= delivered then delivered - |unacked| else 0
    }

    constructor (mongo: Mongo)
      ensures Valid() && this.mongo == mongo && origin == mongo.Now()
      ensures stream == [] && unacked == [] && delivered == 0
    {
      this.mongo := mongo;
      origin := mongo.Now();
      stream, delivered, unacked := [], 0, [];
    }

    method Publish(arrivals: seq<Entry>)
      requires Valid()
      modifies this`stream
      ensures Valid() && stream == old(stream) + arrivals
    {
      ArrivalsKeepExactlyOnce(origin, stream, arrivals, Acked(), mongo.Now());
      stream := stream + arrivals;
    }

    /** Reads up to a hundred entries: the consumer's own unacknowledged ones, or new ones. */
    method Read(pending: bool) returns (batch: seq<nat>)
      requires Valid() && (!pending ==> unacked == [])
      modifies this`delivered, this`unacked
      ensures Valid() && Acked() == old(Acked())
      ensures batch <= unacked && |batch| == Least(100, if pending then |unacked| else |stream| - old(delivered))
      ensures pending ==> unacked == old(unacked) && delivered == old(delivered)
      ensures !pending ==> batch == unacked && delivered == old(delivered) + |batch|
    {
      if pending {
        batch := unacked[..if |unacked| < 100 then |unacked| else 100];
      } else {
        var upTo := if |stream| - delivered < 100 then |stream| else delivered + 100;
        batch := Range(delivered, upTo);
        delivered, unacked := upTo, unacked + batch;
      }
    }

    /** Handles and acknowledges the first unacknowledged entry, or faults on the way. */
    method HandleOne(id: nat, budget: nat) returns (faulted: bool, left: nat)
      requires Valid() && unacked != [] && id == unacked[0]
      modifies this`unacked, mongo
      ensures Valid()
      ensures unacked == if faulted then old(unacked) else old(unacked)[1..]
      ensures budget >= 4 ==> !faulted && left >= budget - 4
    {
      hide Plan, Partial, Fold, ExactlyOnce;
      PlanIsShort(mongo.Now(), stream[id]);
      ghost var n, before := Acked(), mongo.Now();
      assert id == n;
      var done;
      done, left := mongo.Persist(stream[id], budget);
      HandlingKeepsExactlyOnce(origin, stream, n, before, if done then |Plan(before, stream[n])| else budget);
      if !done || left == 0 {
        return true, 0;
      }
      left := left - 1;
      NothingHandled(origin, stream, n + 1, mongo.Now());
      unacked := unacked[1..];
      faulted := false;
    }

    /** Handles and acknowledges the entries of one batch, until the first fault. */
    method Handle(batch: seq<nat>, budget: nat) returns (faulted: bool)
      requires Valid() && batch <= unacked
      modifies this`unacked, mongo
      ensures Valid()
      ensures old(Acked()) <= Acked() <= old(Acked()) + |batch|
      ensures !faulted ==> unacked == old(unacked)[|batch|..]
      ensures budget >= 4 * |batch| ==> !faulted
    {
      hide ExactlyOnce;
      var left: nat := budget;
      var i := 0;
      while i < |batch|
        invariant 0 <= i <= |batch|
        invariant Valid() && unacked == old(unacked)[i..]
        invariant budget >= 4 * |batch| ==> left >= 4 * (|batch| - i)
      {
        assert batch[i] == old(unacked)[i] == unacked[0];
        faulted, left := HandleOne(batch[i], left);
        if faulted {
          return;
        }
        i := i + 1;
      }
      faulted := false;
    }

    /** One round: arrivals, a read of the consumer's own entries or of new ones, and the handling of the batch. A
        calm round acknowledges something, or finds nothing left of its own, or nothing left at all. */
    method Step(round: Round, pending: bool) returns (again: bool)
      requires Valid() && (!pending ==> unacked == [])
      modifies this, mongo
      ensures Valid() && (!again ==> unacked == [])
      ensures stream == old(stream) + round.arrivals && Acked() >= old(Acked())
      ensures IsCalm(round) ==>
        || (Acked() > old(Acked()) && again == pending)
        || (pending && !again && Acked() == old(Acked()))
        || (!again && Acked() == |stream|)
    {
      Publish(round.arrivals);
      var batch := Read(pending);
      if round.readLost {
        return true;
      }
      if batch == [] {
        return false;
      }
      var faulted := Handle(batch, round.budget);
      again := pending || faulted || round.ackLost;
    }

    /** One life of the consumer, from a start or restart to its end, under any sequence of rounds. What was
        acknowledged is always a prefix of the stream, the database is one clean pass over it plus part of the next
        entry, and once everything is acknowledged it is exactly one clean pass over everything. After whatever
        faults, one calm round more than there are entries left brings it there. */
    method Run(rounds: seq<Round>)
      requires Valid()
      modifies this, mongo
      ensures Valid() && Acked() >= old(Acked()) && old(stream) <= stream
      ensures Acked() == |stream| ==> mongo.Now() == Fold(origin, stream)
      ensures forall k :: CalmFrom(rounds, k) && |rounds| - k > |stream| - old(Acked()) ==> Acked() == |stream|
    {
      hide ExactlyOnce, IsCalm;
      var pending := true;
      ghost var calm := 0;
      var r := 0;
      while r < |rounds|
        invariant 0 <= calm <= r <= |rounds|
        invariant Valid() && Acked() >= old(Acked()) && old(stream) <= stream
        invariant !pending ==> unacked == []
        invariant r - calm == 0 || !IsCalm(rounds[r - calm - 1])
        invariant forall k :: r - calm <= k < r ==> IsCalm(rounds[k])
        invariant Acked() == |stream|
          || |stream| - Acked() + (if pending then 1 else 0) + calm <= |stream| - old(Acked()) + 1
      {
        CalmIsQuiet(rounds[r]);
        pending := Step(rounds[r], pending);
        calm := if IsCalm(rounds[r]) then calm + 1 else 0;
        r := r + 1;
      }
      LastFold(origin, stream, Acked(), mongo.Now());
      forall k | CalmFrom(rounds, k)
        ensures |rounds| - k <= calm
      {
      }
    }
  }

  lemma PlanIsShort(db: Database, entry: Entry)
    ensures |Plan(db, entry)| <= 3
  {
  }

  lemma CalmIsQuiet(round: Round)
    ensures IsCalm(round) ==> round.arrivals == []
  {
  }

  lemma LastFold(origin: Database, stream: seq<Entry>, n: nat, db: Database)
    requires ExactlyOnce(origin, stream, n, db)
    ensures n == |stream| ==> db == Fold(origin, stream)
  {
  }
}
