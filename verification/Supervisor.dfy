/** The supervisor that keeps one broker session per wanted connection and one history consumer and alert dispatcher
    per tenant (backend/app/worker.py, Supervisor.reconcile). */
module Supervisor {
  import opened Numbers

  const RestartBackoff := 60.0

  /** A supervised connection: its tenant, its provider and the rest of what its fingerprint covers. */
  datatype Connection = Connection(tenant: string, provider: string, settings: string)

  datatype Fingerprint = Fingerprint(provider: string, settings: string)

  function FingerprintOf(doc: Connection): Fingerprint {
    Fingerprint(doc.provider, doc.settings)
  }

  /** A running session; `round` is the reconciliation that started it. */
  datatype Session = Session(fingerprint: Fingerprint, round: nat)

  datatype Happening = Found(at: real) | Started(at: real)

  /** What one reconciliation meets: the wanted connections, the connections whose task it finds finished, whether
      the aggregator is configured, and its readings of the monotonic clock, between its start and its end. */
  datatype Round = Round(
    wanted: map<string, Connection>,
    finished: set<string>,
    aggregator: bool,
    began: real,
    found: string -> real,
    asked: string -> real,
    ended: real)

  ghost predicate InOrder(round: Round, clock: real) {
    && 0.0 <= clock <= round.began <= round.ended
    && forall c: string :: round.began <= round.found(c) <= round.asked(c) <= round.ended
  }

  predicate Buildable(doc: Connection, aggregator: bool) {
    doc.provider == "ibkr_gateway" || (doc.provider == "snaptrade" && aggregator)
  }

  function Lookup<V>(m: map<string, V>, key: string): Option<V> {
    if key in m then Some(m[key]) else None
  }

  /** All that is kept about one connection. */
  datatype Supervised = Supervised(session: Option<Session>, restartAfter: Option<real>, past: seq<Happening>)

  /** The first pass: a session that is unwanted, outdated or finished is dropped, a finished one with a backoff. */
  function Culled(s: Supervised, wanted: Option<Connection>, finished: bool, found: real): Supervised {
    if s.session.None? then s
    else if finished then Supervised(None, Some(found + RestartBackoff), s.past + [Found(found)])
    else if wanted.Some? && FingerprintOf(wanted.value) == s.session.value.fingerprint then s
    else s.(session := None)
  }

  function CulledIn(s: Supervised, connection: string, round: Round): Supervised {
    Culled(s, Lookup(round.wanted, connection), connection in round.finished, round.found(connection))
  }

  predicate InBackoff(s: Supervised, asked: real) {
    asked < if s.restartAfter.Some? then s.restartAfter.value else 0.0
  }

  /** The second pass: a wanted connection without a session is started, unless it is in backoff or unbuildable. */
  function Filled(s: Supervised, wanted: Option<Connection>, aggregator: bool, asked: real, round: nat): Supervised {
    if wanted.None? || s.session.Some? || InBackoff(s, asked) then s
    else if !Buildable(wanted.value, aggregator) then s.(restartAfter := None)
    else Supervised(Some(Session(FingerprintOf(wanted.value), round)), None, s.past + [Started(asked)])
  }

  function Reconciled(s: Supervised, connection: string, round: Round, number: nat): Supervised {
    var wanted := Lookup(round.wanted, connection);
    Filled(CulledIn(s, connection, round), wanted, round.aggregator, round.asked(connection), number)
  }

  function Tenants(wanted: map<string, Connection>): set<string> {
    set c | c in wanted :: wanted[c].tenant
  }

  /** A running session is not also in backoff, and no start came within the backoff of an earlier finding, nor can
      one from now on. */
  ghost predicate Spaced(s: Supervised, clock: real) {
    && (s.session.Some? ==> s.restartAfter.None?)
    && (forall i, j :: 0 <= i < j < |s.past| && s.past[i].Found? && s.past[j].Started? ==>
          s.past[j].at >= s.past[i].at + RestartBackoff)
    && (forall i :: 0 <= i < |s.past| && s.past[i].Found? ==> Elapsed(s, s.past[i].at, clock))
  }

  ghost predicate Elapsed(s: Supervised, found: real, clock: real) {
    clock >= found + RestartBackoff || (s.restartAfter.Some? && s.restartAfter.value >= found + RestartBackoff)
  }

  class Supervisor {
    var sessions: map<string, Session>
    var restartAfter: map<string, real>
    var consumers: map<string, nat>      // tenant to the round that started its consumer
    var dispatchers: map<string, nat>
    var rounds: nat
    var clock: real
    ghost var past: string -> seq<Happening>

    ghost function View(connection: string): Supervised
      reads this
    {
      Supervised(Lookup(sessions, connection), Lookup(restartAfter, connection), past(connection))
    }

    ghost predicate Valid()
      reads this
    {
      clock >= 0.0 && forall c: string :: Spaced(View(c), clock)
    }

    constructor ()
      ensures Valid() && sessions == map[] && consumers == map[] && dispatchers == map[]
    {
      sessions, restartAfter, consumers, dispatchers := map[], map[], map[], map[];
      rounds, clock := 0, 0.0;
      past := _ => [];
    }

    ghost method Note(connection: string, happening: Happening)
      modifies this`past
      ensures past(connection) == old(past(connection)) + [happening]
      ensures forall other: string :: other != connection ==> past(other) == old(past(other))
    {
      var before := past;
      past := (c: string) => if c == connection then before(c) + [happening] else before(c);
    }

    /** One reconciliation. Every connection ends as `Reconciled` says, and the tenants' tasks are exactly those of
        the wanted connections, the ones already there untouched. */
    method Reconcile(round: Round)
      requires Valid() && InOrder(round, clock)
      modifies this
      ensures Valid() && clock == round.ended && rounds == old(rounds) + 1
      ensures forall c: string :: View(c) == Reconciled(old(View(c)), c, round, old(rounds))
      ensures consumers.Keys == dispatchers.Keys == Tenants(round.wanted)
      ensures forall t :: t in consumers ==>
        consumers[t] == if t in old(consumers) then old(consumers)[t] else old(rounds)
      ensures forall t :: t in dispatchers ==>
        dispatchers[t] == if t in old(dispatchers) then old(dispatchers)[t] else old(rounds)
    {
      hide Spaced, Culled, Filled;
      ghost var number := rounds;
      Cull(round);
      Fill(round);
      consumers := Matched(consumers, Tenants(round.wanted), rounds);
      dispatchers := Matched(dispatchers, Tenants(round.wanted), rounds);
      rounds, clock := rounds + 1, round.ended;
      forall c: string
        ensures Spaced(View(c), clock)
      {
        assert View(c) == Reconciled(old(View(c)), c, round, number);
        SpacedStep(old(View(c)), c, round, number, old(clock));
      }
    }

    method Cull(round: Round)
      modifies this`sessions, this`restartAfter, this`past
      ensures forall c: string ::
        View(c) == CulledIn(old(View(c)), c, round)
    {
      hide CulledIn;
      NoSessionNothingToCull(round);
      var rest := sessions.Keys;
      while rest != {}
        invariant rest <= old(sessions).Keys
        invariant forall c: string :: c in old(sessions) && c !in rest ==>
          View(c) == CulledIn(old(View(c)), c, round)
        invariant forall c: string :: c !in old(sessions) || c in rest ==> View(c) == old(View(c))
        decreases |rest|
      {
        var connection := Member(rest);
        assert View(connection) == old(View(connection));
        CullOne(connection, round);
        rest := rest - {connection};
      }
    }

    method CullOne(connection: string, round: Round)
      requires connection in sessions
      modifies this`sessions, this`restartAfter, this`past
      ensures View(connection) == CulledIn(old(View(connection)), connection, round)
      ensures forall c: string :: c != connection ==> View(c) == old(View(c))
    {
      var session := sessions[connection];
      var done := connection in round.finished;
      if connection !in round.wanted || FingerprintOf(round.wanted[connection]) != session.fingerprint || done {
        if done {
          restartAfter := restartAfter[connection := round.found(connection) + RestartBackoff];
          Note(connection, Found(round.found(connection)));
        }
        sessions := sessions - {connection};
      }
    }

    method Fill(round: Round)
      modifies this`sessions, this`restartAfter, this`past
      ensures forall c: string ::
        View(c) == Filled(old(View(c)), Lookup(round.wanted, c), round.aggregator, round.asked(c), rounds)
    {
      hide Filled;
      UnwantedNothingToFill(round.aggregator, rounds);
      var rest := round.wanted.Keys;
      while rest != {}
        invariant rest <= round.wanted.Keys
        invariant forall c: string :: c in round.wanted && c !in rest ==>
          View(c) == Filled(old(View(c)), Lookup(round.wanted, c), round.aggregator, round.asked(c), rounds)
        invariant forall c: string :: c !in round.wanted || c in rest ==> View(c) == old(View(c))
        decreases |rest|
      {
        var connection := Member(rest);
        assert View(connection) == old(View(connection));
        FillOne(connection, round);
        rest := rest - {connection};
      }
    }

    method FillOne(connection: string, round: Round)
      requires connection in round.wanted
      modifies this`sessions, this`restartAfter, this`past
      ensures View(connection) == Filled(old(View(connection)), Lookup(round.wanted, connection),
        round.aggregator, round.asked(connection), rounds)
      ensures forall c: string :: c != connection ==> View(c) == old(View(c))
    {
      if connection in sessions { return; }
      var after := if connection in restartAfter then restartAfter[connection] else 0.0;
      if round.asked(connection) < after { return; }
      restartAfter := restartAfter - {connection};
      var doc := round.wanted[connection];
      if !Buildable(doc, round.aggregator) { return; }
      sessions := sessions[connection := Session(FingerprintOf(doc), rounds)];
      Note(connection, Started(round.asked(connection)));
    }
  }

  lemma NoSessionNothingToCull(round: Round)
    ensures forall s: Supervised, c: string :: s.session.None? ==> CulledIn(s, c, round) == s
  {
  }

  lemma UnwantedNothingToFill(aggregator: bool, number: nat)
    ensures forall s: Supervised, asked: real :: Filled(s, None, aggregator, asked, number) == s
  {
  }

  /** Starts a task for every tenant that has none, then stops those of tenants no longer wanted. */
  method Matched(tasks: map<string, nat>, tenants: set<string>, round: nat) returns (matched: map<string, nat>)
    ensures matched.Keys == tenants
    ensures forall t :: t in tenants ==> matched[t] == if t in tasks then tasks[t] else round
  {
    matched := StartMissing(tasks, tenants, round);
    matched := StopLeaving(matched, tenants);
  }

  method StartMissing(tasks: map<string, nat>, tenants: set<string>, round: nat) returns (matched: map<string, nat>)
    ensures forall t :: t in matched <==> t in tasks || t in tenants
    ensures forall t :: t in matched ==> matched[t] == if t in tasks then tasks[t] else round
  {
    matched := tasks;
    var missing := tenants - tasks.Keys;
    while missing != {}
      invariant missing <= tenants - tasks.Keys
      invariant forall t :: t in matched <==> t in tasks || (t in tenants && t !in missing)
      invariant forall t :: t in matched ==> matched[t] == if t in tasks then tasks[t] else round
      decreases |missing|
    {
      var tenant := Member(missing);
      matched := matched[tenant := round];
      missing := missing - {tenant};
    }
  }

  method StopLeaving(tasks: map<string, nat>, tenants: set<string>) returns (kept: map<string, nat>)
    ensures forall t :: t in kept <==> t in tasks && t in tenants
    ensures forall t :: t in kept ==> kept[t] == tasks[t]
  {
    kept := tasks;
    var leaving := tasks.Keys - tenants;
    while leaving != {}
      invariant leaving <= tasks.Keys - tenants
      invariant forall t :: t in kept <==> t in tasks && (t in tenants || t in leaving)
      invariant forall t :: t in kept ==> kept[t] == tasks[t]
      decreases |leaving|
    {
      var tenant := Member(leaving);
      kept := kept - {tenant};
      leaving := leaving - {tenant};
    }
  }

  lemma SpacedStep(s: Supervised, connection: string, round: Round, number: nat, clock: real)
    requires Spaced(s, clock) && InOrder(round, clock)
    ensures Spaced(Reconciled(s, connection, round, number), round.ended)
  {
    var wanted := Lookup(round.wanted, connection);
    var culled := Culled(s, wanted, connection in round.finished, round.found(connection));
    CulledIsSpaced(s, wanted, connection in round.finished, round.found(connection), clock);
    FilledIsSpaced(culled, wanted, round.aggregator, round.asked(connection), number, round.found(connection));
    LaterIsSpaced(Reconciled(s, connection, round, number), round.asked(connection), round.ended);
  }

  lemma LaterIsSpaced(s: Supervised, clock: real, later: real)
    requires Spaced(s, clock) && clock <= later
    ensures Spaced(s, later)
  {
    forall i | 0 <= i < |s.past| && s.past[i].Found?
      ensures Elapsed(s, s.past[i].at, later)
    {
      assert Elapsed(s, s.past[i].at, clock);
    }
  }

  lemma CulledIsSpaced(s: Supervised, wanted: Option<Connection>, finished: bool, found: real, clock: real)
    requires Spaced(s, clock) && clock <= found
    ensures Spaced(Culled(s, wanted, finished, found), found)
  {
    LaterIsSpaced(s, clock, found);
    var after := Culled(s, wanted, finished, found);
    forall i | 0 <= i < |after.past| && after.past[i].Found?
      ensures Elapsed(after, after.past[i].at, found)
    {
      if i < |s.past| {
        assert Elapsed(s, s.past[i].at, found);
      }
    }
  }

  lemma FilledIsSpaced(
      s: Supervised, wanted: Option<Connection>, aggregator: bool, asked: real, number: nat, clock: real)
    requires Spaced(s, clock) && clock <= asked
    ensures Spaced(Filled(s, wanted, aggregator, asked, number), asked)
  {
    LaterIsSpaced(s, clock, asked);
    var after := Filled(s, wanted, aggregator, asked, number);
    forall i | 0 <= i < |after.past| && after.past[i].Found?
      ensures Elapsed(after, after.past[i].at, asked)
      ensures after != s ==> asked >= after.past[i].at + RestartBackoff
    {
      assert Elapsed(s, s.past[i].at, asked);
    }
  }

  /** After a reconciliation a session runs exactly for the wanted connections that were already running unchanged or
      could be started: it has the wanted fingerprint, an unchanged one is the same session as before, and a wanted
      connection without one is in backoff or cannot be built. A changed one that had not finished restarts at once. */
  lemma SessionsAreWanted(s: Supervised, connection: string, round: Round, number: nat, clock: real)
    requires Spaced(s, clock) && InOrder(round, clock)
    ensures
      var after, wanted := Reconciled(s, connection, round, number), connection in round.wanted;
      var finished := connection in round.finished;
      && (after.session.Some? ==> wanted && after.session.value.fingerprint == FingerprintOf(round.wanted[connection]))
      && (s.session.Some? && wanted && !finished && s.session.value.fingerprint == FingerprintOf(round.wanted[connection])
          ==> after == s)
      && (wanted && after.session.None? ==>
            InBackoff(after, round.asked(connection)) || !Buildable(round.wanted[connection], round.aggregator))
      && (s.session.Some? && finished ==> Found(round.found(connection)) in after.past)
      && (s.session.Some? && finished && round.asked(connection) < round.found(connection) + RestartBackoff
          ==> after.session.None?)
      && (s.session.Some? && wanted && !finished && Buildable(round.wanted[connection], round.aggregator)
          ==> after.session.Some?)
  {
    if s.session.Some? && connection in round.finished {
      var culled := Culled(s, Lookup(round.wanted, connection), true, round.found(connection));
      assert culled.past[|s.past|] == Found(round.found(connection));
      assert Reconciled(s, connection, round, number).past[|s.past|] == culled.past[|s.past|];
    }
  }

  /** In the connection's own terms: a session that runs was built for the wanted connection's provider and settings,
      and one that finds none is started unless within a minute of its task being found finished, for the gateway
      provider always, for the aggregator when that is configured, and for no other. */
  lemma SessionsAreBuiltForTheirConnection(s: Supervised, connection: string, round: Round, number: nat, clock: real)
    requires Spaced(s, clock) && InOrder(round, clock)
    ensures
      var after := Reconciled(s, connection, round, number);
      && (after.session.Some? ==>
            && connection in round.wanted
            && after.session.value.fingerprint.provider == round.wanted[connection].provider
            && after.session.value.fingerprint.settings == round.wanted[connection].settings)
      && (connection in round.wanted && s.session.None? && s.restartAfter.None? ==>
            (after.session.Some? <==>
              || round.wanted[connection].provider == "ibkr_gateway"
              || (round.wanted[connection].provider == "snaptrade" && round.aggregator)))
      && (connection in round.wanted && s.session.Some? && connection !in round.finished
          && (s.session.value.fingerprint.provider != round.wanted[connection].provider
              || s.session.value.fingerprint.settings != round.wanted[connection].settings)
          && round.wanted[connection].provider == "ibkr_gateway" ==>
            after.session.Some? && after.session.value.round == number)
  {
  }

  /** A tenant has its tasks exactly while one of its connections is wanted. */
  lemma TenantsAreWanted(wanted: map<string, Connection>, tenant: string)
    ensures tenant in Tenants(wanted) <==> exists c :: c in wanted && wanted[c].tenant == tenant
  {
  }

  // ---- Whole runs ----

  function Run(connection: string, rounds: seq<Round>): Supervised {
    if rounds == [] then Supervised(None, None, [])
    else Reconciled(Run(connection, rounds[..|rounds| - 1]), connection, rounds[|rounds| - 1], |rounds| - 1)
  }

  function Clock(rounds: seq<Round>): real {
    if rounds == [] then 0.0 else rounds[|rounds| - 1].ended
  }

  lemma {:induction false} RunsAreSpaced(connection: string, rounds: seq<Round>)
    requires forall i :: 0 <= i < |rounds| ==> InOrder(rounds[i], Clock(rounds[..i]))
    ensures Spaced(Run(connection, rounds), Clock(rounds))
  {
    if rounds != [] {
      hide Spaced, Reconciled;
      var before := rounds[..|rounds| - 1];
      forall i | 0 <= i < |before|
        ensures InOrder(before[i], Clock(before[..i]))
      {
        assert before[..i] == rounds[..i];
      }
      RunsAreSpaced(connection, before);
      SpacedStep(Run(connection, before), connection, rounds[|rounds| - 1], |rounds| - 1, Clock(before));
    }
  }

  /** Over any run, a connection whose task was found finished is not started again within a minute of it. */
  lemma NoEarlyRestart(connection: string, rounds: seq<Round>, i: nat, j: nat)
    requires forall n :: 0 <= n < |rounds| ==> InOrder(rounds[n], Clock(rounds[..n]))
    requires i < j < |Run(connection, rounds).past|
    requires Run(connection, rounds).past[i].Found? && Run(connection, rounds).past[j].Started?
    ensures Run(connection, rounds).past[j].at >= Run(connection, rounds).past[i].at + 60.0
  {
    RunsAreSpaced(connection, rounds);
  }
}
