/** The lease that lets one worker at a time run a broker session (backend/app/worker.py, Session.acquire, renew,
    release and run). */
module Lease {
  import opened Numbers

  const LeaseSeconds := 20.0

  datatype Lease = Lease(token: string, expires: real)

  /** What a reader of the key finds at a given time. */
  function Live(lease: Option<Lease>, now: real): Option<Lease> {
    if lease.Some? && now < lease.value.expires then lease else None
  }

  predicate Holds(lease: Option<Lease>, token: string, now: real) {
    Live(lease, now).Some? && lease.value.token == token
  }

  /** Set-if-absent with an expiry. */
  function Acquired(lease: Option<Lease>, token: string, now: real): Option<Lease> {
    if Live(lease, now).None? then Some(Lease(token, now + LeaseSeconds)) else lease
  }

  function Renewed(lease: Option<Lease>, token: string, now: real): Option<Lease> {
    if Holds(lease, token, now) then Some(Lease(token, now + LeaseSeconds)) else lease
  }

  function Released(lease: Option<Lease>, token: string, now: real): Option<Lease> {
    if Holds(lease, token, now) then None else lease
  }

  /** The key store shared by all workers; expired keys read as absent. */
  class KeyStore {
    var leases: map<string, Lease>

    constructor ()
      ensures leases == map[]
    {
      leases := map[];
    }

    function Of(connection: string): Option<Lease>
      reads this
    {
      if connection in leases then Some(leases[connection]) else None
    }
  }

  /** One session's handle on its connection's lease; every session draws its own token. */
  class Session {
    const store: KeyStore
    const connection: string
    const token: string

    constructor (store: KeyStore, connection: string, token: string)
      ensures this.store == store && this.connection == connection && this.token == token
    {
      this.store, this.connection, this.token := store, connection, token;
    }

    method Acquire(now: real) returns (acquired: bool)
      modifies store
      ensures store.Of(connection) == Acquired(old(store.Of(connection)), token, now)
      ensures acquired <==> Live(old(store.Of(connection)), now).None?
      ensures forall c :: c != connection ==> store.Of(c) == old(store.Of(c))
    {
      acquired := !(connection in store.leases && now < store.leases[connection].expires);
      if acquired {
        store.leases := store.leases[connection := Lease(token, now + LeaseSeconds)];
      }
    }

    method Renew(now: real) returns (renewed: bool)
      modifies store
      ensures store.Of(connection) == Renewed(old(store.Of(connection)), token, now)
      ensures renewed <==> Holds(old(store.Of(connection)), token, now)
      ensures forall c :: c != connection ==> store.Of(c) == old(store.Of(c))
    {
      var held := connection in store.leases && now < store.leases[connection].expires;
      renewed := held && store.leases[connection].token == token;
      if renewed {
        store.leases := store.leases[connection := Lease(token, now + LeaseSeconds)];
      }
    }

    method Release(now: real)
      modifies store
      ensures store.Of(connection) == Released(old(store.Of(connection)), token, now)
      ensures forall c :: c != connection ==> store.Of(c) == old(store.Of(c))
    {
      var held := connection in store.leases && now < store.leases[connection].expires;
      if held && store.leases[connection].token == token {
        store.leases := store.leases - {connection};
      }
    }
  }

  /** Only the session whose token the lease carries can change a live lease. */
  lemma OthersAreUntouched(lease: Option<Lease>, token: string, now: real)
    requires Live(lease, now).Some? && lease.value.token != token
    ensures Acquired(lease, token, now) == Renewed(lease, token, now) == Released(lease, token, now) == lease
  {
  }

  // ---- Any number of workers ----

  /** One connection: its lease, the time, and the sessions running for it with the time of their last successful
      acquisition or renewal. */
  datatype System = System(lease: Option<Lease>, now: real, running: map<string, real>)

  /** A step of the world. `lost` says that the reply did not arrive, which ends the session that waited for it. */
  datatype Step =
    | Wait(until: real)
    | Acquire(token: string, lost: bool)
    | Renew(token: string, lost: bool)
    | Stop(token: string)
    | Release(token: string)

  /** The code's part: only a running session renews, and only a stopped one releases. Time does not run backwards,
      and each running session renews or stops within the lease of its last success. */
  predicate Allowed(s: System, step: Step) {
    match step
    case Wait(until) => s.now <= until && forall t :: t in s.running ==> until < s.running[t] + LeaseSeconds
    case Acquire(token, _) => token !in s.running
    case Renew(token, _) => token in s.running
    case Stop(token) => token in s.running
    case Release(token) => token !in s.running
  }

  function Next(s: System, step: Step): System {
    match step
    case Wait(until) => s.(now := until)
    case Acquire(token, lost) =>
      var running := Live(s.lease, s.now).None? && !lost;
      s.(lease := Acquired(s.lease, token, s.now), running := if running then s.running[token := s.now] else s.running)
    case Renew(token, lost) =>
      var running := Holds(s.lease, token, s.now) && !lost;
      s.(lease := Renewed(s.lease, token, s.now),
        running := if running then s.running[token := s.now] else s.running - {token})
    case Stop(token) => s.(running := s.running - {token})
    case Release(token) => s.(lease := Released(s.lease, token, s.now))
  }

  function Run(start: real, steps: seq<Step>): System {
    if steps == [] then System(None, start, map[]) else Next(Run(start, steps[..|steps| - 1]), steps[|steps| - 1])
  }

  ghost predicate AllAllowed(start: real, steps: seq<Step>) {
    forall i :: 0 <= i < |steps| ==> Allowed(Run(start, steps[..i]), steps[i])
  }

  /** A running session's token is on the lease, for as long as its last success granted. */
  ghost predicate Backed(s: System) {
    forall t :: t in s.running ==>
      s.lease == Some(Lease(t, s.running[t] + LeaseSeconds)) && s.now < s.running[t] + LeaseSeconds
  }

  lemma BackedStep(s: System, step: Step)
    requires Backed(s) && Allowed(s, step)
    ensures Backed(Next(s, step))
  {
  }

  lemma {:induction false} RunsAreBacked(start: real, steps: seq<Step>)
    requires AllAllowed(start, steps)
    ensures Backed(Run(start, steps))
  {
    if steps != [] {
      var before := steps[..|steps| - 1];
      forall i | 0 <= i < |before|
        ensures Allowed(Run(start, before[..i]), before[i])
      {
        assert before[..i] == steps[..i];
      }
      RunsAreBacked(start, before);
      BackedStep(Run(start, before), steps[|steps| - 1]);
    }
  }

  /** Over any run of any number of workers with distinct tokens, no two sessions for the connection run at once. */
  lemma OneSessionAtATime(start: real, steps: seq<Step>, token: string, token': string)
    requires AllAllowed(start, steps)
    requires token in Run(start, steps).running && token' in Run(start, steps).running
    ensures token == token'
  {
    RunsAreBacked(start, steps);
  }

  /** While a session runs, another one can take over exactly from the moment the last success is a lease old: the
      timing assumption cannot be weakened. */
  lemma TakeoverExactly(start: real, steps: seq<Step>, token: string, other: string, at: real)
    requires AllAllowed(start, steps) && token in Run(start, steps).running && token != other
    requires Run(start, steps).now <= at
    ensures other in Next(Next(Run(start, steps), Wait(at)), Acquire(other, false)).running <==>
      at >= Run(start, steps).running[token] + 20.0
  {
    RunsAreBacked(start, steps);
  }
}
