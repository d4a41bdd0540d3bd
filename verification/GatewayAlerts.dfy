/** The gateway alerts of one tenant: debounced, de-duplicated per gateway, and remembered across restarts
    (backend/app/worker.py, AlertDispatcher; backend/app/alerts.py, gateway_class). */
module GatewayAlerts {
  import opened Numbers

  datatype Kind = Up | Down | Degraded | Attention

  predicate LoginNeedsAttention(phase: string) {
    phase in ["two_factor", "two_factor_expired", "two_factor_device_required", "auth_failed"]
  }

  function GatewayClass(status: string, phase: string): Option<Kind> {
    if LoginNeedsAttention(phase) then Some(Attention)
    else if status == "CONNECTED" then Some(Up)
    else if status in ["DISCONNECTED", "FAILED", "RECONNECTING", "CONNECTING"] then Some(Down)
    else if status == "TWO_FACTOR_PENDING" then Some(Attention)
    else if status == "DEGRADED" then Some(Degraded)
    else None
  }

  predicate IsUrgent(status: string) {
    status in ["FAILED", "TWO_FACTOR_PENDING"]
  }

  /** A status waiting out the grace period since it was recorded. */
  datatype Held = Held(status: string, began: real)

  /** A recovery names the status it ends, if that is still known, and how long the outage lasted. */
  datatype Alert =
    | Outage(kind: Kind, began: real, swept: bool, at: real)
    | Recovery(from: Option<string>, lasted: real)

  /** What happens to one gateway: a classified status arrives, an alert is delivered, the worker restarts. */
  datatype Happening =
    | Saw(kind: Kind, at: real)
    | Sent(alert: Alert)
    | Restarted

  /** All that is kept about one gateway: in memory, in the persisted mirror, and its past. */
  datatype Gateway = Gateway(
    memory: Option<Kind>,
    mirror: Option<Kind>,
    held: Option<Held>,
    since: Option<real>,
    status: Option<string>,
    past: seq<Happening>)

  function Remember(g: Gateway, kind: Kind): Gateway {
    g.(memory := Some(kind), mirror := Some(kind))
  }

  function Deliver(g: Gateway, alert: Alert): Gateway {
    g.(past := g.past + [Sent(alert)])
  }

  /** A classified status as it finds the gateway: the mirror is consulted when memory has nothing. */
  function Seen(g: Gateway, kind: Kind, at: real): Gateway {
    g.(memory := if g.memory.Some? then g.memory else g.mirror, past := g.past + [Saw(kind, at)])
  }

  function Lasted(since: Option<real>, at: real): real {
    if since.Some? && since.value != 0.0 then at - since.value else 0.0
  }

  function FirstOf(since: Option<real>, began: real): Option<real> {
    if since.Some? then since else Some(began)
  }

  /** `gateway_changed`, for the gateway it is about. */
  function Changed(before: Gateway, status: string, phase: string, at: real): Gateway {
    if GatewayClass(status, phase).None? then before
    else
      var kind := GatewayClass(status, phase).value;
      var g := Seen(before, kind, at);
      if kind.Up? then
        var idle := g.(held := None);
        if g.memory.Some? && !g.memory.value.Up?
        then Deliver(Remember(idle.(since := None), Up), Recovery(g.status, Lasted(g.since, at)))
        else Remember(idle, Up)
      else if g.memory == Some(kind) then g.(status := Some(status))
      else if IsUrgent(status) || kind.Attention? then
        Deliver(Remember(g.(status := Some(status), since := FirstOf(g.since, at), held := None), kind),
          Outage(kind, at, false, at))
      else if g.held.None? then g.(held := Some(Held(status, at)))
      else g
  }

  /** `sweep_pending`, for one gateway. A held status always has a class (`Consistent`), so the case of none does not
      arise. */
  function Swept(g: Gateway, grace: real, at: real): Gateway {
    if g.held.None? || at - g.held.value.began < grace then g
    else
      var Held(status, began) := g.held.value;
      var kind := GatewayClass(status, "");
      var idle := g.(held := None);
      if kind.None? || g.memory == kind then idle
      else
        Deliver(Remember(idle.(status := Some(status), since := FirstOf(g.since, began)), kind.value),
          Outage(kind.value, began, true, at))
  }

  /** A restart clears everything but the mirror. */
  function Forgotten(g: Gateway): Gateway {
    Gateway(None, g.mirror, None, None, None, g.past + [Restarted])
  }

  datatype Step = Change(status: string, phase: string, at: real) | Sweep(at: real) | Restart

  function Next(g: Gateway, grace: real, step: Step): Gateway {
    match step
    case Change(status, phase, at) => Changed(g, status, phase, at)
    case Sweep(at) => Swept(g, grace, at)
    case Restart => Forgotten(g)
  }

  const Unknown := Gateway(None, None, None, None, None, [])

  function Run(grace: real, steps: seq<Step>): Gateway {
    if steps == [] then Unknown else Next(Run(grace, steps[..|steps| - 1]), grace, steps[|steps| - 1])
  }

  function Lookup<V>(m: map<string, V>, key: string): Option<V> {
    if key in m then Some(m[key]) else None
  }

  class AlertDispatcher {
    const grace: real
    var gateway: map<string, Kind>
    var pending: map<string, Held>
    var since: map<string, real>
    var statuses: map<string, string>
    var mirror: map<string, Kind>                 // kept outside the process
    ghost var past: string -> seq<Happening>

    constructor (grace: real)
      ensures Valid() && this.grace == grace && forall key: string :: View(key) == Unknown
    {
      hide Sound;
      SoundUnknown(grace);
      this.grace := grace;
      gateway, pending, since, statuses, mirror := map[], map[], map[], map[], map[];
      past := _ => [];
    }

    ghost function View(key: string): Gateway
      reads this
    {
      Gateway(Lookup(gateway, key), Lookup(mirror, key), Lookup(pending, key), Lookup(since, key),
        Lookup(statuses, key), past(key))
    }

    ghost predicate Valid()
      reads this
    {
      forall key: string :: Sound(View(key), grace)
    }

    ghost method Note(key: string, happening: Happening)
      modifies this`past
      ensures past(key) == old(past(key)) + [happening]
      ensures forall other: string :: other != key ==> past(other) == old(past(other))
    {
      var before := past;
      past := (k: string) => if k == key then before(k) + [happening] else before(k);
    }

    method GatewayChanged(key: string, status: string, phase: string, at: real) returns (sent: Option<Alert>)
      requires Valid()
      modifies this
      ensures Valid()
      ensures View(key) == Changed(old(View(key)), status, phase, at)
      ensures forall other: string :: other != key ==> View(other) == old(View(other))
      ensures View(key).past == old(View(key)).past +
        (if GatewayClass(status, phase).None? then [] else [Saw(GatewayClass(status, phase).value, at)]) +
        (if sent.None? then [] else [Sent(sent.value)])
    {
      hide GatewayClass, Sound;
      SoundStep(View(key), grace, Change(status, phase, at));
      assert GatewayClass(status, phase).None? ==> View(key) == Changed(View(key), status, phase, at);
      hide Changed;
      sent := None;
      if GatewayClass(status, phase).Some? {
        sent := ClassChanged(key, status, phase, GatewayClass(status, phase).value, at);
      }
      forall k: string
        ensures Sound(View(k), grace)
      {
        assert k != key ==> View(k) == old(View(k));
      }
    }

    method ClassChanged(key: string, status: string, phase: string, kind: Kind, at: real)
      returns (sent: Option<Alert>)
      requires GatewayClass(status, phase) == Some(kind)
      modifies this
      ensures View(key) == Changed(old(View(key)), status, phase, at)
      ensures forall other: string :: other != key ==> View(other) == old(View(other))
      ensures View(key).past == old(View(key)).past + [Saw(kind, at)] + if sent.None? then [] else [Sent(sent.value)]
    {
      hide GatewayClass, IsUrgent;
      sent := None;
      Note(key, Saw(kind, at));
      if key !in gateway && key in mirror {
        gateway := gateway[key := mirror[key]];
      }
      assert View(key) == Seen(old(View(key)), kind, at);
      if kind.Up? {
        sent := WentUp(key, at);
      } else if Lookup(gateway, key) == Some(kind) {
        statuses := statuses[key := status];
      } else if IsUrgent(status) || kind.Attention? {
        sent := RaiseNow(key, status, kind, at);
      } else if key !in pending {
        pending := pending[key := Held(status, at)];
      }
    }

    method WentUp(key: string, at: real) returns (sent: Option<Alert>)
      modifies this
      ensures
        var g, reported := old(View(key)).(held := None), old(View(key)).memory;
        if reported.Some? && !reported.value.Up? then
          && sent == Some(Recovery(g.status, Lasted(g.since, at)))
          && View(key) == Deliver(Remember(g.(since := None), Up), sent.value)
        else sent == None && View(key) == Remember(g, Up)
      ensures forall other: string :: other != key ==> View(other) == old(View(other))
    {
      sent := None;
      var reported := Lookup(gateway, key);
      pending := pending - {key};
      if reported.Some? && !reported.value.Up? {
        sent := Some(Recovery(Lookup(statuses, key), Lasted(Lookup(since, key), at)));
        since := since - {key};
        RememberGateway(key, Up);
        Note(key, Sent(sent.value));
      } else {
        RememberGateway(key, Up);
      }
    }

    method RaiseNow(key: string, status: string, kind: Kind, at: real) returns (sent: Option<Alert>)
      modifies this
      ensures sent == Some(Outage(kind, at, false, at))
      ensures
        var g := old(View(key)).(status := Some(status), since := FirstOf(old(View(key)).since, at), held := None);
        View(key) == Deliver(Remember(g, kind), sent.value)
      ensures forall other: string :: other != key ==> View(other) == old(View(other))
    {
      RememberGateway(key, kind);
      statuses := statuses[key := status];
      if key !in since {
        since := since[key := at];
      }
      pending := pending - {key};
      sent := Some(Outage(kind, at, false, at));
      Note(key, Sent(sent.value));
    }

    method RememberGateway(key: string, kind: Kind)
      modifies this`gateway, this`mirror
      ensures gateway == old(gateway)[key := kind] && mirror == old(mirror)[key := kind]
    {
      gateway, mirror := gateway[key := kind], mirror[key := kind];
    }

    method SweepPending(at: real)
      requires Valid()
      modifies this
      ensures Valid()
      ensures forall key: string :: View(key) == Swept(old(View(key)), grace, at)
    {
      hide Swept, Sound;
      forall key: string
        ensures Sound(Swept(View(key), grace, at), grace)
      {
        SoundStep(View(key), grace, Sweep(at));
      }
      NothingHeld(grace, at);
      var rest := pending.Keys;
      while rest != {}
        invariant rest <= old(pending).Keys
        invariant forall key: string :: key in old(pending) && key !in rest ==>
          View(key) == Swept(old(View(key)), grace, at)
        invariant forall key: string :: key !in old(pending) || key in rest ==> View(key) == old(View(key))
        decreases |rest|
      {
        var key := Member(rest);
        assert View(key) == old(View(key));
        SweepOne(key, at);
        rest := rest - {key};
      }
    }

    method SweepOne(key: string, at: real)
      requires key in pending
      modifies this
      ensures View(key) == Swept(old(View(key)), grace, at)
      ensures forall other: string :: other != key ==> View(other) == old(View(other))
    {
      hide GatewayClass;
      var Held(status, began) := pending[key];
      if at - began < grace { return; }
      pending := pending - {key};
      var kind := GatewayClass(status, "");
      if kind.None? || Lookup(gateway, key) == kind { return; }
      RememberGateway(key, kind.value);
      statuses := statuses[key := status];
      if key !in since {
        since := since[key := began];
      }
      Note(key, Sent(Outage(kind.value, began, true, at)));
    }

    /** The process starts again: a new `AlertState`, the mirror as it was. */
    method Restart()
      requires Valid()
      modifies this
      ensures Valid()
      ensures forall key: string :: View(key) == Forgotten(old(View(key)))
    {
      hide Sound;
      gateway, pending, since, statuses := map[], map[], map[], map[];
      ghost var before := past;
      past := (k: string) => before(k) + [Restarted];
      forall key: string
        ensures Sound(View(key), grace)
      {
        SoundStep(old(View(key)), grace, Step.Restart);
        assert View(key) == Forgotten(old(View(key)));
      }
    }
  }

  lemma NothingHeld(grace: real, at: real)
    ensures forall g: Gateway :: g.held.None? ==> Swept(g, grace, at) == g
  {
  }

  // ---- No alert is repeated ----

  function KindOf(alert: Alert): Kind {
    if alert.Outage? then alert.kind else Up
  }

  /** The kinds of the alerts delivered, in order. */
  function Alerts(past: seq<Happening>): seq<Kind> {
    if past == [] then []
    else
      var before, last := Alerts(past[..|past| - 1]), past[|past| - 1];
      if last.Sent? then before + [KindOf(last.alert)] else before
  }

  lemma AlertsAfter(past: seq<Happening>, more: Happening)
    ensures Alerts(past + [more]) == if more.Sent? then Alerts(past) + [KindOf(more.alert)] else Alerts(past)
  {
    assert (past + [more])[..|past|] == past;
  }

  predicate NeverRepeats(kinds: seq<Kind>) {
    (kinds != [] ==> kinds[0] != Up) && forall i :: 0 < i < |kinds| ==> kinds[i] != kinds[i - 1]
  }

  /** The kind last delivered; up before the first alert. */
  function LastKind(kinds: seq<Kind>): Kind {
    if kinds == [] then Up else kinds[|kinds| - 1]
  }

  lemma NeverRepeatsAfter(kinds: seq<Kind>, kind: Kind)
    requires NeverRepeats(kinds) && kind != LastKind(kinds)
    ensures NeverRepeats(kinds + [kind]) && LastKind(kinds + [kind]) == kind
  {
    var longer := kinds + [kind];
    forall i | 0 < i < |longer|
      ensures longer[i] != longer[i - 1]
    {
      assert longer[i - 1] == kinds[i - 1];
      assert i < |kinds| ==> longer[i] == kinds[i];
    }
  }

  /** Memory never departs from the mirror, and nothing is held while only the mirror knows what was reported. */
  ghost predicate Consistent(g: Gateway) {
    && (g.memory.Some? ==> g.mirror == g.memory)
    && (g.held.Some? ==> g.memory.Some? || g.mirror.None?)
    && (g.held.Some? ==> IsDebounced(GatewayClass(g.held.value.status, "")))
  }

  predicate IsDebounced(kind: Option<Kind>) {
    kind == Some(Down) || kind == Some(Degraded)
  }

  ghost predicate Faithful(g: Gateway) {
    && NeverRepeats(Alerts(g.past))
    && LastKind(Alerts(g.past)) == (if g.mirror.Some? then g.mirror.value else Up)
  }

  lemma HeldClass(status: string, phase: string)
    requires GatewayClass(status, phase).Some? && !GatewayClass(status, phase).value.Up?
    requires !GatewayClass(status, phase).value.Attention?
    ensures GatewayClass(status, "") == GatewayClass(status, phase)
  {
  }

  lemma ConsistentStep(g: Gateway, grace: real, step: Step)
    requires Consistent(g)
    ensures Consistent(Next(g, grace, step))
  {
    if step.Change? && GatewayClass(step.status, step.phase).Some? {
      var kind := GatewayClass(step.status, step.phase).value;
      if kind.Down? || kind.Degraded? {
        HeldClass(step.status, step.phase);
      }
    }
    hide GatewayClass, IsUrgent;
  }

  lemma FaithfulSent(g: Gateway, alert: Alert, after: Gateway)
    requires Faithful(g) && KindOf(alert) != LastKind(Alerts(g.past))
    requires after.past == g.past + [Sent(alert)] && after.mirror == Some(KindOf(alert))
    ensures Faithful(after)
  {
    AlertsAfter(g.past, Sent(alert));
    NeverRepeatsAfter(Alerts(g.past), KindOf(alert));
  }

  lemma FaithfulStep(g: Gateway, grace: real, step: Step)
    requires Consistent(g) && Faithful(g)
    ensures Faithful(Next(g, grace, step))
  {
    hide GatewayClass, IsUrgent, Alerts, NeverRepeats, LastKind, Lasted;
    var after := Next(g, grace, step);
    match step
    case Change(status, phase, at) =>
      if GatewayClass(status, phase).Some? {
        var seen := Seen(g, GatewayClass(status, phase).value, at);
        AlertsAfter(g.past, Saw(GatewayClass(status, phase).value, at));
        if |after.past| > |seen.past| {
          FaithfulSent(seen, after.past[|seen.past|].alert, after);
        }
      }
    case Sweep(at) =>
      if |after.past| > |g.past| {
        FaithfulSent(g, after.past[|g.past|].alert, after);
      }
    case Restart =>
      AlertsAfter(g.past, Restarted);
  }

  // ---- The debounce loses nothing and fires on nothing stale ----

  /** After this the gateway counts as never seen down. */
  predicate Clears(h: Happening) {
    h.Restarted? || (h.Saw? && h.kind.Up?)
  }

  ghost predicate UnclearedAfter(past: seq<Happening>, j: nat) {
    forall m :: j < m < |past| ==> !Clears(past[m])
  }

  /** A status of this kind came at time `began`, and nothing has cleared it since. */
  ghost predicate Recorded(past: seq<Happening>, kind: Kind, began: real) {
    exists j: nat :: j < |past| && past[j] == Saw(kind, began) && UnclearedAfter(past, j)
  }

  /** Some non-up status came that nothing has cleared since. */
  ghost predicate Outstanding(past: seq<Happening>) {
    exists j: nat :: j < |past| && past[j].Saw? && !past[j].kind.Up? && UnclearedAfter(past, j)
  }

  lemma RecordedAfter(past: seq<Happening>, more: Happening, kind: Kind, began: real)
    requires !Clears(more) && (Recorded(past, kind, began) || more == Saw(kind, began))
    ensures Recorded(past + [more], kind, began)
  {
    if Recorded(past, kind, began) {
      var j: nat :| j < |past| && past[j] == Saw(kind, began) && UnclearedAfter(past, j);
      assert (past + [more])[j] == past[j] && UnclearedAfter(past + [more], j);
    } else {
      assert (past + [more])[|past|] == more && UnclearedAfter(past + [more], |past|);
    }
  }

  lemma OutstandingAfter(past: seq<Happening>, more: Happening)
    ensures Outstanding(past + [more]) ==>
      !Clears(more) && (Outstanding(past) || (more.Saw? && !more.kind.Up?))
  {
    if Outstanding(past + [more]) {
      var j: nat :| j <= |past| && (past + [more])[j].Saw? && !(past + [more])[j].kind.Up?
        && UnclearedAfter(past + [more], j);
      if j < |past| {
        assert (past + [more])[|past|] == more;
        assert forall m :: j < m < |past| ==> (past + [more])[m] == past[m];
        assert UnclearedAfter(past, j);
      }
    }
  }

  /** What a happening in the past owes to what came before it: an alert that waited out the grace period did wait
      that long, for a status nothing had cleared; a recovery ends the spell that began with the first alert. */
  ghost predicate Owed(past: seq<Happening>, i: nat, grace: real)
    requires i < |past|
  {
    past[i].Sent? ==>
      && (past[i].alert.Outage? && past[i].alert.swept ==> IsRipe(past[..i], past[i].alert, grace))
      && (past[i].alert.Recovery? ==> EndsSpell(past[..i], past[i].alert))
  }

  ghost predicate IsRipe(past: seq<Happening>, alert: Alert, grace: real)
    requires alert.Outage?
  {
    alert.at - alert.began >= grace && Recorded(past, alert.kind, alert.began)
  }

  predicate EndsSpell(past: seq<Happening>, alert: Alert)
    requires alert.Recovery?
  {
    past != [] && past[|past| - 1].Saw? && past[|past| - 1].kind.Up?
      && alert.lasted ==
        match SpellStart(past)
        case Some(start) => if start != 0.0 then past[|past| - 1].at - start else 0.0
        case None => 0.0
  }

  /** When the first outage alert since the last recovery or restart began. */
  function SpellStart(past: seq<Happening>): Option<real> {
    if past == [] then None else SpellNext(SpellStart(past[..|past| - 1]), past[|past| - 1])
  }

  function SpellNext(spell: Option<real>, next: Happening): Option<real> {
    match next
    case Saw(_, _) => spell
    case Sent(alert) => if alert.Outage? then FirstOf(spell, alert.began) else None
    case Restarted => None
  }

  lemma SpellStartAfter(past: seq<Happening>, more: Happening)
    ensures SpellStart(past + [more]) == SpellNext(SpellStart(past), more)
  {
    assert (past + [more])[..|past|] == past;
  }

  ghost predicate AllOwed(past: seq<Happening>, grace: real) {
    forall i :: 0 <= i < |past| ==> Owed(past, i, grace)
  }

  lemma AllOwedAfter(past: seq<Happening>, more: Happening, grace: real)
    requires AllOwed(past, grace)
    requires Owed(past + [more], |past|, grace)
    ensures AllOwed(past + [more], grace)
  {
    hide Recorded, SpellStart;
    var after := past + [more];
    forall i | 0 <= i < |after|
      ensures Owed(after, i, grace)
    {
      if i < |past| {
        assert after[..i] == past[..i] && Owed(past, i, grace);
      }
    }
  }

  ghost predicate HeldIsRecorded(g: Gateway) {
    g.held.Some? && GatewayClass(g.held.value.status, "").Some? ==>
      Recorded(g.past, GatewayClass(g.held.value.status, "").value, g.held.value.began)
  }

  ghost predicate OutstandingIsKept(g: Gateway) {
    Outstanding(g.past) ==> g.held.Some? || (g.memory.Some? && !g.memory.value.Up?)
  }

  /** What is held was recorded and not cleared, an outstanding outage is held or reported, and the spell on record
      is the one its alerts began. */
  ghost predicate Attentive(g: Gateway, grace: real) {
    HeldIsRecorded(g) && OutstandingIsKept(g) && g.since == SpellStart(g.past) && AllOwed(g.past, grace)
  }

  /** What one more happening does to the four parts of `Attentive`. */
  lemma AttentiveAfter(g: Gateway, after: Gateway, more: Happening, grace: real)
    requires Attentive(g, grace) && after.past == g.past + [more]
    requires more.Sent? && more.alert.Outage? && more.alert.swept ==> IsRipe(g.past, more.alert, grace)
    requires more.Sent? && more.alert.Recovery? ==> EndsSpell(g.past, more.alert)
    requires after.since == SpellNext(g.since, more)
    requires after.held.Some? ==> !Clears(more) && (after.held == g.held || HeldBy(after.held.value, more))
    requires !Clears(more) && (more.Saw? || g.held.Some? || (g.memory.Some? && !g.memory.value.Up?)) ==>
      after.held.Some? || (after.memory.Some? && !after.memory.value.Up?)
    ensures Attentive(after, grace)
  {
    hide GatewayClass, Recorded, Outstanding, SpellStart, Lasted, IsRipe, EndsSpell, AllOwed;
    SpellStartAfter(g.past, more);
    OutstandingAfter(g.past, more);
    assert after.past[..|g.past|] == g.past;
    AllOwedAfter(g.past, more, grace);
    if after.held.Some? && GatewayClass(after.held.value.status, "").Some? {
      RecordedAfter(g.past, more, GatewayClass(after.held.value.status, "").value, after.held.value.began);
    }
  }

  predicate HeldBy(held: Held, more: Happening) {
    more.Saw? && held.began == more.at && GatewayClass(held.status, "") == Some(more.kind)
  }

  lemma AttentiveChange(g: Gateway, grace: real, status: string, phase: string, at: real)
    requires Consistent(g) && Attentive(g, grace)
    ensures Attentive(Changed(g, status, phase, at), grace)
  {
    if GatewayClass(status, phase).Some? {
      var kind := GatewayClass(status, phase).value;
      if kind.Down? || kind.Degraded? {
        HeldClass(status, phase);
      }
      hide GatewayClass, IsUrgent, Attentive, Changed;
      if kind.Up? {
        AttentiveUp(g, grace, status, phase, at);
      } else {
        AttentiveOutage(g, grace, status, phase, kind, at);
      }
    }
  }

  lemma AttentiveUp(g: Gateway, grace: real, status: string, phase: string, at: real)
    requires Attentive(g, grace) && GatewayClass(status, phase) == Some(Up)
    ensures Attentive(Changed(g, status, phase, at), grace)
  {
    hide GatewayClass, IsUrgent, Attentive, SpellStart;
    var seen, after := Seen(g, Up, at), Changed(g, status, phase, at);
    var between := after.(past := seen.past, since := g.since);
    AttentiveAfter(g, between, Saw(Up, at), grace);
    SpellKnown(between, grace);
    if |after.past| > |seen.past| {
      AttentiveAfter(between, after, after.past[|seen.past|], grace);
    }
  }

  lemma AttentiveOutage(g: Gateway, grace: real, status: string, phase: string, kind: Kind, at: real)
    requires Attentive(g, grace) && GatewayClass(status, phase) == Some(kind) && !kind.Up?
    requires !kind.Attention? ==> GatewayClass(status, "") == Some(kind)
    ensures Attentive(Changed(g, status, phase, at), grace)
  {
    hide GatewayClass, IsUrgent, Attentive, SpellStart, EndsSpell, Lasted;
    var seen, after := Seen(g, kind, at), Changed(g, status, phase, at);
    if |after.past| == |seen.past| {
      AttentiveAfter(g, after, Saw(kind, at), grace);
    } else {
      var between := after.(past := seen.past, since := g.since);
      AttentiveAfter(g, between, Saw(kind, at), grace);
      SpellKnown(between, grace);
      AttentiveAfter(between, after, after.past[|seen.past|], grace);
    }
  }

  lemma SpellKnown(g: Gateway, grace: real)
    requires Attentive(g, grace)
    ensures g.since == SpellStart(g.past)
  {
  }

  lemma AttentiveSweep(g: Gateway, grace: real, at: real)
    requires Consistent(g) && Attentive(g, grace)
    ensures Attentive(Swept(g, grace, at), grace)
  {
    hide GatewayClass, IsUrgent, SpellStart, Lasted, Recorded, Outstanding, AllOwed;
    var after := Swept(g, grace, at);
    if |after.past| > |g.past| {
      AttentiveAfter(g, after, after.past[|g.past|], grace);
    }
  }

  lemma AttentiveRestart(g: Gateway, grace: real)
    requires Attentive(g, grace)
    ensures Attentive(Forgotten(g), grace)
  {
    hide Attentive;
    AttentiveAfter(g, Forgotten(g), Restarted, grace);
  }

  // ---- The grace period runs from the first status of an outage ----

  /** When the first non-up status came that nothing has cleared since. */
  function OutageStart(past: seq<Happening>): Option<real> {
    if past == [] then None else StartNext(OutageStart(past[..|past| - 1]), past[|past| - 1])
  }

  function StartNext(start: Option<real>, next: Happening): Option<real> {
    if Clears(next) then None else if next.Saw? then FirstOf(start, next.at) else start
  }

  lemma OutageStartAfter(past: seq<Happening>, more: Happening)
    ensures OutageStart(past + [more]) == StartNext(OutageStart(past), more)
  {
    assert (past + [more])[..|past|] == past;
  }

  /** Status `j` is non-up, nothing has cleared it, and nothing before it is so. */
  ghost predicate IsFirstOutstanding(past: seq<Happening>, j: nat) {
    && j < |past| && past[j].Saw? && !past[j].kind.Up? && UnclearedAfter(past, j)
    && forall i: nat :: i < j && past[i].Saw? && !past[i].kind.Up? ==> !UnclearedAfter(past, i)
  }

  lemma {:induction false} OutageStartIsFirst(past: seq<Happening>)
    ensures OutageStart(past).None? ==> !Outstanding(past)
    ensures OutageStart(past).Some? ==> Outstanding(past)
    ensures forall j: nat :: IsFirstOutstanding(past, j) ==> OutageStart(past) == Some(past[j].at)
  {
    if past != [] {
      var before, last := past[..|past| - 1], past[|past| - 1];
      OutageStartIsFirst(before);
      assert past == before + [last];
      OutstandingAfter(before, last);
      if OutageStart(past).Some? {
        StillOutstanding(before, last);
      }
      forall j: nat | IsFirstOutstanding(past, j)
        ensures OutageStart(past) == Some(past[j].at)
      {
        FirstOutstandingBefore(before, last, j);
      }
    }
  }

  lemma StillOutstanding(past: seq<Happening>, more: Happening)
    requires !Clears(more) && (Outstanding(past) || more.Saw?)
    ensures Outstanding(past + [more])
  {
    if j: nat :| j < |past| && past[j].Saw? && !past[j].kind.Up? && UnclearedAfter(past, j) {
      assert (past + [more])[j] == past[j] && UnclearedAfter(past + [more], j);
    } else {
      assert (past + [more])[|past|] == more && UnclearedAfter(past + [more], |past|);
    }
  }

  lemma FirstOutstandingBefore(past: seq<Happening>, more: Happening, j: nat)
    requires IsFirstOutstanding(past + [more], j)
    ensures !Clears(more)
    ensures if j < |past| then IsFirstOutstanding(past, j) else more.Saw? && !Outstanding(past)
  {
    var longer := past + [more];
    assert !Clears(more) by {
      assert j < |past| ==> longer[|past|] == more;
    }
    forall i: nat | i < |past|
      ensures longer[i] == past[i] && (UnclearedAfter(longer, i) <==> UnclearedAfter(past, i))
    {
      assert forall m :: i < m < |past| ==> longer[m] == past[m];
    }
  }

  /** While nothing but an up status was reported, what is held dates from the start of the outage. */
  ghost predicate HeldFromStart(g: Gateway) {
    g.held.Some? && (g.memory.None? || g.memory.value.Up?) ==> OutageStart(g.past) == Some(g.held.value.began)
  }

  lemma HeldFromStartStep(g: Gateway, grace: real, step: Step)
    requires Consistent(g) && OutstandingIsKept(g) && HeldFromStart(g)
    ensures HeldFromStart(Next(g, grace, step))
  {
    hide GatewayClass, IsUrgent, Lasted, OutageStart, Outstanding;
    OutageStartIsFirst(g.past);
    match step
    case Change(status, phase, at) =>
      if GatewayClass(status, phase).Some? {
        OutageStartAfter(g.past, Saw(GatewayClass(status, phase).value, at));
      }
    case Sweep(at) =>
    case Restart =>
  }

  /** What every step keeps about one gateway. */
  ghost predicate Sound(g: Gateway, grace: real) {
    Consistent(g) && Faithful(g) && Attentive(g, grace) && HeldFromStart(g)
  }

  lemma SoundUnknown(grace: real)
    ensures Sound(Unknown, grace)
  {
  }

  lemma KeptOutstanding(g: Gateway, grace: real)
    requires Attentive(g, grace)
    ensures OutstandingIsKept(g)
  {
  }

  lemma SoundStep(g: Gateway, grace: real, step: Step)
    requires Sound(g, grace)
    ensures Sound(Next(g, grace, step), grace)
  {
    KeptOutstanding(g, grace);
    hide Attentive, Consistent, Faithful, HeldFromStart, OutstandingIsKept, Changed, Swept, Forgotten;
    HeldFromStartStep(g, grace, step);
    ConsistentStep(g, grace, step);
    FaithfulStep(g, grace, step);
    match step
    case Change(status, phase, at) => AttentiveChange(g, grace, status, phase, at);
    case Sweep(at) => AttentiveSweep(g, grace, at);
    case Restart => AttentiveRestart(g, grace);
  }

  lemma {:induction false} RunsAreSound(grace: real, steps: seq<Step>)
    ensures Sound(Run(grace, steps), grace)
  {
    hide Sound, Next;
    if steps == [] {
      SoundUnknown(grace);
    } else {
      RunsAreSound(grace, steps[..|steps| - 1]);
      SoundStep(Run(grace, steps[..|steps| - 1]), grace, steps[|steps| - 1]);
    }
  }

  /** Over any run, restarts included, no two consecutive alerts about a gateway are of the same kind, and a recovery
      is only ever delivered right after an outage alert. */
  lemma NoAlertRepeats(grace: real, steps: seq<Step>)
    ensures NeverRepeats(Alerts(Run(grace, steps).past))
  {
    RunsAreSound(grace, steps);
  }

  /** Over any run, an alert that waited out the grace period did wait that long, for a status that nothing cleared
      meanwhile, neither an up status nor a restart; and every recovery reports the time from the first alert of its
      spell to the up status it follows. */
  lemma DeliveredAlertsAreDue(grace: real, steps: seq<Step>, i: nat)
    requires i < |Run(grace, steps).past| && Run(grace, steps).past[i].Sent?
    ensures
      var past := Run(grace, steps).past;
      && (past[i].alert.Outage? && past[i].alert.swept ==> IsRipe(past[..i], past[i].alert, grace))
      && (past[i].alert.Recovery? ==> EndsSpell(past[..i], past[i].alert))
  {
    hide Run;
    RunsAreSound(grace, steps);
    assert Owed(Run(grace, steps).past, i, grace);
  }

  /** Between restarts, an outage nothing has cleared is held or was reported, and once the grace period has passed
      since its first status, however often it was repeated meanwhile, a sweep leaves it reported: the last alert
      delivered is not a recovery. */
  lemma NoOutageIsLost(grace: real, steps: seq<Step>, first: nat, at: real)
    requires IsFirstOutstanding(Run(grace, steps).past, first)
    ensures Run(grace, steps).held.Some? || !LastKind(Alerts(Run(grace, steps).past)).Up?
    ensures at - Run(grace, steps).past[first].at >= grace ==>
      !LastKind(Alerts(Run(grace, steps + [Sweep(at)]).past)).Up?
  {
    RunsAreSound(grace, steps);
    RunsAreSound(grace, steps + [Sweep(at)]);
    assert (steps + [Sweep(at)])[..|steps|] == steps;
    var g, swept := Run(grace, steps), Run(grace, steps + [Sweep(at)]);
    assert swept == Swept(g, grace, at);
    assert Outstanding(g.past);
    OutageStartIsFirst(g.past);
    hide Run, GatewayClass, Alerts, NeverRepeats, SpellStart, AllOwed, OutageStart, HeldIsRecorded;
  }

  /** Every outage that nothing has cleared has a first status. */
  lemma OutageHasFirst(past: seq<Happening>) returns (first: nat)
    requires Outstanding(past)
    ensures IsFirstOutstanding(past, first)
  {
    first :| first < |past| && past[first].Saw? && !past[first].kind.Up? && UnclearedAfter(past, first);
    while exists i: nat :: i < first && past[i].Saw? && !past[i].kind.Up? && UnclearedAfter(past, i)
      invariant first < |past| && past[first].Saw? && !past[first].kind.Up? && UnclearedAfter(past, first)
      decreases first
    {
      var i: nat :| i < first && past[i].Saw? && !past[i].kind.Up? && UnclearedAfter(past, i);
      first := i;
    }
  }

  // ---- When a swept alert is out of date ----

  function Sweeps(g: Gateway, grace: real, times: seq<real>): Gateway {
    if times == [] then g else Swept(Sweeps(g, grace, times[..|times| - 1]), grace, times[|times| - 1])
  }

  /** Sweeps that deliver nothing leave the gateway as it was or with nothing held. */
  lemma {:induction false} IdleSweeps(g: Gateway, grace: real, times: seq<real>)
    requires Consistent(g) && Sweeps(g, grace, times).past == g.past
    ensures Sweeps(g, grace, times) in {g, g.(held := None)}
  {
    if times != [] {
      var before := Sweeps(g, grace, times[..|times| - 1]);
      SweepsExtendPast(g, grace, times[..|times| - 1]);
      hide GatewayClass;
      assert |before.past| <= |Swept(before, grace, times[|times| - 1]).past|;
      IdleSweeps(g, grace, times[..|times| - 1]);
    }
  }

  lemma {:induction false} SweepsExtendPast(g: Gateway, grace: real, times: seq<real>)
    ensures g.past <= Sweeps(g, grace, times).past
  {
    if times != [] {
      SweepsExtendPast(g, grace, times[..|times| - 1]);
    }
  }

  /** The alert that a sweep delivers after the latest status, and after any sweeps that delivered nothing, names
      another class than that status exactly when the status found its own class already reported, or found
      another class held. */
  lemma SweptStatusIsStaleExactly(g: Gateway, grace: real, status: string, phase: string, seen: real,
                                  idle: seq<real>, at: real)
    requires Sound(g, grace) && GatewayClass(status, phase).Some?
    requires
      var after := Changed(g, status, phase, seen);
      Sweeps(after, grace, idle).past == after.past
    requires
      var before := Sweeps(Changed(g, status, phase, seen), grace, idle);
      |Swept(before, grace, at).past| > |before.past|
    ensures
      var kind, before := GatewayClass(status, phase).value, Sweeps(Changed(g, status, phase, seen), grace, idle);
      && Swept(before, grace, at).past[|before.past|].Sent?
      && (KindOf(Swept(before, grace, at).past[|before.past|].alert) != kind <==>
            || Seen(g, kind, seen).memory == Some(kind)
            || (g.held.Some? && GatewayClass(g.held.value.status, "") != Some(kind)))
  {
    var kind, after := GatewayClass(status, phase).value, Changed(g, status, phase, seen);
    if kind.Down? || kind.Degraded? {
      HeldClass(status, phase);
    }
    ConsistentStep(g, grace, Change(status, phase, seen));
    hide GatewayClass, IsUrgent, Faithful, Attentive, HeldFromStart, Lasted;
    IdleSweeps(after, grace, idle);
  }

  /** The status a sweep reports need not be the latest one: a degraded gateway that was reported so, dropped and
      came back degraded is reported as disconnected once the grace period ends, whatever its length. */
  lemma SweptStatusCanBeStale(grace: real)
    requires grace >= 0.0
    ensures
      var steps := [Change("DEGRADED", "", 0.0), Sweep(grace), Change("DISCONNECTED", "", grace),
        Change("DEGRADED", "", grace), Sweep(grace + grace)];
      var past := Run(grace, steps).past;
      && |past| >= 2 && past[|past| - 2] == Saw(Degraded, grace)
      && past[|past| - 1] == Sent(Outage(Down, grace, true, grace + grace))
  {
    var steps := [Change("DEGRADED", "", 0.0), Sweep(grace), Change("DISCONNECTED", "", grace),
      Change("DEGRADED", "", grace), Sweep(grace + grace)];
    assert steps[..4][..3] == steps[..3] && steps[..3][..2] == steps[..2] && steps[..2][..1] == steps[..1];
    assert steps[..1][..0] == [];
    assert Run(grace, steps[..1]).held == Some(Held("DEGRADED", 0.0));
    assert Run(grace, steps[..2]).memory == Some(Degraded);
    assert Run(grace, steps[..3]).held == Some(Held("DISCONNECTED", grace));
    assert Run(grace, steps[..4]).held == Some(Held("DISCONNECTED", grace));
  }

  // ---- What each status and login phase leads to ----

  /** The login phases that call for someone's attention. */
  predicate IsLoginTrouble(phase: string) {
    phase == "two_factor" || phase == "two_factor_expired" || phase == "two_factor_device_required" || phase == "auth_failed"
  }

  lemma ClassOfStatus(status: string, phase: string)
    ensures GatewayClass(status, phase) ==
      if IsLoginTrouble(phase) || status == "TWO_FACTOR_PENDING" then Some(Attention)
      else if status == "FAILED" || status == "DISCONNECTED" || status == "RECONNECTING" || status == "CONNECTING" then Some(Down)
      else if status == "CONNECTED" then Some(Up)
      else if status == "DEGRADED" then Some(Degraded)
      else None
    ensures IsUrgent(status) <==> status == "FAILED" || status == "TWO_FACTOR_PENDING"
  {
  }

  /** After any run: a failed gateway, one that waits for two-factor approval and a troubled login are the last alert
      delivered at once; a gateway that dropped, is connecting or is degraded is held or was reported as not up; a
      connected one has nothing held and its last alert, if any, is a recovery; any other status changes nothing. */
  lemma EveryStatusIsAnswered(grace: real, steps: seq<Step>, status: string, phase: string, at: real)
    ensures
      var before, after := Run(grace, steps), Run(grace, steps + [Change(status, phase, at)]);
      var last := LastKind(Alerts(after.past));
      if IsLoginTrouble(phase) || status == "TWO_FACTOR_PENDING" then last == Attention
      else if status == "FAILED" then last == Down
      else if status == "CONNECTED" then last == Up && after.held.None?
      else if status == "DISCONNECTED" || status == "RECONNECTING" || status == "CONNECTING" || status == "DEGRADED" then
        after.held.Some? || last != Up
      else after == before
  {
    var run := steps + [Change(status, phase, at)];
    assert run[..|steps|] == steps;
    RunsAreSound(grace, run);
    ClassOfStatus(status, phase);
    var g, after := Run(grace, steps), Run(grace, run);
    assert after == Changed(g, status, phase, at);
    hide Run, Attentive, HeldFromStart, NeverRepeats, Alerts, LastKind, Lasted, GatewayClass, IsUrgent, Changed;
    ChangedMeans(g, status, phase, at);
  }

  /** What a change leaves in memory and held, by its class. */
  lemma ChangedMeans(g: Gateway, status: string, phase: string, at: real)
    ensures
      var kind, after := GatewayClass(status, phase), Changed(g, status, phase, at);
      if kind.None? then after == g
      else if kind.value.Up? then after.memory == kind && after.held.None?
      else if IsUrgent(status) || kind.value.Attention? then after.memory == kind
      else after.held.Some? || after.memory == kind
  {
    hide GatewayClass, IsUrgent, Lasted;
  }

  /** After any run, an outage of a gateway last seen up is reported as what it is: a status that finds nothing held
      and no outage reported, and stays alone until the grace period has passed, is swept as degraded if it was
      degraded, and as down if the gateway dropped or is connecting. */
  lemma SweptNamesTheStatus(grace: real, steps: seq<Step>, status: string, phase: string, seen: real, at: real)
    requires Run(grace, steps).held.None? && LastKind(Alerts(Run(grace, steps).past)) == Up
    requires !IsLoginTrouble(phase) && at - seen >= grace
    requires status == "DISCONNECTED" || status == "RECONNECTING" || status == "CONNECTING" || status == "DEGRADED"
    ensures
      var past := Run(grace, steps + [Change(status, phase, seen), Sweep(at)]).past;
      past == Run(grace, steps).past + [Saw(if status == "DEGRADED" then Degraded else Down, seen),
        Sent(Outage(if status == "DEGRADED" then Degraded else Down, seen, true, at))]
  {
    var change, sweep := [Change(status, phase, seen)], [Change(status, phase, seen), Sweep(at)];
    assert (steps + sweep)[..|steps| + 1] == steps + change && (steps + change)[..|steps|] == steps;
    RunsAreSound(grace, steps);
    ClassOfStatus(status, phase);
    var g, kind := Run(grace, steps), if status == "DEGRADED" then Degraded else Down;
    assert Run(grace, steps + sweep) == Swept(Changed(g, status, phase, seen), grace, at);
    hide Run, Attentive, HeldFromStart, NeverRepeats, Alerts, LastKind, GatewayClass, IsUrgent, Changed, Swept;
    FreshOutageIsSwept(g, grace, status, phase, kind, seen, at);
  }

  lemma FreshOutageIsSwept(g: Gateway, grace: real, status: string, phase: string, kind: Kind, seen: real, at: real)
    requires Consistent(g) && g.held.None? && (g.mirror.None? || g.mirror.value.Up?)
    requires GatewayClass(status, phase) == Some(kind) && (kind.Down? || kind.Degraded?) && !IsUrgent(status)
    requires at - seen >= grace
    ensures Swept(Changed(g, status, phase, seen), grace, at).past ==
      g.past + [Saw(kind, seen), Sent(Outage(kind, seen, true, at))]
  {
    HeldClass(status, phase);
    hide GatewayClass, IsUrgent, Lasted;
    var after := Changed(g, status, phase, seen);
    assert after.past == g.past + [Saw(kind, seen)] && after.held == Some(Held(status, seen));
  }
}
