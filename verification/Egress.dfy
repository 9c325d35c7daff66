/**
 The value model of the egress pool (internal/egress): health scores, circuit breakers,
 identity records, and what each manager operation does to them.

 Times are integers in nanoseconds; 0 is the zero time. Health scores are exact reals.
 */
module Egress {
  import opened Common

  const DAY: int := 24 * 60 * 60 * 1_000_000_000

  // ---------------------------------------------------------------- health.go

  datatype Health = Health(score: real, samples: nat)

  function Observed(h: Health, good: bool, alpha: real): Health {
    Health(h.score * (1.0 - alpha) + (if good then 1.0 else 0.0) * alpha, h.samples + 1)
  }

  datatype BreakerState = Closed | Open | HalfOpen

  datatype Circuit = Circuit(state: BreakerState, failures: nat, openUntil: int)

  const NewCircuit := Circuit(Closed, 0, 0)
  const NewHealth := Health(1.0, 0)

  predicate Allows(c: Circuit, now: int) {
    c.state == Open ==> now > c.openUntil
  }

  /** Asking a breaker whose cool-down is over moves it to half-open. */
  function Asked(c: Circuit, now: int): Circuit {
    if c.state == Open && now > c.openUntil then c.(state := HalfOpen) else c
  }

  function Succeeded(c: Circuit): Circuit {
    c.(state := Closed, failures := 0)
  }

  function Failed(c: Circuit, now: int, threshold: int, cooldown: int): Circuit {
    if c.state == HalfOpen || c.failures + 1 >= threshold then
      Circuit(Open, c.failures + 1, now + cooldown)
    else
      c.(failures := c.failures + 1)
  }

  // ---------------------------------------------------------------- records

  datatype State = Warming | Active | Quarantined | Disabled

  datatype Spec = Spec(id: string, helo: string, mailFrom: string, warmUp: bool)

  datatype Record = Record(
    spec: Spec,
    state: State,
    warmupStage: nat,
    usedToday: nat,
    lastReset: int,
    online: bool,
    blockStreak: nat,
    quarantinedUntil: int,
    reason: string,
    health: map<string, Health>,
    circuits: map<string, Circuit>)

  datatype Config = Config(
    alpha: real,
    circuitThreshold: int,
    circuitCooldown: int,
    quarantineThreshold: int,
    quarantineCooldown: int,
    stages: seq<int>,
    activeDailyCap: int)
  {
    predicate Valid() {
      && 0.0 < alpha <= 1.0
      && circuitThreshold > 0 && circuitCooldown > 0
      && quarantineThreshold > 0 && quarantineCooldown > 0
      && |stages| > 0
    }
  }

  const MINUTE: int := 60 * 1_000_000_000

  /** Settings out of range fall back to the built-in defaults. */
  function Defaulted(raw: Config): (cfg: Config)
    ensures cfg.Valid() && (raw.Valid() ==> cfg == raw)
  {
    Config(
      if raw.alpha <= 0.0 || raw.alpha > 1.0 then 0.3 else raw.alpha,
      if raw.circuitThreshold <= 0 then 3 else raw.circuitThreshold,
      if raw.circuitCooldown <= 0 then 15 * MINUTE else raw.circuitCooldown,
      if raw.quarantineThreshold <= 0 then 5 else raw.quarantineThreshold,
      if raw.quarantineCooldown <= 0 then 60 * MINUTE else raw.quarantineCooldown,
      if |raw.stages| == 0 then [50, 200, 1000, 5000] else raw.stages,
      raw.activeDailyCap)
  }

  datatype Kind = Accepted | MailboxGone | TempFail | Blocked | ConnRefused | Timeout | OtherKind

  datatype Signal = Signal(kind: Kind, egressId: string, destination: string)

  predicate Clean(k: Kind) {
    k == Accepted || k == MailboxGone
  }

  predicate Failure(k: Kind) {
    k == Blocked || k == ConnRefused || k == Timeout
  }

  function NewRecord(spec: Spec, now: int): Record {
    Record(spec, if spec.warmUp then Warming else Active, 0, 0, now, true, 0, 0, "", map[], map[])
  }

  function HealthOf(r: Record, dest: string): Health {
    if dest in r.health then r.health[dest] else NewHealth
  }

  function CircuitOf(r: Record, dest: string): Circuit {
    if dest in r.circuits then r.circuits[dest] else NewCircuit
  }

  function Score(r: Record, dest: string): real {
    HealthOf(r, dest).score
  }

  predicate Withdrawn(r: Record) {
    r.state == Disabled || r.state == Quarantined
  }

  function CapFor(cfg: Config, r: Record): int
    requires cfg.Valid()
  {
    if r.state == Warming then
      cfg.stages[if r.warmupStage >= |cfg.stages| then |cfg.stages| - 1 else r.warmupStage]
    else cfg.activeDailyCap
  }

  predicate UnderCap(cfg: Config, r: Record)
    requires cfg.Valid()
  {
    CapFor(cfg, r) > 0 ==> r.usedToday < CapFor(cfg, r)
  }

  predicate Eligible(cfg: Config, r: Record, dest: string, now: int)
    requires cfg.Valid()
  {
    !Withdrawn(r) && r.online && Allows(CircuitOf(r, dest), now) && UnderCap(cfg, r)
  }

  /** The record after the routing scan looked at it: its breaker for `dest` may be half-open now. */
  function LookedAt(r: Record, dest: string, now: int): Record {
    if !Withdrawn(r) && r.online && dest in r.circuits
    then r.(circuits := r.circuits[dest := Asked(r.circuits[dest], now)])
    else r
  }

  // ---------------------------------------------------------------- feedback

  function WithHealth(r: Record, dest: string, good: bool, alpha: real): Record {
    r.(health := r.health[dest := Observed(HealthOf(r, dest), good, alpha)])
  }

  function WithCircuit(r: Record, dest: string, c: Circuit): Record {
    r.(circuits := r.circuits[dest := c])
  }

  function Quarantining(cfg: Config, r: Record, now: int): Record {
    r.(state := Quarantined, quarantinedUntil := now + cfg.quarantineCooldown)
  }

  /** One feedback signal applied to the record of the identity it names. */
  function Signalled(cfg: Config, r: Record, s: Signal, now: int): Record {
    var d := s.destination;
    match s.kind
    case Accepted | MailboxGone =>
      WithCircuit(WithHealth(r, d, true, cfg.alpha), d, Succeeded(CircuitOf(r, d))).(blockStreak := 0)
    case TempFail =>
      WithHealth(r, d, false, cfg.alpha * 0.5)
    case Blocked =>
      var r1 := WithCircuit(WithHealth(r, d, false, cfg.alpha), d,
                            Failed(CircuitOf(r, d), now, cfg.circuitThreshold, cfg.circuitCooldown));
      var r2 := r1.(blockStreak := r1.blockStreak + 1);
      if r2.blockStreak >= cfg.quarantineThreshold then Quarantining(cfg, r2, now) else r2
    case ConnRefused | Timeout =>
      WithCircuit(WithHealth(r, d, false, cfg.alpha * 0.5), d,
                  Failed(CircuitOf(r, d), now, cfg.circuitThreshold, cfg.circuitCooldown))
    case OtherKind => r
  }

  // ---------------------------------------------------------------- reconciling

  function Recovered(r: Record, now: int): Record {
    if r.state == Quarantined && now > r.quarantinedUntil
    then r.(state := Warming, warmupStage := 0, blockStreak := 0)
    else r
  }

  function DayReset(cfg: Config, r: Record): Record {
    var r1 := r.(usedToday := 0, lastReset := r.lastReset + DAY);
    if r.state == Warming then
      r1.(warmupStage := r.warmupStage + 1,
          state := if r.warmupStage + 1 >= |cfg.stages| then Active else Warming)
    else r1
  }

  /** The daily-reset loop, one day at a time. */
  function DayResets(cfg: Config, r: Record, now: int): Record
    decreases now - r.lastReset
  {
    if now - r.lastReset >= DAY then DayResets(cfg, DayReset(cfg, r), now) else r
  }

  function Reconciled(cfg: Config, r: Record, now: int): Record {
    DayResets(cfg, Recovered(r, now), now)
  }

  // ---------------------------------------------------------------- administration

  function Enabled(r: Record): Record {
    r.(state := Warming, warmupStage := 0, blockStreak := 0, reason := "")
  }

  function Disabling(r: Record, reason: string): Record {
    r.(state := Disabled, reason := reason)
  }

  // ---------------------------------------------------------------- persistence

  datatype Saved = Saved(
    id: string,
    state: State,
    warmupStage: nat,
    usedToday: nat,
    lastReset: int,
    blockStreak: nat,
    quarantinedUntil: int,
    reason: string,
    health: map<string, real>)

  function SavedRecord(id: string, r: Record): Saved {
    Saved(id, r.state, r.warmupStage, r.usedToday, r.lastReset, r.blockStreak, r.quarantinedUntil, r.reason,
          map d | d in r.health :: r.health[d].score)
  }

  function Restored(r: Record, s: Saved): Record {
    r.(state := s.state,
       warmupStage := s.warmupStage,
       usedToday := s.usedToday,
       blockStreak := s.blockStreak,
       quarantinedUntil := s.quarantinedUntil,
       reason := s.reason,
       lastReset := if s.lastReset != 0 then s.lastReset else r.lastReset,
       health := r.health + map d | d in s.health :: Health(s.health[d], 0))
  }

  // ---------------------------------------------------------------- the pool

  type Records = map<string, Record>

  datatype World = World(cfg: Config, order: seq<string>, recs: Records) {
    /** The identities of `order` are the ones that have a record. */
    ghost predicate Valid() {
      cfg.Valid() && forall id :: id in order <==> id in recs
    }
  }

  ghost predicate Covers(recs: Records, order: seq<string>) {
    forall id :: id in order ==> id in recs
  }

  function ReconcileAll(cfg: Config, order: seq<string>, recs: Records, now: int): (rs: Records)
    requires Covers(recs, order)
    ensures rs.Keys == recs.Keys
  {
    if order == [] then recs
    else
      var n := |order| - 1;
      var rest := ReconcileAll(cfg, order[..n], recs, now);
      rest[order[n] := Reconciled(cfg, rest[order[n]], now)]
  }

  /** Whether `r` beats the best record found so far. */
  predicate Better(r: Record, best: Record, dest: string) {
    Score(r, dest) > Score(best, dest) || (Score(r, dest) == Score(best, dest) && r.usedToday < best.usedToday)
  }

  /** The routing scan over a prefix of the order: the records it leaves and the best identity so far. */
  function Scan(cfg: Config, order: seq<string>, recs: Records, dest: string, now: int): (x: (Records, Option<string>))
    requires cfg.Valid() && Covers(recs, order)
    ensures x.0.Keys == recs.Keys
    ensures x.1.Some? ==> x.1.value in order
  {
    if order == [] then (recs, None)
    else
      var n := |order| - 1;
      var (rs, best) := Scan(cfg, order[..n], recs, dest, now);
      ScanOne(cfg, rs, best, order[n], dest, now)
  }

  /** One step of the scan. */
  function ScanOne(cfg: Config, recs: Records, best: Option<string>, id: string, dest: string, now: int)
    : (Records, Option<string>)
    requires cfg.Valid() && id in recs && (best.Some? ==> best.value in recs)
  {
    var r := recs[id];
    var chosen := Eligible(cfg, r, dest, now) && (best.None? || Better(r, recs[best.value], dest));
    (recs[id := LookedAt(r, dest, now)], if chosen then Some(id) else best)
  }

  /** Binding: reconcile, scan, and charge the chosen identity. */
  function Bind(w: World, dest: string, now: int): (World, Option<string>)
    requires w.Valid()
  {
    var (rs, best) := Scan(w.cfg, w.order, ReconcileAll(w.cfg, w.order, w.recs, now), dest, now);
    (w.(recs := Charged(rs, best)), best)
  }

  function Charged(recs: Records, best: Option<string>): Records
    requires best.Some? ==> best.value in recs
  {
    if best.None? then recs
    else recs[best.value := recs[best.value].(usedToday := recs[best.value].usedToday + 1)]
  }

  function EmitAll(cfg: Config, recs: Records, signals: seq<Signal>, now: int): (rs: Records)
    ensures rs.Keys == recs.Keys
  {
    if signals == [] then recs
    else
      var n := |signals| - 1;
      var rest := EmitAll(cfg, recs, signals[..n], now);
      var id := signals[n].egressId;
      if id in rest then rest[id := Signalled(cfg, rest[id], signals[n], now)] else rest
  }

  function RestoreAll(recs: Records, states: seq<Saved>): (rs: Records)
    ensures rs.Keys == recs.Keys
  {
    if states == [] then recs
    else
      var n := |states| - 1;
      var rest := RestoreAll(recs, states[..n]);
      var id := states[n].id;
      if id in rest then rest[id := Restored(rest[id], states[n])] else rest
  }

  function Snapshot(order: seq<string>, recs: Records): seq<Saved>
    requires Covers(recs, order)
  {
    if order == [] then []
    else Snapshot(order[..|order| - 1], recs) + [SavedRecord(order[|order| - 1], recs[order[|order| - 1]])]
  }

  function AddAll(recs: Records, specs: seq<Spec>, now: int): Records {
    if specs == [] then recs
    else
      var n := |specs| - 1;
      AddAll(recs, specs[..n], now)[specs[n].id := NewRecord(specs[n], now)]
  }

  /** The pool built by New. */
  function Fresh(cfg: Config, specs: seq<Spec>, now: int): World {
    World(cfg, seq(|specs|, i requires 0 <= i < |specs| => specs[i].id), AddAll(map[], specs, now))
  }

  function Added(w: World, spec: Spec, now: int): World {
    if spec.id in w.recs then w.(recs := w.recs[spec.id := w.recs[spec.id].(spec := spec)])
    else w.(order := w.order + [spec.id], recs := w.recs[spec.id := NewRecord(spec, now)])
  }

  /** The reputation key of a task: a known provider class, otherwise the domain. */
  function DestOf(provider: string, domain: string): string {
    if provider != "" && provider != "custom" then provider else domain
  }

  // ---------------------------------------------------------------- runs

  datatype Event =
    | Binding(dest: string, now: int)
    | Emit(signals: seq<Signal>, now: int)
    | Enable(id: string)
    | Disable(id: string, reason: string)
    | Quarantine(id: string, reason: string, now: int)
    | Restore(states: seq<Saved>)
    | SetOnline(id: string, online: bool)
    | AddIdentity(spec: Spec, now: int)
    | SetThresholds(quarantine: int, circuit: int)

  predicate Timed(e: Event) {
    e.Binding? || e.Emit? || e.Quarantine? || e.AddIdentity?
  }

  function Step(w: World, e: Event): (w': World)
    requires w.Valid()
    ensures w'.Valid() && w.recs.Keys <= w'.recs.Keys
  {
    match e
    case Binding(dest, now) => Bind(w, dest, now).0
    case Emit(signals, now) => w.(recs := EmitAll(w.cfg, w.recs, signals, now))
    case Enable(id) => if id in w.recs then w.(recs := w.recs[id := Enabled(w.recs[id])]) else w
    case Disable(id, reason) => if id in w.recs then w.(recs := w.recs[id := Disabling(w.recs[id], reason)]) else w
    case Quarantine(id, reason, now) =>
      if id in w.recs
      then w.(recs := w.recs[id := Quarantining(w.cfg, w.recs[id], now).(reason := reason)]) else w
    case Restore(states) => w.(recs := RestoreAll(w.recs, states))
    case SetOnline(id, online) =>
      if id in w.recs then w.(recs := w.recs[id := w.recs[id].(online := online)]) else w
    case AddIdentity(spec, now) => Added(w, spec, now)
    case SetThresholds(q, c) =>
      w.(cfg := w.cfg.(quarantineThreshold := if q > 0 then q else w.cfg.quarantineThreshold,
                       circuitThreshold := if c > 0 then c else w.cfg.circuitThreshold))
  }

  /** The identity an event hands out, if it is a successful Binding. */
  function Handed(w: World, e: Event): Option<string>
    requires w.Valid()
  {
    if e.Binding? then Bind(w, e.dest, e.now).1 else None
  }
}
