/**
 The egress manager as it is written: records are objects whose fields are overwritten in place,
 and so are the scores and breakers they hold per destination, as entries of maps that the methods
 reassign. Every operation is proved to do to them what the value model in module Egress says.
 */
module EgressManager {
  import opened Common
  import E = Egress

  class Record {
    const id: string
    var spec: E.Spec
    var state: E.State
    var warmupStage: nat
    var usedToday: nat
    var lastReset: int
    var online: bool
    var blockStreak: nat
    var quarantinedUntil: int
    var reason: string
    var health: map<string, E.Health>
    var circuits: map<string, E.Circuit>

    ghost function View(): E.Record
      reads this
    {
      E.Record(spec, state, warmupStage, usedToday, lastReset, online, blockStreak, quarantinedUntil, reason,
               health, circuits)
    }

    constructor (spec: E.Spec, now: int)
      ensures View() == E.NewRecord(spec, now) && id == spec.id
    {
      this.id, this.spec := spec.id, spec;
      state := if spec.warmUp then E.Warming else E.Active;
      warmupStage, usedToday, lastReset, online := 0, 0, now, true;
      blockStreak, quarantinedUntil, reason := 0, 0, "";
      health, circuits := map[], map[];
    }

    method HealthFor(dest: string) returns (h: E.Health)
      modifies this`health
      ensures h == E.HealthOf(old(View()), dest) && health == old(health)[dest := h]
      ensures dest !in old(health) ==> h == E.Health(1.0, 0)
    {
      if dest !in health {
        health := health[dest := E.NewHealth];
      }
      h := health[dest];
    }

    method CircuitFor(dest: string) returns (c: E.Circuit)
      modifies this`circuits
      ensures c == E.CircuitOf(old(View()), dest) && circuits == old(circuits)[dest := c]
      ensures dest !in old(circuits) ==> c.state == E.Closed && c.failures == 0
    {
      if dest !in circuits {
        circuits := circuits[dest := E.NewCircuit];
      }
      c := circuits[dest];
    }

    method Score(dest: string) returns (s: real)
      ensures s == E.Score(View(), dest) && (dest !in health ==> s == 1.0)
    {
      if dest in health {
        return health[dest].score;
      }
      return 1.0;
    }

    method ObserveHealth(dest: string, good: bool, alpha: real)
      modifies this`health
      ensures View() == E.WithHealth(old(View()), dest, good, alpha)
    {
      var h := HealthFor(dest);
      var target := 0.0;
      if good {
        target := 1.0;
      }
      health := health[dest := h.(score := h.score * (1.0 - alpha) + target * alpha, samples := h.samples + 1)];
    }

    method CircuitSuccess(dest: string)
      modifies this`circuits
      ensures View() == E.WithCircuit(old(View()), dest, E.Succeeded(E.CircuitOf(old(View()), dest)))
    {
      var c := CircuitFor(dest);
      circuits := circuits[dest := c.(state := E.Closed, failures := 0)];
    }

    method CircuitFailure(dest: string, now: int, threshold: int, cooldown: int)
      modifies this`circuits
      ensures View() == E.WithCircuit(old(View()), dest,
                                      E.Failed(E.CircuitOf(old(View()), dest), now, threshold, cooldown))
    {
      var c := CircuitFor(dest);
      c := c.(failures := c.failures + 1);
      if c.state == E.HalfOpen || c.failures >= threshold {
        c := c.(state := E.Open, openUntil := now + cooldown);
      }
      circuits := circuits[dest := c];
    }

    /** The body of the Emit loop for a signal that names this record. */
    method Apply(cfg: E.Config, s: E.Signal, now: int)
      modifies this
      ensures View() == E.Signalled(cfg, old(View()), s, now)
    {
      match s.kind
      case Accepted | MailboxGone =>
        ObserveHealth(s.destination, true, cfg.alpha);
        CircuitSuccess(s.destination);
        blockStreak := 0;
      case TempFail =>
        ObserveHealth(s.destination, false, cfg.alpha * 0.5);
      case Blocked =>
        ObserveHealth(s.destination, false, cfg.alpha);
        CircuitFailure(s.destination, now, cfg.circuitThreshold, cfg.circuitCooldown);
        blockStreak := blockStreak + 1;
        if blockStreak >= cfg.quarantineThreshold {
          state := E.Quarantined;
          quarantinedUntil := now + cfg.quarantineCooldown;
        }
      case ConnRefused | Timeout =>
        ObserveHealth(s.destination, false, cfg.alpha * 0.5);
        CircuitFailure(s.destination, now, cfg.circuitThreshold, cfg.circuitCooldown);
      case OtherKind =>
    }

    /** One turn of the daily-reset loop. */
    method ResetDay(cfg: E.Config)
      modifies this
      ensures View() == E.DayReset(cfg, old(View()))
    {
      usedToday := 0;
      lastReset := lastReset + E.DAY;
      if state == E.Warming {
        warmupStage := warmupStage + 1;
        if warmupStage >= |cfg.stages| {
          state := E.Active;
        }
      }
    }

    /** The body of the reconcile loop: quarantine expiry, then one reset per day that is due. */
    method Reconcile(cfg: E.Config, now: int)
      modifies this
      ensures View() == E.Reconciled(cfg, old(View()), now)
    {
      if state == E.Quarantined && now > quarantinedUntil {
        state := E.Warming;
        warmupStage := 0;
        blockStreak := 0;
      }
      while now - lastReset >= E.DAY
        invariant E.DayResets(cfg, View(), now) == E.Reconciled(cfg, old(View()), now)
        decreases now - lastReset
      {
        ResetDay(cfg);
      }
    }

    /** eligibleLocked: asks the breaker only once the identity is in service and reachable. */
    method Eligible(cfg: E.Config, dest: string, now: int) returns (ok: bool)
      requires cfg.Valid()
      modifies this`circuits
      ensures ok == E.Eligible(cfg, old(View()), dest, now)
      ensures View() == E.LookedAt(old(View()), dest, now)
    {
      if state == E.Disabled || state == E.Quarantined {
        return false;
      }
      if !online {
        return false;
      }
      if dest in circuits {
        var c := circuits[dest];
        if c.state == E.Open {
          if now <= c.openUntil {
            return false;
          }
          circuits := circuits[dest := c.(state := E.HalfOpen)];
        }
      }
      var limit := CapFor(cfg);
      if limit > 0 && usedToday >= limit {
        return false;
      }
      return true;
    }

    /** The body of the Restore loop. */
    method RestoreFrom(s: E.Saved)
      modifies this
      ensures View() == E.Restored(old(View()), s)
    {
      state := s.state;
      warmupStage := s.warmupStage;
      usedToday := s.usedToday;
      blockStreak := s.blockStreak;
      quarantinedUntil := s.quarantinedUntil;
      reason := s.reason;
      if s.lastReset != 0 {
        lastReset := s.lastReset;
      }
      health := health + map d | d in s.health :: E.Health(s.health[d], 0);
    }

    method CapFor(cfg: E.Config) returns (cap: int)
      requires cfg.Valid()
      ensures cap == E.CapFor(cfg, View())
    {
      if state == E.Warming {
        var stage := warmupStage;
        if stage >= |cfg.stages| {
          stage := |cfg.stages| - 1;
        }
        return cfg.stages[stage];
      }
      return cfg.activeDailyCap;
    }
  }

  /** One more identity in the pool that New builds. */
  lemma FreshNext(cfg: E.Config, specs: seq<E.Spec>, i: nat, now: int)
    requires i < |specs|
    ensures var w := E.Fresh(cfg, specs[..i], now);
            E.Fresh(cfg, specs[..i + 1], now) ==
            E.World(cfg, w.order + [specs[i].id], w.recs[specs[i].id := E.NewRecord(specs[i], now)])
  {
    assert specs[..i + 1][..i] == specs[..i];
    assert E.Fresh(cfg, specs[..i + 1], now).order == E.Fresh(cfg, specs[..i], now).order + [specs[i].id];
  }

  lemma ReconcileNext(cfg: E.Config, order: seq<string>, recs: E.Records, i: nat, now: int)
    requires E.Covers(recs, order) && i < |order|
    ensures var rs := E.ReconcileAll(cfg, order[..i], recs, now);
            E.ReconcileAll(cfg, order[..i + 1], recs, now) == rs[order[i] := E.Reconciled(cfg, rs[order[i]], now)]
  {
    assert order[..i + 1][..i] == order[..i];
  }

  class Manager {
    var cfg: E.Config
    var records: map<string, Record>
    var order: seq<string>

    /** Every identity of the order has one record, reachable under its own id only. */
    ghost predicate Registered()
      reads this
    {
      && (forall id :: id in order <==> id in records)
      && (forall id :: id in records ==> records[id].id == id)
    }

    ghost predicate Valid()
      reads this
    {
      cfg.Valid() && Registered()
    }

    ghost function Records(): E.Records
      reads this, records.Values
    {
      map id | id in records :: records[id].View()
    }

    ghost function View(): E.World
      reads this, records.Values
    {
      E.World(cfg, order, Records())
    }

    /** Put a new record under the identity's id, at the end of the order. */
    method Register(spec: E.Spec, now: int)
      requires Registered()
      modifies this`records, this`order
      ensures Registered() && order == old(order) + [spec.id]
      ensures spec.id in records && fresh(records[spec.id]) && records == old(records)[spec.id := records[spec.id]]
      ensures Records() == old(Records())[spec.id := E.NewRecord(spec, now)]
    {
      var rec := new Record(spec, now);
      records := records[spec.id := rec];
      order := order + [spec.id];
    }

    constructor (raw: E.Config, specs: seq<E.Spec>, now: int)
      ensures Valid() && View() == E.Fresh(E.Defaulted(raw), specs, now)
      ensures forall id :: id in records ==> fresh(records[id])
    {
      cfg, records, order := E.Defaulted(raw), map[], [];
      new;
      for i := 0 to |specs|
        invariant cfg == E.Defaulted(raw) && Registered()
        invariant forall id :: id in records ==> fresh(records[id])
        invariant View() == E.Fresh(E.Defaulted(raw), specs[..i], now)
      {
        Register(specs[i], now);
        FreshNext(cfg, specs, i, now);
      }
      assert specs[..|specs|] == specs;
    }

    /** One turn of the reconcile loop. */
    method ReconcileOne(id: string, now: int)
      requires Valid() && id in records
      modifies records.Values
      ensures Valid() && Records() == old(Records())[id := E.Reconciled(cfg, old(Records())[id], now)]
    {
      records[id].Reconcile(cfg, now);
    }

    method Reconcile(now: int)
      requires Valid()
      modifies records.Values
      ensures Valid() && Records() == E.ReconcileAll(cfg, order, old(Records()), now)
    {
      for i := 0 to |order|
        invariant Valid()
        invariant Records() == E.ReconcileAll(cfg, order[..i], old(Records()), now)
      {
        ReconcileOne(order[i], now);
        ReconcileNext(cfg, order, old(Records()), i, now);
      }
      assert order[..|order|] == order;
    }

    /** `best` is the record registered under the picked id. */
    ghost predicate Picked(best: Record?, pick: Option<string>)
      reads this
    {
      (best == null <==> pick.None?) && (pick.Some? ==> pick.value in records && best == records[pick.value])
    }

    /** Ask one identity whether it may serve `dest`, which may half-open its breaker. */
    method Look(id: string, dest: string, now: int) returns (ok: bool)
      requires Valid() && id in records
      modifies records.Values
      ensures ok == E.Eligible(cfg, old(Records())[id], dest, now)
      ensures Records() == old(Records())[id := E.LookedAt(old(Records())[id], dest, now)]
      ensures forall k :: k in records ==>
                records[k].health == old(records[k].health) && records[k].usedToday == old(records[k].usedToday)
    {
      ok := records[id].Eligible(cfg, dest, now);
    }

    /** One step of the selection loop. */
    method Consider(id: string, dest: string, now: int, best: Record?, bestScore: real, ghost pick: Option<string>)
      returns (chosen: Record?, score: real)
      requires Valid() && id in records && Picked(best, pick)
      requires best != null ==> bestScore == E.Score(best.View(), dest)
      modifies records.Values
      ensures Records() == E.ScanOne(cfg, old(Records()), pick, id, dest, now).0
      ensures Picked(chosen, E.ScanOne(cfg, old(Records()), pick, id, dest, now).1)
      ensures chosen != null ==> score == E.Score(chosen.View(), dest)
    {
      chosen, score := best, bestScore;
      var ok := Look(id, dest, now);
      if !ok {
        return;
      }
      var rec := records[id];
      var s := rec.Score(dest);
      assert s == E.Score(old(Records())[id], dest);
      if best == null || s > bestScore || (s == bestScore && rec.usedToday < best.usedToday) {
        chosen, score := rec, s;
      }
    }

    method Select(dest: string, now: int) returns (best: Record?)
      requires Valid()
      modifies records.Values
      ensures Records() == E.Scan(cfg, order, old(Records()), dest, now).0
      ensures Picked(best, E.Scan(cfg, order, old(Records()), dest, now).1)
    {
      best := null;
      var bestScore := 0.0;
      ghost var start := Records();
      for i := 0 to |order|
        invariant Records() == E.Scan(cfg, order[..i], start, dest, now).0
        invariant Picked(best, E.Scan(cfg, order[..i], start, dest, now).1)
        invariant best != null ==> bestScore == E.Score(best.View(), dest)
      {
        assert order[..i + 1][..i] == order[..i];
        best, bestScore := Consider(order[i], dest, now, best, bestScore, E.Scan(cfg, order[..i], start, dest, now).1);
      }
      assert order[..|order|] == order;
    }

    method Charge(rec: Record?, ghost pick: Option<string>)
      requires Valid() && Picked(rec, pick)
      modifies records.Values
      ensures Records() == E.Charged(old(Records()), pick)
    {
      if rec != null {
        rec.usedToday := rec.usedToday + 1;
      }
    }

    /** The metadata of the chosen identity is what the probe is sent with. */
    method Binding(dest: string, now: int) returns (handed: Option<E.Spec>)
      requires Valid()
      modifies records.Values
      ensures Valid()
      ensures View() == E.Bind(old(View()), dest, now).0
      ensures handed.Some? <==> E.Bind(old(View()), dest, now).1.Some?
      ensures handed.Some? ==> handed.value == Records()[E.Bind(old(View()), dest, now).1.value].spec
    {
      Reconcile(now);
      ghost var pick := E.Scan(cfg, order, Records(), dest, now).1;
      var best := Select(dest, now);
      Charge(best, pick);
      handed := if best == null then None else Some(best.spec);
    }

    method Emit(signals: seq<E.Signal>, now: int)
      requires Valid()
      modifies records.Values
      ensures Valid() && View() == E.Step(old(View()), E.Event.Emit(signals, now))
    {
      for i := 0 to |signals|
        invariant Valid()
        invariant Records() == E.EmitAll(cfg, old(Records()), signals[..i], now)
      {
        assert signals[..i + 1][..i] == signals[..i];
        if signals[i].egressId in records {
          records[signals[i].egressId].Apply(cfg, signals[i], now);
        }
      }
      assert signals[..|signals|] == signals;
    }

    method Enable(id: string)
      requires Valid()
      modifies records.Values
      ensures Valid() && View() == E.Step(old(View()), E.Event.Enable(id))
      ensures id in records ==>
                && records[id].state == E.Warming && records[id].warmupStage == 0 && records[id].blockStreak == 0
                && records[id].reason == ""
    {
      if id in records {
        var rec := records[id];
        rec.state := E.Warming;
        rec.warmupStage := 0;
        rec.blockStreak := 0;
        rec.reason := "";
        assert rec.View() == E.Enabled(old(rec.View()));
        assert Records() == old(Records())[id := rec.View()];
      }
    }

    method Disable(id: string, reason: string)
      requires Valid()
      modifies records.Values
      ensures Valid() && View() == E.Step(old(View()), E.Event.Disable(id, reason))
      ensures id in records ==> records[id].state == E.Disabled && records[id].reason == reason
    {
      if id in records {
        records[id].state := E.Disabled;
        records[id].reason := reason;
      }
    }

    method Quarantine(id: string, reason: string, now: int)
      requires Valid()
      modifies records.Values
      ensures Valid() && View() == E.Step(old(View()), E.Event.Quarantine(id, reason, now))
      ensures id in records ==>
                && records[id].state == E.Quarantined && records[id].reason == reason
                && records[id].quarantinedUntil == now + cfg.quarantineCooldown
    {
      if id in records {
        records[id].state := E.Quarantined;
        records[id].quarantinedUntil := now + cfg.quarantineCooldown;
        records[id].reason := reason;
        assert records[id].View() == E.Quarantining(cfg, old(records[id].View()), now).(reason := reason);
        assert Records() == old(Records())[id := records[id].View()];
      }
    }

    method SetOnline(id: string, online: bool)
      requires Valid()
      modifies records.Values
      ensures Valid() && View() == E.Step(old(View()), E.Event.SetOnline(id, online))
    {
      if id !in records || records[id].online == online {
        return;
      }
      records[id].online := online;
    }

    method AddIdentity(spec: E.Spec, now: int)
      requires Valid()
      modifies this, records.Values
      ensures Valid() && View() == E.Step(old(View()), E.Event.AddIdentity(spec, now))
    {
      if spec.id in records {
        records[spec.id].spec := spec;
        return;
      }
      Register(spec, now);
    }

    method SetThresholds(quarantine: int, circuit: int)
      requires Valid()
      modifies this`cfg
      ensures Valid() && View() == E.Step(old(View()), E.Event.SetThresholds(quarantine, circuit))
    {
      if quarantine > 0 {
        cfg := cfg.(quarantineThreshold := quarantine);
      }
      if circuit > 0 {
        cfg := cfg.(circuitThreshold := circuit);
      }
    }

    method Snapshot() returns (states: seq<E.Saved>)
      requires Valid()
      ensures states == E.Snapshot(order, Records())
    {
      states := [];
      for i := 0 to |order|
        invariant states == E.Snapshot(order[..i], Records())
      {
        assert order[..i + 1][..i] == order[..i];
        var r := records[order[i]];
        states := states + [E.Saved(order[i], r.state, r.warmupStage, r.usedToday, r.lastReset, r.blockStreak,
                                    r.quarantinedUntil, r.reason, map d | d in r.health :: r.health[d].score)];
      }
      assert order[..|order|] == order;
    }

    /** One turn of the Restore loop: unknown identities are skipped. */
    method RestoreOne(saved: E.Saved)
      requires Valid()
      modifies records.Values
      ensures Valid()
      ensures Records() == if saved.id in records
                           then old(Records())[saved.id := E.Restored(old(Records())[saved.id], saved)]
                           else old(Records())
    {
      if saved.id in records {
        records[saved.id].RestoreFrom(saved);
      }
    }

    method Restore(states: seq<E.Saved>)
      requires Valid()
      modifies records.Values
      ensures Valid() && View() == E.Step(old(View()), E.Event.Restore(states))
    {
      for i := 0 to |states|
        invariant Valid()
        invariant Records() == E.RestoreAll(old(Records()), states[..i])
      {
        assert states[..i + 1][..i] == states[..i];
        RestoreOne(states[i]);
      }
      assert states[..|states|] == states;
    }
  }
}
