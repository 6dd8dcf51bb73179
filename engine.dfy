/**
  The MemSlap engine (lib/engine.js): the monitors, the snooze ledger, the tick
  that selects and slaps offenders, and the confirmation of one prompt.

  The two outside effects the decisions produce are recorded as appended events:
  `process.kill(pid, signal)` becomes `Signalled(pid, signal)`, and the prompt
  sent to the notifier becomes `Prompted(pid)`. The notifier's callback and the
  backup timer are calls to `Confirmation.Finish` and `Confirmation.FireTimer`;
  the clock is the `now` parameter of each call.
*/
module Engine {
  import opened Wrappers
  import opened Rules
  import opened Snapshot
  import opened Snooze
  import opened Selection

  datatype Effect = Signalled(pid: int, signal: string) | Prompted(pid: int)

  /** The part of the engine that slaps and confirmations change. */
  datatype EngineState = EngineState(snoozed: Ledger, effects: seq<Effect>)

  /** `killProcess`: send the monitor's signal, then drop the pid's ledger entry. */
  function KillState(st: EngineState, proc: Proc, mon: Monitor): EngineState
  {
    EngineState(st.snoozed - {proc.pid}, st.effects + [Signalled(proc.pid, mon.signal)])
  }

  /** The snooze branch of a confirmation: only when a snooze time is configured. */
  function SnoozeState(st: EngineState, proc: Proc, mon: Monitor, now: int): EngineState
  {
    if mon.snoozeTime != 0 then st.(snoozed := st.snoozed[proc.pid := now + mon.snoozeTime]) else st
  }

  /** The effect of the activation that wins a confirmation. */
  function Dispatch(st: EngineState, proc: Proc, mon: Monitor, activation: string, now: int): (r: EngineState)
    ensures r.effects == st.effects || r.effects == st.effects + [Signalled(proc.pid, mon.signal)]
    ensures forall pid :: pid != proc.pid ==> (pid in r.snoozed <==> pid in st.snoozed)
    ensures forall pid :: pid != proc.pid && pid in r.snoozed ==> r.snoozed[pid] == st.snoozed[pid]
  {
    if activation == "actionClicked" then KillState(st, proc, mon)
    else if activation == "closed" then SnoozeState(st, proc, mon, now)
    else if activation == "contentsClicked" then
      (if mon.clickAction == "kill" then KillState(st, proc, mon) else st)
    else if activation == "timeout" then
      (if mon.timeoutAction == "kill" then KillState(st, proc, mon) else SnoozeState(st, proc, mon, now))
    else st
  }

  /** The outcome table of a winning activation, stated on the observable state. */
  lemma DispatchOutcomes(st: EngineState, proc: Proc, mon: Monitor, activation: string, now: int)
    ensures var r := Dispatch(st, proc, mon, activation, now);
      var killed := r.effects == st.effects + [Signalled(proc.pid, mon.signal)] && r.snoozed == st.snoozed - {proc.pid};
      var snoozed := r.effects == st.effects && r.snoozed == st.snoozed[proc.pid := now + mon.snoozeTime];
      && (activation == "actionClicked" ==> killed)
      && (activation == "closed" && mon.snoozeTime != 0 ==> snoozed)
      && (activation == "contentsClicked" && mon.clickAction == "kill" ==> killed)
      && (activation == "timeout" && mon.timeoutAction == "kill" ==> killed)
      && (activation == "timeout" && mon.timeoutAction != "kill" && mon.snoozeTime != 0 ==> snoozed)
      && (|| activation !in {"actionClicked", "closed", "contentsClicked", "timeout"}
          || (activation == "closed" && mon.snoozeTime == 0)
          || (activation == "contentsClicked" && mon.clickAction != "kill")
          || (activation == "timeout" && mon.timeoutAction != "kill" && mon.snoozeTime == 0)
          ==> r == st)
  {
  }

  /** `slap`: kill at once when the monitor does not prompt, otherwise send a prompt. */
  function SlapState(st: EngineState, proc: Proc, mon: Monitor): EngineState
  {
    if !mon.prompt then KillState(st, proc, mon) else st.(effects := st.effects + [Prompted(proc.pid)])
  }

  /** Slapping a list of offenders in order. */
  function SlapAll(st: EngineState, pairs: seq<(Proc, Monitor)>): EngineState
    decreases |pairs|
  {
    if pairs == [] then st else SlapAll(SlapState(st, pairs[0].0, pairs[0].1), pairs[1..])
  }

  lemma {:induction false} SlapAllConcat(st: EngineState, a: seq<(Proc, Monitor)>, b: seq<(Proc, Monitor)>)
    ensures SlapAll(st, a + b) == SlapAll(SlapAll(st, a), b)
    decreases |a|
  {
    if a != [] {
      assert (a + b)[1..] == a[1..] + b;
      SlapAllConcat(SlapState(st, a[0].0, a[0].1), a[1..], b);
    } else {
      assert a + b == b;
    }
  }

  /** The event a slap appends. */
  function SlapEffect(pair: (Proc, Monitor)): Effect
  {
    if pair.1.prompt then Prompted(pair.0.pid) else Signalled(pair.0.pid, pair.1.signal)
  }

  function SlapEffects(pairs: seq<(Proc, Monitor)>): (r: seq<Effect>)
    ensures |r| == |pairs|
  {
    seq(|pairs|, i requires 0 <= i < |pairs| => SlapEffect(pairs[i]))
  }

  /** The processes killed without a prompt. */
  function KilledPids(pairs: seq<(Proc, Monitor)>): set<int>
  {
    set i | 0 <= i < |pairs| && !pairs[i].1.prompt :: pairs[i].0.pid
  }

  /**
    Slapping a list of offenders appends one event per offender, in order (a
    signal for a monitor that does not prompt, a prompt otherwise), and removes
    from the ledger exactly the processes signalled.
  */
  lemma {:induction false} SlapAllOutcome(st: EngineState, pairs: seq<(Proc, Monitor)>)
    ensures SlapAll(st, pairs) == EngineState(st.snoozed - KilledPids(pairs), st.effects + SlapEffects(pairs))
    decreases |pairs|
  {
    if pairs == [] {
      assert st.snoozed - KilledPids(pairs) == st.snoozed;
      assert st.effects + SlapEffects(pairs) == st.effects;
    } else {
      var next := SlapState(st, pairs[0].0, pairs[0].1);
      SlapAllOutcome(next, pairs[1..]);
      assert next.effects == st.effects + [SlapEffect(pairs[0])];
      assert SlapEffects(pairs) == [SlapEffect(pairs[0])] + SlapEffects(pairs[1..]);
      var head: set<int> := if pairs[0].1.prompt then {} else {pairs[0].0.pid};
      assert next.snoozed == st.snoozed - head;
      assert KilledPids(pairs) == head + KilledPids(pairs[1..]) by {
        forall p | p in KilledPids(pairs)
          ensures p in head + KilledPids(pairs[1..])
        {
          var i :| 0 <= i < |pairs| && !pairs[i].1.prompt && pairs[i].0.pid == p;
          if i > 0 {
            assert pairs[1..][i - 1] == pairs[i];
          }
        }
        forall p | p in KilledPids(pairs[1..])
          ensures p in KilledPids(pairs)
        {
          var i :| 0 <= i < |pairs[1..]| && !pairs[1..][i].1.prompt && pairs[1..][i].0.pid == p;
          assert pairs[i + 1] == pairs[1..][i];
        }
      }
      assert (st.snoozed - head) - KilledPids(pairs[1..]) == st.snoozed - KilledPids(pairs);
      assert (st.effects + [SlapEffect(pairs[0])]) + SlapEffects(pairs[1..]) == st.effects + SlapEffects(pairs);
    }
  }

  /** The offenders that get a prompt, in order. */
  function Prompts(pairs: seq<(Proc, Monitor)>): seq<(Proc, Monitor)>
    decreases |pairs|
  {
    if pairs == [] then [] else (if pairs[0].1.prompt then [pairs[0]] else []) + Prompts(pairs[1..])
  }

  lemma {:induction false} PromptsConcat(a: seq<(Proc, Monitor)>, b: seq<(Proc, Monitor)>)
    ensures Prompts(a + b) == Prompts(a) + Prompts(b)
    decreases |a|
  {
    if a != [] {
      assert (a + b)[1..] == a[1..] + b;
      PromptsConcat(a[1..], b);
    } else {
      assert a + b == b;
    }
  }

  /** Slapping one more offender after a list. */
  lemma SlapAllSnoc(st: EngineState, pairs: seq<(Proc, Monitor)>, proc: Proc, mon: Monitor)
    ensures SlapAll(st, pairs + [(proc, mon)]) == SlapState(SlapAll(st, pairs), proc, mon)
    ensures Prompts(pairs + [(proc, mon)]) == Prompts(pairs) + (if mon.prompt then [(proc, mon)] else [])
  {
    SlapAllConcat(st, pairs, [(proc, mon)]);
    PromptsConcat(pairs, [(proc, mon)]);
    assert [(proc, mon)][1..] == [];
  }

  // ---------------------------------------------------------------------------
  // Confirmation: the `finished` guard of `slap`'s closure

  datatype ConfState = ConfState(finished: bool, timerArmed: bool, engine: EngineState)

  /**
    One call of `finish`: ignored without an activation type, ignored once
    finished, otherwise it claims the instance, cancels the timer and dispatches.
  */
  function Deliver(c: ConfState, proc: Proc, mon: Monitor, activation: string, now: int): ConfState
  {
    if activation == "" || c.finished then c
    else ConfState(true, false, Dispatch(c.engine, proc, mon, activation, now))
  }

  datatype Delivery = Delivery(activation: string, now: int)

  /** Deliveries to one confirmation, in the order they arrive. */
  function DeliverAll(c: ConfState, proc: Proc, mon: Monitor, ds: seq<Delivery>): ConfState
    decreases |ds|
  {
    if ds == [] then c else DeliverAll(Deliver(c, proc, mon, ds[0].activation, ds[0].now), proc, mon, ds[1..])
  }

  /** Index of the first delivery that carries an activation type. */
  function FirstClaim(ds: seq<Delivery>): (r: Option<nat>)
    ensures r.Some? ==>
      && r.value < |ds| && ds[r.value].activation != ""
      && forall j :: 0 <= j < r.value ==> ds[j].activation == ""
    ensures r.None? ==> forall j :: 0 <= j < |ds| ==> ds[j].activation == ""
    decreases |ds|
  {
    if ds == [] then None
    else if ds[0].activation != "" then Some(0)
    else match FirstClaim(ds[1..])
      case None => None
      case Some(i) => Some(i + 1)
  }

  lemma {:induction false} FinishedIsFinal(c: ConfState, proc: Proc, mon: Monitor, ds: seq<Delivery>)
    requires c.finished
    ensures DeliverAll(c, proc, mon, ds) == c
    decreases |ds|
  {
    if ds != [] {
      FinishedIsFinal(c, proc, mon, ds[1..]);
    }
  }

  /**
    Exactly-once resolution: whatever deliveries reach a pending confirmation
    (notifier callbacks, the backup timer's `timeout`, in any order), the result
    is the dispatch of the first one that carries an activation type, and
    nothing at all when none does; at most one signal is sent.
  */
  lemma {:induction false} ExactlyOnce(c: ConfState, proc: Proc, mon: Monitor, ds: seq<Delivery>)
    requires !c.finished
    ensures var r := DeliverAll(c, proc, mon, ds);
      match FirstClaim(ds)
      case None => r == c
      case Some(i) => r == ConfState(true, false, Dispatch(c.engine, proc, mon, ds[i].activation, ds[i].now))
    ensures |DeliverAll(c, proc, mon, ds).engine.effects| <= |c.engine.effects| + 1
    decreases |ds|
  {
    if ds != [] {
      if ds[0].activation == "" {
        ExactlyOnce(c, proc, mon, ds[1..]);
      } else {
        FinishedIsFinal(Deliver(c, proc, mon, ds[0].activation, ds[0].now), proc, mon, ds[1..]);
      }
    }
  }

  // ---------------------------------------------------------------------------
  // The engine object

  lemma NonEmptyHasMember(pids: set<int>)
    requires pids != {}
    ensures exists pid :: pid in pids
  {
    if forall pid :: pid !in pids {
      assert false;
    }
  }

  class Engine {
    var monitors: seq<Monitor>
    var snoozed: Ledger
    var effects: seq<Effect>

    function State(): EngineState
      reads this
    {
      EngineState(snoozed, effects)
    }

    /** `startup`: an empty ledger, then the monitors loaded. */
    constructor (config: seq<MonitorConfig>)
      ensures |monitors| == |config| && forall i :: 0 <= i < |config| ==> monitors[i] == Compile(config[i])
      ensures snoozed == map[] && effects == []
    {
      monitors := [];
      snoozed := map[];
      effects := [];
      new;
      ReloadConfig(config);
    }

    /** `reloadConfig`: every monitor compiled, in configured order. */
    method ReloadConfig(config: seq<MonitorConfig>)
      modifies this`monitors
      ensures |monitors| == |config|
      ensures forall i :: 0 <= i < |config| ==> monitors[i] == Compile(config[i])
    {
      var compiled: seq<Monitor> := [];
      for i := 0 to |config|
        invariant |compiled| == i
        invariant forall k :: 0 <= k < i ==> compiled[k] == Compile(config[k])
      {
        compiled := compiled + [Compile(config[i])];
      }
      monitors := compiled;
    }

    /** The purge at the start of a tick: drop the entries with `now > expiry`. */
    method Purge(now: int)
      modifies this`snoozed
      ensures snoozed == Purged(old(snoozed), now)
    {
      ghost var start := snoozed;
      var pending := snoozed.Keys;
      while pending != {}
        invariant pending <= start.Keys
        invariant forall pid :: pid in pending ==> pid in snoozed
        invariant forall pid :: pid in snoozed ==> pid in start && snoozed[pid] == start[pid]
        invariant forall pid :: pid in start && pid !in pending ==> (pid in snoozed <==> now <= start[pid])
        decreases pending
      {
        NonEmptyHasMember(pending);
        var key :| key in pending;
        if now > snoozed[key] {
          snoozed := snoozed - {key};
        }
        pending := pending - {key};
      }
      ghost var purged := Purged(start, now);
      forall key
        ensures key in snoozed <==> key in purged
      {
        assert key !in pending;
      }
      assert snoozed.Keys == purged.Keys;
      assert forall key :: key in snoozed ==> snoozed[key] == purged[key];
      assert snoozed == purged;
    }

    /** `killProcess`. */
    method Kill(proc: Proc, mon: Monitor)
      modifies this`snoozed, this`effects
      ensures effects == old(effects) + [Signalled(proc.pid, mon.signal)]
      ensures snoozed == old(snoozed) - {proc.pid}
    {
      effects := effects + [Signalled(proc.pid, mon.signal)];
      snoozed := snoozed - {proc.pid};
    }

    /** `slap`: a prompt-less monitor kills at once; otherwise a confirmation starts. */
    method Slap(proc: Proc, mon: Monitor) returns (c: Confirmation?)
      modifies this`snoozed, this`effects
      ensures State() == SlapState(old(State()), proc, mon)
      ensures c != null <==> mon.prompt
      ensures c != null ==> fresh(c) && c.engine == this && c.proc == proc && c.mon == mon
      ensures c != null ==> !c.finished && c.timerArmed
    {
      if !mon.prompt {
        Kill(proc, mon);
        c := null;
        return;
      }
      effects := effects + [Prompted(proc.pid)];
      c := new Confirmation(this, proc, mon);
    }

    /** `offenders.forEach(proc => slap(proc, mon))` for one monitor's offenders. */
    method SlapEach(offenders: seq<Proc>, mon: Monitor, ghost now: int) returns (started: seq<Confirmation>)
      requires forall x :: x in offenders ==> !ActivelySnoozed(snoozed, x.pid, now)
      modifies this`snoozed, this`effects
      ensures State() == SlapAll(old(State()), PairWith(offenders, mon))
      ensures AgreeAt(snoozed, old(snoozed), now)
      ensures StartedFor(started, this, Prompts(PairWith(offenders, mon)))
      ensures forall i :: 0 <= i < |started| ==> !started[i].finished && started[i].timerArmed
    {
      ghost var st0 := State();
      ghost var ledger := snoozed;
      ghost var pairs := PairWith(offenders, mon);
      ghost var done: seq<(Proc, Monitor)> := [];
      started := [];
      for j := 0 to |offenders|
        invariant done == pairs[..j]
        invariant AgreeAt(snoozed, ledger, now)
        invariant State() == SlapAll(st0, done)
        invariant StartedFor(started, this, Prompts(done))
        invariant forall i :: 0 <= i < |started| ==> !started[i].finished && started[i].timerArmed
      {
        var proc := offenders[j];
        assert proc in offenders;
        DropKeepsAgreement(snoozed, ledger, proc.pid, now);
        SlapAllSnoc(st0, done, proc, mon);
        var c := Slap(proc, mon);
        if c != null {
          StartedForConcat(started, [c], this, Prompts(done), [(proc, mon)]);
          started := started + [c];
        } else {
          assert Prompts(done) + [] == Prompts(done);
        }
        assert pairs[..j + 1] == done + [(proc, mon)];
        done := done + [(proc, mon)];
      }
      assert pairs[..|offenders|] == pairs;
    }

    /** The body of `check`'s loop over monitors, for one monitor. */
    method CheckMonitor(mon: Monitor, procs: seq<Proc>, now: int, matches: Matcher, ghost ledger: Ledger)
        returns (started: seq<Confirmation>)
      requires AgreeAt(snoozed, ledger, now)
      modifies this`snoozed, this`effects
      ensures State() == SlapAll(old(State()), MonitorOffenders(mon, procs, ledger, now, matches))
      ensures AgreeAt(snoozed, ledger, now)
      ensures StartedFor(started, this, Prompts(MonitorOffenders(mon, procs, ledger, now, matches)))
      ensures forall i :: 0 <= i < |started| ==> !started[i].finished && started[i].timerArmed
    {
      if !mon.enabled {
        return [];
      }
      OffendersDependOnActiveSnoozes(mon, procs, snoozed, ledger, now, matches);
      var offenders := Offenders(mon, procs, snoozed, now, matches);
      forall x | x in offenders
        ensures !ActivelySnoozed(snoozed, x.pid, now)
      {
        OffendersMembers(mon, procs, snoozed, now, matches, x);
      }
      ghost var before := snoozed;
      started := SlapEach(offenders, mon, now);
      AgreeAtTransitive(snoozed, before, ledger, now);
    }

    /**
      `check`: purge the ledger, normalise and roll up the snapshot, then slap
      the offenders of every enabled monitor in order. Returns the
      confirmations started, one per prompted offender.
    */
    method Check(now: int, procs: array<Proc>, matches: Matcher) returns (pending: seq<Confirmation>)
      modifies this`snoozed, this`effects, procs
      ensures procs[..] == Rolled(NormalizedAll(old(procs[..])))
      ensures var ledger := Purged(old(snoozed), now);
        State() == SlapAll(EngineState(ledger, old(effects)), Select(monitors, procs[..], ledger, now, matches))
      ensures StartedFor(pending, this, Prompts(Select(monitors, procs[..], Purged(old(snoozed), now), now, matches)))
      ensures forall i :: 0 <= i < |pending| ==> !pending[i].finished && pending[i].timerArmed
    {
      Purge(now);
      Normalize(procs);
      Rollup(procs);
      pending := SlapOffenders(procs[..], now, matches);
    }

    /** `monitors.forEach(...)` in `check`: every monitor in order, against the snapshot. */
    method SlapOffenders(snap: seq<Proc>, now: int, matches: Matcher) returns (pending: seq<Confirmation>)
      modifies this`snoozed, this`effects
      ensures State() == SlapAll(old(State()), Select(monitors, snap, old(snoozed), now, matches))
      ensures StartedFor(pending, this, Prompts(Select(monitors, snap, old(snoozed), now, matches)))
      ensures forall i :: 0 <= i < |pending| ==> !pending[i].finished && pending[i].timerArmed
    {
      ghost var ledger := snoozed;
      ghost var st0 := State();
      ghost var done: seq<(Proc, Monitor)> := [];
      var mons := monitors;
      pending := [];
      for k := 0 to |mons|
        invariant done == Select(mons[..k], snap, ledger, now, matches)
        invariant AgreeAt(snoozed, ledger, now)
        invariant State() == SlapAll(st0, done)
        invariant StartedFor(pending, this, Prompts(done))
        invariant forall i :: 0 <= i < |pending| ==> !pending[i].finished && pending[i].timerArmed
      {
        var mon := mons[k];
        ghost var step := MonitorOffenders(mon, snap, ledger, now, matches);
        var started := CheckMonitor(mon, snap, now, matches, ledger);
        SlapAllConcat(st0, done, step);
        PromptsConcat(done, step);
        StartedForConcat(pending, started, this, Prompts(done), Prompts(step));
        ghost var prev := pending;
        pending := pending + started;
        forall i | 0 <= i < |pending|
          ensures !pending[i].finished && pending[i].timerArmed
        {
          if i < |prev| {
            assert pending[i] == prev[i];
          } else {
            assert pending[i] == started[i - |prev|];
          }
        }
        assert mons[..k + 1] == mons[..k] + [mon];
        SelectSnoc(mons[..k], mon, snap, ledger, now, matches);
        done := done + step;
      }
      assert mons[..|mons|] == mons;
    }
  }

  /** The confirmations started for the prompted offenders `pairs`, one each and in order. */
  ghost predicate StartedFor(cs: seq<Confirmation>, e: Engine, pairs: seq<(Proc, Monitor)>)
  {
    && |cs| == |pairs|
    && forall i :: 0 <= i < |cs| ==> cs[i].engine == e && (cs[i].proc, cs[i].mon) == pairs[i]
  }

  lemma StartedForConcat(a: seq<Confirmation>, b: seq<Confirmation>, e: Engine, pa: seq<(Proc, Monitor)>, pb: seq<(Proc, Monitor)>)
    requires StartedFor(a, e, pa) && StartedFor(b, e, pb)
    ensures StartedFor(a + b, e, pa + pb)
  {
  }

  class Confirmation {
    const engine: Engine
    const proc: Proc
    const mon: Monitor
    var finished: bool
    var timerArmed: bool

    /** A prompt just sent: not finished, backup timer running. */
    constructor (engine: Engine, proc: Proc, mon: Monitor)
      ensures this.engine == engine && this.proc == proc && this.mon == mon
      ensures !finished && timerArmed
    {
      this.engine := engine;
      this.proc := proc;
      this.mon := mon;
      finished := false;
      timerArmed := true;
    }

    function Snapshot(): ConfState
      reads this, engine
    {
      ConfState(finished, timerArmed, engine.State())
    }

    /**
      `finish`: the callback of the notifier and of the backup timer. The empty
      activation type stands for a call without metadata or without
      `activationType`.
    */
    method Finish(activationType: string, now: int)
      modifies this, engine`snoozed, engine`effects
      ensures Snapshot() == Deliver(old(Snapshot()), proc, mon, activationType, now)
      ensures activationType == "" || old(finished) ==>
        finished == old(finished) && engine.snoozed == old(engine.snoozed) && engine.effects == old(engine.effects)
    {
      if activationType == "" {
        return;
      }
      if finished {
        return;
      }
      finished := true;
      timerArmed := false;
      if activationType == "actionClicked" {
        engine.Kill(proc, mon);
      } else if activationType == "closed" {
        if mon.snoozeTime != 0 {
          engine.snoozed := engine.snoozed[proc.pid := now + mon.snoozeTime];
        }
      } else if activationType == "contentsClicked" {
        if mon.clickAction == "kill" {
          engine.Kill(proc, mon);
        }
      } else if activationType == "timeout" {
        if mon.timeoutAction == "kill" {
          engine.Kill(proc, mon);
        } else if mon.snoozeTime != 0 {
          engine.snoozed := engine.snoozed[proc.pid := now + mon.snoozeTime];
        }
      }
    }

    /** The backup timer, set for one second past the prompt's 15-second timeout. */
    method FireTimer(now: int)
      modifies this, engine`snoozed, engine`effects
      ensures Snapshot() == Deliver(old(Snapshot()), proc, mon, "timeout", now)
    {
      Finish("timeout", now);
    }
  }

  /** The prompt's own timeout, in seconds, and the backup timer's delay. */
  const PromptTimeout: int := 15
  const BackupTimerDelay: int := PromptTimeout + 1

  /** The backup timer's call of `finish`, for a prompt sent at `start`. */
  function BackupTimeout(start: int): (d: Delivery)
    ensures d.activation == "timeout" && d.now == start + 16
  {
    Delivery("timeout", start + BackupTimerDelay)
  }

  /**
    A prompt nobody answers is resolved by the backup timer, sixteen seconds
    after it was sent: whatever calls without an activation type came before,
    the outcome is the `timeout` branch of the dispatch at that instant.
  */
  lemma BackupTimerResolves(c: ConfState, proc: Proc, mon: Monitor, start: int, ds: seq<Delivery>)
    requires !c.finished
    requires forall j :: 0 <= j < |ds| ==> ds[j].activation == ""
    ensures DeliverAll(c, proc, mon, ds + [BackupTimeout(start)])
         == ConfState(true, false, Dispatch(c.engine, proc, mon, "timeout", start + 16))
    ensures mon.timeoutAction == "kill" ==>
      DeliverAll(c, proc, mon, ds + [BackupTimeout(start)]).engine.effects
        == c.engine.effects + [Signalled(proc.pid, mon.signal)]
  {
    var all := ds + [BackupTimeout(start)];
    ExactlyOnce(c, proc, mon, all);
    assert all[|ds|].activation == "timeout";
    assert forall j :: 0 <= j < |ds| ==> all[j].activation == "";
  }


  /**
    A monitor that does not prompt, matching the name "Chrome" above one
    billion bytes, with the signal SIGKILL: a helper process of the Chrome
    bundle is renamed to "Chrome", selected, and signalled at once, with no
    prompt. The pattern engine is only required to find "Chrome" in "Chrome".
  */
  lemma ChromeHelperIsKilled(matches: Matcher, now: int)
    requires matches("(Chrome)", "Chrome")
    ensures
      var mon := Compile(MonitorConfig(true, Some(1000000000), Some(["Chrome"]), None, None, None, "SIGKILL", false, 0, false, "", ""));
      var raw := Proc(500, 1, "Chrome Helper", "/Apps/Chrome" + BundleMarker + "/MacOS", 1171875, 0);
      var snap := Rolled(NormalizedAll([raw]));
      var pairs := Select([mon], snap, map[], now, matches);
      && |snap| == 1 && snap[0].name == "Chrome" && snap[0].mem == 1200000000
      && pairs == [(snap[0], mon)]
      && SlapAll(EngineState(map[], []), pairs) == EngineState(map[], [Signalled(500, "SIGKILL")])
  {
    var mon := Compile(MonitorConfig(true, Some(1000000000), Some(["Chrome"]), None, None, None, "SIGKILL", false, 0, false, "", ""));
    var raw := Proc(500, 1, "Chrome Helper", "/Apps/Chrome" + BundleMarker + "/MacOS", 1171875, 0);
    ChromeHelperNormalized();
    var p := Normalized(raw);
    assert NormalizedAll([raw]) == [p];
    RolledSingleton(p);
    assert Join(["Chrome"], ")|(") == "Chrome";
    assert Alternation(["Chrome"]) == "(Chrome)";
    assert mon.nameMatches == Some("(Chrome)");
    assert Eligible(mon, p, map[], now, matches);
    assert Offenders(mon, [p], map[], now, matches) == [p];
    var pairs := Select([mon], [p], map[], now, matches);
    assert MonitorOffenders(mon, [p], map[], now, matches) == [(p, mon)];
    assert [mon][1..] == [];
    assert pairs == MonitorOffenders(mon, [p], map[], now, matches) + Select([], [p], map[], now, matches);
    assert SlapAll(EngineState(map[], []), pairs) == SlapAll(KillState(EngineState(map[], []), p, mon), []);
  }

}
