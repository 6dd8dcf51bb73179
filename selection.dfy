/**
  The offender filter of a tick (lib/engine.js, check): for every enabled
  monitor, in configured order, the records of the snapshot that break it.

  The configured patterns are abstract: `matches(pattern, text)` stands for
  `text.match(new RegExp(pattern))` succeeding.
*/
module Selection {
  import opened Wrappers
  import opened Rules
  import opened Snapshot
  import opened Snooze

  type Matcher = (string, string) -> bool

  /** A `*_matches` pattern lets `text` through: absent, or it matches. */
  predicate Admits(matches: Matcher, pattern: Option<string>, text: string)
  {
    pattern.None? || matches(pattern.value, text)
  }

  /** An `*_excludes` pattern rejects `text`: present, and it matches. */
  predicate Rejects(matches: Matcher, pattern: Option<string>, text: string)
  {
    pattern.Some? && matches(pattern.value, text)
  }

  /**
    The filter callback for one monitor and one record. Without a numeric limit
    the test `mem <= max_mem` is false, so no memory threshold applies.
  */
  predicate Eligible(mon: Monitor, p: Proc, ledger: Ledger, now: int, matches: Matcher)
  {
    && p.pid != 0
    && (mon.maxMem.None? || p.mem > mon.maxMem.value)
    && Admits(matches, mon.nameMatches, p.name)
    && !Rejects(matches, mon.nameExcludes, p.name)
    && Admits(matches, mon.pathMatches, p.path)
    && !Rejects(matches, mon.pathExcludes, p.path)
    && !ActivelySnoozed(ledger, p.pid, now)
  }

  /** `procs.filter(...)` for one monitor. */
  function Offenders(mon: Monitor, procs: seq<Proc>, ledger: Ledger, now: int, matches: Matcher): (r: seq<Proc>)
    ensures |r| <= |procs|
    decreases |procs|
  {
    if procs == [] then []
    else
      (if Eligible(mon, procs[0], ledger, now, matches) then [procs[0]] else [])
      + Offenders(mon, procs[1..], ledger, now, matches)
  }

  /** The filter keeps exactly the records of the snapshot that pass the callback. */
  lemma {:induction false} OffendersMembers(mon: Monitor, procs: seq<Proc>, ledger: Ledger, now: int, matches: Matcher, x: Proc)
    ensures x in Offenders(mon, procs, ledger, now, matches) <==> x in procs && Eligible(mon, x, ledger, now, matches)
    decreases |procs|
  {
    if procs != [] {
      OffendersMembers(mon, procs[1..], ledger, now, matches, x);
      assert x in procs <==> x == procs[0] || x in procs[1..] by {
        assert procs == [procs[0]] + procs[1..];
      }
    }
  }

  /** The filter keeps snapshot order: it distributes over concatenation. */
  lemma {:induction false} OffendersConcat(mon: Monitor, a: seq<Proc>, b: seq<Proc>, ledger: Ledger, now: int, matches: Matcher)
    ensures Offenders(mon, a + b, ledger, now, matches)
         == Offenders(mon, a, ledger, now, matches) + Offenders(mon, b, ledger, now, matches)
    decreases |a|
  {
    if a != [] {
      var head := if Eligible(mon, a[0], ledger, now, matches) then [a[0]] else [];
      assert (a + b)[0] == a[0] && (a + b)[1..] == a[1..] + b;
      assert Offenders(mon, a + b, ledger, now, matches) == head + Offenders(mon, a[1..] + b, ledger, now, matches);
      OffendersConcat(mon, a[1..], b, ledger, now, matches);
    } else {
      assert a + b == b;
    }
  }

  /** The filter reads the ledger only through the exemption test. */
  lemma {:induction false} OffendersDependOnActiveSnoozes(mon: Monitor, procs: seq<Proc>, a: Ledger, b: Ledger, now: int, matches: Matcher)
    requires AgreeAt(a, b, now)
    ensures Offenders(mon, procs, a, now, matches) == Offenders(mon, procs, b, now, matches)
    decreases |procs|
  {
    if procs != [] {
      assert ActivelySnoozed(a, procs[0].pid, now) <==> ActivelySnoozed(b, procs[0].pid, now);
      OffendersDependOnActiveSnoozes(mon, procs[1..], a, b, now, matches);
    }
  }

  /** Each offender paired with the monitor it breaks. */
  function PairWith(xs: seq<Proc>, mon: Monitor): (r: seq<(Proc, Monitor)>)
    ensures |r| == |xs|
    ensures forall i :: 0 <= i < |xs| ==> r[i] == (xs[i], mon)
  {
    seq(|xs|, i requires 0 <= i < |xs| => (xs[i], mon))
  }

  /** The offenders one monitor contributes: none when it is disabled. */
  function MonitorOffenders(mon: Monitor, procs: seq<Proc>, ledger: Ledger, now: int, matches: Matcher): seq<(Proc, Monitor)>
  {
    if mon.enabled then PairWith(Offenders(mon, procs, ledger, now, matches), mon) else []
  }

  /** All (record, monitor) pairs of a tick, monitor by monitor, without deduplication. */
  function Select(mons: seq<Monitor>, procs: seq<Proc>, ledger: Ledger, now: int, matches: Matcher): seq<(Proc, Monitor)>
    decreases |mons|
  {
    if mons == [] then []
    else MonitorOffenders(mons[0], procs, ledger, now, matches) + Select(mons[1..], procs, ledger, now, matches)
  }

  /** The pairs one monitor contributes are its offenders, when it is enabled. */
  lemma MonitorOffendersMembers(head: Monitor, procs: seq<Proc>, ledger: Ledger, now: int, matches: Matcher, mon: Monitor, x: Proc)
    ensures (x, mon) in MonitorOffenders(head, procs, ledger, now, matches)
        <==> mon == head && mon.enabled && x in procs && Eligible(mon, x, ledger, now, matches)
  {
    OffendersMembers(mon, procs, ledger, now, matches, x);
    if mon == head && mon.enabled && x in procs && Eligible(mon, x, ledger, now, matches) {
      var offenders := Offenders(mon, procs, ledger, now, matches);
      var i :| 0 <= i < |offenders| && offenders[i] == x;
      assert MonitorOffenders(head, procs, ledger, now, matches)[i] == (x, mon);
    }
  }

  /**
    A pair is selected exactly when its monitor is configured and enabled and its
    record is in the snapshot and passes that monitor's filter: a disabled
    monitor selects nothing, and a record that breaks several monitors is
    selected once for each.
  */
  lemma {:induction false} SelectMembers(mons: seq<Monitor>, procs: seq<Proc>, ledger: Ledger, now: int, matches: Matcher, mon: Monitor, x: Proc)
    ensures (x, mon) in Select(mons, procs, ledger, now, matches)
        <==> mon in mons && mon.enabled && x in procs && Eligible(mon, x, ledger, now, matches)
    decreases |mons|
  {
    if mons != [] {
      SelectMembers(mons[1..], procs, ledger, now, matches, mon, x);
      MonitorOffendersMembers(mons[0], procs, ledger, now, matches, mon, x);
      assert mon in mons <==> mon == mons[0] || mon in mons[1..] by {
        assert mons == [mons[0]] + mons[1..];
      }
    }
  }

  /** Monitors are walked in configured order: selection distributes over concatenation. */
  lemma {:induction false} SelectConcat(a: seq<Monitor>, b: seq<Monitor>, procs: seq<Proc>, ledger: Ledger, now: int, matches: Matcher)
    ensures Select(a + b, procs, ledger, now, matches)
         == Select(a, procs, ledger, now, matches) + Select(b, procs, ledger, now, matches)
    decreases |a|
  {
    if a != [] {
      var head := MonitorOffenders(a[0], procs, ledger, now, matches);
      assert (a + b)[0] == a[0] && (a + b)[1..] == a[1..] + b;
      assert Select(a + b, procs, ledger, now, matches) == head + Select(a[1..] + b, procs, ledger, now, matches);
      SelectConcat(a[1..], b, procs, ledger, now, matches);
    } else {
      assert a + b == b;
    }
  }

  /** Selecting for one more monitor appends that monitor's offenders. */
  lemma SelectSnoc(mons: seq<Monitor>, mon: Monitor, procs: seq<Proc>, ledger: Ledger, now: int, matches: Matcher)
    ensures Select(mons + [mon], procs, ledger, now, matches)
         == Select(mons, procs, ledger, now, matches) + MonitorOffenders(mon, procs, ledger, now, matches)
  {
    SelectConcat(mons, [mon], procs, ledger, now, matches);
    assert Select([mon], procs, ledger, now, matches) == MonitorOffenders(mon, procs, ledger, now, matches) + [];
  }

}
