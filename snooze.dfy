/**
  The snooze ledger (`this.snoozed` in lib/engine.js): a table from process id
  to the time, in whole seconds, until which that process is exempt.
*/
module Snooze {

  type Ledger = map<int, int>

  /** The test the offender filter applies: an entry that has not yet expired. */
  predicate ActivelySnoozed(ledger: Ledger, pid: int, now: int)
  {
    pid in ledger && now < ledger[pid]
  }

  /** The ledger after the purge at the start of a tick. */
  function Purged(ledger: Ledger, now: int): (r: Ledger)
    ensures forall pid :: pid in r <==> pid in ledger && !(now > ledger[pid])
    ensures forall pid :: pid in r ==> r[pid] == ledger[pid]
  {
    map pid | pid in ledger && now <= ledger[pid] :: ledger[pid]
  }

  /**
    The purge never changes which processes the filter treats as snoozed at the
    same instant: an entry it drops had already expired.
  */
  lemma PurgeKeepsActiveEntries(ledger: Ledger, pid: int, now: int)
    ensures ActivelySnoozed(Purged(ledger, now), pid, now) <==> ActivelySnoozed(ledger, pid, now)
  {
  }

  /**
    After a snooze of `time` seconds set at `start`, a tick at `now` keeps the
    entry while `now <= start + time`, and the process is exempt exactly while
    `now < start + time`; at `now == start + time` the entry survives but no
    longer exempts.
  */
  lemma SnoozeWindow(ledger: Ledger, pid: int, start: int, time: int, now: int)
    ensures var purged := Purged(ledger[pid := start + time], now);
      && (pid in purged <==> now <= start + time)
      && (ActivelySnoozed(purged, pid, now) <==> now < start + time)
  {
  }

  /** Two ledgers that exempt the same processes at `now`. */
  ghost predicate AgreeAt(a: Ledger, b: Ledger, now: int)
  {
    forall pid :: ActivelySnoozed(a, pid, now) <==> ActivelySnoozed(b, pid, now)
  }

  lemma AgreeAtTransitive(a: Ledger, b: Ledger, c: Ledger, now: int)
    requires AgreeAt(a, b, now) && AgreeAt(b, c, now)
    ensures AgreeAt(a, c, now)
  {
  }

  /** Dropping the entry of a process that is not exempt changes no exemption. */
  lemma DropKeepsAgreement(a: Ledger, b: Ledger, pid: int, now: int)
    requires AgreeAt(a, b, now) && !ActivelySnoozed(b, pid, now)
    ensures AgreeAt(a - {pid}, b, now) && AgreeAt(a, b, now)
  {
  }

}
