/**
 * When a frame must be refused (`crates/pahoa-net/src/budget.rs`), told from what happened to the connection alone:
 * which frames were admitted and drained, and when.
 */
module BudgetHistory {
  import opened Common
  import opened BudgetSteps
  import opened BudgetCalls

  /** What became of a piece of traffic. */
  datatype Entry = Admitted(size: nat, now: nat) | Drained(size: nat, now: nat) | Cleared

  ghost function EntryOf(cfg: Config, l: Ledger, t: Traffic): seq<Entry>
    requires Possible(l, t)
  {
    match t
    case Offer(size, others, now) => if Offered(cfg, l, size, others, now).1.Ok? then [Admitted(size, now)] else []
    case Drain(i, now) => [Drained(l.frames[i].size, now)]
    case TearDown => [Cleared]
  }

  ghost function Log(cfg: Config, l: Ledger, ts: seq<Traffic>): seq<Entry>
    requires IsTraffic(cfg, l, ts)
    decreases |ts|
  {
    if ts == [] then [] else EntryOf(cfg, l, ts[0]) + Log(cfg, Move(cfg, l, ts[0]), ts[1..])
  }

  // What a log says.

  function Front(log: seq<Entry>): seq<Entry>
    requires log != []
  {
    log[..|log| - 1]
  }

  /** Bytes admitted and not drained. */
  function Undrained(log: seq<Entry>): int {
    if log == [] then 0
    else
      match Last(log)
      case Admitted(size, _) => Undrained(Front(log)) + size
      case Drained(size, _) => Undrained(Front(log)) - size
      case Cleared => 0
  }

  /** When something last drained, or was admitted while nothing was held; the beginning if neither happened. */
  function LastMoved(begun: nat, log: seq<Entry>): nat {
    if log == [] then begun
    else
      match Last(log)
      case Admitted(_, now) => if Undrained(Front(log)) == 0 then now else LastMoved(begun, Front(log))
      case Drained(size, now) => if size > 0 then now else LastMoved(begun, Front(log))
      case Cleared => LastMoved(begun, Front(log))
  }

  /** Bytes admitted since the connection was last empty as payloads larger than the share. */
  function Large(share: nat, log: seq<Entry>): nat {
    if log == [] || Undrained(log) == 0 then 0
    else
      match Last(log)
      case Admitted(size, _) => Large(share, Front(log)) + if size > share then size else 0
      case _ => Large(share, Front(log))
  }

  /** What is counted against the share. */
  function Counted(share: nat, log: seq<Entry>): nat {
    var n := Undrained(log) - Large(share, log);
    if n < 0 then 0 else n
  }

  /** The connection's three numbers are what its log says. */
  ghost predicate Kept(cfg: Config, begun: nat, log: seq<Entry>, l: Ledger) {
    && l.conn.queued == Bytes(l.frames) == Undrained(log)
    && l.conn.oversize == Large(cfg.share, log)
    && l.conn.lastProgress == LastMoved(begun, log)
  }

  lemma LogStep(log: seq<Entry>, e: Entry)
    ensures Last(log + [e]) == e && Front(log + [e]) == log
  {
  }

  lemma {:induction false} FrameWithin(frames: seq<Frame>, i: nat)
    requires i < |frames|
    ensures frames[i].size <= Bytes(frames)
  {
    BytesRemove(frames, i);
  }

  lemma OfferKept(cfg: Config, begun: nat, log: seq<Entry>, l: Ledger, size: nat, others: nat, now: nat)
    requires Kept(cfg, begun, log, l) && !l.closed
    ensures var t := Offer(size, others, now); Kept(cfg, begun, log + EntryOf(cfg, l, t), Move(cfg, l, t))
  {
    hide Bytes;
    var (w, r) := Offered(cfg, l, size, others, now);
    if r.Ok? {
      LogStep(log, Admitted(size, now));
      BytesAppend(l.frames, Frame(size, w.conn.oversize > l.conn.oversize));
    } else {
      assert log + [] == log;
    }
  }

  lemma DrainKept(cfg: Config, begun: nat, log: seq<Entry>, l: Ledger, i: nat, now: nat)
    requires Kept(cfg, begun, log, l) && i < |l.frames|
    ensures Kept(cfg, begun, log + EntryOf(cfg, l, Drain(i, now)), Move(cfg, l, Drain(i, now)))
  {
    hide Bytes;
    LogStep(log, Drained(l.frames[i].size, now));
    BytesRemove(l.frames, i);
  }

  lemma MoveKept(cfg: Config, begun: nat, log: seq<Entry>, l: Ledger, t: Traffic)
    requires Kept(cfg, begun, log, l) && Possible(l, t)
    ensures Kept(cfg, begun, log + EntryOf(cfg, l, t), Move(cfg, l, t))
  {
    match t
    case Offer(size, others, now) => OfferKept(cfg, begun, log, l, size, others, now);
    case Drain(i, now) => DrainKept(cfg, begun, log, l, i, now);
    case TearDown => LogStep(log, Cleared);
  }

  lemma {:induction false} RunKept(cfg: Config, begun: nat, log: seq<Entry>, l: Ledger, ts: seq<Traffic>)
    requires IsTraffic(cfg, l, ts) && Kept(cfg, begun, log, l)
    ensures Kept(cfg, begun, log + Log(cfg, l, ts), Final(cfg, l, ts))
    decreases |ts|
  {
    if ts == [] {
      assert log + [] == log;
    } else {
      var more, m := EntryOf(cfg, l, ts[0]), Move(cfg, l, ts[0]);
      MoveKept(cfg, begun, log, l, ts[0]);
      RunKept(cfg, begun, log + more, m, ts[1..]);
      assert (log + more) + Log(cfg, m, ts[1..]) == log + (more + Log(cfg, m, ts[1..]));
    }
  }

  lemma LogMeansBytes(cfg: Config, begun: nat, ts: seq<Traffic>)
    requires IsTraffic(cfg, FreshLedger(begun), ts)
    ensures Kept(cfg, begun, Log(cfg, FreshLedger(begun), ts), Final(cfg, FreshLedger(begun), ts))
  {
    RunKept(cfg, begun, [], FreshLedger(begun), ts);
    assert [] + Log(cfg, FreshLedger(begun), ts) == Log(cfg, FreshLedger(begun), ts);
  }

  /** The answer to an offer, from the log. */
  function Verdict(cfg: Config, begun: nat, log: seq<Entry>, size: nat, others: nat, now: nat): Admission
    requires Undrained(log) >= 0
  {
    var counted := Counted(cfg.share, log);
    if Undrained(log) > 0 && now > LastMoved(begun, log) + 120_000 then Err(Stalled(now - LastMoved(begun, log)))
    else if counted + size > cfg.share && (size <= cfg.share || counted >= cfg.share)
    then Err(OverShare(counted, size, cfg.share))
    else if others + Undrained(log) + size > cfg.limit then Err(OverRoom(others + Undrained(log), size, cfg.limit))
    else Ok(())
  }

  lemma KeptDecides(cfg: Config, begun: nat, log: seq<Entry>, l: Ledger, size: nat, others: nat, now: nat)
    requires Kept(cfg, begun, log, l)
    ensures Undrained(log) >= 0 && Offered(cfg, l, size, others, now).1 == Verdict(cfg, begun, log, size, others, now)
  {
    hide Undrained, LastMoved, Large, Bytes;
  }

  /** After any traffic the answer is decided by what was admitted and drained, and when. */
  lemma HistoryDecides(cfg: Config, begun: nat, ts: seq<Traffic>, size: nat, others: nat, now: nat)
    requires IsTraffic(cfg, FreshLedger(begun), ts)
    ensures var log := Log(cfg, FreshLedger(begun), ts);
            && Undrained(log) >= 0
            && Offered(cfg, Final(cfg, FreshLedger(begun), ts), size, others, now).1
            == Verdict(cfg, begun, log, size, others, now)
  {
    hide Offered, Verdict, Kept, Log, Final, IsTraffic, Undrained;
    LogMeansBytes(cfg, begun, ts);
    KeptDecides(cfg, begun, Log(cfg, FreshLedger(begun), ts), Final(cfg, FreshLedger(begun), ts), size, others, now);
  }

  // Two consequences.

  ghost predicate OnlyOffers(ts: seq<Traffic>) {
    forall i | 0 <= i < |ts| :: ts[i].Offer?
  }

  ghost predicate OnlyAdmitted(log: seq<Entry>) {
    forall i | 0 <= i < |log| :: log[i].Admitted?
  }

  lemma {:induction false} OffersAdmit(cfg: Config, l: Ledger, ts: seq<Traffic>)
    requires IsTraffic(cfg, l, ts) && OnlyOffers(ts)
    ensures OnlyAdmitted(Log(cfg, l, ts))
    decreases |ts|
  {
    hide Move, Offered;
    if ts != [] {
      assert ts[0].Offer?;
      OffersAdmit(cfg, Move(cfg, l, ts[0]), ts[1..]);
    }
  }

  /** While something is held and nothing drains, admissions do not count as progress. */
  lemma {:induction false} NothingMoved(begun: nat, log: seq<Entry>, more: seq<Entry>)
    requires Undrained(log) > 0 && OnlyAdmitted(more)
    ensures Undrained(log + more) > 0 && LastMoved(begun, log + more) == LastMoved(begun, log)
    decreases |more|
  {
    if more == [] {
      assert log + more == log;
    } else {
      var front := more[..|more| - 1];
      NothingMoved(begun, log, front);
      assert log + more == (log + front) + [Last(more)];
      LogStep(log + front, Last(more));
    }
  }

  lemma {:induction false} TrafficSplits(cfg: Config, l: Ledger, ts: seq<Traffic>, more: seq<Traffic>)
    requires IsTraffic(cfg, l, ts + more)
    ensures IsTraffic(cfg, l, ts) && IsTraffic(cfg, Final(cfg, l, ts), more)
    ensures Final(cfg, l, ts + more) == Final(cfg, Final(cfg, l, ts), more)
    ensures Log(cfg, l, ts + more) == Log(cfg, l, ts) + Log(cfg, Final(cfg, l, ts), more)
    decreases |ts|
  {
    hide Move, EntryOf;
    if ts == [] {
      assert ts + more == more;
    } else {
      assert (ts + more)[1..] == ts[1..] + more;
      TrafficSplits(cfg, Move(cfg, l, ts[0]), ts[1..], more);
    }
  }

  /**
   * A stuck connection is refused: holding something that last moved at some moment, and draining nothing since, it is
   * refused for having stalled since then as soon as two minutes have passed, whatever was offered to it meanwhile.
   */
  lemma StuckIsRefused(cfg: Config, begun: nat, ts: seq<Traffic>, more: seq<Traffic>, size: nat, others: nat, now: nat)
    requires IsTraffic(cfg, FreshLedger(begun), ts + more) && OnlyOffers(more)
    requires IsTraffic(cfg, FreshLedger(begun), ts)
    requires Undrained(Log(cfg, FreshLedger(begun), ts)) > 0
    requires now > LastMoved(begun, Log(cfg, FreshLedger(begun), ts)) + 120_000
    ensures Offered(cfg, Final(cfg, FreshLedger(begun), ts + more), size, others, now).1
         == Err(Stalled(now - LastMoved(begun, Log(cfg, FreshLedger(begun), ts))))
  {
    hide Offered, Move, Undrained, LastMoved, Large;
    var l := FreshLedger(begun);
    TrafficSplits(cfg, l, ts, more);
    OffersAdmit(cfg, Final(cfg, l, ts), more);
    NothingMoved(begun, Log(cfg, l, ts), Log(cfg, Final(cfg, l, ts), more));
    HistoryDecides(cfg, begun, ts + more, size, others, now);
  }

  /** No payload larger than `share`. */
  ghost predicate Ordinary(share: nat, ts: seq<Traffic>) {
    forall i | 0 <= i < |ts| && ts[i].Offer? :: ts[i].size <= share
  }

  ghost predicate SmallAdmitted(share: nat, log: seq<Entry>) {
    forall i | 0 <= i < |log| && log[i].Admitted? :: log[i].size <= share
  }

  lemma {:induction false} OrdinaryAdmits(cfg: Config, l: Ledger, ts: seq<Traffic>)
    requires IsTraffic(cfg, l, ts) && Ordinary(cfg.share, ts)
    ensures SmallAdmitted(cfg.share, Log(cfg, l, ts))
    decreases |ts|
  {
    hide Move, Offered;
    if ts != [] {
      assert ts[0].Offer? ==> ts[0].size <= cfg.share;
      assert forall i | 0 <= i < |ts[1..]| && ts[1..][i].Offer? :: ts[i + 1].size <= cfg.share;
      OrdinaryAdmits(cfg, Move(cfg, l, ts[0]), ts[1..]);
    }
  }

  /** From an empty connection on, small payloads leave no allowance. */
  lemma {:induction false} NothingLarge(share: nat, log: seq<Entry>, more: seq<Entry>)
    requires Undrained(log) == 0 && SmallAdmitted(share, more)
    ensures Large(share, log + more) == 0
    decreases |more|
  {
    if more == [] {
      assert log + more == log;
    } else {
      var front := more[..|more| - 1];
      NothingLarge(share, log, front);
      assert log + more == (log + front) + [Last(more)];
      LogStep(log + front, Last(more));
    }
  }

  lemma OrdinaryHeld(cfg: Config, begun: nat, ts: seq<Traffic>, more: seq<Traffic>)
    requires IsTraffic(cfg, FreshLedger(begun), ts + more) && Ordinary(cfg.share, more)
    requires IsTraffic(cfg, FreshLedger(begun), ts) && Bytes(Final(cfg, FreshLedger(begun), ts).frames) == 0
    ensures var last, log := Final(cfg, FreshLedger(begun), ts + more), Log(cfg, FreshLedger(begun), ts + more);
            Undrained(log) == Bytes(last.frames) <= cfg.share && Large(cfg.share, log) == 0
  {
    hide Offered, Move, LastMoved, Bytes, Undrained, Large;
    var l := FreshLedger(begun);
    TrafficSplits(cfg, l, ts, more);
    LogMeansBytes(cfg, begun, ts);
    LogMeansBytes(cfg, begun, ts + more);
    OrdinaryAdmits(cfg, Final(cfg, l, ts), more);
    NothingLarge(cfg.share, Log(cfg, l, ts), Log(cfg, Final(cfg, l, ts), more));
    NewLedger(cfg, begun);
    WholeLife(cfg, l, ts + more);
  }

  /**
   * A connection that was empty after `ts` and has been offered nothing larger than its share since holds at most its
   * share, and an ordinary frame past that is refused for it, unless the connection is refused for having stalled.
   */
  lemma ShareBinds(cfg: Config, begun: nat, ts: seq<Traffic>, more: seq<Traffic>, size: nat, others: nat, now: nat)
    requires IsTraffic(cfg, FreshLedger(begun), ts + more) && Ordinary(cfg.share, more)
    requires IsTraffic(cfg, FreshLedger(begun), ts) && Bytes(Final(cfg, FreshLedger(begun), ts).frames) == 0
    ensures var last := Final(cfg, FreshLedger(begun), ts + more);
            var moved := LastMoved(begun, Log(cfg, FreshLedger(begun), ts + more));
            var r := Offered(cfg, last, size, others, now).1;
            && Bytes(last.frames) <= cfg.share
            && (Bytes(last.frames) > 0 && now > moved + 120_000 ==> r == Err(Stalled(now - moved)))
            && (Bytes(last.frames) == 0 || now <= moved + 120_000 ==>
                  (Bytes(last.frames) + size > cfg.share && size <= cfg.share ==>
                     r == Err(OverShare(Bytes(last.frames), size, cfg.share))))
  {
    hide Offered, Final, Log, IsTraffic, LastMoved, Bytes, Undrained, Large, Ordinary;
    var l := FreshLedger(begun);
    OrdinaryHeld(cfg, begun, ts, more);
    HistoryDecides(cfg, begun, ts + more, size, others, now);
  }

  // The high-water mark.

  /** A whole call on one of the room's connections. */
  datatype RoomCall = Reserving(c: nat, size: nat, now: nat) | Releasing(c: nat, size: nat, now: nat) | Leaving(c: nat)

  datatype Room = Room(global: int, peak: int, conns: seq<Conn>)

  function AfterCall(cfg: Config, r: Room, call: RoomCall): Room {
    if call.c >= |r.conns| then r
    else
      var w := World(r.global, r.peak, r.conns[call.c]);
      var v := match call
        case Reserving(_, size, now) => Reserve(cfg, w, size, now).0
        case Releasing(_, size, now) => Release(w, size, now)
        case Leaving(_) => ReleaseAll(w);
      Room(v.global, v.peak, r.conns[call.c := v.conn])
  }

  /** The room after the first `k` calls. */
  function AfterCalls(cfg: Config, r: Room, calls: seq<RoomCall>, k: nat): Room
    requires k <= |calls|
  {
    if k == 0 then r else AfterCall(cfg, AfterCalls(cfg, r, calls, k - 1), calls[k - 1])
  }

  /** From an empty room, the peak is the most that was ever queued at once, after whichever call that was. */
  lemma {:induction false} PeakIsHighest(cfg: Config, conns: seq<Conn>, calls: seq<RoomCall>, k: nat)
    requires k <= |calls|
    ensures var start := Room(0, 0, conns);
            var peak := AfterCalls(cfg, start, calls, k).peak;
            && (forall i: nat | i <= k :: AfterCalls(cfg, start, calls, i).global <= peak)
            && (exists i: nat :: i <= k && AfterCalls(cfg, start, calls, i).global == peak)
  {
    var start := Room(0, 0, conns);
    if k == 0 {
      assert AfterCalls(cfg, start, calls, 0).global == 0;
    } else {
      PeakIsHighest(cfg, conns, calls, k - 1);
      var before, after := AfterCalls(cfg, start, calls, k - 1), AfterCalls(cfg, start, calls, k);
      if after.peak != before.peak {
        assert AfterCalls(cfg, start, calls, k).global == after.peak;
      }
    }
  }
}
