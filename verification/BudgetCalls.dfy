/**
 * The budget call by call (`crates/pahoa-net/src/budget.rs`): what one connection may still queue, judged against the
 * frames it was really given and has not drained.
 */
module BudgetCalls {
  import opened Common
  import opened BudgetSteps

  /** The two process-wide counters and one connection's own, as values. */
  datatype World = World(global: int, peak: int, conn: Conn)

  function StalledFor(k: Conn, now: nat): Option<nat> {
    if k.queued == 0 then None else Some(Monus(now, k.lastProgress))
  }

  function Reserve(cfg: Config, w: World, size: nat, now: nat): (World, Admission) {
    var k := w.conn;
    var counted := Monus(k.queued, k.oversize);
    var oversized := size > cfg.share && counted < cfg.share;
    if StalledFor(k, now).Some? && StalledFor(k, now).value > STALL_DEADLINE_MS then
      (w, Err(Stalled(StalledFor(k, now).value)))
    else if !oversized && counted + size > cfg.share then
      (w, Err(OverShare(counted, size, cfg.share)))
    else if w.global + size > cfg.limit then
      (w, Err(OverRoom(w.global, size, cfg.limit)))
    else
      var held := Conn(
        k.queued + size,
        if oversized then k.oversize + size else k.oversize,
        if k.queued == 0 then now else k.lastProgress);
      (World(w.global + size, Max(w.peak, w.global + size), held), Ok(()))
  }

  function Release(w: World, size: nat, now: nat): World {
    var k := w.conn;
    var freed := Min(k.queued, size);
    var left := k.queued - freed;
    World(w.global - freed, w.peak,
          Conn(left, if left == 0 then 0 else k.oversize, if freed > 0 then now else k.lastProgress))
  }

  function ReleaseAll(w: World): World {
    World(w.global - w.conn.queued, w.peak, Conn(0, 0, w.conn.lastProgress))
  }

  // The calls as they run, on shared counters.

  class Counters {
    var queued: int
    var peak: int

    constructor ()
      ensures queued == 0 && peak == 0
    {
      queued, peak := 0, 0;
    }
  }

  class ConnBudget {
    var queued: nat
    var oversize: nat
    var lastProgress: nat

    /** A connection starts as having just made progress. */
    constructor (now: nat)
      ensures Value() == Conn(0, 0, now)
    {
      queued, oversize, lastProgress := 0, 0, now;
    }

    ghost function Value(): Conn
      reads this
    {
      Conn(queued, oversize, lastProgress)
    }

    method MadeProgress(now: nat)
      modifies `lastProgress
      ensures lastProgress == now
    {
      lastProgress := now;
    }

    method StalledTime(now: nat) returns (ms: Option<nat>)
      ensures ms == StalledFor(Value(), now)
    {
      if queued == 0 {
        return None;
      }
      return Some(Monus(now, lastProgress));
    }
  }

  class Budget {
    const limit: nat
    const perConnection: nat
    const counters: Counters

    constructor (limit: nat, perConnection: nat, counters: Counters)
      ensures this.limit == limit && this.perConnection == perConnection && this.counters == counters
    {
      this.limit, this.perConnection, this.counters := limit, perConnection, counters;
    }

    ghost function Seen(conn: ConnBudget): World
      reads counters, conn
    {
      World(counters.queued, counters.peak, conn.Value())
    }

    method ReserveReported(conn: ConnBudget, size: nat, now: nat) returns (r: Admission)
      modifies counters, conn
      ensures (Seen(conn), r) == Reserve(Config(limit, perConnection), old(Seen(conn)), size, now)
    {
      var queued := conn.queued;
      var counted := Monus(queued, conn.oversize);
      var stalled := conn.StalledTime(now);
      if stalled.Some? && stalled.value > STALL_DEADLINE_MS {
        return Err(Stalled(stalled.value));
      }
      var oversized := size > perConnection && counted < perConnection;
      if !oversized && counted + size > perConnection {
        return Err(OverShare(counted, size, perConnection));
      }
      counters.queued := counters.queued + size;
      var total := counters.queued;
      if total > limit {
        counters.queued := counters.queued - size;
        return Err(OverRoom(total - size, size, limit));
      }
      counters.peak := Max(counters.peak, total);
      if queued == 0 {
        conn.MadeProgress(now);
      }
      conn.queued := conn.queued + size;
      if oversized {
        conn.oversize := conn.oversize + size;
      }
      return Ok(());
    }

    method GiveBack(conn: ConnBudget, size: nat, now: nat)
      modifies counters, conn
      ensures Seen(conn) == Release(old(Seen(conn)), size, now)
    {
      var freed := Min(conn.queued, size);
      var left := conn.queued - freed;
      conn.queued := left;
      counters.queued := counters.queued - freed;
      if freed > 0 {
        conn.MadeProgress(now);
      }
      if left == 0 {
        conn.oversize := 0;
      }
    }

    method GiveBackAll(conn: ConnBudget)
      modifies counters, conn
      ensures Seen(conn) == ReleaseAll(old(Seen(conn)))
    {
      var held := conn.queued;
      conn.queued := 0;
      conn.oversize := 0;
      counters.queued := counters.queued - held;
    }
  }

  // A call nobody interrupts is the call above.

  /** Runs one call alone from where it stands, the clock standing still. */
  function Alone(cfg: Config, w: World, c: Call, now: nat, steps: nat): (World, Call)
    decreases steps
  {
    if steps == 0 then (w, c)
    else
      var (g, p, k, d) := Operate(cfg, w.global, w.peak, w.conn, c, now);
      Alone(cfg, World(g, p, k), d, now, steps - 1)
  }

  lemma AloneStep(cfg: Config, w: World, c: Call, now: nat, steps: nat)
    requires steps > 0
    ensures var (g, p, k, d) := Operate(cfg, w.global, w.peak, w.conn, c, now);
            Alone(cfg, w, c, now, steps) == Alone(cfg, World(g, p, k), d, now, steps - 1)
  {
  }

  lemma {:induction false} AloneReturned(cfg: Config, w: World, conn: nat, r: Admission, now: nat, steps: nat)
    ensures Alone(cfg, w, Returned(conn, r), now, steps) == (w, Returned(conn, r))
  {
    if steps > 0 {
      AloneReturned(cfg, w, conn, r, now, steps - 1);
    }
  }

  /** Uninterrupted, the nine atomic operations of a reservation do and answer what the whole call does. */
  lemma ReserveAlone(cfg: Config, w: World, conn: nat, size: nat, now: nat)
    ensures var (after, verdict) := Reserve(cfg, w, size, now);
            Alone(cfg, w, ReserveStart(conn, size), now, 9) == (after, Returned(conn, verdict))
  {
    hide Alone;
    var q, o := w.conn.queued, w.conn.oversize;
    var counted := Monus(q, o);
    AloneStep(cfg, w, ReserveStart(conn, size), now, 9);
    AloneStep(cfg, w, ReserveRead(conn, size, q), now, 8);
    AloneStep(cfg, w, ReserveCounted(conn, size, q, counted), now, 7);
    if q > 0 && Monus(now, w.conn.lastProgress) > STALL_DEADLINE_MS {
      AloneStep(cfg, w, ReserveProbed(conn, size, q, counted), now, 6);
      AloneReturned(cfg, w, conn, Err(Stalled(Monus(now, w.conn.lastProgress))), now, 5);
    } else if q > 0 {
      AloneStep(cfg, w, ReserveProbed(conn, size, q, counted), now, 6);
      JudgedAlone(cfg, w, conn, size, now, 5);
    } else {
      JudgedAlone(cfg, w, conn, size, now, 6);
    }
  }

  lemma JudgedAlone(cfg: Config, w: World, conn: nat, size: nat, now: nat, steps: nat)
    requires steps >= 5
    requires StalledFor(w.conn, now).Some? ==> StalledFor(w.conn, now).value <= STALL_DEADLINE_MS
    ensures Alone(cfg, w, ReserveJudged(conn, size, w.conn.queued, Monus(w.conn.queued, w.conn.oversize)), now, steps)
         == (Reserve(cfg, w, size, now).0, Returned(conn, Reserve(cfg, w, size, now).1))
  {
    hide Alone;
    var q := w.conn.queued;
    var counted := Monus(q, w.conn.oversize);
    var oversized := size > cfg.share && counted < cfg.share;
    AloneStep(cfg, w, ReserveJudged(conn, size, q, counted), now, steps);
    if !oversized && counted + size > cfg.share {
      AloneReturned(cfg, w, conn, Err(OverShare(counted, size, cfg.share)), now, steps - 1);
    } else if w.global + size > cfg.limit {
      var w1 := w.(global := w.global + size);
      AloneStep(cfg, w1, ReserveOver(conn, size, w.global), now, steps - 1);
      AloneReturned(cfg, w, conn, Err(OverRoom(w.global, size, cfg.limit)), now, steps - 2);
    } else {
      var total := w.global + size;
      var w1 := w.(global := total);
      AloneStep(cfg, w1, ReserveAdded(conn, size, q, oversized, total), now, steps - 1);
      var w2 := w1.(peak := Max(w.peak, total));
      AloneStep(cfg, w2, ReservePeaked(conn, size, q, oversized), now, steps - 2);
      var k3 := if q == 0 then w.conn.(lastProgress := now) else w.conn;
      AloneStep(cfg, w2.(conn := k3), ReserveClocked(conn, size, oversized), now, steps - 3);
      var k4 := k3.(queued := q + size);
      AloneStep(cfg, w2.(conn := k4), ReserveHeld(conn, size, oversized), now, steps - 4);
      var k5 := if oversized then k4.(oversize := k4.oversize + size) else k4;
      AloneReturned(cfg, w2.(conn := k5), conn, Ok(()), now, steps - 5);
    }
  }

  lemma ReleaseAlone(cfg: Config, w: World, conn: nat, size: nat, now: nat)
    ensures Alone(cfg, w, ReleaseStart(conn, size), now, 4) == (Release(w, size, now), Returned(conn, Ok(())))
  {
    hide Alone;
    var freed := Min(w.conn.queued, size);
    var left := w.conn.queued - freed;
    AloneStep(cfg, w, ReleaseStart(conn, size), now, 4);
    var w1 := w.(conn := w.conn.(queued := left));
    AloneStep(cfg, w1, ReleaseTaken(conn, freed, left), now, 3);
    var w2 := w1.(global := w.global - freed);
    AloneStep(cfg, w2, ReleaseFreed(conn, freed, left), now, 2);
    var w3 := if freed > 0 then w2.(conn := w2.conn.(lastProgress := now)) else w2;
    AloneStep(cfg, w3, ReleaseClocked(conn, left), now, 1);
    AloneReturned(cfg, Release(w, size, now), conn, Ok(()), now, 0);
  }

  lemma ReleaseAllAlone(cfg: Config, w: World, conn: nat, now: nat)
    ensures Alone(cfg, w, ReleaseAllStart(conn), now, 3) == (ReleaseAll(w), Returned(conn, Ok(())))
  {
    hide Alone;
    AloneStep(cfg, w, ReleaseAllStart(conn), now, 3);
    var w1 := w.(conn := w.conn.(queued := 0));
    AloneStep(cfg, w1, ReleaseAllTaken(conn, w.conn.queued), now, 2);
    var w2 := w1.(conn := w1.conn.(oversize := 0));
    AloneStep(cfg, w2, ReleaseAllCleared(conn, w.conn.queued), now, 1);
    AloneReturned(cfg, ReleaseAll(w), conn, Ok(()), now, 0);
  }

  // One connection and the frames it has not drained.

  /** A frame given to the connection, and whether it was let in as a single payload larger than the share. */
  datatype Frame = Frame(size: nat, oversized: bool)

  datatype Ledger = Ledger(conn: Conn, frames: seq<Frame>, closed: bool)

  /** A frame offered while the rest of the room holds `others` bytes; a frame drained; the connection torn down. */
  datatype Traffic = Offer(size: nat, others: nat, now: nat) | Drain(i: nat, now: nat) | TearDown

  function FreshLedger(now: nat): Ledger {
    Ledger(Conn(0, 0, now), [], false)
  }

  predicate Possible(l: Ledger, t: Traffic) {
    match t
    case Offer(_, _, _) => !l.closed
    case Drain(i, _) => i < |l.frames|
    case TearDown => true
  }

  function Offered(cfg: Config, l: Ledger, size: nat, others: nat, now: nat): (World, Admission) {
    Reserve(cfg, World(others + l.conn.queued, 0, l.conn), size, now)
  }

  predicate OverItsShare(r: Admission) {
    r.Err? && r.error.OverShare?
  }

  function Move(cfg: Config, l: Ledger, t: Traffic): Ledger
    requires Possible(l, t)
  {
    match t
    case Offer(size, others, now) =>
      var (w, r) := Offered(cfg, l, size, others, now);
      if r.Ok? then
        Ledger(w.conn, l.frames + [Frame(size, w.conn.oversize > l.conn.oversize)], false)
      else l
    case Drain(i, now) =>
      var w := Release(World(l.conn.queued, 0, l.conn), l.frames[i].size, now);
      Ledger(w.conn, l.frames[..i] + l.frames[i + 1..], l.closed)
    case TearDown => Ledger(ReleaseAll(World(l.conn.queued, 0, l.conn)).conn, [], true)
  }

  ghost function Bytes(frames: seq<Frame>): nat {
    if frames == [] then 0 else frames[0].size + Bytes(frames[1..])
  }

  ghost function OrdinaryBytes(frames: seq<Frame>): nat {
    if frames == [] then 0 else (if frames[0].oversized then 0 else frames[0].size) + OrdinaryBytes(frames[1..])
  }

  /** What the connection's three numbers mean in terms of its frames. */
  ghost predicate LedgerInv(cfg: Config, l: Ledger) {
    && l.conn.queued == Bytes(l.frames)
    && Bytes(l.frames) <= OrdinaryBytes(l.frames) + l.conn.oversize
    && l.conn.queued <= l.conn.oversize + cfg.share
  }

  lemma {:induction false} BytesAppend(frames: seq<Frame>, f: Frame)
    ensures Bytes(frames + [f]) == Bytes(frames) + f.size
    ensures OrdinaryBytes(frames + [f]) == OrdinaryBytes(frames) + if f.oversized then 0 else f.size
  {
    if frames != [] {
      assert (frames + [f])[1..] == frames[1..] + [f];
      BytesAppend(frames[1..], f);
    }
  }

  lemma {:induction false} BytesRemove(frames: seq<Frame>, i: nat)
    requires i < |frames|
    ensures var rest := frames[..i] + frames[i + 1..];
            && Bytes(rest) == Bytes(frames) - frames[i].size
            && OrdinaryBytes(rest) == OrdinaryBytes(frames) - if frames[i].oversized then 0 else frames[i].size
  {
    if i == 0 {
      assert frames[..0] + frames[1..] == frames[1..];
    } else {
      var rest := frames[..i] + frames[i + 1..];
      assert rest[1..] == frames[1..][..i - 1] + frames[1..][i..];
      BytesRemove(frames[1..], i - 1);
    }
  }

  lemma {:induction false} OrdinaryWithin(frames: seq<Frame>)
    ensures OrdinaryBytes(frames) <= Bytes(frames)
  {
    if frames != [] {
      OrdinaryWithin(frames[1..]);
    }
  }

  lemma MoveKeepsLedger(cfg: Config, l: Ledger, t: Traffic)
    requires LedgerInv(cfg, l) && Possible(l, t)
    ensures LedgerInv(cfg, Move(cfg, l, t))
  {
    match t
    case Offer(size, others, now) =>
      var (w, r) := Offered(cfg, l, size, others, now);
      if r.Ok? {
        BytesAppend(l.frames, Frame(size, w.conn.oversize > l.conn.oversize));
      }
    case Drain(i, _) =>
      BytesRemove(l.frames, i);
      OrdinaryWithin(l.frames[..i] + l.frames[i + 1..]);
    case TearDown =>
  }

  /**
   * However many oversize payloads are in flight: a frame is refused for the connection's share only when the ordinary
   * bytes it has really not drained, plus the frame, exceed the share.
   */
  lemma ShareIsFair(cfg: Config, l: Ledger, size: nat, others: nat, now: nat)
    requires LedgerInv(cfg, l) && OrdinaryBytes(l.frames) + size <= cfg.share
    ensures !OverItsShare(Offered(cfg, l, size, others, now).1)
  {
  }

  /** A single payload larger than the share gets in whenever the connection has any of its share left. */
  lemma OversizeDeliverable(cfg: Config, l: Ledger, size: nat, others: nat, now: nat)
    requires LedgerInv(cfg, l) && size > cfg.share && OrdinaryBytes(l.frames) < cfg.share
    requires others + l.conn.queued + size <= cfg.limit
    requires l.conn.queued == 0 || now <= l.conn.lastProgress + STALL_DEADLINE_MS
    ensures Offered(cfg, l, size, others, now).1.Ok?
    ensures Offered(cfg, l, size, others, now).0.conn.oversize == l.conn.oversize + size
  {
  }

  ghost predicate IsTraffic(cfg: Config, l: Ledger, ts: seq<Traffic>)
    decreases |ts|
  {
    ts == [] || (Possible(l, ts[0]) && IsTraffic(cfg, Move(cfg, l, ts[0]), ts[1..]))
  }

  ghost function Final(cfg: Config, l: Ledger, ts: seq<Traffic>): Ledger
    requires IsTraffic(cfg, l, ts)
    decreases |ts|
  {
    if ts == [] then l else Final(cfg, Move(cfg, l, ts[0]), ts[1..])
  }

  /** For the whole life of a connection: exact bytes, bounded backlog, and no unfair refusal for the share. */
  lemma {:induction false} WholeLife(cfg: Config, l: Ledger, ts: seq<Traffic>)
    requires LedgerInv(cfg, l) && IsTraffic(cfg, l, ts)
    ensures var last := Final(cfg, l, ts);
            && last.conn.queued == Bytes(last.frames)
            && last.conn.queued <= last.conn.oversize + cfg.share
            && forall size: nat, others: nat, now: nat | OrdinaryBytes(last.frames) + size <= cfg.share ::
                 !OverItsShare(Offered(cfg, last, size, others, now).1)
    decreases |ts|
  {
    if ts == [] {
      forall size: nat, others: nat, now: nat | OrdinaryBytes(l.frames) + size <= cfg.share
        ensures !OverItsShare(Offered(cfg, l, size, others, now).1)
      {
        ShareIsFair(cfg, l, size, others, now);
      }
    } else {
      MoveKeepsLedger(cfg, l, ts[0]);
      WholeLife(cfg, Move(cfg, l, ts[0]), ts[1..]);
    }
  }

  lemma NewLedger(cfg: Config, now: nat)
    ensures LedgerInv(cfg, FreshLedger(now))
  {
  }

  /** When a piece of traffic happens; tearing down reads no clock. */
  function TimeOf(t: Traffic, otherwise: nat): nat {
    match t
    case Offer(_, _, now) => now
    case Drain(_, now) => now
    case TearDown => otherwise
  }

  /** Holding nothing, or having made progress since `start`. */
  predicate ProgressSince(k: Conn, start: nat) {
    k.queued == 0 || k.lastProgress >= start
  }

  lemma MoveKeepsProgress(cfg: Config, l: Ledger, t: Traffic, start: nat)
    requires Possible(l, t) && ProgressSince(l.conn, start) && TimeOf(t, start) >= start
    ensures ProgressSince(Move(cfg, l, t).conn, start)
  {
  }

  lemma {:induction false} RunKeepsProgress(cfg: Config, l: Ledger, ts: seq<Traffic>, start: nat)
    requires IsTraffic(cfg, l, ts) && ProgressSince(l.conn, start)
    requires forall i | 0 <= i < |ts| :: TimeOf(ts[i], start) >= start
    ensures ProgressSince(Final(cfg, l, ts).conn, start)
    decreases |ts|
  {
    if ts != [] {
      MoveKeepsProgress(cfg, l, ts[0], start);
      RunKeepsProgress(cfg, Move(cfg, l, ts[0]), ts[1..], start);
    }
  }

  /**
   * An idle connection is never dropped for having been idle: from a moment `start` when it holds nothing, whatever is
   * offered to it and drained from it after that, nothing offered within the deadline of `start` is refused as stalled.
   */
  lemma IdleIsNotStalled(cfg: Config, l: Ledger, ts: seq<Traffic>, start: nat, size: nat, others: nat, now: nat)
    requires l.conn.queued == 0 && IsTraffic(cfg, l, ts) && forall i | 0 <= i < |ts| :: TimeOf(ts[i], start) >= start
    requires now <= start + STALL_DEADLINE_MS
    ensures var r := Offered(cfg, Final(cfg, l, ts), size, others, now).1; !(r.Err? && r.error.Stalled?)
  {
    RunKeepsProgress(cfg, l, ts, start);
  }
}
