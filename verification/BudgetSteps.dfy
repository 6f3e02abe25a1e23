/**
 * The outbound budget under concurrency (`crates/pahoa-net/src/budget.rs`): any number of calls in progress, each
 * atomic operation one step, in any order. The global counter is shared by all connections; a frame may be given back
 * twice.
 */
module BudgetSteps {
  import opened Common

  const STALL_DEADLINE_MS: nat := 120_000

  datatype Config = Config(limit: nat, share: nat)

  datatype Conn = Conn(queued: nat, oversize: nat, lastProgress: nat)

  datatype Refusal =
    | OverShare(counted: nat, size: nat, share: nat)
    | OverRoom(queued: int, size: nat, limit: nat)
    | Stalled(stalledMs: nat)

  type Admission = Result<(), Refusal>

  /** Where a call stands between two atomic operations, with what it has read so far. */
  datatype Call =
    | ReserveStart(conn: nat, size: nat)
    | ReserveRead(conn: nat, size: nat, queued: nat)
    | ReserveCounted(conn: nat, size: nat, queued: nat, counted: nat)
    | ReserveProbed(conn: nat, size: nat, queued: nat, counted: nat)
    | ReserveJudged(conn: nat, size: nat, queued: nat, counted: nat)
    | ReserveOver(conn: nat, size: nat, before: int)
    | ReserveAdded(conn: nat, size: nat, queued: nat, oversized: bool, total: int)
    | ReservePeaked(conn: nat, size: nat, queued: nat, oversized: bool)
    | ReserveClocked(conn: nat, size: nat, oversized: bool)
    | ReserveHeld(conn: nat, size: nat, oversized: bool)
    | ReleaseStart(conn: nat, size: nat)
    | ReleaseTaken(conn: nat, freed: nat, left: nat)
    | ReleaseFreed(conn: nat, freed: nat, left: nat)
    | ReleaseClocked(conn: nat, left: nat)
    | ReleaseAllStart(conn: nat)
    | ReleaseAllTaken(conn: nat, held: nat)
    | ReleaseAllCleared(conn: nat, held: nat)
    | Returned(conn: nat, verdict: Admission)

  datatype State = State(global: int, peak: int, conns: seq<Conn>, calls: seq<Call>)

  const START := State(0, 0, [], [])

  /** A connection arrives, a call begins, or call `i` performs its next atomic operation at clock time `now`. */
  datatype Event = Connect(now: nat) | Begin(call: Call) | Advance(i: nat, now: nat)

  predicate IsFirst(c: Call) {
    c.ReserveStart? || c.ReleaseStart? || c.ReleaseAllStart?
  }

  predicate Enabled(s: State, e: Event) {
    match e
    case Connect(_) => true
    case Begin(c) => IsFirst(c) && c.conn < |s.conns|
    case Advance(i, _) => i < |s.calls|
  }

  function Monus(a: nat, b: nat): nat {
    if a < b then 0 else a - b
  }

  function Min(a: nat, b: nat): nat {
    if a < b then a else b
  }

  function Max(a: int, b: int): int {
    if a < b then b else a
  }

  /** One atomic operation on the shared counters: the new counters, the connection after it, the call after it. */
  function Operate(cfg: Config, global: int, peak: int, k: Conn, c: Call, now: nat): (int, int, Conn, Call) {
    match c
    case ReserveStart(conn, size) =>
      (global, peak, k, ReserveRead(conn, size, k.queued))
    case ReserveRead(conn, size, queued) =>
      (global, peak, k, ReserveCounted(conn, size, queued, Monus(queued, k.oversize)))
    case ReserveCounted(conn, size, queued, counted) =>
      // The stall test reads `queued` afresh; an empty queue is never stalled.
      (global, peak, k, if k.queued == 0 then ReserveJudged(conn, size, queued, counted)
                        else ReserveProbed(conn, size, queued, counted))
    case ReserveProbed(conn, size, queued, counted) =>
      (global, peak, k, if Monus(now, k.lastProgress) > STALL_DEADLINE_MS
                        then Returned(conn, Err(Stalled(Monus(now, k.lastProgress))))
                        else ReserveJudged(conn, size, queued, counted))
    case ReserveJudged(conn, size, queued, counted) =>
      var oversized := size > cfg.share && counted < cfg.share;
      if !oversized && counted + size > cfg.share then
        (global, peak, k, Returned(conn, Err(OverShare(counted, size, cfg.share))))
      else if global + size > cfg.limit then (global + size, peak, k, ReserveOver(conn, size, global))
      else (global + size, peak, k, ReserveAdded(conn, size, queued, oversized, global + size))
    case ReserveOver(conn, size, queued) =>
      (global - size, peak, k, Returned(conn, Err(OverRoom(queued, size, cfg.limit))))
    case ReserveAdded(conn, size, queued, oversized, total) =>
      (global, Max(peak, total), k, ReservePeaked(conn, size, queued, oversized))
    case ReservePeaked(conn, size, queued, oversized) =>
      (global, peak, if queued == 0 then k.(lastProgress := now) else k, ReserveClocked(conn, size, oversized))
    case ReserveClocked(conn, size, oversized) =>
      (global, peak, k.(queued := k.queued + size), ReserveHeld(conn, size, oversized))
    case ReserveHeld(conn, size, oversized) =>
      (global, peak, if oversized then k.(oversize := k.oversize + size) else k, Returned(conn, Ok(())))
    case ReleaseStart(conn, size) =>
      var freed := Min(k.queued, size);
      (global, peak, k.(queued := k.queued - freed), ReleaseTaken(conn, freed, k.queued - freed))
    case ReleaseTaken(conn, freed, left) =>
      (global - freed, peak, k, ReleaseFreed(conn, freed, left))
    case ReleaseFreed(conn, freed, left) =>
      (global, peak, if freed > 0 then k.(lastProgress := now) else k, ReleaseClocked(conn, left))
    case ReleaseClocked(conn, left) =>
      (global, peak, if left == 0 then k.(oversize := 0) else k, Returned(conn, Ok(())))
    case ReleaseAllStart(conn) =>
      (global, peak, k.(queued := 0), ReleaseAllTaken(conn, k.queued))
    case ReleaseAllTaken(conn, held) =>
      (global, peak, k.(oversize := 0), ReleaseAllCleared(conn, held))
    case ReleaseAllCleared(conn, held) =>
      (global - held, peak, k, Returned(conn, Ok(())))
    case Returned(_, _) => (global, peak, k, c)
  }

  function Apply(cfg: Config, s: State, e: Event): State
    requires Enabled(s, e)
    requires forall i | 0 <= i < |s.calls| :: s.calls[i].conn < |s.conns|
  {
    match e
    case Connect(now) => s.(conns := s.conns + [Conn(0, 0, now)])
    case Begin(c) => s.(calls := s.calls + [c])
    case Advance(i, now) =>
      var (global, peak, k, c) := Operate(cfg, s.global, s.peak, s.conns[s.calls[i].conn], s.calls[i], now);
      State(global, peak, s.conns[s.calls[i].conn := k], s.calls[i := c])
  }

  // What is where.

  ghost function QueuedSum(conns: seq<Conn>): nat {
    if conns == [] then 0 else conns[0].queued + QueuedSum(conns[1..])
  }

  /** Bytes a call has added to or not yet taken from the global counter, beyond what its connection shows. */
  ghost function Pending(c: Call): nat {
    match c
    case ReserveOver(_, size, _) => size
    case ReserveAdded(_, size, _, _, _) => size
    case ReservePeaked(_, size, _, _) => size
    case ReserveClocked(_, size, _) => size
    case ReleaseTaken(_, freed, _) => freed
    case ReleaseAllTaken(_, held) => held
    case ReleaseAllCleared(_, held) => held
    case _ => 0
  }

  /** Bytes of a reservation that has been refused for the room's limit but not yet taken back. */
  ghost function Refused(c: Call): nat {
    if c.ReserveOver? then c.size else 0
  }

  ghost function PendingSum(calls: seq<Call>): nat {
    if calls == [] then 0 else Pending(calls[0]) + PendingSum(calls[1..])
  }

  ghost function RefusedSum(calls: seq<Call>): nat {
    if calls == [] then 0 else Refused(calls[0]) + RefusedSum(calls[1..])
  }

  /**
   * The counter is the sum of what every connection holds and what every call in progress has pending; all of that but
   * refused reservations fits the limit; and so does the high-water mark.
   */
  ghost predicate Inv(cfg: Config, s: State) {
    && (forall i | 0 <= i < |s.calls| :: s.calls[i].conn < |s.conns|)
    && s.global == QueuedSum(s.conns) + PendingSum(s.calls)
    && s.global <= cfg.limit + RefusedSum(s.calls)
    && s.peak <= cfg.limit
    && (forall i | 0 <= i < |s.calls| && s.calls[i].ReserveAdded? :: s.calls[i].total <= cfg.limit)
  }

  lemma {:induction false} QueuedUpdate(conns: seq<Conn>, i: nat, k: Conn)
    requires i < |conns|
    ensures QueuedSum(conns[i := k]) == QueuedSum(conns) - conns[i].queued + k.queued
  {
    if i > 0 {
      assert conns[i := k][1..] == conns[1..][i - 1 := k];
      QueuedUpdate(conns[1..], i - 1, k);
    }
  }

  lemma {:induction false} QueuedAppend(conns: seq<Conn>, k: Conn)
    ensures QueuedSum(conns + [k]) == QueuedSum(conns) + k.queued
  {
    if conns != [] {
      assert (conns + [k])[1..] == conns[1..] + [k];
      QueuedAppend(conns[1..], k);
    }
  }

  lemma {:induction false} CallsUpdate(calls: seq<Call>, i: nat, c: Call)
    requires i < |calls|
    ensures PendingSum(calls[i := c]) == PendingSum(calls) - Pending(calls[i]) + Pending(c)
    ensures RefusedSum(calls[i := c]) == RefusedSum(calls) - Refused(calls[i]) + Refused(c)
    ensures Pending(calls[i]) - Refused(calls[i]) <= PendingSum(calls) - RefusedSum(calls)
    ensures RefusedSum(calls) <= PendingSum(calls)
  {
    RefusedArePending(calls);
    RefusedArePending(calls[1..]);
    if i > 0 {
      assert calls[i := c][1..] == calls[1..][i - 1 := c];
      CallsUpdate(calls[1..], i - 1, c);
    }
  }

  lemma {:induction false} RefusedArePending(calls: seq<Call>)
    ensures RefusedSum(calls) <= PendingSum(calls)
  {
    if calls != [] {
      RefusedArePending(calls[1..]);
    }
  }

  lemma {:induction false} CallsAppend(calls: seq<Call>, c: Call)
    ensures PendingSum(calls + [c]) == PendingSum(calls) + Pending(c)
    ensures RefusedSum(calls + [c]) == RefusedSum(calls) + Refused(c)
  {
    if calls != [] {
      assert (calls + [c])[1..] == calls[1..] + [c];
      CallsAppend(calls[1..], c);
    }
  }

  /**
   * Conservation in one operation: what leaves or enters the counter is accounted for by the connection and the call.
   */
  lemma OperateConserves(cfg: Config, global: int, peak: int, k: Conn, c: Call, now: nat)
    requires global >= 0
    ensures var (g, p, k', c') := Operate(cfg, global, peak, k, c, now);
            && g - global == (k'.queued - k.queued) + (Pending(c') - Pending(c))
            && c'.conn == c.conn
            && (g <= cfg.limit + Refused(c') || g - Refused(c') <= global - Refused(c))
            && p <= Max(peak, if c.ReserveAdded? then c.total else 0)
            && (c'.ReserveAdded? ==> c'.total <= cfg.limit)
  {
  }

  lemma StepKeepsInv(cfg: Config, s: State, e: Event)
    requires Inv(cfg, s) && Enabled(s, e)
    ensures Inv(cfg, Apply(cfg, s, e))
  {
    match e
    case Connect(now) => QueuedAppend(s.conns, Conn(0, 0, now));
    case Begin(c) => CallsAppend(s.calls, c);
    case Advance(i, now) =>
      var j := s.calls[i].conn;
      var (g, p, k, c) := Operate(cfg, s.global, s.peak, s.conns[j], s.calls[i], now);
      OperateConserves(cfg, s.global, s.peak, s.conns[j], s.calls[i], now);
      hide Operate, Pending, Refused;
      QueuedUpdate(s.conns, j, k);
      CallsUpdate(s.calls, i, c);
      AtLeastRefused(s.calls, i);
  }

  lemma {:induction false} AtLeastRefused(calls: seq<Call>, i: nat)
    requires i < |calls|
    ensures Refused(calls[i]) <= RefusedSum(calls)
  {
    if i > 0 {
      AtLeastRefused(calls[1..], i - 1);
    }
  }

  /** A run: each event possible when it happens. */
  ghost predicate IsRun(cfg: Config, s: State, events: seq<Event>)
    requires Inv(cfg, s)
    decreases |events|
  {
    events == [] || (Enabled(s, events[0]) && (StepKeepsInv(cfg, s, events[0]);
                                               IsRun(cfg, Apply(cfg, s, events[0]), events[1..])))
  }

  ghost function After(cfg: Config, s: State, events: seq<Event>): (t: State)
    requires Inv(cfg, s) && IsRun(cfg, s, events)
    ensures Inv(cfg, t)
    decreases |events|
  {
    if events == [] then s
    else
      StepKeepsInv(cfg, s, events[0]);
      After(cfg, Apply(cfg, s, events[0]), events[1..])
  }

  /**
   * However calls interleave: the counter never goes below zero and equals what connections hold plus what calls have
   * pending; it exceeds the limit by no more than reservations being taken back; the mark never exceeds the limit; and
   * when no call is in progress the counter is exactly what the connections hold, within the limit.
   */
  lemma EveryInterleaving(cfg: Config, events: seq<Event>)
    requires IsRun(cfg, START, events)
    ensures var s := After(cfg, START, events);
            && 0 <= s.global == QueuedSum(s.conns) + PendingSum(s.calls)
            && s.global - RefusedSum(s.calls) <= cfg.limit
            && s.peak <= cfg.limit
            && ((forall i | 0 <= i < |s.calls| :: s.calls[i].Returned?) ==> s.global == QueuedSum(s.conns) <= cfg.limit)
  {
    var s := After(cfg, START, events);
    if forall i | 0 <= i < |s.calls| :: s.calls[i].Returned? {
      NothingPending(s.calls);
    }
  }

  lemma {:induction false} NothingPending(calls: seq<Call>)
    requires forall i | 0 <= i < |calls| :: calls[i].Returned?
    ensures PendingSum(calls) == 0 && RefusedSum(calls) == 0
  {
    if calls != [] {
      NothingPending(calls[1..]);
    }
  }
}
