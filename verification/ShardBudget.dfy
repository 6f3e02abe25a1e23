/**
 * One shard together with the outbound budget: every frame reserved for before it is queued, given back when the queue
 * would not take it, released when its writer has written it, and whatever is left returned when the member goes.
 */
module ShardBudget {
  import opened Common
  import opened Shard
  import opened ShardFacts
  import opened ShardRuns
  import Steps = BudgetSteps
  import Calls = BudgetCalls

  type Handles = map<ConnId, Steps.Conn>

  /**
   * Every connection's own accounting, and the two process-wide counters. A handle outlives its member: the writer has
   * it.
   */
  datatype Books = Books(handles: Handles, global: int, peak: int)

  function Seen(b: Books, c: ConnId): Calls.World
    requires c in b.handles
  {
    Calls.World(b.global, b.peak, b.handles[c])
  }

  function Written(b: Books, c: ConnId, w: Calls.World): (r: Books) {
    Books(b.handles[c := w.conn], w.global, w.peak)
  }

  // What the counters hold.

  ghost function Total(handles: Handles): nat {
    if handles == map[] then 0
    else
      var c :| c in handles;
      handles[c].queued + Total(handles - {c})
  }

  lemma {:induction false} TotalWithout(handles: Handles, c: ConnId)
    requires c in handles
    ensures Total(handles) == handles[c].queued + Total(handles - {c})
    decreases |handles|
  {
    var d :| d in handles && Total(handles) == handles[d].queued + Total(handles - {d});
    if d != c {
      TotalWithout(handles - {d}, c);
      TotalWithout(handles - {c}, d);
      assert handles - {d} - {c} == handles - {c} - {d};
    }
  }

  lemma TotalUpdate(handles: Handles, c: ConnId, k: Steps.Conn)
    ensures Total(handles[c := k]) == Total(handles) - (if c in handles then handles[c].queued else 0) + k.queued
  {
    TotalWithout(handles[c := k], c);
    if c in handles {
      TotalWithout(handles, c);
      assert handles[c := k] - {c} == handles - {c};
    } else {
      assert handles[c := k] - {c} == handles;
    }
  }

  /** The global counter is what the rest of the room holds plus what these connections hold, within the limit. */
  ghost predicate Balanced(cfg: Steps.Config, b: Books, others: nat) {
    b.global == others + Total(b.handles) && b.global <= cfg.limit && b.peak <= cfg.limit
  }

  lemma WrittenBalances(cfg: Steps.Config, b: Books, c: ConnId, w: Calls.World, others: nat)
    requires Balanced(cfg, b, others) && c in b.handles
    requires w.global - b.global == w.conn.queued - b.handles[c].queued
    requires w.global <= cfg.limit && w.peak <= cfg.limit
    ensures Balanced(cfg, Written(b, c, w), others)
  {
    TotalUpdate(b.handles, c, w.conn);
  }

  lemma ReserveMoves(cfg: Steps.Config, w: Calls.World, size: nat, now: nat)
    requires w.global <= cfg.limit && w.peak <= cfg.limit
    ensures var (v, r) := Calls.Reserve(cfg, w, size, now);
      && v.global - w.global == v.conn.queued - w.conn.queued == (if r.Ok? then size else 0)
      && v.global <= cfg.limit && v.peak <= cfg.limit
  {
  }

  lemma ReleaseMoves(w: Calls.World, size: nat, now: nat)
    ensures var v := Calls.Release(w, size, now);
      && v.global - w.global == v.conn.queued - w.conn.queued == -(Steps.Min(w.conn.queued, size) as int)
      && v.peak == w.peak
  {
  }

  // One frame to one member.

  predicate Accepts(m: Member) {
    !m.writerGone && |m.out| < m.capacity
  }

  /** Reserve, try to queue, and give the reservation back when the queue is full or closed. */
  function Deliverable(cfg: Steps.Config, b: Books, c: ConnId, m: Member, size: nat, now: nat): (Books, bool)
    requires c in b.handles
  {
    var (w, r) := Calls.Reserve(cfg, Seen(b, c), size, now);
    if r.Ok? && !Accepts(m) then (Written(b, c, Calls.Release(w, size, now)), true) else (Written(b, c, w), r.Ok?)
  }

  lemma DeliverableBalances(cfg: Steps.Config, b: Books, c: ConnId, m: Member, size: nat, now: nat, others: nat)
    requires c in b.handles && Balanced(cfg, b, others)
    ensures var (d, admitted) := Deliverable(cfg, b, c, m, size, now);
      && Balanced(cfg, d, others) && d.handles.Keys == b.handles.Keys
      && d.handles[c].queued == b.handles[c].queued + (if admitted && Accepts(m) then size else 0)
      && forall e | e in b.handles && e != c :: d.handles[e] == b.handles[e]
  {
    var w := Seen(b, c);
    var (v, r) := Calls.Reserve(cfg, w, size, now);
    ReserveMoves(cfg, w, size, now);
    ReleaseMoves(v, size, now);
    var x := if r.Ok? && !Accepts(m) then Calls.Release(v, size, now) else v;
    hide Calls.Reserve, Calls.Release;
    WrittenBalances(cfg, b, c, x, others);
  }

  // What waits for a writer.

  /** The bytes of the frames in a queue. */
  ghost function Waiting(out: seq<Outbound>): nat {
    if out == [] then 0 else (if out[0].Frame? then |out[0].bytes| else 0) + Waiting(out[1..])
  }

  lemma {:induction false} WaitingAppend(out: seq<Outbound>, x: Outbound)
    ensures Waiting(out + [x]) == Waiting(out) + if x.Frame? then |x.bytes| else 0
  {
    if out == [] {
      assert (out + [x])[1..] == [];
    } else {
      assert (out + [x])[1..] == out[1..] + [x];
      WaitingAppend(out[1..], x);
    }
  }

  /** Frames a writer has taken and not yet released. */
  type InFlight = map<ConnId, nat>

  function Taken(f: InFlight, c: ConnId): nat {
    if c in f then f[c] else 0
  }

  /**
   * A connection holds no more than its frames taken or waiting, and while no reply has been released, exactly that.
   */
  ghost predicate Covers(queued: nat, m: Member, taken: nat, clean: bool) {
    queued <= taken + Waiting(m.out) && (clean ==> queued == taken + Waiting(m.out))
  }

  ghost predicate AllCovered(ms: Members, handles: Handles, f: InFlight, clean: bool) {
    forall c | c in ms :: c in handles && Covers(handles[c].queued, ms[c], Taken(f, c), clean)
  }

  /**
   * The accounting beside the members: every connection's books, the bytes its writer has taken and not released, and
   * what the rest of the room holds. `clean` says no reply has been taken by a writer yet.
   */
  datatype Purse = Purse(books: Books, inFlight: InFlight, others: nat, clean: bool)

  /**
   * Every member has its handle; a connection that is gone holds nothing; the counters balance and cover the queues.
   */
  ghost predicate PurseOk(cfg: Steps.Config, ms: Members, u: Purse) {
    && Balanced(cfg, u.books, u.others)
    && ms.Keys <= u.books.handles.Keys
    && u.inFlight.Keys <= u.books.handles.Keys
    && AllCovered(ms, u.books.handles, u.inFlight, u.clean)
    && (forall c | c in u.books.handles && c !in ms :: u.books.handles[c].queued == 0)
  }

  // What goes on outside the shard's own steps.

  datatype Deed =
    | TakeNext(conn: ConnId, replySize: nat)
    | Wrote(conn: ConnId, now: nat)
    | Stop(conn: ConnId)
    | Interject(conn: ConnId)
    | LateRelease(conn: ConnId, size: nat, now: nat)
    | Elsewhere(others: nat)

  /** How the shard's queues see it, if they do. */
  function MotionOf(x: Deed): Option<Motion> {
    match x
    case TakeNext(c, _) => Some(Takes(c))
    case Stop(c) => Some(Stops(c))
    case Interject(c) => Some(Responds(c))
    case _ => None
  }

  /** A writer writes one thing at a time; a removed connection's writer may still release; the room keeps the limit. */
  predicate CanDo(cfg: Steps.Config, ms: Members, u: Purse, x: Deed) {
    && (MotionOf(x).Some? ==> x.conn in ms && CanMove(ms[x.conn], MotionOf(x).value))
    && match x
       case TakeNext(c, _) => c !in u.inFlight
       case Wrote(c, _) => c in u.inFlight && c in u.books.handles
       case LateRelease(c, _, _) => c in u.books.handles && c !in ms
       case Elsewhere(n) => n <= u.others || n + u.books.global - u.others <= cfg.limit
       case _ => true
  }

  /** What a writer takes: a frame's bytes, a reply's bytes, or the close that ends it. */
  function TakenOn(f: InFlight, c: ConnId, x: Outbound, replySize: nat): InFlight {
    match x
    case Frame(_, bytes) => f[c := |bytes|]
    case Reply => f[c := replySize]
    case Close => f
  }

  function PurseAfter(cfg: Steps.Config, ms: Members, u: Purse, x: Deed): Purse
    requires CanDo(cfg, ms, u, x)
  {
    match x
    case TakeNext(c, replySize) =>
      var first := ms[c].out[0];
      u.(inFlight := TakenOn(u.inFlight, c, first, replySize), clean := u.clean && !first.Reply?)
    case Wrote(c, now) =>
      u.(books := Written(u.books, c, Calls.Release(Seen(u.books, c), u.inFlight[c], now)),
         inFlight := u.inFlight - {c})
    case LateRelease(c, size, now) =>
      u.(books := Written(u.books, c, Calls.Release(Seen(u.books, c), size, now)))
    case Elsewhere(n) =>
      u.(others := n, books := u.books.(global := u.books.global - u.others + n))
    case _ => u
  }

  function MembersAfter(ms: Members, x: Deed): (r: Members)
    ensures r.Keys == ms.Keys
  {
    if MotionOf(x).Some? then Moved(ms, MotionOf(x).value) else ms
  }

  /** Queues, purse, and what the queues saw. */
  datatype Scene = Scene(members: Members, purse: Purse, seen: seq<Motion>)

  /** Several deeds in order, each done if it can be. */
  function Between(cfg: Steps.Config, ms: Members, u: Purse, xs: seq<Deed>): (r: Scene)
    ensures r.members.Keys == ms.Keys
    decreases |xs|
  {
    if xs == [] then Scene(ms, u, [])
    else
      var before := Between(cfg, ms, u, xs[..|xs| - 1]);
      var x := Last(xs);
      if !CanDo(cfg, before.members, before.purse, x) then before
      else
        Scene(MembersAfter(before.members, x), PurseAfter(cfg, before.members, before.purse, x),
              if MotionOf(x).Some? then before.seen + [MotionOf(x).value] else before.seen)
  }

  lemma {:induction false} BetweenIsMeanwhile(cfg: Steps.Config, ms: Members, u: Purse, xs: seq<Deed>)
    ensures Between(cfg, ms, u, xs).members == Meanwhile(ms, Between(cfg, ms, u, xs).seen)
    decreases |xs|
  {
    if xs != [] {
      BetweenIsMeanwhile(cfg, ms, u, xs[..|xs| - 1]);
      var before := Between(cfg, ms, u, xs[..|xs| - 1]);
      var x := Last(xs);
      hide CanDo, PurseAfter, Moved;
      if MotionOf(x).Some? {
        assert (before.seen + [MotionOf(x).value])[..|before.seen|] == before.seen;
      }
    }
  }

  /** One member's queue, in-flight bytes and handle change; nobody else's do. */
  lemma OneKeepsCovered(ms: Members, handles: Handles, f: InFlight, clean: bool,
                        c: ConnId, ns: Members, after: Handles, g: InFlight, still: bool)
    requires AllCovered(ms, handles, f, clean) && ns.Keys == ms.Keys && handles.Keys <= after.Keys && (still ==> clean)
    requires forall d | d in ms && d != c :: d in ns && ns[d].out == ms[d].out && Taken(g, d) == Taken(f, d)
    requires forall d | d in handles && d != c :: d in after && after[d] == handles[d]
    requires c in ns && c in after ==> Covers(after[c].queued, ns[c], Taken(g, c), still)
    ensures AllCovered(ns, after, g, still)
  {
    forall d | d in ns ensures d in after && Covers(after[d].queued, ns[d], Taken(g, d), still) {
      assert d in ms.Keys && d in handles.Keys;
    }
  }

  lemma ReleaseKeepsBalanced(cfg: Steps.Config, b: Books, c: ConnId, size: nat, now: nat, others: nat)
    requires Balanced(cfg, b, others) && c in b.handles
    ensures var d := Written(b, c, Calls.Release(Seen(b, c), size, now));
      && Balanced(cfg, d, others) && d.handles.Keys == b.handles.Keys
      && d.handles[c].queued == b.handles[c].queued - Steps.Min(b.handles[c].queued, size)
      && forall e | e in b.handles && e != c :: d.handles[e] == b.handles[e]
  {
    var w := Seen(b, c);
    ReleaseMoves(w, size, now);
    hide Calls.Release;
    WrittenBalances(cfg, b, c, Calls.Release(w, size, now), others);
  }

  lemma WroteKeepsPurse(cfg: Steps.Config, ms: Members, u: Purse, c: ConnId, now: nat)
    requires PurseOk(cfg, ms, u) && CanDo(cfg, ms, u, Wrote(c, now))
    ensures PurseOk(cfg, ms, PurseAfter(cfg, ms, u, Wrote(c, now)))
  {
    var v := PurseAfter(cfg, ms, u, Wrote(c, now));
    ReleaseKeepsBalanced(cfg, u.books, c, u.inFlight[c], now, u.others);
    hide Calls.Release, Written, Balanced, Waiting;
    OneKeepsCovered(ms, u.books.handles, u.inFlight, u.clean, c, ms, v.books.handles, v.inFlight, v.clean);
  }

  /** The writer of a connection that is gone may still release what it was writing: it frees nothing. */
  lemma LateReleaseFreesNothing(cfg: Steps.Config, ms: Members, u: Purse, c: ConnId, size: nat, now: nat)
    requires PurseOk(cfg, ms, u) && CanDo(cfg, ms, u, LateRelease(c, size, now))
    ensures PurseOk(cfg, ms, PurseAfter(cfg, ms, u, LateRelease(c, size, now)))
    ensures PurseAfter(cfg, ms, u, LateRelease(c, size, now)).books.global == u.books.global
  {
    var v := PurseAfter(cfg, ms, u, LateRelease(c, size, now));
    ReleaseKeepsBalanced(cfg, u.books, c, size, now, u.others);
    ReleaseMoves(Seen(u.books, c), size, now);
    hide Calls.Release, Balanced, Waiting;
    OneKeepsCovered(ms, u.books.handles, u.inFlight, u.clean, c, ms, v.books.handles, v.inFlight, v.clean);
  }

  lemma WaitingFirst(out: seq<Outbound>)
    requires out != []
    ensures Waiting(out) == (if out[0].Frame? then |out[0].bytes| else 0) + Waiting(out[1..])
  {
  }

  lemma QueueKeepsPurse(cfg: Steps.Config, ms: Members, u: Purse, x: Deed)
    requires PurseOk(cfg, ms, u) && CanDo(cfg, ms, u, x) && MotionOf(x).Some?
    ensures PurseOk(cfg, MembersAfter(ms, x), PurseAfter(cfg, ms, u, x))
  {
    var c := x.conn;
    var ns, v := MembersAfter(ms, x), PurseAfter(cfg, ms, u, x);
    assert c in ms.Keys;
    if x.TakeNext? {
      WaitingFirst(ms[c].out);
    }
    WaitingAppend(ms[c].out, Reply);
    hide Balanced, Waiting;
    OneKeepsCovered(ms, u.books.handles, u.inFlight, u.clean, c, ns, v.books.handles, v.inFlight, v.clean);
    assert ns.Keys == ms.Keys;
    forall d | d in v.books.handles && d !in ns ensures v.books.handles[d].queued == 0 {
      assert d !in ms.Keys;
    }
  }

  lemma ElsewhereKeepsPurse(cfg: Steps.Config, ms: Members, u: Purse, n: nat)
    requires PurseOk(cfg, ms, u) && CanDo(cfg, ms, u, Elsewhere(n))
    ensures PurseOk(cfg, ms, PurseAfter(cfg, ms, u, Elsewhere(n)))
  {
    hide AllCovered;
  }

  lemma DeedKeepsPurse(cfg: Steps.Config, ms: Members, u: Purse, x: Deed)
    requires PurseOk(cfg, ms, u) && CanDo(cfg, ms, u, x)
    ensures PurseOk(cfg, MembersAfter(ms, x), PurseAfter(cfg, ms, u, x))
  {
    hide PurseOk, CanDo, PurseAfter, Moved;
    match x
    case Wrote(c, now) => WroteKeepsPurse(cfg, ms, u, c, now);
    case LateRelease(c, size, now) => LateReleaseFreesNothing(cfg, ms, u, c, size, now);
    case Elsewhere(n) => ElsewhereKeepsPurse(cfg, ms, u, n);
    case _ => QueueKeepsPurse(cfg, ms, u, x);
  }

  lemma {:induction false} BetweenKeepsPurse(cfg: Steps.Config, ms: Members, u: Purse, xs: seq<Deed>)
    requires PurseOk(cfg, ms, u)
    ensures PurseOk(cfg, Between(cfg, ms, u, xs).members, Between(cfg, ms, u, xs).purse)
    ensures Between(cfg, ms, u, xs).purse.books.handles.Keys == u.books.handles.Keys
    decreases |xs|
  {
    if xs != [] {
      BetweenKeepsPurse(cfg, ms, u, xs[..|xs| - 1]);
      var before := Between(cfg, ms, u, xs[..|xs| - 1]);
      if CanDo(cfg, before.members, before.purse, Last(xs)) {
        DeedKeepsPurse(cfg, before.members, before.purse, Last(xs));
        var after := PurseAfter(cfg, before.members, before.purse, Last(xs));
        assert after.books.handles.Keys == before.purse.books.handles.Keys by {
          hide Calls.Release, Balanced, AllCovered;
        }
      }
      hide PurseOk, CanDo, PurseAfter, MembersAfter;
    }
  }

  // A frame to an audience, deeds falling between one place and the next.

  datatype PaidFan = PaidFan(fan: Fan, purse: Purse)

  predicate Skips(m: Member, msg: Message, drops: bool) {
    m.lagged || Filtered(m, msg, Answer(drops, false, []))
  }

  /** What the budget and the filter say at one place, as the queues and the counters then stand. */
  function Verdict(cfg: Steps.Config, ms: Members, b: Books, c: ConnId, msg: Message, drops: bool, now: nat,
                   motions: seq<Motion>, compress: Compressor): Answer
    requires c in ms && c in b.handles
  {
    var m := ms[c];
    Answer(drops, !Skips(m, msg, drops) && !Deliverable(cfg, b, c, m, |Variant(m, msg, compress)|, now).1, motions)
  }

  /** The purse after one place: charged unless the member is skipped. */
  function Charged(cfg: Steps.Config, ms: Members, b: Books, c: ConnId, msg: Message, drops: bool, now: nat,
                   compress: Compressor): (r: Books)
    requires c in ms && c in b.handles
    ensures r.handles.Keys == b.handles.Keys
  {
    var m := ms[c];
    if Skips(m, msg, drops) then b else Deliverable(cfg, b, c, m, |Variant(m, msg, compress)|, now).0
  }

  /** Per place in the audience: what goes on before it, whether the filter's rules drop the frame, and the clock. */
  datatype Outside = Outside(deeds: nat -> seq<Deed>, drops: nat -> bool, clock: nat -> nat)

  /** The answer one place gets, after what went on before it. */
  function AnswerFor(cfg: Steps.Config, p: PaidFan, c: ConnId, msg: Message, i: nat, o: Outside,
                     compress: Compressor): Answer
    requires c in p.fan.members
  {
    var mid := Between(cfg, p.fan.members, p.purse, o.deeds(i));
    assert c in mid.members.Keys;
    if c !in mid.purse.books.handles then Answer(o.drops(i), true, mid.seen)
    else Verdict(cfg, mid.members, mid.purse.books, c, msg, o.drops(i), o.clock(i), mid.seen, compress)
  }

  function PaidStep(cfg: Steps.Config, p: PaidFan, c: ConnId, msg: Message, i: nat, o: Outside,
                    compress: Compressor): (q: PaidFan)
    requires c in p.fan.members
    ensures q.fan.members.Keys == p.fan.members.Keys
  {
    var mid := Between(cfg, p.fan.members, p.purse, o.deeds(i));
    assert c in mid.members.Keys;
    PaidFan(FanStep(p.fan, c, msg, AnswerFor(cfg, p, c, msg, i, o, compress), compress),
            if c !in mid.purse.books.handles then mid.purse
            else
              var after := Charged(cfg, mid.members, mid.purse.books, c, msg, o.drops(i), o.clock(i), compress);
              mid.purse.(books := after))
  }

  function PaidFanOut(cfg: Steps.Config, ms: Members, u: Purse, recips: seq<ConnId>, k: nat, msg: Message, o: Outside,
                      compress: Compressor): (p: PaidFan)
    requires k <= |recips| && Within(ms, recips)
    ensures p.fan.members.Keys == ms.Keys
    decreases k
  {
    if k == 0 then PaidFan(Fan(ms, [], [], {}, {}), u)
    else
      var p := PaidFanOut(cfg, ms, u, recips, k - 1, msg, o, compress);
      assert recips[k - 1] in p.fan.members.Keys;
      PaidStep(cfg, p, recips[k - 1], msg, k - 1, o, compress)
  }

  /** The budget's answers along the whole audience, as the fan-out of the shard takes them. */
  function BudgetAnswers(cfg: Steps.Config, ms: Members, u: Purse, recips: seq<ConnId>, msg: Message, o: Outside,
                         compress: Compressor): Answers
    requires Within(ms, recips)
  {
    (i: nat) =>
      if i < |recips| then
        var p := PaidFanOut(cfg, ms, u, recips, i, msg, o, compress);
        assert recips[i] in p.fan.members.Keys;
        AnswerFor(cfg, p, recips[i], msg, i, o, compress)
      else Answer(false, false, [])
  }

  lemma PaidUnfold(cfg: Steps.Config, ms: Members, u: Purse, recips: seq<ConnId>, k: nat, msg: Message, o: Outside,
                   compress: Compressor)
    requires 0 < k <= |recips| && Within(ms, recips)
    ensures var p := PaidFanOut(cfg, ms, u, recips, k - 1, msg, o, compress);
      && recips[k - 1] in p.fan.members
      && PaidFanOut(cfg, ms, u, recips, k, msg, o, compress) == PaidStep(cfg, p, recips[k - 1], msg, k - 1, o, compress)
  {
    hide PaidStep;
    var p := PaidFanOut(cfg, ms, u, recips, k - 1, msg, o, compress);
    assert recips[k - 1] in p.fan.members.Keys;
  }

  lemma AnswersAt(cfg: Steps.Config, ms: Members, u: Purse, recips: seq<ConnId>, k: nat, msg: Message, o: Outside,
                  compress: Compressor)
    requires k < |recips| && Within(ms, recips)
    ensures var p := PaidFanOut(cfg, ms, u, recips, k, msg, o, compress);
      && recips[k] in p.fan.members
      && BudgetAnswers(cfg, ms, u, recips, msg, o, compress)(k) == AnswerFor(cfg, p, recips[k], msg, k, o, compress)
  {
    hide PaidFanOut, AnswerFor;
    var p := PaidFanOut(cfg, ms, u, recips, k, msg, o, compress);
    assert recips[k] in p.fan.members.Keys;
  }

  lemma StepsAlike(cfg: Steps.Config, p: PaidFan, c: ConnId, msg: Message, i: nat, o: Outside, compress: Compressor)
    requires c in p.fan.members
    ensures PaidStep(cfg, p, c, msg, i, o, compress).fan
         == FanStep(p.fan, c, msg, AnswerFor(cfg, p, c, msg, i, o, compress), compress)
  {
    hide AnswerFor, FanStep, Between;
  }

  lemma PaidNone(cfg: Steps.Config, ms: Members, u: Purse, recips: seq<ConnId>, msg: Message, o: Outside,
                 compress: Compressor)
    requires Within(ms, recips)
    ensures PaidFanOut(cfg, ms, u, recips, 0, msg, o, compress) == PaidFan(Fan(ms, [], [], {}, {}), u)
  {
  }

  /** The fan-out with its purse is the shard's fan-out under the answers the budget gives place by place. */
  lemma {:induction false} PaidIsFanOut(cfg: Steps.Config, ms: Members, u: Purse, recips: seq<ConnId>, k: nat,
                                        msg: Message,
                                        o: Outside, compress: Compressor)
    requires k <= |recips| && Within(ms, recips)
    ensures PaidFanOut(cfg, ms, u, recips, k, msg, o, compress).fan
         == FanOut(ms, recips, k, msg, BudgetAnswers(cfg, ms, u, recips, msg, o, compress), compress)
    decreases k
  {
    hide *;
    var answers := BudgetAnswers(cfg, ms, u, recips, msg, o, compress);
    if k == 0 {
      PaidNone(cfg, ms, u, recips, msg, o, compress);
      FanOutNone(ms, recips, msg, answers, compress);
    } else {
      PaidIsFanOut(cfg, ms, u, recips, k - 1, msg, o, compress);
      PaidUnfold(cfg, ms, u, recips, k, msg, o, compress);
      AnswersAt(cfg, ms, u, recips, k - 1, msg, o, compress);
      FanOutNext(ms, recips, k, msg, answers, compress);
      var p := PaidFanOut(cfg, ms, u, recips, k - 1, msg, o, compress);
      StepsAlike(cfg, p, recips[k - 1], msg, k - 1, o, compress);
    }
  }

  /** One unskipped place: the frame goes to the end of the queue if it was admitted and the queue accepts. */
  lemma OneDelivered(f: Fan, c: ConnId, msg: Message, a: Answer, compress: Compressor)
    requires c in f.members && !f.members[c].lagged && !Filtered(f.members[c], msg, a)
    ensures var m := f.members[c];
      HandTo(f, c, msg, a, compress).members ==
        if a.refuses || !Accepts(m) then f.members[c := m]
        else f.members[c := m.(out := m.out + [Frame(msg.id, Variant(m, msg, compress))])]
  {
    hide Variant, Filtered;
  }

  lemma HandKeepsPurse(cfg: Steps.Config, f: Fan, u: Purse, c: ConnId, msg: Message, drops: bool, now: nat,
                       motions: seq<Motion>, compress: Compressor)
    requires c in f.members && c in u.books.handles && PurseOk(cfg, f.members, u)
    ensures PurseOk(cfg,
      HandTo(f, c, msg, Verdict(cfg, f.members, u.books, c, msg, drops, now, motions, compress), compress).members,
      u.(books := Charged(cfg, f.members, u.books, c, msg, drops, now, compress)))
    ensures Charged(cfg, f.members, u.books, c, msg, drops, now, compress).handles.Keys == u.books.handles.Keys
  {
    var m := f.members[c];
    var a := Verdict(cfg, f.members, u.books, c, msg, drops, now, motions, compress);
    var ns := HandTo(f, c, msg, a, compress).members;
    var after := Charged(cfg, f.members, u.books, c, msg, drops, now, compress);
    if Skips(m, msg, drops) {
      SkippedKeeps(f, c, msg, a, compress);
      hide HandTo, Variant, Filtered;
    } else {
      var bytes := Variant(m, msg, compress);
      DeliverableBalances(cfg, u.books, c, m, |bytes|, now, u.others);
      OneDelivered(f, c, msg, a, compress);
      WaitingAppend(m.out, Frame(msg.id, bytes));
      hide Deliverable, HandTo, Variant, Filtered, Waiting, Balanced;
      assert Covers(u.books.handles[c].queued, m, Taken(u.inFlight, c), u.clean);
      OneKeepsCovered(f.members, u.books.handles, u.inFlight, u.clean, c, ns, after.handles, u.inFlight, u.clean);
      assert ns.Keys == f.members.Keys;
      forall d | d in after.handles && d !in ns ensures after.handles[d].queued == 0 {
        assert d in u.books.handles.Keys && d !in f.members.Keys;
      }
    }
  }

  lemma SkippedKeeps(f: Fan, c: ConnId, msg: Message, a: Answer, compress: Compressor)
    requires c in f.members && Skips(f.members[c], msg, a.drops)
    ensures HandTo(f, c, msg, a, compress).members == f.members
  {
  }

  lemma PaidStepKeepsPurse(cfg: Steps.Config, p: PaidFan, c: ConnId, msg: Message, i: nat, o: Outside,
                           compress: Compressor)
    requires c in p.fan.members && PurseOk(cfg, p.fan.members, p.purse)
    ensures var q := PaidStep(cfg, p, c, msg, i, o, compress);
      PurseOk(cfg, q.fan.members, q.purse) && q.purse.books.handles.Keys == p.purse.books.handles.Keys
  {
    var mid := Between(cfg, p.fan.members, p.purse, o.deeds(i));
    BetweenKeepsPurse(cfg, p.fan.members, p.purse, o.deeds(i));
    BetweenIsMeanwhile(cfg, p.fan.members, p.purse, o.deeds(i));
    assert c in mid.members.Keys && c in mid.purse.books.handles.Keys;
    hide Between, PurseOk, Verdict, Charged, HandTo;
    HandKeepsPurse(cfg, p.fan.(members := mid.members), mid.purse, c, msg, o.drops(i), o.clock(i), mid.seen, compress);
  }

  lemma {:induction false} PaidFanOutKeepsPurse(cfg: Steps.Config, ms: Members, u: Purse, recips: seq<ConnId>, k: nat,
                                                msg: Message, o: Outside, compress: Compressor)
    requires k <= |recips| && Within(ms, recips) && PurseOk(cfg, ms, u)
    ensures var p := PaidFanOut(cfg, ms, u, recips, k, msg, o, compress);
      PurseOk(cfg, p.fan.members, p.purse) && p.purse.books.handles.Keys == u.books.handles.Keys
    decreases k
  {
    hide *;
    if k == 0 {
      PaidNone(cfg, ms, u, recips, msg, o, compress);
    } else {
      PaidFanOutKeepsPurse(cfg, ms, u, recips, k - 1, msg, o, compress);
      PaidUnfold(cfg, ms, u, recips, k, msg, o, compress);
      var p := PaidFanOut(cfg, ms, u, recips, k - 1, msg, o, compress);
      PaidStepKeepsPurse(cfg, p, recips[k - 1], msg, k - 1, o, compress);
    }
  }

  // The shard and its budget over every run.

  datatype PaidShard = PaidShard(shard: ShardState, purse: Purse)

  const UNPAID := PaidShard(EMPTY, Purse(Books(map[], 0, 0), map[], 0, true))

  datatype PaidEvent =
    | Tell(msg: ShardMsg, now: nat)
    | Carry(msg: ShardMsg, recips: seq<ConnId>, o: Outside)
    | Do(deed: Deed)

  /** Connection ids are never used twice. */
  ghost predicate Possible(cfg: Steps.Config, p: PaidShard, e: PaidEvent) {
    match e
    case Tell(msg, _) => IsControl(msg) && (msg.Add? ==> msg.conn !in p.purse.books.handles)
    case Carry(msg, recips, _) => Addressed(p.shard, msg, recips)
    case Do(x) => CanDo(cfg, p.shard.members, p.purse, x)
  }

  ghost predicate PaidOk(cfg: Steps.Config, p: PaidShard) {
    PurseOk(cfg, p.shard.members, p.purse) && ShardOk(p.shard)
  }

  /** The books after a control message: a new handle for an `Add`, everything returned at a `Remove`. */
  function Settled(p: PaidShard, msg: ShardMsg, now: nat): Books {
    var b := p.purse.books;
    match msg
    case Add(c, _, _, _) => b.(handles := b.handles[c := Steps.Conn(0, 0, now)])
    case Remove(c) =>
      if c in p.shard.members && c in b.handles then Written(b, c, Calls.ReleaseAll(Seen(b, c))) else b
    case _ => b
  }

  function CarryAnswers(cfg: Steps.Config, p: PaidShard, msg: ShardMsg, recips: seq<ConnId>, o: Outside,
                        compress: Compressor): Answers
    requires Addressed(p.shard, msg, recips)
  {
    AddressedMembers(p.shard, msg, recips);
    BudgetAnswers(cfg, p.shard.members, p.purse, recips, msg.msg, o, compress)
  }

  function Carried(cfg: Steps.Config, p: PaidShard, msg: ShardMsg, recips: seq<ConnId>, o: Outside,
                   compress: Compressor): Purse
    requires Addressed(p.shard, msg, recips)
  {
    AddressedMembers(p.shard, msg, recips);
    PaidFanOut(cfg, p.shard.members, p.purse, recips, |recips|, msg.msg, o, compress).purse
  }

  /** What the shard itself sees of an event. */
  ghost function Shadow(cfg: Steps.Config, p: PaidShard, e: PaidEvent, compress: Compressor): Option<Event>
    requires Possible(cfg, p, e)
  {
    match e
    case Tell(msg, _) => Some(Ctl(msg))
    case Carry(msg, recips, o) => Some(Frames(msg, recips, CarryAnswers(cfg, p, msg, recips, o, compress)))
    case Do(x) => if MotionOf(x).Some? then Some(Act(MotionOf(x).value)) else None
  }

  lemma ShadowEnabled(cfg: Steps.Config, p: PaidShard, e: PaidEvent, compress: Compressor)
    requires Possible(cfg, p, e) && p.shard.members.Keys <= p.purse.books.handles.Keys
    requires Shadow(cfg, p, e, compress).Some?
    ensures Enabled(p.shard, Shadow(cfg, p, e, compress).value)
  {
    hide Addressed, CarryAnswers;
    assert e.Tell? && e.msg.Add? ==> e.msg.conn !in p.shard.members.Keys;
  }

  ghost function Next(cfg: Steps.Config, p: PaidShard, e: PaidEvent, compress: Compressor): PaidShard
    requires Possible(cfg, p, e) && p.shard.members.Keys <= p.purse.books.handles.Keys
  {
    var shadow := Shadow(cfg, p, e, compress);
    var shard := if shadow.Some? then
                   ShadowEnabled(cfg, p, e, compress);
                   After(p.shard, shadow.value, compress)
                 else p.shard;
    PaidShard(shard,
              match e
              case Tell(msg, now) => p.purse.(books := Settled(p, msg, now))
              case Carry(msg, recips, o) => Carried(cfg, p, msg, recips, o, compress)
              case Do(x) => PurseAfter(cfg, p.shard.members, p.purse, x))
  }

  // Each event keeps it.

  lemma ControlOut(s: ShardState, msg: ShardMsg, c: ConnId)
    requires IsControl(msg) && Fresh(s, msg) && c in Control(s, msg).members
    ensures var out := Control(s, msg).members[c].out;
      if c in s.members then out == s.members[c].out || out == s.members[c].out + [Close]
      else msg.Add? && msg.conn == c && out == []
  {
    if c in s.members {
      DesyncOut(s.members[c]);
    }
    hide Desync, CloseMember;
  }

  lemma ControlMembers(s: ShardState, msg: ShardMsg)
    requires IsControl(msg)
    ensures Control(s, msg).members.Keys ==
      match msg
      case Add(c, _, _, _) => s.members.Keys + {c}
      case Remove(c) => s.members.Keys - {c}
      case _ => s.members.Keys
  {
    hide Desync, CloseMember;
  }

  lemma ReleaseAllMoves(w: Calls.World)
    ensures var v := Calls.ReleaseAll(w);
      v.global - w.global == -(w.conn.queued as int) && v.conn.queued == 0 && v.peak == w.peak
  {
  }

  lemma SettledBalances(cfg: Steps.Config, p: PaidShard, msg: ShardMsg, now: nat)
    requires PurseOk(cfg, p.shard.members, p.purse) && IsControl(msg)
    requires (msg.Add? ==> msg.conn !in p.purse.books.handles)
    ensures var b := Settled(p, msg, now);
      && Balanced(cfg, b, p.purse.others)
      && b.handles.Keys == p.purse.books.handles.Keys + (if msg.Add? then {msg.conn} else {})
      && (forall c | c in p.purse.books.handles && msg != Remove(c) :: b.handles[c] == p.purse.books.handles[c])
      && (msg.Add? || (msg.Remove? && msg.conn in p.shard.members) ==> b.handles[msg.conn].queued == 0)
  {
    hide AllCovered;
    var b := p.purse.books;
    match msg
    case Add(c, _, _, _) => TotalUpdate(b.handles, c, Steps.Conn(0, 0, now));
    case Remove(c) =>
      if c in p.shard.members {
        assert c in p.shard.members.Keys;
        var w := Seen(b, c);
        ReleaseAllMoves(w);
        hide Calls.ReleaseAll;
        WrittenBalances(cfg, b, c, Calls.ReleaseAll(w), p.purse.others);
      }
    case _ =>
  }

  lemma TellIs(cfg: Steps.Config, p: PaidShard, msg: ShardMsg, now: nat, compress: Compressor)
    requires p.shard.members.Keys <= p.purse.books.handles.Keys && Possible(cfg, p, Tell(msg, now))
    ensures Next(cfg, p, Tell(msg, now), compress)
         == PaidShard(Control(p.shard, msg), p.purse.(books := Settled(p, msg, now)))
    ensures Fresh(p.shard, msg) && IsControl(msg)
  {
    assert msg.Add? ==> msg.conn !in p.shard.members.Keys;
    hide Control, Settled;
  }

  lemma NothingWaiting()
    ensures Waiting([]) == 0
  {
  }

  /** One member after a control message: its queue may end in a close, its handle is its own or new. */
  lemma TellCoversOne(cfg: Steps.Config, p: PaidShard, msg: ShardMsg, now: nat, c: ConnId)
    requires PurseOk(cfg, p.shard.members, p.purse) && IsControl(msg) && Fresh(p.shard, msg)
    requires msg.Add? ==> msg.conn !in p.purse.books.handles
    requires c in Control(p.shard, msg).members
    ensures c in Settled(p, msg, now).handles
    ensures Covers(Settled(p, msg, now).handles[c].queued, Control(p.shard, msg).members[c],
                   Taken(p.purse.inFlight, c), p.purse.clean)
  {
    SettledBalances(cfg, p, msg, now);
    ControlMembers(p.shard, msg);
    ControlOut(p.shard, msg, c);
    assert c in Control(p.shard, msg).members.Keys;
    hide Control, Settled, Balanced, Waiting;
    if c in p.shard.members {
      WaitingAppend(p.shard.members[c].out, Close);
      assert c in p.purse.books.handles
        && Covers(p.purse.books.handles[c].queued, p.shard.members[c], Taken(p.purse.inFlight, c), p.purse.clean);
    } else {
      assert c !in p.purse.inFlight.Keys;
      NothingWaiting();
    }
  }

  lemma GoneHoldNothing(cfg: Steps.Config, p: PaidShard, msg: ShardMsg, now: nat)
    requires PurseOk(cfg, p.shard.members, p.purse) && IsControl(msg)
    requires (msg.Add? ==> msg.conn !in p.purse.books.handles)
    ensures var b := Settled(p, msg, now);
      && Control(p.shard, msg).members.Keys <= b.handles.Keys && p.purse.inFlight.Keys <= b.handles.Keys
      && forall c | c in b.handles && c !in Control(p.shard, msg).members :: b.handles[c].queued == 0
  {
    SettledBalances(cfg, p, msg, now);
    ControlMembers(p.shard, msg);
    var b, ms := Settled(p, msg, now), Control(p.shard, msg).members;
    hide Control, Settled, Balanced, AllCovered;
    forall c | c in b.handles && c !in ms ensures b.handles[c].queued == 0 {
      assert c in b.handles.Keys && c !in ms.Keys;
      assert c in p.shard.members ==> c in p.shard.members.Keys;
    }
  }

  lemma TellKeepsPurse(cfg: Steps.Config, p: PaidShard, msg: ShardMsg, now: nat)
    requires PurseOk(cfg, p.shard.members, p.purse) && IsControl(msg) && Fresh(p.shard, msg)
    requires msg.Add? ==> msg.conn !in p.purse.books.handles
    ensures PurseOk(cfg, Control(p.shard, msg).members, p.purse.(books := Settled(p, msg, now)))
  {
    SettledBalances(cfg, p, msg, now);
    GoneHoldNothing(cfg, p, msg, now);
    hide Control, Settled, Balanced, Covers;
    var t := Control(p.shard, msg);
    forall c | c in t.members
      ensures c in Settled(p, msg, now).handles
      ensures Covers(Settled(p, msg, now).handles[c].queued, t.members[c], Taken(p.purse.inFlight, c), p.purse.clean)
    {
      TellCoversOne(cfg, p, msg, now, c);
    }
  }

  lemma TellKeepsPaidOk(cfg: Steps.Config, p: PaidShard, msg: ShardMsg, now: nat, compress: Compressor)
    requires PaidOk(cfg, p) && Possible(cfg, p, Tell(msg, now))
    ensures PaidOk(cfg, Next(cfg, p, Tell(msg, now), compress))
  {
    TellIs(cfg, p, msg, now, compress);
    TellKeepsPurse(cfg, p, msg, now);
    ControlKeepsIndex(p.shard, msg);
    ControlKeepsBooks(p.shard, msg);
    hide Control, Settled, Next, PurseOk, IndexOk, AllBooksOk, SweptMeansLagged;
  }

  /** Carrying a frame is a fan-out with its purse, then the marking. */
  lemma CarryIs(cfg: Steps.Config, p: PaidShard, msg: ShardMsg, recips: seq<ConnId>, o: Outside, compress: Compressor)
    requires p.shard.members.Keys <= p.purse.books.handles.Keys
    requires Possible(cfg, p, Carry(msg, recips, o)) && Within(p.shard.members, recips)
    ensures var t := Next(cfg, p, Carry(msg, recips, o), compress);
      var paid := PaidFanOut(cfg, p.shard.members, p.purse, recips, |recips|, msg.msg, o, compress);
      && t.purse == paid.purse
      && t.shard == Transmit(p.shard, msg, recips, CarryAnswers(cfg, p, msg, recips, o, compress), compress)
      && t.shard.members == Marked(paid.fan)
  {
    PaidIsFanOut(cfg, p.shard.members, p.purse, recips, |recips|, msg.msg, o, compress);
    hide PaidFanOut, FanOut, Marked, BudgetAnswers, Addressed;
  }

  /** Marking closes out of band, so it moves no queue. */
  lemma MarkedKeepsPurse(cfg: Steps.Config, fan: Fan, u: Purse)
    requires PurseOk(cfg, fan.members, u)
    ensures PurseOk(cfg, Marked(fan), u)
  {
    MarkedQueues(fan);
    var ms, ns := fan.members, Marked(fan);
    assert ns.Keys == ms.Keys;
    hide Marked, Balanced;
    forall c | c in ns
      ensures c in u.books.handles && Covers(u.books.handles[c].queued, ns[c], Taken(u.inFlight, c), u.clean)
    {
      assert c in ms.Keys;
    }
    forall c | c in u.books.handles && c !in ns ensures u.books.handles[c].queued == 0 {
      assert c !in ms.Keys;
    }
  }

  lemma CarryKeepsPaidOk(cfg: Steps.Config, p: PaidShard, msg: ShardMsg, recips: seq<ConnId>, o: Outside,
                         compress: Compressor)
    requires PaidOk(cfg, p) && Possible(cfg, p, Carry(msg, recips, o))
    ensures PaidOk(cfg, Next(cfg, p, Carry(msg, recips, o), compress))
  {
    var t := Next(cfg, p, Carry(msg, recips, o), compress);
    assert p.shard.members.Keys <= p.purse.books.handles.Keys && Addressed(p.shard, msg, recips) && ShardOk(p.shard);
    assert PurseOk(cfg, p.shard.members, p.purse);
    PaidOkIs(cfg, t);
    hide *;
    AddressedMembers(p.shard, msg, recips);
    var paid := PaidFanOut(cfg, p.shard.members, p.purse, recips, |recips|, msg.msg, o, compress);
    CarryIs(cfg, p, msg, recips, o, compress);
    TransmitKeepsShardOk(p.shard, msg, recips, CarryAnswers(cfg, p, msg, recips, o, compress), compress);
    PaidFanOutKeepsPurse(cfg, p.shard.members, p.purse, recips, |recips|, msg.msg, o, compress);
    MarkedKeepsPurse(cfg, paid.fan, paid.purse);
  }

  lemma PaidOkIs(cfg: Steps.Config, p: PaidShard)
    ensures PaidOk(cfg, p) <==> PurseOk(cfg, p.shard.members, p.purse) && ShardOk(p.shard)
  {
    hide PurseOk, ShardOk;
  }

  lemma DoKeepsPaidOk(cfg: Steps.Config, p: PaidShard, x: Deed, compress: Compressor)
    requires PaidOk(cfg, p) && Possible(cfg, p, Do(x))
    ensures PaidOk(cfg, Next(cfg, p, Do(x), compress))
  {
    var t := Next(cfg, p, Do(x), compress);
    DeedKeepsPurse(cfg, p.shard.members, p.purse, x);
    assert t.shard.members == MembersAfter(p.shard.members, x);
    assert t.purse == PurseAfter(cfg, p.shard.members, p.purse, x);
    if MotionOf(x).Some? {
      WriterKeepsShardOk(p.shard, Act(MotionOf(x).value), compress);
    }
    hide PurseOk, ShardOk, PurseAfter, Moved;
  }

  lemma NextKeepsPaidOk(cfg: Steps.Config, p: PaidShard, e: PaidEvent, compress: Compressor)
    requires PaidOk(cfg, p) && Possible(cfg, p, e)
    ensures PaidOk(cfg, Next(cfg, p, e, compress))
  {
    hide *;
    match e
    case Tell(msg, now) => TellKeepsPaidOk(cfg, p, msg, now, compress);
    case Carry(msg, recips, o) => CarryKeepsPaidOk(cfg, p, msg, recips, o, compress);
    case Do(x) => DoKeepsPaidOk(cfg, p, x, compress);
  }

  // Runs.

  /** The state after a run, and the run of the shard alone that it shows. */
  ghost function PaidRun(cfg: Steps.Config, es: seq<PaidEvent>,
                         compress: Compressor): (r: Option<(PaidShard, seq<Event>)>)
    ensures r.Some? ==> PaidOk(cfg, r.value.0)
  {
    if es == [] then
      assert PaidOk(cfg, UNPAID) by { UnpaidOk(cfg); }
      Some((UNPAID, []))
    else
      match PaidRun(cfg, es[..|es| - 1], compress)
      case None => None
      case Some((p, seen)) =>
        if Possible(cfg, p, Last(es)) then
          NextKeepsPaidOk(cfg, p, Last(es), compress);
          var shadow := Shadow(cfg, p, Last(es), compress);
          Some((Next(cfg, p, Last(es), compress), if shadow.Some? then seen + [shadow.value] else seen))
        else None
  }

  lemma UnpaidOk(cfg: Steps.Config)
    ensures PaidOk(cfg, UNPAID)
  {
    assert forall key: Slot, c: ConnId ::
      c in Indexed(EMPTY, key) <==> c in EMPTY.members && EMPTY.members[c].slot == Some(key);
  }

  /** What these connections alone hold. */
  function Only(handles: Handles, members: set<ConnId>): (r: Handles)
    ensures r.Keys == handles.Keys * members && forall c | c in r :: r[c] == handles[c]
  {
    map c | c in handles.Keys * members :: handles[c]
  }

  lemma {:induction false} EmptyHandlesCountNothing(handles: Handles, members: set<ConnId>)
    requires forall c | c in handles && c !in members :: handles[c].queued == 0
    ensures Total(handles) == Total(Only(handles, members))
    decreases |handles|
  {
    if c :| c in handles && c !in members {
      TotalWithout(handles, c);
      EmptyHandlesCountNothing(handles - {c}, members);
      assert Only(handles - {c}, members) == Only(handles, members);
    } else {
      assert Only(handles, members) == handles;
    }
  }

  /**
   * Over every run of a shard that pays for what it queues: the global counter is what the rest of the room holds plus
   * the sum of the members' reservations, within the limit; no member holds more than the frames taken by its writer or
   * waiting for it, and exactly that while no reply was taken; and what the shard does is one of its own runs.
   */
  lemma EveryPaidRunBalances(cfg: Steps.Config, es: seq<PaidEvent>, compress: Compressor)
    requires PaidRun(cfg, es, compress).Some?
    ensures var (p, seen) := PaidRun(cfg, es, compress).value;
      && p.purse.books.global == p.purse.others + Total(Only(p.purse.books.handles, p.shard.members.Keys)) <= cfg.limit
      && p.purse.books.peak <= cfg.limit
      && AllCovered(p.shard.members, p.purse.books.handles, p.purse.inFlight, p.purse.clean)
      && Run(seen, compress) == Some(p.shard)
  {
    var (p, _) := PaidRun(cfg, es, compress).value;
    PaidRunIsRun(cfg, es, compress);
    hide PaidRun, Run, AllCovered, ShardOk, Only, Total;
    EmptyHandlesCountNothing(p.purse.books.handles, p.shard.members.Keys);
  }

  lemma {:induction false} PaidRunIsRun(cfg: Steps.Config, es: seq<PaidEvent>, compress: Compressor)
    requires PaidRun(cfg, es, compress).Some?
    ensures var (p, seen) := PaidRun(cfg, es, compress).value; Run(seen, compress) == Some(p.shard)
  {
    if es != [] {
      var (p, seen) := PaidRun(cfg, es[..|es| - 1], compress).value;
      PaidRunIsRun(cfg, es[..|es| - 1], compress);
      var shadow := Shadow(cfg, p, Last(es), compress);
      NextShard(cfg, p, Last(es), compress);
      if shadow.Some? {
        ShadowEnabled(cfg, p, Last(es), compress);
        hide PaidOk, Possible, Next, Shadow, Enabled, After;
        assert (seen + [shadow.value])[..|seen|] == seen;
      }
    }
  }

  lemma NextShard(cfg: Steps.Config, p: PaidShard, e: PaidEvent, compress: Compressor)
    requires PaidOk(cfg, p) && Possible(cfg, p, e)
    ensures var shadow := Shadow(cfg, p, e, compress);
      if shadow.Some? then
        && Enabled(p.shard, shadow.value)
        && Next(cfg, p, e, compress).shard == After(p.shard, shadow.value, compress)
      else Next(cfg, p, e, compress).shard == p.shard
  {
    if Shadow(cfg, p, e, compress).Some? {
      ShadowEnabled(cfg, p, e, compress);
    }
    hide Enabled, After, Settled, Carried, TakenOn, Written, ShardOk, Balanced;
  }
}
