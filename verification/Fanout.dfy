/** The room actor and its shards, interleaved channel operation by channel operation. */
module Fanout {
  import opened Common
  import opened Shard
  import opened ShardRuns
  import opened FanoutNode

  /** One channel operation the actor has still to do: an unbounded send, or a try at a bounded one. */
  datatype Task = Tell(k: nat, msg: ShardMsg) | Offer(k: nat, msg: ShardMsg)

  /**
   * The shards, the depth of their frame inboxes, what is left of the actor's current call, and the next frame number.
   */
  datatype System = System(nodes: seq<Node>, depth: nat, plan: seq<Task>, nextId: nat)

  datatype Move =
    | CallTell(msg: ShardMsg)
    | CallBroadcast(to: Recipients, payload: Bytes, tagged: bool)
    | Proceed
    | TakeControl(k: nat)
    | TakeFrame(k: nat, recips: seq<ConnId>, answers: Answers)
    | Serve(k: nat, event: Event)

  /** The connection a message is routed by. */
  function Routed(msg: ShardMsg): ConnId
    requires !msg.Broadcast? && !msg.DesyncedAll?
  {
    msg.conn
  }

  function Home(s: System, c: ConnId): nat
    requires s.nodes != []
  {
    c % |s.nodes|
  }

  /**
   * What the room may tell a connection's shard. Connection ids are fresh, and frames are numbered as they are made.
   */
  predicate MayTell(s: System, msg: ShardMsg)
    requires s.nodes != []
  {
    && (msg.Add? || msg.Remove? || msg.Update? || msg.SetFilter? || msg.Send? || msg.CloseConn?)
    && (msg.Add? ==> msg.conn !in s.nodes[Home(s, msg.conn)].added)
    && (msg.Send? ==> msg.msg.id == s.nextId)
  }

  ghost predicate Allowed(s: System, m: Move) {
    s.nodes != [] &&
    match m
    case CallTell(msg) => s.plan == [] && MayTell(s, msg)
    case CallBroadcast(_, _, _) => s.plan == []
    case Proceed => s.plan != [] && s.plan[0].k < |s.nodes| && (s.plan[0].Offer? ==> !IsControl(s.plan[0].msg))
    case TakeControl(k) => k < |s.nodes| && s.nodes[k].control != [] && IsControl(s.nodes[k].control[0])
    case TakeFrame(k, recips, _) => k < |s.nodes| && MayTakeFrame(s.nodes[k], recips)
    case Serve(k, e) => k < |s.nodes| && IsWriterEvent(s.nodes[k], e)
  }

  /** A broadcast is offered to every shard in turn, under one number. */
  function Offers(first: nat, end: nat, msg: ShardMsg): (ts: seq<Task>)
    requires first <= end
    decreases end - first
    ensures |ts| == end - first
    ensures (forall i | 0 <= i < |ts| :: ts[i] == Offer(first + i, msg))
  {
    if first == end then [] else [Offer(first, msg)] + Offers(first + 1, end, msg)
  }

  function With(s: System, k: nat, n: Node): System
    requires k < |s.nodes|
  {
    s.(nodes := s.nodes[k := n])
  }

  /** The actor's next channel operation. A refused frame is answered with a notice before anything else is done. */
  function Proceeded(s: System): System
    requires s.plan != [] && s.plan[0].k < |s.nodes| && (s.plan[0].Offer? ==> !IsControl(s.plan[0].msg))
  {
    var k := s.plan[0].k;
    var msg := s.plan[0].msg;
    var n := s.nodes[k];
    if s.plan[0].Tell? then With(s, k, Told(n, msg)).(plan := s.plan[1..])
    else if |n.frames| < s.depth then With(s, k, Queued(n, msg)).(plan := s.plan[1..])
    else With(s, k, Refused(n, msg)).(plan := [Tell(k, Notice(msg))] + s.plan[1..])
  }

  ghost function Done(s: System, m: Move, compress: Compressor): System
    requires Allowed(s, m)
  {
    match m
    case CallTell(msg) =>
      var k := Home(s, Routed(msg));
      if IsControl(msg) then s.(plan := [Tell(k, msg)])
      else s.(plan := [Offer(k, msg)], nextId := s.nextId + 1)
    case CallBroadcast(to, payload, tagged) =>
      s.(plan := Offers(0, |s.nodes|, Broadcast(to, Message(s.nextId, payload, tagged))), nextId := s.nextId + 1)
    case Proceed => Proceeded(s)
    case TakeControl(k) => With(s, k, TookControl(s.nodes[k]))
    case TakeFrame(k, recips, answers) => With(s, k, TookFrame(s.nodes[k], recips, answers, compress))
    case Serve(k, e) => With(s, k, Acted(s.nodes[k], e, compress))
  }

  function Start(count: nat, depth: nat): System {
    System(seq(count, _ => FRESH_NODE), depth, [], 0)
  }

  /** The system after a run of moves, if each was allowed when it came. */
  ghost function Run(count: nat, depth: nat, moves: seq<Move>, compress: Compressor): Option<System> {
    if moves == [] then Some(Start(count, depth))
    else
      match Run(count, depth, moves[..|moves| - 1], compress)
      case None => None
      case Some(s) => if Allowed(s, Last(moves)) then Some(Done(s, Last(moves), compress)) else None
  }

  // What holds of the whole system.

  /** What the actor is about to tell shard `k`. */
  function Owed(plan: seq<Task>, k: nat): Option<ShardMsg> {
    if plan != [] && plan[0].Tell? && plan[0].k == k then Some(plan[0].msg) else None
  }

  predicate Offered(plan: seq<Task>, k: nat) {
    exists i | 0 <= i < |plan| :: plan[i].Offer? && plan[i].k == k
  }

  /** Frames offered to shard `k` so far are numbered below this: the one on offer to it still counts as to come. */
  function Bound(s: System, k: nat): nat {
    if Offered(s.plan, k) && s.nextId > 0 then s.nextId - 1 else s.nextId
  }

  /** The actor's call in progress: at most one send, first, then offers of one frame to different shards. */
  predicate PlanOk(s: System) {
    && (forall i | 0 <= i < |s.plan| :: s.plan[i].k < |s.nodes|)
    && (forall i | 0 < i < |s.plan| :: s.plan[i].Offer?)
    && (forall i | 0 <= i < |s.plan| && s.plan[i].Offer? ::
          !IsControl(s.plan[i].msg) && Id(s.plan[i].msg) + 1 == s.nextId)
    && (forall i, j | 0 <= i < j < |s.plan| :: s.plan[i].k != s.plan[j].k)
    && (s.plan != [] && s.plan[0].Tell? && s.plan[0].msg.Add? ==> s.plan[0].k == s.plan[0].msg.conn % |s.nodes|)
  }

  /** Every connection lives on the shard its id picks. */
  predicate RoutedHome(s: System) {
    forall k, c | 0 <= k < |s.nodes| && c in s.nodes[k].added :: c % |s.nodes| == k
  }

  ghost predicate SystemOk(s: System) {
    && PlanOk(s)
    && RoutedHome(s)
    && (forall k: nat | k < |s.nodes| :: NodeOk(s.nodes[k], Owed(s.plan, k), Bound(s, k)))
  }

  lemma WiderBound(n: Node, owed: Option<ShardMsg>, bound: nat, wider: nat)
    requires NodeOk(n, owed, bound) && bound <= wider
    ensures NodeOk(n, owed, wider)
  {
    hide ShardOk, RosterOk, AllCovered, NoGap, Justified;
  }

  lemma StartOk(count: nat, depth: nat)
    ensures SystemOk(Start(count, depth))
  {
    var s := Start(count, depth);
    forall k: nat | k < |s.nodes| ensures NodeOk(s.nodes[k], Owed(s.plan, k), Bound(s, k)) {
      FreshNodeOk(Bound(s, k));
    }
  }

  /** A new obligation towards a shard that was owed nothing. */
  lemma OweKeepsOk(n: Node, msg: ShardMsg, bound: nat)
    requires NodeOk(n, None, bound) && IsControl(msg) && !msg.DesyncedOne? && !msg.DesyncedAll?
    requires msg.Add? ==> msg.conn !in n.added
    ensures NodeOk(n, Some(msg), bound)
  {
    hide ShardOk, QueueOk, NoGap;
    assert AllCovered(n, Some(msg)) by {
      hide RosterOk, Justified;
      forall c: ConnId, s0: nat | (c, s0) in n.lost ensures c in n.added && Covered(n, Some(msg), c, s0) {
        assert Covered(n, None, c, s0);
      }
    }
  }

  lemma CallKeepsOk(s: System, m: Move, compress: Compressor)
    requires SystemOk(s) && Allowed(s, m) && (m.CallTell? || m.CallBroadcast?)
    ensures SystemOk(Done(s, m, compress))
  {
    var t := Done(s, m, compress);
    hide NodeOk;
    assert PlanOk(t);
    forall k: nat | k < |t.nodes| ensures NodeOk(t.nodes[k], Owed(t.plan, k), Bound(t, k)) {
      assert NodeOk(s.nodes[k], None, Bound(s, k));
      if Owed(t.plan, k).Some? {
        OweKeepsOk(s.nodes[k], t.plan[0].msg, Bound(s, k));
      } else {
        assert Bound(t, k) >= Bound(s, k);
        WiderBound(s.nodes[k], None, Bound(s, k), Bound(t, k));
      }
    }
  }

  lemma ProceedKeepsNode(s: System)
    requires SystemOk(s) && s.plan != [] && s.nodes != []
    ensures var t := Proceeded(s);
      NodeOk(t.nodes[s.plan[0].k], Owed(t.plan, s.plan[0].k), Bound(t, s.plan[0].k))
  {
    var t := Proceeded(s);
    var k := s.plan[0].k;
    var msg := s.plan[0].msg;
    assert NodeOk(s.nodes[k], Owed(s.plan, k), Bound(s, k));
    ProceedBounds(s, t, k);
    hide NodeOk, Bound;
    if s.plan[0].Tell? {
      ToldKeepsOk(s.nodes[k], msg, Bound(s, k));
    } else {
      assert Offered(s.plan, k);
      if |s.nodes[k].frames| < s.depth {
        QueuedKeepsOk(s.nodes[k], msg, Bound(s, k));
      } else {
        RefusedKeepsOk(s.nodes[k], msg, Bound(s, k));
      }
    }
  }

  lemma ProceedKeepsPlan(s: System)
    requires SystemOk(s) && s.plan != [] && s.nodes != []
    ensures PlanOk(Proceeded(s)) && RoutedHome(Proceeded(s))
  {
    var t := Proceeded(s);
    ProceedPlan(s, t);
    assert t.nodes[s.plan[0].k].added ==
      if s.plan[0].Tell? && s.plan[0].msg.Add? then s.nodes[s.plan[0].k].added + {s.plan[0].msg.conn}
      else s.nodes[s.plan[0].k].added;
    hide Proceeded, NodeOk, Bound, Owed;
    assert PlanOk(t);
  }

  lemma ProceedKeepsOk(s: System)
    requires SystemOk(s) && s.plan != [] && s.nodes != []
    ensures SystemOk(Proceeded(s))
  {
    var t := Proceeded(s);
    ProceedKeepsPlan(s);
    ProceedKeepsNode(s);
    hide NodeOk, Proceeded;
    ProceedPlan(s, t);
    forall j: nat | j < |t.nodes| ensures NodeOk(t.nodes[j], Owed(t.plan, j), Bound(t, j)) {
      ProceedBounds(s, t, j);
      assert NodeOk(s.nodes[j], Owed(s.plan, j), Bound(s, j));
    }
  }

  lemma OfferedSplit(first: Task, rest: seq<Task>, j: nat)
    ensures Offered([first] + rest, j) <==> (first.Offer? && first.k == j) || Offered(rest, j)
  {
    var plan := [first] + rest;
    if Offered(rest, j) {
      var i :| 0 <= i < |rest| && rest[i].Offer? && rest[i].k == j;
      assert plan[i + 1].Offer? && plan[i + 1].k == j;
    }
    if first.Offer? && first.k == j {
      assert plan[0].Offer? && plan[0].k == j;
    }
  }

  /** The plan left by one operation, whatever became of it. */
  lemma ProceedPlan(s: System, t: System)
    requires s.plan != [] && s.plan[0].k < |s.nodes| && (s.plan[0].Offer? ==> !IsControl(s.plan[0].msg))
    requires t == Proceeded(s)
    ensures t.nextId == s.nextId && |t.nodes| == |s.nodes|
    ensures
      || t.plan == s.plan[1..]
      || (s.plan[0].Offer? && t.plan == [Tell(s.plan[0].k, Notice(s.plan[0].msg))] + s.plan[1..])
    ensures forall j | 0 <= j < |s.nodes| && j != s.plan[0].k :: t.nodes[j] == s.nodes[j]
  {
    hide Queued, Refused, Told, Notice, IsControl;
  }

  /** The offers still to be made, seen from one shard, before and after the actor's next operation. */
  lemma ProceedBounds(s: System, t: System, j: nat)
    requires PlanOk(s) && s.plan != [] && s.nodes != [] && j < |s.nodes|
    requires t == Proceeded(s)
    ensures
      && (j != s.plan[0].k || s.plan[0].Tell? ==> Bound(t, j) == Bound(s, j))
      && (j == s.plan[0].k ==> Bound(t, j) == s.nextId)
      && (j != s.plan[0].k ==> Owed(t.plan, j) == None == Owed(s.plan, j) && t.nodes[j] == s.nodes[j])
      && (s.plan[0].Offer? ==> s.nextId > 0 && Bound(s, s.plan[0].k) == s.nextId - 1)
  {
    var rest := s.plan[1..];
    ProceedPlan(s, t);
    assert s.plan == [s.plan[0]] + rest;
    assert forall i | 0 <= i < |rest| :: rest[i] == s.plan[i + 1];
    assert j == s.plan[0].k ==> !Offered(rest, j);
    hide Proceeded, Id, IsControl;
    OfferedSplit(s.plan[0], rest, j);
    OfferedSplit(s.plan[0], rest, s.plan[0].k);
    OfferedSplit(Tell(s.plan[0].k, Notice(s.plan[0].msg)), rest, j);
    hide Offered, Notice;
  }

  lemma ShardMoveKeepsOk(s: System, m: Move, compress: Compressor)
    requires SystemOk(s) && Allowed(s, m) && (m.TakeControl? || m.TakeFrame? || m.Serve?)
    ensures SystemOk(Done(s, m, compress))
  {
    assert m.k < |s.nodes|;
    hide *;
    ShardMoveKeepsNode(s, m, compress);
    ShardMoveKeepsRest(s, m, compress);
    OneNodeKeeps(s, Done(s, m, compress), m.k);
  }

  lemma OneNodeKeeps(s: System, t: System, k: nat)
    requires SystemOk(s) && t == s.(nodes := t.nodes) && |t.nodes| == |s.nodes| && k < |s.nodes|
    requires t.nodes[k].added == s.nodes[k].added && NodeOk(t.nodes[k], Owed(s.plan, k), Bound(s, k))
    requires forall j | 0 <= j < |s.nodes| && j != k :: t.nodes[j] == s.nodes[j]
    ensures SystemOk(t)
  {
    hide NodeOk, Bound, Owed, PlanOk;
    PlanCarries(s, t);
  }

  lemma PlanCarries(s: System, t: System)
    requires t == s.(nodes := t.nodes) && |t.nodes| == |s.nodes|
    ensures PlanOk(t) == PlanOk(s)
    ensures forall k: nat :: Bound(t, k) == Bound(s, k)
  {
  }

  lemma ShardMoveKeepsNode(s: System, m: Move, compress: Compressor)
    requires SystemOk(s) && Allowed(s, m) && (m.TakeControl? || m.TakeFrame? || m.Serve?)
    ensures NodeOk(Done(s, m, compress).nodes[m.k], Owed(s.plan, m.k), Bound(s, m.k))
  {
    var k := m.k;
    var owed := Owed(s.plan, k);
    assert NodeOk(s.nodes[k], owed, Bound(s, k));
    if m.TakeControl? {
      TookControlKeepsOk(s.nodes[k], owed, Bound(s, k));
    } else if m.TakeFrame? {
      TookFrameKeepsOk(s.nodes[k], owed, Bound(s, k), m.recips, m.answers, compress);
    } else {
      MovedKeepsOk(s.nodes[k], owed, Bound(s, k), m.event, compress);
    }
    hide NodeOk, Control, Transmit, FanFor, After, MayTakeFrame, IsWriterEvent, PlanOk, Bound, Owed;
  }

  lemma ShardMoveKeepsRest(s: System, m: Move, compress: Compressor)
    requires Allowed(s, m) && (m.TakeControl? || m.TakeFrame? || m.Serve?)
    ensures var t := Done(s, m, compress);
      && t == s.(nodes := t.nodes) && |t.nodes| == |s.nodes| && t.nodes[m.k].added == s.nodes[m.k].added
      && (forall j | 0 <= j < |s.nodes| && j != m.k :: t.nodes[j] == s.nodes[j])
  {
    hide Control, Transmit, FanFor, After, MayTakeFrame, IsWriterEvent;
  }

  /** Whatever the actor, the shards and the writers do, in whatever order. */
  lemma {:induction false} EveryRunIsOk(count: nat, depth: nat, moves: seq<Move>, compress: Compressor)
    requires Run(count, depth, moves, compress).Some?
    ensures SystemOk(Run(count, depth, moves, compress).value)
  {
    if moves == [] {
      StartOk(count, depth);
    } else {
      var front := moves[..|moves| - 1];
      EveryRunIsOk(count, depth, front, compress);
      var s := Run(count, depth, front, compress).value;
      hide SystemOk, Run;
      match Last(moves)
      case CallTell(_) => CallKeepsOk(s, Last(moves), compress);
      case CallBroadcast(_, _, _) => CallKeepsOk(s, Last(moves), compress);
      case Proceed => ProceedKeepsOk(s);
      case _ => ShardMoveKeepsOk(s, Last(moves), compress);
    }
  }

  // The promises.

  /**
   * Over every interleaving: once a frame meant for a connection is lost after its `Add`, no later frame is queued for
   * it; nor is a second copy of the same frame, as long as no explicit list names a connection twice.
   */
  lemma NoGapEver(count: nat, depth: nat, moves: seq<Move>, compress: Compressor, k: nat, c: ConnId, sent: nat,
                  lost: nat)
    requires Run(count, depth, moves, compress).Some? && k < |Run(count, depth, moves, compress).value.nodes|
    requires var n := Run(count, depth, moves, compress).value.nodes[k]; (c, sent) in n.sent && (c, lost) in n.lost
    ensures sent <= lost
    ensures Run(count, depth, moves, compress).value.nodes[k].tidy ==> sent < lost
  {
    EveryRunIsOk(count, depth, moves, compress);
    hide Run;
    assert NodeOk(Run(count, depth, moves, compress).value.nodes[k],
                  Owed(Run(count, depth, moves, compress).value.plan,
                       k), Bound(Run(count, depth, moves, compress).value, k));
  }

  /**
   * Over every interleaving, whenever the actor is between calls and a shard has emptied its control inbox: its members
   * closed for lag or a dropped frame are exactly those a frame was lost for, however many sweeps were skipped.
   */
  lemma ClosedExactlyForLoss(count: nat, depth: nat, moves: seq<Move>, compress: Compressor, k: nat, c: ConnId)
    requires Run(count, depth, moves, compress).Some? && k < |Run(count, depth, moves, compress).value.nodes|
    requires Run(count, depth, moves, compress).value.plan == []
    requires var n := Run(count, depth, moves, compress).value.nodes[k]; n.control == [] && c in n.shard.members
    ensures var n := Run(count, depth, moves, compress).value.nodes[k]; n.shard.members[c].lagged <==> HasLoss(n, c)
  {
    EveryRunIsOk(count, depth, moves, compress);
    hide Run;
    var s := Run(count, depth, moves, compress).value;
    SettledExactly(s.nodes[k], Bound(s, k), c);
  }

  /** A connection is served by one shard only, and no `Add` it is told names a connection it already holds. */
  lemma OneShardEach(count: nat, depth: nat, moves: seq<Move>, compress: Compressor, k: nat, j: nat, c: ConnId)
    requires Run(count, depth, moves, compress).Some?
    requires k < |Run(count, depth, moves, compress).value.nodes|
    requires j < |Run(count, depth, moves, compress).value.nodes|
    requires var s := Run(count, depth, moves, compress).value; c in s.nodes[k].shard.members && c in s.nodes[j].added
    ensures k == j && ShardOk(Run(count, depth, moves, compress).value.nodes[k].shard)
  {
    EveryRunIsOk(count, depth, moves, compress);
    hide Run;
    var s := Run(count, depth, moves, compress).value;
    assert NodeOk(s.nodes[k], Owed(s.plan, k), Bound(s, k));
  }
}
