/** What waits in each writer's queue: frames in the order they were made, all of them accounted for. */
module FanoutOrder {
  import opened Common
  import opened Shard
  import opened ShardFacts
  import opened ShardRuns
  import opened FanoutNode
  import opened Fanout

  /** The frames waiting for `c` were sent to it, and wait in the order they were made. */
  predicate InOrder(sent: set<(ConnId, nat)>, c: ConnId, out: seq<Outbound>) {
    && (forall i | 0 <= i < |out| && out[i].Frame? :: (c, out[i].id) in sent)
    && (forall i, j | 0 <= i < j < |out| && out[i].Frame? && out[j].Frame? :: out[i].id <= out[j].id)
  }

  predicate WiresOk(n: Node) {
    forall c | c in n.shard.members :: InOrder(n.sent, c, n.shard.members[c].out)
  }

  lemma MemberMoveOut(m: Member, n: Member)
    requires MemberMove(m, n)
    ensures
      || n.out == m.out || n.out == m.out + [Close] || n.out == m.out + [Reply]
      || (m.out != [] && n.out == m.out[1..])
  {
    DesyncOut(m);
    hide Desync, CloseMember;
  }

  lemma MoveInOrder(sent: set<(ConnId, nat)>, c: ConnId, m: Member, n: Member)
    requires InOrder(sent, c, m.out) && MemberMove(m, n)
    ensures InOrder(sent, c, n.out)
  {
    MemberMoveOut(m, n);
  }

  /** A frame later than everything sent goes to the end, however much leaves from the front. */
  lemma FedInOrder(sent: set<(ConnId, nat)>, later: set<(ConnId, nat)>, c: ConnId,
                   before: seq<Outbound>, n: Member, frame: Outbound, b: bool)
    requires InOrder(sent, c, before) && Fed(before, n, frame, b) && frame.Frame?
    requires forall s: nat | (c, s) in sent :: s < frame.id
    requires sent <= later && (b ==> (c, frame.id) in later)
    ensures InOrder(later, c, n.out)
  {
    var tail: seq<Outbound>, taken: nat :| FedBy(before, n, frame, b, tail, taken);
    TailInOrder(sent, later, c, before, tail, frame);
    var all := before + tail;
    assert forall i | 0 <= i < |n.out| :: n.out[i] == all[taken + i];
  }

  lemma TailInOrder(sent: set<(ConnId, nat)>, later: set<(ConnId, nat)>, c: ConnId,
                    before: seq<Outbound>, tail: seq<Outbound>, frame: Outbound)
    requires InOrder(sent, c, before) && frame.Frame?
    requires forall i | 0 <= i < |tail| :: tail[i] == frame || tail[i] == Reply
    requires forall s: nat | (c, s) in sent :: s < frame.id
    requires sent <= later && (frame in tail ==> (c, frame.id) in later)
    ensures InOrder(later, c, before + tail)
  {
    var all := before + tail;
    forall i, j | 0 <= i < j < |all| && all[i].Frame? && all[j].Frame? ensures all[i].id <= all[j].id {
      assert i < |before| ==> all[i] == before[i] && (c, before[i].id) in sent;
      assert j < |before| ==> all[j] == before[j];
    }
    forall i | 0 <= i < |all| && all[i].Frame? ensures (c, all[i].id) in later {
      assert i < |before| ==> all[i] == before[i];
      assert i >= |before| ==> all[i] == tail[i - |before|];
    }
  }

  lemma TookControlInOrder(n: Node, owed: Option<ShardMsg>, bound: nat)
    requires NodeOk(n, owed, bound) && n.control != [] && WiresOk(n)
    ensures WiresOk(TookControl(n))
  {
    HeadIsFresh(n, owed);
    var t := TookControl(n);
    hide InOrder, NodeOk, MemberMove, Control;
    forall c | c in t.shard.members ensures InOrder(t.sent, c, t.shard.members[c].out) {
      ControlMoves(n.shard, n.control[0], c);
      assert NewOrMoved(n.shard, t.shard, c);
      if c in n.shard.members {
        MoveInOrder(n.sent, c, n.shard.members[c], t.shard.members[c]);
      } else {
        assert InOrder(t.sent, c, []) by {
          EmptyInOrder(t.sent, c);
        }
      }
    }
  }

  lemma EmptyInOrder(sent: set<(ConnId, nat)>, c: ConnId)
    ensures InOrder(sent, c, [])
  {
  }

  lemma MovedInOrder(n: Node, e: Event, compress: Compressor)
    requires IsWriterEvent(n, e) && WiresOk(n)
    ensures WiresOk(Acted(n, e, compress))
  {
    var t := Acted(n, e, compress);
    hide InOrder;
    forall c | c in t.shard.members ensures InOrder(t.sent, c, t.shard.members[c].out) {
      assert MemberMove(n.shard.members[c], t.shard.members[c]);
      MoveInOrder(n.sent, c, n.shard.members[c], t.shard.members[c]);
    }
  }

  lemma TookFrameInOrder(n: Node, owed: Option<ShardMsg>, bound: nat, recips: seq<ConnId>, answers: Answers,
                         compress: Compressor)
    requires NodeOk(n, owed, bound) && MayTakeFrame(n, recips) && WiresOk(n)
    ensures WiresOk(TookFrame(n, recips, answers, compress))
  {
    var msg := n.frames[0];
    var t := TookFrame(n, recips, answers, compress);
    var f := FanFor(n.shard, msg, recips, answers, compress);
    assert QueueOk(n, bound);
    TransmitQueues(n.shard, msg, recips, answers, compress);
    TransmitEffect(n.shard, msg, recips, answers, compress);
    hide NodeOk, InOrder, FanFor, Transmit, Fed, TransmitOn, MayTakeFrame;
    forall c | c in t.shard.members ensures InOrder(t.sent, c, t.shard.members[c].out) {
      assert c in n.shard.members.Keys;
      FedInOrder(n.sent, t.sent, c, n.shard.members[c].out, t.shard.members[c],
                 Frame(Id(msg), Variant(n.shard.members[c], msg.msg, compress)), c in f.sent);
    }
  }

  predicate AllWiresOk(s: System) {
    forall k | 0 <= k < |s.nodes| :: WiresOk(s.nodes[k])
  }

  lemma WiresElsewhere(s: System, t: System, k: nat)
    requires AllWiresOk(s) && |t.nodes| == |s.nodes| && k < |s.nodes| && WiresOk(t.nodes[k])
    requires forall j | 0 <= j < |s.nodes| && j != k :: t.nodes[j] == s.nodes[j]
    ensures AllWiresOk(t)
  {
    hide WiresOk;
  }

  lemma ShardMoveKeepsWires(s: System, m: Move, compress: Compressor)
    requires SystemOk(s) && Allowed(s, m) && AllWiresOk(s) && (m.TakeControl? || m.TakeFrame? || m.Serve?)
    ensures WiresOk(Done(s, m, compress).nodes[m.k])
  {
    var n, owed, bound := s.nodes[m.k], Owed(s.plan, m.k), Bound(s, m.k);
    assert NodeOk(n, owed, bound);
    hide WiresOk, NodeOk;
    if m.TakeControl? {
      TookControlInOrder(n, owed, bound);
    } else if m.TakeFrame? {
      TookFrameInOrder(n, owed, bound, m.recips, m.answers, compress);
    } else {
      MovedInOrder(n, m.event, compress);
    }
  }

  lemma ProceedKeepsWires(s: System)
    requires SystemOk(s) && s.plan != [] && AllWiresOk(s)
    ensures AllWiresOk(Proceeded(s))
  {
    var t, k := Proceeded(s), s.plan[0].k;
    ProceedPlan(s, t);
    assert t.nodes[k].shard == s.nodes[k].shard && t.nodes[k].sent == s.nodes[k].sent;
    SameWires(s.nodes[k], t.nodes[k]);
    hide Proceeded, WiresOk, NodeOk;
    WiresElsewhere(s, t, k);
  }

  lemma MoveKeepsWires(s: System, m: Move, compress: Compressor)
    requires SystemOk(s) && Allowed(s, m) && AllWiresOk(s)
    ensures AllWiresOk(Done(s, m, compress))
  {
    hide WiresOk, NodeOk;
    match m
    case CallTell(_) =>
    case CallBroadcast(_, _, _) =>
    case Proceed => ProceedKeepsWires(s);
    case _ =>
      ShardMoveKeepsRest(s, m, compress);
      ShardMoveKeepsWires(s, m, compress);
      hide Done, Allowed, SystemOk, AllWiresOk;
      WiresElsewhere(s, Done(s, m, compress), m.k);
  }

  lemma SameWires(n: Node, t: Node)
    requires WiresOk(n) && t.shard == n.shard && t.sent == n.sent
    ensures WiresOk(t)
  {
  }

  /** Over every interleaving, what waits for a writer is in order, and is only what was sent. */
  lemma {:induction false} EveryRunInOrder(count: nat, depth: nat, moves: seq<Move>, compress: Compressor)
    requires Fanout.Run(count, depth, moves, compress).Some?
    ensures AllWiresOk(Fanout.Run(count, depth, moves, compress).value)
  {
    if moves != [] {
      var front := moves[..|moves| - 1];
      EveryRunInOrder(count, depth, front, compress);
      Fanout.EveryRunIsOk(count, depth, front, compress);
      var s := Fanout.Run(count, depth, front, compress).value;
      MoveKeepsWires(s, Last(moves), compress);
      hide AllWiresOk, SystemOk;
    }
  }
}
