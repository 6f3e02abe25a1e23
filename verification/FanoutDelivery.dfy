/** Nothing is reordered or invented on the way to a shard, and once nothing waits every frame has been answered. */
module FanoutDelivery {
  import opened Common
  import opened Shard
  import opened ShardFacts
  import opened ShardRuns
  import opened FanoutNode
  import opened Fanout
  import opened FanoutRecord

  // Frames.

  /** A frame the room made, and made for this shard. */
  ghost predicate OfRecord(msg: ShardMsg, made: seq<Made>, k: nat, count: nat)
    requires count > 0
  {
    !IsControl(msg) && Id(msg) < |made| && made[Id(msg)].msg == msg && For(msg, k, count)
  }

  ghost predicate TakenInOrder(taken: seq<Taking>, frames: seq<ShardMsg>, bound: nat) {
    && (forall i | 0 <= i < |taken| :: !IsControl(taken[i].msg) && Id(taken[i].msg) < bound)
    && (forall i, j | 0 <= i < j < |taken| :: Id(taken[i].msg) < Id(taken[j].msg))
    && (forall i, j | 0 <= i < |taken| && 0 <= j < |frames| && !IsControl(frames[j]) ::
          Id(taken[i].msg) < Id(frames[j]))
  }

  /** All that has been, is, or is about to be in a shard's frame inbox was made for it. */
  ghost predicate AllOfRecord(s: System, made: seq<Made>, taken: seq<Taking>, k: nat)
    requires k < |s.nodes|
  {
    && (forall i | 0 <= i < |taken| :: OfRecord(taken[i].msg, made, k, |s.nodes|))
    && (forall i | 0 <= i < |s.nodes[k].frames| :: OfRecord(s.nodes[k].frames[i], made, k, |s.nodes|))
    && (forall i | 0 <= i < |s.plan| && s.plan[i].Offer? && s.plan[i].k == k ::
          OfRecord(s.plan[i].msg, made, k, |s.nodes|))
  }

  ghost predicate PipeOk(s: System, made: seq<Made>, taken: seq<Taking>, k: nat) {
    && k < |s.nodes|
    && NumberedOk(s, made)
    && AllOfRecord(s, made, taken, k)
    && TakenInOrder(taken, s.nodes[k].frames, Bound(s, k))
  }

  lemma CallKeepsPipe(s: System, m: Move, compress: Compressor, made: seq<Made>, added: set<ConnId>,
                      taken: seq<Taking>, k: nat)
    requires Allowed(s, m) && (m.CallTell? || m.CallBroadcast?) && PipeOk(s, made, taken, k)
    ensures PipeOk(Done(s, m, compress), made + NewFrame(m, |made|, added), taken, k)
  {
    var t, all := Done(s, m, compress), made + NewFrame(m, |made|, added);
    assert s.plan == [] && t.nodes == s.nodes;
    assert NumberedOk(t, all);
    assert Bound(s, k) <= Bound(t, k);
    assert forall i | 0 <= i < |made| :: all[i] == made[i];
    forall i | 0 <= i < |t.plan| && t.plan[i].Offer? && t.plan[i].k == k
      ensures OfRecord(t.plan[i].msg, all, k, |t.nodes|)
    {
      assert all[|made|].msg == t.plan[i].msg;
    }
    hide Done, Allowed, Bound, Offers;
  }

  lemma OneMoreWaits(taken: seq<Taking>, frames: seq<ShardMsg>, msg: ShardMsg, bound: nat, wider: nat)
    requires TakenInOrder(taken, frames, bound) && bound <= wider
    ensures TakenInOrder(taken, frames, wider)
    ensures !IsControl(msg) && bound <= Id(msg) ==> TakenInOrder(taken, frames + [msg], wider)
  {
    hide Id, IsControl;
    assert forall i | 0 <= i < |frames + [msg]| ::
        (frames + [msg])[i] == if i < |frames| then frames[i] else msg;
  }

  lemma ProceedKeepsOrder(s: System, taken: seq<Taking>, k: nat)
    requires SystemOk(s) && s.plan != [] && s.nodes != [] && k < |s.nodes|
    requires TakenInOrder(taken, s.nodes[k].frames, Bound(s, k))
    ensures k < |Proceeded(s).nodes|
    ensures TakenInOrder(taken, Proceeded(s).nodes[k].frames, Bound(Proceeded(s), k))
  {
    var t := Proceeded(s);
    ProceedPlan(s, t);
    ProceedFrames(s, t, k);
    BoundGrows(s, t, k);
    hide SystemOk, Proceeded, Bound, TakenInOrder;
    OneMoreWaits(taken, s.nodes[k].frames, s.plan[0].msg, Bound(s, k), Bound(t, k));
  }

  lemma ProceedKeepsRecorded(s: System, made: seq<Made>, taken: seq<Taking>, k: nat)
    requires SystemOk(s) && s.plan != [] && s.nodes != [] && k < |s.nodes| && AllOfRecord(s, made, taken, k)
    ensures k < |Proceeded(s).nodes| && AllOfRecord(Proceeded(s), made, taken, k)
  {
    var t := Proceeded(s);
    ProceedPlan(s, t);
    ProceedFrames(s, t, k);
    hide SystemOk, Proceeded, Bound, OfRecord;
    assert forall i | 0 <= i < |s.plan[1..]| :: s.plan[1..][i] == s.plan[i + 1];
  }

  lemma ProceedKeepsPipe(s: System, made: seq<Made>, taken: seq<Taking>, k: nat)
    requires SystemOk(s) && s.plan != [] && s.nodes != [] && PipeOk(s, made, taken, k)
    ensures PipeOk(Proceeded(s), made, taken, k)
  {
    ProceedPlan(s, Proceeded(s));
    hide SystemOk, Proceeded, Bound, AllOfRecord, TakenInOrder;
    ProceedKeepsOrder(s, taken, k);
    ProceedKeepsRecorded(s, made, taken, k);
  }

  lemma BoundGrows(s: System, t: System, k: nat)
    requires PlanOk(s) && s.plan != [] && s.nodes != [] && k < |s.nodes|
    requires t == Proceeded(s)
    ensures Bound(s, k) <= Bound(t, k)
  {
    ProceedBounds(s, t, k);
    hide Proceeded;
  }

  /** What the next operation does to a shard's inbox. */
  lemma ProceedFrames(s: System, t: System, k: nat)
    requires SystemOk(s) && s.plan != [] && s.nodes != [] && k < |s.nodes| && t == Proceeded(s)
    ensures t.nodes[k].frames == s.nodes[k].frames
         || (s.plan[0].Offer? && s.plan[0].k == k && t.nodes[k].frames == s.nodes[k].frames + [s.plan[0].msg]
             && !IsControl(s.plan[0].msg) && Bound(s, k) <= Id(s.plan[0].msg) < Bound(t, k))
  {
    ProceedBounds(s, t, k);
    hide NodeOk, Bound;
  }

  /** The first frame of an inbox comes before the rest of it. */
  lemma FirstComesFirst(n: Node, frames: seq<ShardMsg>, first: ShardMsg, bound: nat)
    requires QueueOk(n, bound) && n.frames == [first] + frames
    ensures !IsControl(first) && Id(first) < bound
    ensures forall j | 0 <= j < |frames| && !IsControl(frames[j]) :: Id(first) < Id(frames[j])
  {
    hide IsControl;
    assert n.frames[0] == first;
    forall j | 0 <= j < |frames| && !IsControl(frames[j]) ensures Id(first) < Id(frames[j]) {
      assert n.frames[j + 1] == frames[j];
    }
  }

  lemma FirstTaken(n: Node, frames: seq<ShardMsg>, taken: seq<Taking>, x: Taking, bound: nat)
    requires QueueOk(n, bound) && n.frames == [x.msg] + frames
    requires TakenInOrder(taken, n.frames, bound)
    ensures TakenInOrder(taken + [x], frames, bound)
  {
    FirstComesFirst(n, frames, x.msg, bound);
    hide Id, IsControl, QueueOk;
    var all := taken + [x];
    assert n.frames[0] == x.msg;
    assert forall j | 0 <= j < |frames| :: n.frames[j + 1] == frames[j];
    assert forall i | 0 <= i < |all| :: all[i] == if i < |taken| then taken[i] else x;
  }

  lemma ShardMoveKeepsOrder(s: System, m: Move, compress: Compressor, taken: seq<Taking>, k: nat)
    requires SystemOk(s) && Allowed(s, m) && (m.TakeControl? || m.TakeFrame? || m.Serve?) && k < |s.nodes|
    requires TakenInOrder(taken, s.nodes[k].frames, Bound(s, k))
    ensures var t := Done(s, m, compress);
            k < |t.nodes| && TakenInOrder(taken + TakenNow(s, m, k), t.nodes[k].frames, Bound(t, k))
  {
    var t, more := Done(s, m, compress), TakenNow(s, m, k);
    ShardMoveGrows(s, m, compress, k);
    assert Bound(t, k) == Bound(s, k);
    assert taken + [] == taken;
    if m.TakeFrame? && m.k == k {
      assert QueueOk(s.nodes[k], Bound(s, k)) by {
        assert NodeOk(s.nodes[k], Owed(s.plan, k), Bound(s, k));
      }
      hide Done, Allowed, SystemOk, Bound, TakenInOrder, TookFrame, QueueOk, Grows;
      FirstTaken(s.nodes[k], t.nodes[k].frames, taken, more[0], Bound(s, k));
    }
  }

  lemma ShardMoveKeepsRecorded(s: System, m: Move, compress: Compressor, made: seq<Made>, taken: seq<Taking>, k: nat)
    requires Allowed(s, m) && (m.TakeControl? || m.TakeFrame? || m.Serve?) && k < |s.nodes|
    requires AllOfRecord(s, made, taken, k)
    ensures var t := Done(s, m, compress);
            k < |t.nodes| && AllOfRecord(t, made, taken + TakenNow(s, m, k), k)
  {
    var t, more := Done(s, m, compress), TakenNow(s, m, k);
    ShardMoveGrows(s, m, compress, k);
    assert taken + [] == taken;
    if m.TakeFrame? && m.k == k {
      assert OfRecord(s.nodes[k].frames[0], made, k, |s.nodes|);
      assert more[0].msg == s.nodes[k].frames[0];
    }
    hide Done, Allowed, OfRecord, TookFrame, Grows, TakenNow;
  }

  lemma ShardMoveKeepsPipe(s: System, m: Move, compress: Compressor, made: seq<Made>, taken: seq<Taking>, k: nat)
    requires SystemOk(s) && Allowed(s, m) && (m.TakeControl? || m.TakeFrame? || m.Serve?)
    requires PipeOk(s, made, taken, k)
    ensures PipeOk(Done(s, m, compress), made, taken + TakenNow(s, m, k), k)
  {
    hide Done, Allowed, SystemOk, Bound, AllOfRecord, TakenInOrder, TakenNow;
    ShardMoveGrows(s, m, compress, k);
    ShardMoveKeepsOrder(s, m, compress, taken, k);
    ShardMoveKeepsRecorded(s, m, compress, made, taken, k);
  }

  lemma StartPipe(count: nat, depth: nat, k: nat)
    requires k < count
    ensures PipeOk(Start(count, depth), [], [], k)
  {
  }

  lemma {:induction false} PipeHolds(count: nat, depth: nat, moves: seq<Move>, compress: Compressor, k: nat)
    requires Fanout.Run(count, depth, moves, compress).Some? && k < count
    ensures var s := Fanout.Run(count, depth, moves, compress).value;
            PipeOk(s, FramesMade(moves), Taken(count, depth, moves, compress, k), k)
  {
    if moves == [] {
      StartPipe(count, depth, k);
    } else {
      var front := moves[..|moves| - 1];
      PipeHolds(count, depth, front, compress, k);
      Fanout.EveryRunIsOk(count, depth, front, compress);
      var s := Fanout.Run(count, depth, front, compress).value;
      MoveKeepsPipe(s, Last(moves), compress, FramesMade(front), AddedBy(front),
                    Taken(count, depth, front, compress, k), k) by {
        hide *;
      }
      hide SystemOk, PipeOk, Allowed, Done, NewFrame, TakenNow;
    }
  }

  lemma MoveKeepsPipe(s: System, m: Move, compress: Compressor, made: seq<Made>, added: set<ConnId>,
                      taken: seq<Taking>, k: nat)
    requires SystemOk(s) && Allowed(s, m) && PipeOk(s, made, taken, k)
    ensures PipeOk(Done(s, m, compress), made + NewFrame(m, |made|, added), taken + TakenNow(s, m, k), k)
  {
    hide SystemOk, PipeOk;
    assert made + [] == made && taken + [] == taken;
    if m.CallTell? || m.CallBroadcast? {
      CallKeepsPipe(s, m, compress, made, added, taken, k);
    } else if m.Proceed? {
      ProceedKeepsPipe(s, made, taken, k);
    } else {
      ShardMoveKeepsPipe(s, m, compress, made, taken, k);
    }
  }

  /** All that has been or is in a shard's frame inbox, or is about to be offered to it. */
  ghost function Pipe(s: System, taken: seq<Taking>, k: nat): seq<ShardMsg>
    requires k < |s.nodes|
  {
    seq(|taken|, i requires 0 <= i < |taken| => taken[i].msg) + s.nodes[k].frames + Offering(s.plan, k)
  }

  ghost function Offering(plan: seq<Task>, k: nat): seq<ShardMsg> {
    if plan == [] then []
    else (if plan[0].Offer? && plan[0].k == k then [plan[0].msg] else []) + Offering(plan[1..], k)
  }

  /** At most one offer to one shard is planned, the last frame made. */
  lemma {:induction false} OneOffer(s: System, plan: seq<Task>, made: seq<Made>, k: nat)
    requires PlanOk(s.(plan := plan)) && k < |s.nodes|
    requires forall i | 0 <= i < |plan| && plan[i].Offer? && plan[i].k == k :: OfRecord(plan[i].msg, made, k, |s.nodes|)
    ensures |Offering(plan, k)| <= 1 && (!Offered(plan, k) ==> Offering(plan, k) == [])
    ensures forall x | x in Offering(plan, k) :: OfRecord(x, made, k, |s.nodes|) && Id(x) + 1 == s.nextId
    decreases plan
  {
    if plan != [] {
      var rest := plan[1..];
      assert forall i | 0 <= i < |rest| :: rest[i] == plan[i + 1];
      assert plan == [plan[0]] + rest;
      OneOffer(s, rest, made, k);
      OfferedSplit(plan[0], rest, k);
      hide OfRecord, Id, IsControl;
    }
  }

  /** In the pipe frames stand in the order in which they were made, all made for this shard, none of them twice. */
  ghost predicate InOrderOfMaking(pipe: seq<ShardMsg>, made: seq<Made>, k: nat, count: nat)
    requires count > 0
  {
    && (forall i | 0 <= i < |pipe| :: OfRecord(pipe[i], made, k, count))
    && (forall i, j | 0 <= i < j < |pipe| && !IsControl(pipe[i]) && !IsControl(pipe[j]) :: Id(pipe[i]) < Id(pipe[j]))
  }

  lemma Joined(a: seq<ShardMsg>, b: seq<ShardMsg>, made: seq<Made>, k: nat, count: nat)
    requires count > 0 && InOrderOfMaking(a, made, k, count) && InOrderOfMaking(b, made, k, count)
    requires forall i, j | 0 <= i < |a| && 0 <= j < |b| && !IsControl(a[i]) && !IsControl(b[j]) :: Id(a[i]) < Id(b[j])
    ensures InOrderOfMaking(a + b, made, k, count)
  {
    hide Id, IsControl;
    var all := a + b;
    assert forall i | 0 <= i < |all| :: all[i] == if i < |a| then a[i] else b[i - |a|];
  }

  /** Whatever a shard takes, holds and is offered, in this order, is what was made for it, in order, frames missing. */
  lemma FramesInOrder(count: nat, depth: nat, moves: seq<Move>, compress: Compressor, k: nat)
    requires Fanout.Run(count, depth, moves, compress).Some? && k < count
    ensures var s := Fanout.Run(count, depth, moves, compress).value;
            && k < |s.nodes| && |s.nodes| == count
            && InOrderOfMaking(Pipe(s, Taken(count, depth, moves, compress, k), k), FramesMade(moves), k, count)
  {
    var s, made := Fanout.Run(count, depth, moves, compress).value, FramesMade(moves);
    var taken := Taken(count, depth, moves, compress, k);
    PipeHolds(count, depth, moves, compress, k);
    Fanout.EveryRunIsOk(count, depth, moves, compress);
    CountStays(count, depth, moves, compress);
    hide Fanout.Run, Taken, FramesMade;
    WholePipe(s, made, taken, k);
  }

  ghost predicate Below(msgs: seq<ShardMsg>, bound: nat) {
    forall i | 0 <= i < |msgs| && !IsControl(msgs[i]) :: Id(msgs[i]) < bound
  }

  ghost predicate NotBelow(msgs: seq<ShardMsg>, bound: nat) {
    forall i | 0 <= i < |msgs| && !IsControl(msgs[i]) :: bound <= Id(msgs[i])
  }

  /** What has been taken, and what waits behind it. */
  lemma TakenAndWaiting(s: System, made: seq<Made>, taken: seq<Taking>, k: nat, msgs: seq<ShardMsg>)
    requires PipeOk(s, made, taken, k) && QueueOk(s.nodes[k], Bound(s, k))
    requires |msgs| == |taken| && forall i | 0 <= i < |taken| :: msgs[i] == taken[i].msg
    ensures var all := msgs + s.nodes[k].frames;
            InOrderOfMaking(all, made, k, |s.nodes|) && Below(all, Bound(s, k))
  {
    hide Bound, Id, IsControl, For;
    var frames := s.nodes[k].frames;
    assert InOrderOfMaking(frames, made, k, |s.nodes|);
    assert InOrderOfMaking(msgs, made, k, |s.nodes|);
    Joined(msgs, frames, made, k, |s.nodes|);
    assert Below(msgs, Bound(s, k)) && Below(frames, Bound(s, k));
  }

  lemma OfferedLast(s: System, made: seq<Made>, k: nat)
    requires PlanOk(s) && k < |s.nodes|
    requires forall i | 0 <= i < |s.plan| && s.plan[i].Offer? && s.plan[i].k == k ::
               OfRecord(s.plan[i].msg, made, k, |s.nodes|)
    ensures var offers := Offering(s.plan, k);
            InOrderOfMaking(offers, made, k, |s.nodes|) && NotBelow(offers, Bound(s, k))
  {
    assert s == s.(plan := s.plan);
    OneOffer(s, s.plan, made, k);
    var offers := Offering(s.plan, k);
    assert forall j | 0 <= j < |offers| :: offers[j] in offers;
    hide OfRecord, Offering;
  }

  lemma WholePipe(s: System, made: seq<Made>, taken: seq<Taking>, k: nat)
    requires SystemOk(s) && PipeOk(s, made, taken, k)
    ensures InOrderOfMaking(Pipe(s, taken, k), made, k, |s.nodes|)
  {
    var msgs := seq(|taken|, i requires 0 <= i < |taken| => taken[i].msg);
    assert QueueOk(s.nodes[k], Bound(s, k)) by {
      assert NodeOk(s.nodes[k], Owed(s.plan, k), Bound(s, k));
    }
    TakenAndWaiting(s, made, taken, k, msgs);
    OfferedLast(s, made, k);
    hide SystemOk, Bound, Offering, InOrderOfMaking, QueueOk, PipeOk, Id, IsControl;
    Joined(msgs + s.nodes[k].frames, Offering(s.plan, k), made, k, |s.nodes|);
  }

  /**
   * Once nothing waits for a shard, every frame made for it was taken and served, or is lost for every connection there
   * it may have been for.
   */
  lemma EveryFrameAnswered(count: nat, depth: nat, moves: seq<Move>, compress: Compressor, k: nat, i: nat)
    requires Fanout.Run(count, depth, moves, compress).Some? && k < count && i < |FramesMade(moves)|
    requires !IsControl(FramesMade(moves)[i].msg) && For(FramesMade(moves)[i].msg, k, count)
    requires var s := Fanout.Run(count, depth, moves, compress).value;
             s.plan == [] && k < |s.nodes| && s.nodes[k].frames == []
    ensures var n := Fanout.Run(count, depth, moves, compress).value.nodes[k];
            || TakenAmong(FramesMade(moves)[i], Taken(count, depth, moves, compress, k), n, RemovedBy(moves), k, count)
            || LostThere(FramesMade(moves)[i], n, k, count)
  {
    NoFrameVanishes(count, depth, moves, compress, k);
    CountStays(count, depth, moves, compress);
    hide TakenAmong, LostThere, AddsTold, Taken, AddsArrived;
  }

  /** So for each of its connections: sent, lost, not meant, or dropped by a rule of its own filter. */
  lemma EveryConnectionAnswered(count: nat, depth: nat, moves: seq<Move>, compress: Compressor, k: nat, i: nat,
                                c: ConnId)
    requires Fanout.Run(count, depth, moves, compress).Some? && k < count && i < |FramesMade(moves)|
    requires !IsControl(FramesMade(moves)[i].msg) && For(FramesMade(moves)[i].msg, k, count)
    requires var s := Fanout.Run(count, depth, moves, compress).value;
             s.plan == [] && k < |s.nodes| && s.nodes[k].frames == []
    requires c % count == k && c in FramesMade(moves)[i].added
    requires FramesMade(moves)[i].msg.Send? ==> FramesMade(moves)[i].msg.conn == c
    ensures var n, d := Fanout.Run(count, depth, moves, compress).value.nodes[k], FramesMade(moves)[i];
            || (c, i) in n.sent || (c, i) in n.lost
            || exists x :: x in Taken(count, depth, moves, compress, k) && x.msg == d.msg
                           && Spared(x, c, RemovedBy(moves))
  {
    EveryFrameAnswered(count, depth, moves, compress, k, i);
    NoFrameVanishes(count, depth, moves, compress, k);
    var n, d := Fanout.Run(count, depth, moves, compress).value.nodes[k], FramesMade(moves)[i];
    var taken := Taken(count, depth, moves, compress, k);
    assert Id(d.msg) == i;
    hide Fanout.Run, Taken, FramesMade, NothingVanished;
    if TakenAmong(d, taken, n, RemovedBy(moves), k, count) {
      var j :| 0 <= j < |taken| && taken[j].msg == d.msg && Served(taken[j], n)
               && Present(d, taken[j], RemovedBy(moves), k, count);
      assert taken[j] in taken;
      ServedOrSpared(d, taken[j], n, c, RemovedBy(moves), k, count);
    }
  }

  /** Removed by the room, or a member the frame was not for, or one for whom a rule dropped it where it was listed. */
  ghost predicate Spared(x: Taking, c: ConnId, removed: set<ConnId>)
    requires !IsControl(x.msg)
  {
    || c in removed
    || (c in x.shard.members && !MeantFor(x.msg, c, x.shard.members[c]))
    || exists i: nat :: ListedAt(x, c, i) && DroppedByRule(x.shard.members[c], x.msg.msg, x.answers(i))
  }

  ghost predicate ListedAt(x: Taking, c: ConnId, i: nat) {
    c in x.shard.members && i < |x.recips| && x.recips[i] == c
  }

  lemma ServedOrSpared(d: Made, x: Taking, n: Node, c: ConnId, removed: set<ConnId>, k: nat, count: nat)
    requires Served(x, n) && count > 0 && Present(d, x, removed, k, count) && c in d.added && c % count == k
    ensures (c, Id(x.msg)) in n.sent || (c, Id(x.msg)) in n.lost || Spared(x, c, removed)
  {
    if c in x.shard.members && MeantFor(x.msg, c, x.shard.members[c]) {
      var i :| 0 <= i < |x.recips| && x.recips[i] == c;
      hide MeantFor, DroppedByRule;
      assert ListedAt(x, c, i);
      assert DroppedByRule(x.shard.members[x.recips[i]], x.msg.msg, x.answers(i))
        || (x.recips[i], Id(x.msg)) in n.sent || (x.recips[i], Id(x.msg)) in n.lost;
    }
  }

  // Control messages.

  /** What the room has told shard `k` about its connections, in order. */
  ghost function Tells(moves: seq<Move>, k: nat, count: nat): seq<ShardMsg>
    requires count > 0
  {
    if moves == [] then []
    else Tells(moves[..|moves| - 1], k, count) + ToldNow(Last(moves), k, count)
  }

  ghost function ToldNow(m: Move, k: nat, count: nat): seq<ShardMsg>
    requires count > 0
  {
    if m.CallTell? && IsControl(m.msg) && !m.msg.DesyncedAll? && m.msg.conn % count == k then [m.msg] else []
  }

  ghost function HeardNow(s: System, m: Move, k: nat): seq<ShardMsg>
    requires Allowed(s, m)
  {
    if m.TakeControl? && m.k == k then [s.nodes[k].control[0]] else []
  }

  /** The control messages shard `k` has taken, in order. */
  ghost function Heard(count: nat, depth: nat, moves: seq<Move>, compress: Compressor, k: nat): seq<ShardMsg>
    requires Fanout.Run(count, depth, moves, compress).Some?
  {
    if moves == [] then []
    else
      var front := moves[..|moves| - 1];
      Heard(count, depth, front, compress, k)
      + HeardNow(Fanout.Run(count, depth, front, compress).value, Last(moves), k)
  }

  ghost function Planned(plan: seq<Task>, k: nat): seq<ShardMsg> {
    if Owed(plan, k).Some? then [Owed(plan, k).value] else []
  }

  /** Without the notices that a frame was dropped, which the room does not send itself. */
  ghost function Own(msgs: seq<ShardMsg>): seq<ShardMsg> {
    if msgs == [] then []
    else Own(msgs[..|msgs| - 1]) + if Last(msgs).DesyncedOne? || Last(msgs).DesyncedAll? then [] else [Last(msgs)]
  }

  lemma {:induction false} OwnJoins(a: seq<ShardMsg>, b: seq<ShardMsg>)
    ensures Own(a + b) == Own(a) + Own(b)
  {
    if b == [] {
      assert a + b == a;
    } else {
      assert (a + b)[..|a + b| - 1] == a + b[..|b| - 1];
      OwnJoins(a, b[..|b| - 1]);
    }
  }

  lemma OwnOne(msg: ShardMsg)
    ensures Own([msg]) == if msg.DesyncedOne? || msg.DesyncedAll? then [] else [msg]
    ensures Own([]) == []
  {
    assert [msg][..0] == [];
  }

  /** All that was told, waits or is being told. */
  ghost function ControlPipe(s: System, heard: seq<ShardMsg>, k: nat): seq<ShardMsg>
    requires k < |s.nodes|
  {
    heard + s.nodes[k].control + Planned(s.plan, k)
  }

  lemma CallKeepsTells(s: System, m: Move, compress: Compressor, heard: seq<ShardMsg>, k: nat)
    requires Allowed(s, m) && (m.CallTell? || m.CallBroadcast?) && k < |s.nodes|
    ensures var t := Done(s, m, compress);
            k < |t.nodes| && Own(ControlPipe(t, heard + HeardNow(s, m, k), k))
                             == Own(ControlPipe(s, heard, k)) + ToldNow(m, k, |s.nodes|)
  {
    CallTells(s, m, compress, k);
    hide Own, Done, Allowed, HeardNow, ToldNow, Planned;
    var t, now := Done(s, m, compress), ToldNow(m, k, |s.nodes|);
    var before := ControlPipe(s, heard, k);
    assert heard + [] == heard && before + now == ControlPipe(t, heard, k);
    OwnJoins(before, now);
    OwnOne(if now != [] then now[0] else DesyncedAll);
    assert now != [] ==> now == [now[0]];
  }

  lemma ShardKeepsTells(s: System, m: Move, compress: Compressor, heard: seq<ShardMsg>, k: nat)
    requires Allowed(s, m) && (m.TakeControl? || m.TakeFrame? || m.Serve?) && k < |s.nodes|
    ensures var t := Done(s, m, compress);
            k < |t.nodes| && ControlPipe(t, heard + HeardNow(s, m, k), k) == ControlPipe(s, heard, k)
  {
    ShardMoveTells(s, m, compress, k);
    hide Done, Allowed, HeardNow, ToldNow, Planned;
  }

  lemma MoveKeepsTells(s: System, m: Move, compress: Compressor, heard: seq<ShardMsg>, k: nat)
    requires SystemOk(s) && Allowed(s, m) && k < |s.nodes|
    ensures var t := Done(s, m, compress);
            k < |t.nodes| && Own(ControlPipe(t, heard + HeardNow(s, m, k), k))
                             == Own(ControlPipe(s, heard, k)) + ToldNow(m, k, |s.nodes|)
  {
    hide SystemOk, Own, ControlPipe;
    if m.CallTell? || m.CallBroadcast? {
      CallKeepsTells(s, m, compress, heard, k);
    } else if m.Proceed? {
      ProceedTells(s, heard, k);
    } else {
      ShardKeepsTells(s, m, compress, heard, k);
      ShardMoveTells(s, m, compress, k);
      hide Done, Allowed, HeardNow, ToldNow;
      assert forall xs: seq<ShardMsg> :: xs + [] == xs;
    }
  }

  lemma CallTells(s: System, m: Move, compress: Compressor, k: nat)
    requires Allowed(s, m) && (m.CallTell? || m.CallBroadcast?) && k < |s.nodes|
    ensures var t := Done(s, m, compress);
            && t.nodes == s.nodes && Planned(s.plan, k) == [] && HeardNow(s, m, k) == []
            && Planned(t.plan, k) == ToldNow(m, k, |s.nodes|)
            && (Planned(t.plan, k) != [] ==> !Planned(t.plan, k)[0].DesyncedOne? && !Planned(t.plan, k)[0].DesyncedAll?)
  {
  }

  lemma ShardMoveTells(s: System, m: Move, compress: Compressor, k: nat)
    requires Allowed(s, m) && (m.TakeControl? || m.TakeFrame? || m.Serve?) && k < |s.nodes|
    ensures var t := Done(s, m, compress);
            && t.plan == s.plan && |t.nodes| == |s.nodes| && ToldNow(m, k, |s.nodes|) == []
            && s.nodes[k].control == HeardNow(s, m, k) + t.nodes[k].control
  {
    hide Control, Transmit, FanFor, After, IsWriterEvent, Addressed;
  }

  /** The plan holds a send at its head only; what happens to one shard's control inbox and what is planned for it. */
  lemma ProceedControl(s: System, k: nat)
    requires SystemOk(s) && s.plan != [] && s.nodes != [] && k < |s.nodes|
    ensures var t, first := Proceeded(s), s.plan[0];
      && k < |t.nodes|
      && (first.k == k && first.Tell? ==>
            && t.nodes[k].control == s.nodes[k].control + [first.msg]
            && Planned(s.plan, k) == [first.msg] && Planned(t.plan, k) == [])
      && (!(first.k == k && first.Tell?) ==> t.nodes[k].control == s.nodes[k].control && Planned(s.plan, k) == [])
      && (first.k == k && first.Offer? ==> Planned(t.plan, k) == [] || Planned(t.plan, k) == [Notice(first.msg)])
      && (first.k != k ==> Planned(t.plan, k) == [])
  {
    ProceedPlan(s, Proceeded(s));
    assert PlanOk(s);
    assert forall i | 0 <= i < |s.plan[1..]| :: s.plan[1..][i] == s.plan[i + 1];
    hide SystemOk, NodeOk, Notice;
  }

  lemma ProceedTells(s: System, heard: seq<ShardMsg>, k: nat)
    requires SystemOk(s) && s.plan != [] && s.nodes != [] && k < |s.nodes|
    ensures var t := Proceeded(s);
            k < |t.nodes| && Own(ControlPipe(t, heard + [], k)) == Own(ControlPipe(s, heard, k)) + []
  {
    var t, first := Proceeded(s), s.plan[0];
    ProceedControl(s, k);
    assert heard + [] == heard;
    hide SystemOk, Own, Proceeded, Planned;
    var before := ControlPipe(s, heard, k);
    assert before + [] == before;
    if Planned(t.plan, k) == [] {
      assert ControlPipe(t, heard, k) == before;
    } else {
      assert ControlPipe(t, heard, k) == before + [Notice(first.msg)];
      OwnJoins(before, [Notice(first.msg)]);
      OwnOne(Notice(first.msg));
    }
  }

  lemma StartTells(count: nat, depth: nat, k: nat)
    requires k < count
    ensures Own(ControlPipe(Start(count, depth), [], k)) == []
  {
  }

  /**
   * Leaving out notices of dropped frames, what a shard has heard, what waits in its control inbox and what is being
   * told to it are together exactly what the room told it, in that order: nothing lost, repeated or reordered.
   */
  lemma {:induction false} TellsArriveInOrder(count: nat, depth: nat, moves: seq<Move>, compress: Compressor, k: nat)
    requires Fanout.Run(count, depth, moves, compress).Some? && k < count
    ensures var s := Fanout.Run(count, depth, moves, compress).value;
            k < |s.nodes| && Own(ControlPipe(s, Heard(count, depth, moves, compress, k), k)) == Tells(moves, k, count)
  {
    if moves == [] {
      StartTells(count, depth, k);
    } else {
      var front := moves[..|moves| - 1];
      TellsArriveInOrder(count, depth, front, compress, k);
      Fanout.EveryRunIsOk(count, depth, front, compress);
      CountStays(count, depth, front, compress);
      var s := Fanout.Run(count, depth, front, compress).value;
      hide SystemOk, Allowed, Done, ToldNow, HeardNow, ControlPipe, Own;
      MoveKeepsTells(s, Last(moves), compress, Heard(count, depth, front, compress, k), k);
    }
  }

  // The bounded inbox.

  /** An offer is taken exactly when there is room, and then stands last; refused, it leaves the inbox as it was. */
  lemma OfferTaken(s: System)
    requires s.plan != [] && s.plan[0].k < |s.nodes| && s.plan[0].Offer? && !IsControl(s.plan[0].msg)
    ensures var n, t := s.nodes[s.plan[0].k], Proceeded(s);
            && |t.nodes| == |s.nodes|
            && t.nodes[s.plan[0].k].frames == (if |n.frames| < s.depth then n.frames + [s.plan[0].msg] else n.frames)
  {
  }

  ghost predicate WithinDepth(s: System) {
    forall k | 0 <= k < |s.nodes| :: |s.nodes[k].frames| <= s.depth
  }

  lemma MoveKeepsDepth(s: System, m: Move, compress: Compressor)
    requires Allowed(s, m) && WithinDepth(s)
    ensures WithinDepth(Done(s, m, compress)) && Done(s, m, compress).depth == s.depth
  {
    hide Control, Transmit, FanFor, After, IsWriterEvent, Addressed, Offers;
  }

  /** No inbox ever holds more frames than it is deep. */
  lemma {:induction false} InboxesBounded(count: nat, depth: nat, moves: seq<Move>, compress: Compressor)
    requires Fanout.Run(count, depth, moves, compress).Some?
    ensures var s := Fanout.Run(count, depth, moves, compress).value; WithinDepth(s) && s.depth == depth
  {
    if moves != [] {
      var front := moves[..|moves| - 1];
      InboxesBounded(count, depth, front, compress);
      hide Allowed, Done, WithinDepth;
      MoveKeepsDepth(Fanout.Run(count, depth, front, compress).value, Last(moves), compress);
    }
  }
}
