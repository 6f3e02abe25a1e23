/**
 * What becomes of every frame the room makes and every message it tells a shard, judged against a record kept of the
 * room's calls alone: nothing made for a shard ever vanishes on the way to it.
 */
module FanoutRecord {
  import opened Common
  import opened Shard
  import opened ShardFacts
  import opened ShardRuns
  import opened FanoutNode
  import opened Fanout

  /** A frame as the room made it, and the connections it had told shards to add by then. */
  datatype Made = Made(msg: ShardMsg, added: set<ConnId>)

  ghost function AddedBy(moves: seq<Move>): set<ConnId> {
    if moves == [] then {}
    else
      AddedBy(moves[..|moves| - 1])
      + if Last(moves).CallTell? && Last(moves).msg.Add? then {Last(moves).msg.conn} else {}
  }

  ghost function RemovedBy(moves: seq<Move>): set<ConnId> {
    if moves == [] then {}
    else RemovedBy(moves[..|moves| - 1]) + RemovedNow(Last(moves))
  }

  ghost function RemovedNow(m: Move): set<ConnId> {
    if m.CallTell? && m.msg.Remove? then {m.msg.conn} else {}
  }

  /** The frames made, in order: frame number `i` stands at place `i`. */
  ghost function FramesMade(moves: seq<Move>): seq<Made> {
    if moves == [] then []
    else
      var front := moves[..|moves| - 1];
      FramesMade(front) + NewFrame(Last(moves), |FramesMade(front)|, AddedBy(front))
  }

  /** The frame that a call makes: a send, or a broadcast under the next number. */
  ghost function NewFrame(m: Move, id: nat, added: set<ConnId>): seq<Made> {
    match m
    case CallTell(msg) => if msg.Send? then [Made(msg, added)] else []
    case CallBroadcast(to, payload, tagged) => [Made(Broadcast(to, Message(id, payload, tagged)), added)]
    case _ => []
  }

  /** A broadcast is for every shard, a send for the one its connection's id picks. */
  predicate For(msg: ShardMsg, k: nat, count: nat)
    requires count > 0 && !IsControl(msg)
  {
    match msg
    case Send(c, _) => c % count == k
    case _ => true
  }

  /** A frame a shard took from its inbox: what it knew then, whom it listed, and what was decided at each place. */
  datatype Taking = Taking(msg: ShardMsg, shard: ShardState, recips: seq<ConnId>, answers: Answers)

  ghost function TakenNow(s: System, m: Move, k: nat): seq<Taking>
    requires Allowed(s, m)
  {
    if m.TakeFrame? && m.k == k then [Taking(s.nodes[k].frames[0], s.nodes[k].shard, m.recips, m.answers)] else []
  }

  /** What shard `k` took, in order. */
  ghost function Taken(count: nat, depth: nat, moves: seq<Move>, compress: Compressor, k: nat): seq<Taking>
    requires Fanout.Run(count, depth, moves, compress).Some?
  {
    if moves == [] then []
    else
      var front := moves[..|moves| - 1];
      Taken(count, depth, front, compress, k)
      + TakenNow(Fanout.Run(count, depth, front, compress).value, Last(moves), k)
  }

  /** Whether a member is one the frame is for, by what the shard knew. */
  predicate MeantFor(msg: ShardMsg, c: ConnId, m: Member) {
    match msg
    case Send(d, _) => c == d
    case Broadcast(to, _) => Wanted(to, c, m)
    case _ => false
  }

  /** A rule may drop a tagged frame for a member with a filter and a slot. */
  predicate DroppedByRule(m: Member, msg: Message, a: Answer) {
    m.filter.Some? && m.slot.Some? && msg.tagged && a.drops
  }

  /** Everyone the frame was for was listed, and has it in the books as sent or lost unless a rule dropped it. */
  ghost predicate Served(t: Taking, n: Node) {
    && !IsControl(t.msg)
    && (forall c | c in t.shard.members && MeantFor(t.msg, c, t.shard.members[c]) :: c in t.recips)
    && (forall i | 0 <= i < |t.recips| :: t.recips[i] in t.shard.members)
    && (forall i | 0 <= i < |t.recips| && !DroppedByRule(t.shard.members[t.recips[i]], t.msg.msg, t.answers(i)) ::
          (t.recips[i], Id(t.msg)) in n.sent || (t.recips[i], Id(t.msg)) in n.lost)
  }

  /** Lost for every connection there that the frame may have been for. */
  ghost predicate LostThere(d: Made, n: Node, k: nat, count: nat)
    requires count > 0 && !IsControl(d.msg)
  {
    forall c | c in d.added && c % count == k && (d.msg.Send? ==> c == d.msg.conn) :: (c, Id(d.msg)) in n.lost
  }

  ghost predicate AddsTold(d: Made, n: Node, k: nat, count: nat)
    requires count > 0
  {
    forall c | c in d.added && c % count == k :: c in n.added
  }

  /** Everyone added there before the frame was made was a member when it was taken, unless the room removed it. */
  ghost predicate Present(d: Made, x: Taking, removed: set<ConnId>, k: nat, count: nat)
    requires count > 0
  {
    forall c | c in d.added && c % count == k && c !in removed :: c in x.shard.members
  }

  ghost predicate TakenAmong(d: Made, taken: seq<Taking>, n: Node, removed: set<ConnId>, k: nat, count: nat)
    requires count > 0
  {
    exists i :: 0 <= i < |taken| && taken[i].msg == d.msg && Served(taken[i], n)
                && Present(d, taken[i], removed, k, count)
  }

  /** Where a frame for shard `k` is. */
  ghost predicate Whereabouts(s: System, d: Made, taken: seq<Taking>, removed: set<ConnId>, k: nat)
    requires k < |s.nodes| && !IsControl(d.msg)
  {
    || (Offer(k, d.msg) in s.plan && AddsTold(d, s.nodes[k], k, |s.nodes|))
    || (d.msg in s.nodes[k].frames && AddsTold(d, s.nodes[k], k, |s.nodes|))
    || TakenAmong(d, taken, s.nodes[k], removed, k, |s.nodes|)
    || LostThere(d, s.nodes[k], k, |s.nodes|)
  }

  ghost predicate NumberedOk(s: System, made: seq<Made>) {
    && |made| == s.nextId
    && forall i | 0 <= i < |made| :: !IsControl(made[i].msg) && Id(made[i].msg) == i
  }

  ghost predicate NothingVanished(s: System, made: seq<Made>, taken: seq<Taking>, removed: set<ConnId>, k: nat) {
    && NumberedOk(s, made)
    && k < |s.nodes|
    && forall i | 0 <= i < |made| && For(made[i].msg, k, |s.nodes|) :: Whereabouts(s, made[i], taken, removed, k)
  }

  /** Every `Add` the room has told a shard has reached its control inbox, but for the one being told. */
  ghost predicate AddsArrived(s: System, added: set<ConnId>) {
    forall c | c in added && s.nodes != [] ::
      || c in s.nodes[c % |s.nodes|].added
      || (s.plan != [] && s.plan[0].Tell? && s.plan[0].k == c % |s.nodes| && Adds(s.plan[0].msg, c))
  }

  // The actor's calls.

  lemma OffersReach(first: nat, end: nat, msg: ShardMsg, k: nat)
    requires first <= k < end
    ensures Offer(k, msg) in Offers(first, end, msg)
  {
    assert Offers(first, end, msg)[k - first] == Offer(k, msg);
  }

  lemma NewFrameIsOffered(s: System, m: Move, compress: Compressor, made: seq<Made>, added: set<ConnId>, k: nat)
    requires Allowed(s, m) && (m.CallTell? || m.CallBroadcast?) && NumberedOk(s, made) && AddsArrived(s, added)
    requires k < |s.nodes|
    ensures NumberedOk(Done(s, m, compress), made + NewFrame(m, |made|, added))
    ensures forall d | d in NewFrame(m, |made|, added) && For(d.msg, k, |s.nodes|) ::
              Offer(k, d.msg) in Done(s, m, compress).plan && AddsTold(d, s.nodes[k], k, |s.nodes|)
  {
    if m.CallBroadcast? {
      OffersReach(0, |s.nodes|, Broadcast(m.to, Message(s.nextId, m.payload, m.tagged)), k);
    }
    assert s.plan == [];
  }

  lemma CallKeepsRecord(s: System, m: Move, compress: Compressor, made: seq<Made>, added: set<ConnId>,
                        taken: seq<Taking>, removed: set<ConnId>, k: nat)
    requires Allowed(s, m) && (m.CallTell? || m.CallBroadcast?)
    requires NothingVanished(s, made, taken, removed, k) && AddsArrived(s, added)
    ensures NothingVanished(Done(s, m, compress), made + NewFrame(m, |made|, added), taken, removed, k)
  {
    NewFrameIsOffered(s, m, compress, made, added, k);
    var t := Done(s, m, compress);
    var all := made + NewFrame(m, |made|, added);
    assert t.nodes == s.nodes && s.plan == [];
    hide Done, Allowed, NumberedOk, AddsArrived, LostThere, TakenAmong, AddsTold;
    forall i | 0 <= i < |all| && For(all[i].msg, k, |t.nodes|) ensures Whereabouts(t, all[i], taken, removed, k) {
      if i < |made| {
        assert all[i] == made[i];
        assert Whereabouts(s, made[i], taken, removed, k);
      } else {
        assert all[i] in NewFrame(m, |made|, added);
      }
    }
  }

  // The actor's channel operations.

  /** What a shard knows to be told, sent or lost, it goes on knowing. */
  ghost predicate Grows(n: Node, t: Node) {
    n.added <= t.added && n.sent <= t.sent && n.lost <= t.lost
  }

  lemma GrowingKeeps(d: Made, n: Node, t: Node, taken: seq<Taking>, more: seq<Taking>, removed: set<ConnId>, k: nat,
                     count: nat)
    requires count > 0 && !IsControl(d.msg) && Grows(n, t)
    ensures AddsTold(d, n, k, count) ==> AddsTold(d, t, k, count)
    ensures LostThere(d, n, k, count) ==> LostThere(d, t, k, count)
    ensures TakenAmong(d, taken, n, removed, k, count) ==> TakenAmong(d, taken + more, t, removed, k, count)
  {
    if TakenAmong(d, taken, n, removed, k, count) {
      var i :| 0 <= i < |taken| && taken[i].msg == d.msg && Served(taken[i], n)
               && Present(d, taken[i], removed, k, count);
      assert (taken + more)[i] == taken[i];
      ServedStays(taken[i], n, t);
    }
  }

  lemma RemovingKeeps(s: System, made: seq<Made>, taken: seq<Taking>, removed: set<ConnId>, more: set<ConnId>, k: nat)
    requires NothingVanished(s, made, taken, removed, k)
    ensures NothingVanished(s, made, taken, removed + more, k)
  {
    hide Served, LostThere, AddsTold;
    forall i | 0 <= i < |made| && For(made[i].msg, k, |s.nodes|)
      ensures Whereabouts(s, made[i], taken, removed + more, k)
    {
      var d := made[i];
      assert Whereabouts(s, d, taken, removed, k);
      if TakenAmong(d, taken, s.nodes[k], removed, k, |s.nodes|) {
        var j :| 0 <= j < |taken| && taken[j].msg == d.msg && Served(taken[j], s.nodes[k])
                 && Present(d, taken[j], removed, k, |s.nodes|);
        assert Present(d, taken[j], removed + more, k, |s.nodes|);
      }
    }
  }

  lemma ServedStays(x: Taking, n: Node, t: Node)
    requires Grows(n, t) && Served(x, n)
    ensures Served(x, t)
  {
    hide MeantFor, DroppedByRule;
  }

  lemma RefusedIsLost(d: Made, n: Node, k: nat, count: nat)
    requires count > 0 && !IsControl(d.msg) && AddsTold(d, n, k, count)
    ensures LostThere(d, Refused(n, d.msg), k, count)
  {
  }

  /** The next operation for a shard other than this one. */
  lemma ProceedElsewhere(s: System, d: Made, taken: seq<Taking>, removed: set<ConnId>, k: nat)
    requires s.plan != [] && s.plan[0].k < |s.nodes| && (s.plan[0].Offer? ==> !IsControl(s.plan[0].msg))
    requires k < |s.nodes| && k != s.plan[0].k && !IsControl(d.msg) && Whereabouts(s, d, taken, removed, k)
    ensures k < |Proceeded(s).nodes| && Whereabouts(Proceeded(s), d, taken, removed, k)
  {
    var t := Proceeded(s);
    ProceedPlan(s, t);
    hide Proceeded, LostThere, TakenAmong, AddsTold;
    assert s.plan == [s.plan[0]] + s.plan[1..];
  }

  /** The next operation for this shard. */
  lemma ProceedHere(s: System, d: Made, taken: seq<Taking>, removed: set<ConnId>)
    requires s.plan != [] && s.plan[0].k < |s.nodes| && (s.plan[0].Offer? ==> !IsControl(s.plan[0].msg))
    requires !IsControl(d.msg) && Whereabouts(s, d, taken, removed, s.plan[0].k)
    ensures s.plan[0].k < |Proceeded(s).nodes| && Whereabouts(Proceeded(s), d, taken, removed, s.plan[0].k)
  {
    var t, k, msg := Proceeded(s), s.plan[0].k, s.plan[0].msg;
    var n := s.nodes[k];
    ProceedPlan(s, t);
    assert Grows(n, t.nodes[k]);
    GrowingKeeps(d, n, t.nodes[k], taken, [], removed, k, |s.nodes|);
    assert taken + [] == taken;
    assert s.plan == [s.plan[0]] + s.plan[1..];
    if s.plan[0] == Offer(k, d.msg) && AddsTold(d, n, k, |s.nodes|) {
      if |n.frames| < s.depth {
        assert t.nodes[k].frames == n.frames + [d.msg];
      } else {
        RefusedIsLost(d, n, k, |s.nodes|);
        assert t.nodes[k] == Refused(n, d.msg);
      }
    }
    assert d.msg in n.frames ==> d.msg in t.nodes[k].frames;
    hide Proceeded, LostThere, TakenAmong, AddsTold, Refused, Grows;
  }

  lemma ProceedKeepsRecord(s: System, made: seq<Made>, taken: seq<Taking>, removed: set<ConnId>, k: nat)
    requires s.plan != [] && s.plan[0].k < |s.nodes| && (s.plan[0].Offer? ==> !IsControl(s.plan[0].msg))
    requires NothingVanished(s, made, taken, removed, k)
    ensures NothingVanished(Proceeded(s), made, taken, removed, k)
  {
    var t := Proceeded(s);
    ProceedPlan(s, t);
    hide Proceeded, Whereabouts;
    forall i | 0 <= i < |made| && For(made[i].msg, k, |t.nodes|) ensures Whereabouts(t, made[i], taken, removed, k) {
      if k == s.plan[0].k {
        ProceedHere(s, made[i], taken, removed);
      } else {
        ProceedElsewhere(s, made[i], taken, removed, k);
      }
    }
  }

  // The shards.

  /** Nobody the frame is for is left out of the listing. */
  lemma AudienceWhole(s: ShardState, msg: ShardMsg, recips: seq<ConnId>)
    requires ShardOk(s) && Addressed(s, msg, recips)
    ensures forall c | c in s.members && MeantFor(msg, c, s.members[c]) :: c in recips
    ensures Within(s.members, recips)
  {
    AddressedMembers(s, msg, recips);
    if msg.Broadcast? {
      AudienceIsScan(s, msg.to, recips);
    }
    hide IndexOk, IsAudience, Wanted;
  }

  lemma ListedServed(s: ShardState, msg: ShardMsg, recips: seq<ConnId>, answers: Answers, compress: Compressor)
    requires !IsControl(msg) && Addressed(s, msg, recips) && Within(s.members, recips)
    ensures var f := FanFor(s, msg, recips, answers, compress);
            forall i | 0 <= i < |recips| && !DroppedByRule(s.members[recips[i]], msg.msg, answers(i)) ::
              recips[i] in f.sent || recips[i] in f.lost
  {
    hide FanOut, Addressed;
    NobodyMissed(s.members, recips, |recips|, msg.msg, answers, compress);
  }

  /** A frame taken is served: nobody it was for is passed over. */
  lemma TakingServes(n: Node, owed: Option<ShardMsg>, bound: nat, recips: seq<ConnId>, answers: Answers,
                     compress: Compressor)
    requires NodeOk(n, owed, bound) && MayTakeFrame(n, recips)
    ensures !IsControl(n.frames[0])
    ensures Served(Taking(n.frames[0], n.shard, recips, answers), TookFrame(n, recips, answers, compress))
  {
    var msg := n.frames[0];
    assert !IsControl(msg) by {
      assert QueueOk(n, bound);
    }
    assert ShardOk(n.shard);
    hide NodeOk, ShardOk, FanFor, Transmit, MeantFor, Addressed, DroppedByRule;
    AudienceWhole(n.shard, msg, recips);
    ListedServed(n.shard, msg, recips, answers, compress);
    BooksGrow(n, FanFor(n.shard, msg, recips, answers, compress), TookFrame(n, recips, answers, compress), Id(msg));
  }

  lemma BooksGrow(n: Node, f: Fan, t: Node, id: nat)
    requires t.sent == n.sent + FanoutNode.At(f.sent, id) && t.lost == n.lost + FanoutNode.At(f.lost, id)
    ensures forall c | c in f.sent :: (c, id) in t.sent
    ensures forall c | c in f.lost :: (c, id) in t.lost
  {
  }

  lemma ShardMoveGrows(s: System, m: Move, compress: Compressor, k: nat)
    requires Allowed(s, m) && (m.TakeControl? || m.TakeFrame? || m.Serve?) && k < |s.nodes|
    ensures var t := Done(s, m, compress);
      && t.plan == s.plan && t.nextId == s.nextId && |t.nodes| == |s.nodes|
      && Grows(s.nodes[k], t.nodes[k])
      && (m.TakeFrame? && m.k == k ==>
            && s.nodes[k].frames != [] && t.nodes[k] == TookFrame(s.nodes[k], m.recips, m.answers, compress)
            && s.nodes[k].frames == [s.nodes[k].frames[0]] + t.nodes[k].frames)
      && (!(m.TakeFrame? && m.k == k) ==> t.nodes[k].frames == s.nodes[k].frames)
  {
    hide Control, Transmit, FanFor, After, IsWriterEvent, Addressed;
  }

  lemma ShardMoveKeepsWhereabouts(s: System, m: Move, compress: Compressor, d: Made, taken: seq<Taking>,
                                  removed: set<ConnId>, k: nat)
    requires SystemOk(s) && Allowed(s, m) && (m.TakeControl? || m.TakeFrame? || m.Serve?) && k < |s.nodes|
    requires !IsControl(d.msg) && Whereabouts(s, d, taken, removed, k) && Enrolled(s.nodes[k], removed)
    ensures k < |Done(s, m, compress).nodes|
    ensures Whereabouts(Done(s, m, compress), d, taken + TakenNow(s, m, k), removed, k)
  {
    var t, more := Done(s, m, compress), TakenNow(s, m, k);
    ShardMoveGrows(s, m, compress, k);
    GrowingKeeps(d, s.nodes[k], t.nodes[k], taken, more, removed, k, |s.nodes|);
    if m.TakeFrame? && m.k == k && d.msg == s.nodes[k].frames[0] && AddsTold(d, s.nodes[k], k, |s.nodes|) {
      assert NodeOk(s.nodes[k], Owed(s.plan, k), Bound(s, k));
      TakingServes(s.nodes[k], Owed(s.plan, k), Bound(s, k), m.recips, m.answers, compress);
      assert (taken + more)[|taken|] == more[0];
      assert Present(d, more[0], removed, k, |s.nodes|);
      assert TakenAmong(d, taken + more, t.nodes[k], removed, k, |s.nodes|);
    }
    hide Done, Allowed, SystemOk, LostThere, TakenAmong, AddsTold, TookFrame, Grows;
  }

  lemma MoveKeepsRecord(s: System, m: Move, compress: Compressor, made: seq<Made>, added: set<ConnId>,
                        taken: seq<Taking>, removed: set<ConnId>, k: nat)
    requires AllEnrolled(s, removed)
    requires SystemOk(s) && Allowed(s, m) && NothingVanished(s, made, taken, removed, k) && AddsArrived(s, added)
    ensures NothingVanished(Done(s, m, compress), made + NewFrame(m, |made|, added), taken + TakenNow(s, m, k), removed,
                            k)
  {
    hide SystemOk, AddsArrived, Whereabouts;
    assert made + [] == made && taken + [] == taken;
    if m.CallTell? || m.CallBroadcast? {
      CallKeepsRecord(s, m, compress, made, added, taken, removed, k);
    } else if m.Proceed? {
      ProceedKeepsRecord(s, made, taken, removed, k);
    } else {
      var t := Done(s, m, compress);
      ShardMoveGrows(s, m, compress, k);
      hide Done, Allowed;
      forall i | 0 <= i < |made| && For(made[i].msg, k, |t.nodes|)
        ensures Whereabouts(t, made[i], taken + TakenNow(s, m, k), removed, k)
      {
        ShardMoveKeepsWhereabouts(s, m, compress, made[i], taken, removed, k);
      }
    }
  }

  lemma MoveKeepsAdds(s: System, m: Move, compress: Compressor, added: set<ConnId>)
    requires Allowed(s, m) && AddsArrived(s, added)
    ensures AddsArrived(Done(s, m, compress),
                        added + if m.CallTell? && m.msg.Add? then {m.msg.conn} else {})
  {
    var t := Done(s, m, compress);
    var more := added + if m.CallTell? && m.msg.Add? then {m.msg.conn} else {};
    forall c | c in more && t.nodes != []
      ensures || c in t.nodes[c % |t.nodes|].added
              || (t.plan != [] && t.plan[0].Tell? && t.plan[0].k == c % |t.nodes| && Adds(t.plan[0].msg, c))
    {
      if m.TakeControl? || m.TakeFrame? || m.Serve? {
        ShardMoveGrows(s, m, compress, c % |s.nodes|);
      }
      hide Control, Transmit, FanFor, After, IsWriterEvent, Addressed, MayTakeFrame;
    }
  }

  // Who is a member.

  /** Everyone added is a member, about to become one, or removed by the room. */
  ghost predicate Enrolled(n: Node, removed: set<ConnId>) {
    && (forall c | c in n.added :: c in n.shard.members || HasAdd(n.control, c) || c in removed)
    && (forall i | 0 <= i < |n.control| && n.control[i].Remove? :: n.control[i].conn in removed)
  }

  ghost predicate AllEnrolled(s: System, removed: set<ConnId>) {
    && (forall k | 0 <= k < |s.nodes| :: Enrolled(s.nodes[k], removed))
    && (s.plan != [] && s.plan[0].Tell? && s.plan[0].msg.Remove? ==> s.plan[0].msg.conn in removed)
  }

  lemma WiderEnrolled(n: Node, removed: set<ConnId>, more: set<ConnId>)
    requires Enrolled(n, removed)
    ensures Enrolled(n, removed + more)
  {
    hide HasAdd;
  }

  lemma ToldEnrolled(n: Node, msg: ShardMsg, removed: set<ConnId>)
    requires Enrolled(n, removed) && (msg.Remove? ==> msg.conn in removed)
    ensures Enrolled(Told(n, msg), removed)
  {
    forall c: ConnId ensures HasAdd(n.control + [msg], c) <==> HasAdd(n.control, c) || Adds(msg, c) {
      HasAddConcat(n.control, [msg], c);
      HasAddOne(msg, c);
    }
    hide HasAdd;
  }

  lemma TookControlEnrolled(n: Node, removed: set<ConnId>)
    requires Enrolled(n, removed) && n.control != [] && IsControl(n.control[0])
    ensures Enrolled(TookControl(n), removed)
  {
    var t, msg := TookControl(n), n.control[0];
    assert n.control == [msg] + t.control;
    MembersAfter(n.shard, msg);
    forall c | c in t.added ensures c in t.shard.members || HasAdd(t.control, c) || c in removed {
      HasAddConcat([msg], t.control, c);
      HasAddOne(msg, c);
    }
    hide HasAdd, Control;
    assert forall i | 0 <= i < |t.control| :: t.control[i] == n.control[i + 1];
  }

  lemma MembersAfter(s: ShardState, msg: ShardMsg)
    requires IsControl(msg)
    ensures forall c | c in s.members && !(msg.Remove? && msg.conn == c) :: c in Control(s, msg).members
    ensures msg.Add? ==> msg.conn in Control(s, msg).members
  {
  }

  lemma ShardMoveEnrolled(s: System, m: Move, compress: Compressor, removed: set<ConnId>)
    requires Allowed(s, m) && (m.TakeControl? || m.TakeFrame? || m.Serve?) && AllEnrolled(s, removed)
    ensures AllEnrolled(Done(s, m, compress), removed)
  {
    var t, n := Done(s, m, compress), s.nodes[m.k];
    ShardMoveKeepsRest(s, m, compress);
    assert Enrolled(n, removed);
    if m.TakeControl? {
      TookControlEnrolled(n, removed);
    } else if m.TakeFrame? {
      TransmitEffect(n.shard, n.frames[0], m.recips, m.answers, compress);
      SameRoster(n, t.nodes[m.k], removed);
    } else {
      SameRoster(n, t.nodes[m.k], removed);
    }
    hide Enrolled, Allowed;
  }

  lemma SameRoster(n: Node, t: Node, removed: set<ConnId>)
    requires Enrolled(n, removed) && t.added == n.added && t.control == n.control
    requires t.shard.members.Keys == n.shard.members.Keys
    ensures Enrolled(t, removed)
  {
    assert forall c | c in n.shard.members :: c in t.shard.members.Keys;
  }

  lemma ProceedEnrolled(s: System, removed: set<ConnId>)
    requires SystemOk(s) && s.plan != [] && s.nodes != [] && AllEnrolled(s, removed)
    ensures AllEnrolled(Proceeded(s), removed)
  {
    var t, k, msg := Proceeded(s), s.plan[0].k, s.plan[0].msg;
    ProceedPlan(s, t);
    assert PlanOk(s);
    var n := s.nodes[k];
    assert Enrolled(n, removed);
    ToldEnrolled(n, msg, removed) by {
      assert s.plan[0].Offer? ==> !IsControl(msg);
    }
    hide SystemOk, NodeOk, HasAdd;
    assert Enrolled(t.nodes[k], removed);
    hide Enrolled;
  }

  lemma MoveKeepsEnrolled(s: System, m: Move, compress: Compressor, removed: set<ConnId>)
    requires SystemOk(s) && Allowed(s, m) && AllEnrolled(s, removed)
    ensures AllEnrolled(Done(s, m, compress), removed + RemovedNow(m))
  {
    var t := Done(s, m, compress);
    forall k | 0 <= k < |s.nodes| ensures Enrolled(s.nodes[k], removed + RemovedNow(m)) {
      WiderEnrolled(s.nodes[k], removed, RemovedNow(m));
    }
    hide Enrolled, SystemOk;
    if m.CallTell? || m.CallBroadcast? {
      assert t.nodes == s.nodes;
    } else {
      assert removed + RemovedNow(m) == removed;
      if m.Proceed? {
        ProceedEnrolled(s, removed);
      } else {
        ShardMoveEnrolled(s, m, compress, removed);
      }
    }
  }

  lemma CountStays(count: nat, depth: nat, moves: seq<Move>, compress: Compressor)
    requires Fanout.Run(count, depth, moves, compress).Some?
    ensures |Fanout.Run(count, depth, moves, compress).value.nodes| == count
  {
    if moves != [] {
      CountStays(count, depth, moves[..|moves| - 1], compress);
      hide Allowed, Told, Queued, Refused, TookControl, TookFrame, Acted, Offers;
    }
  }

  lemma StartRecord(count: nat, depth: nat, k: nat)
    requires k < count
    ensures NothingVanished(Start(count, depth), [], [], {}, k) && AddsArrived(Start(count, depth), {})
    ensures AllEnrolled(Start(count, depth), {})
  {
  }

  /**
   * In every run, every frame made for a shard waits in the actor's plan, waits in the shard's inbox, was taken and
   * served by it, or is lost for every connection added there by then that it may have been for.
   */
  lemma {:induction false} NoFrameVanishes(count: nat, depth: nat, moves: seq<Move>, compress: Compressor, k: nat)
    requires Fanout.Run(count, depth, moves, compress).Some? && k < count
    ensures var s := Fanout.Run(count, depth, moves, compress).value;
      && NothingVanished(s, FramesMade(moves), Taken(count, depth, moves, compress, k), RemovedBy(moves), k)
      && AddsArrived(s, AddedBy(moves))
      && AllEnrolled(s, RemovedBy(moves))
  {
    if moves == [] {
      StartRecord(count, depth, k);
    } else {
      var front := moves[..|moves| - 1];
      NoFrameVanishes(count, depth, front, compress, k);
      Fanout.EveryRunIsOk(count, depth, front, compress);
      var s := Fanout.Run(count, depth, front, compress).value;
      hide SystemOk, NothingVanished, AddsArrived, Allowed, Done, NewFrame, TakenNow, AllEnrolled, RemovedNow;
      var t, taken := Done(s, Last(moves), compress), Taken(count, depth, front, compress, k);
      MoveKeepsRecord(s, Last(moves), compress, FramesMade(front), AddedBy(front), taken, RemovedBy(front), k);
      RemovingKeeps(t, FramesMade(moves), taken + TakenNow(s, Last(moves), k), RemovedBy(front),
                    RemovedNow(Last(moves)), k);
      MoveKeepsAdds(s, Last(moves), compress, AddedBy(front));
      MoveKeepsEnrolled(s, Last(moves), compress, RemovedBy(front));
    }
  }
}
