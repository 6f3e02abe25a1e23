/** A shard behind its two inboxes, and what was sent to and lost for each of its connections. */
module FanoutNode {
  import opened Common
  import opened Shard
  import opened ShardFacts
  import opened ShardRuns

  /**
   * One shard with its bounded frame inbox and its unbounded control inbox. `added` holds the connections whose `Add`
   * was told to it. `sent` and `lost` record each frame queued for a connection's writer, and each frame meant for a
   * connection and dropped after its `Add`. `tidy` says no explicit recipient list so far named a connection twice.
   */
  datatype Node = Node(
    shard: ShardState,
    frames: seq<ShardMsg>,
    control: seq<ShardMsg>,
    added: set<ConnId>,
    sent: set<(ConnId, nat)>,
    lost: set<(ConnId, nat)>,
    tidy: bool)

  const FRESH_NODE := Node(EMPTY, [], [], {}, {}, {}, true)

  /** The number of a frame message. */
  function Id(msg: ShardMsg): nat
    requires !IsControl(msg)
  {
    msg.msg.id
  }

  predicate TidyList(msg: ShardMsg) {
    msg.Broadcast? && msg.to.These? ==> Distinct(msg.to.list)
  }

  // What can happen at one shard.

  function Told(n: Node, msg: ShardMsg): Node {
    n.(control := n.control + [msg], added := if msg.Add? then n.added + {msg.conn} else n.added)
  }

  function Queued(n: Node, msg: ShardMsg): Node {
    n.(frames := n.frames + [msg], tidy := n.tidy && TidyList(msg))
  }

  /** Whom a refused message may have been for: nobody outside the shard knows better than this. */
  function Affected(n: Node, msg: ShardMsg): set<ConnId> {
    match msg
    case Send(c, _) => n.added * {c}
    case _ => n.added
  }

  function At(cs: set<ConnId>, id: nat): set<(ConnId, nat)> {
    set c | c in cs :: (c, id)
  }

  function Refused(n: Node, msg: ShardMsg): Node
    requires !IsControl(msg)
  {
    n.(lost := n.lost + At(Affected(n, msg), Id(msg)))
  }

  /** What the actor owes the shard after a refusal. */
  function Notice(msg: ShardMsg): ShardMsg {
    match msg
    case Send(c, _) => DesyncedOne(c)
    case _ => DesyncedAll
  }

  /** The select is biased: a control message is always taken first. */
  function TookControl(n: Node): Node
    requires n.control != [] && IsControl(n.control[0])
  {
    n.(shard := Control(n.shard, n.control[0]), control := n.control[1..])
  }

  predicate MayTakeFrame(n: Node, recips: seq<ConnId>) {
    n.control == [] && n.frames != [] && Addressed(n.shard, n.frames[0], recips)
  }

  function TookFrame(n: Node, recips: seq<ConnId>, answers: Answers, compress: Compressor): Node
    requires MayTakeFrame(n, recips)
  {
    var msg := n.frames[0];
    var f := FanFor(n.shard, msg, recips, answers, compress);
    n.(shard := Transmit(n.shard, msg, recips, answers, compress),
       frames := n.frames[1..],
       sent := n.sent + At(f.sent, Id(msg)),
       lost := n.lost + At(f.lost, Id(msg)))
  }

  ghost predicate IsWriterEvent(n: Node, e: Event) {
    e.Act? && Enabled(n.shard, e)
  }

  ghost function Acted(n: Node, e: Event, compress: Compressor): Node
    requires IsWriterEvent(n, e)
  {
    n.(shard := After(n.shard, e, compress))
  }

  // What holds at one shard, given what the actor is about to tell it and a bound on the frames offered so far.

  predicate Adds(msg: ShardMsg, c: ConnId) {
    msg.Add? && msg.conn == c
  }

  /** Whether a notice closes this connection. */
  predicate Names(msg: ShardMsg, c: ConnId) {
    msg == DesyncedOne(c) || msg == DesyncedAll
  }

  predicate HasAdd(control: seq<ShardMsg>, c: ConnId) {
    exists i | 0 <= i < |control| :: Adds(control[i], c)
  }

  /** Queued frames are frames, numbered upwards, and later than everything sent. */
  ghost predicate QueueOk(n: Node, bound: nat) {
    && (forall i | 0 <= i < |n.frames| :: !IsControl(n.frames[i]) && Id(n.frames[i]) < bound)
    && (forall i, j | 0 <= i < j < |n.frames| :: Id(n.frames[i]) < Id(n.frames[j]))
    && (forall c: ConnId, s: nat, i | (c, s) in n.sent && 0 <= i < |n.frames| :: s < Id(n.frames[i]))
    && (forall c: ConnId, s: nat | (c, s) in n.sent :: s < bound)
    && (n.tidy ==> forall i | 0 <= i < |n.frames| :: TidyList(n.frames[i]))
  }

  /** A connection is added once: never a member and about to be added, nor about to be added twice. */
  ghost predicate RosterOk(n: Node, owed: Option<ShardMsg>) {
    && (forall i | 0 <= i < |n.control| :: IsControl(n.control[i]))
    && (owed.Some? ==> IsControl(owed.value))
    && (forall c | c in n.shard.members :: c in n.added && !HasAdd(n.control, c))
    && (forall i, c: ConnId | 0 <= i < |n.control| && Adds(n.control[i], c) ::
      c in n.added && !HasAdd(n.control[i + 1..], c))
    && (owed.Some? && owed.value.Add? ==> owed.value.conn !in n.added)
  }

  /** A queued notice still closes `c`: nothing behind it adds `c` again. */
  predicate NoticeAt(n: Node, c: ConnId, i: nat) {
    i < |n.control| && Names(n.control[i], c) && !HasAdd(n.control[i..], c)
  }

  /** Nothing later than the lost frame can be queued for `c` any more. */
  ghost predicate Covered(n: Node, owed: Option<ShardMsg>, c: ConnId, s0: nat) {
    || (c in n.shard.members && n.shard.members[c].lagged)
    || (c !in n.shard.members && !HasAdd(n.control, c))
    || (exists i: nat :: NoticeAt(n, c, i))
    || (owed.Some? && Names(owed.value, c) && forall i | 0 <= i < |n.frames| && !IsControl(n.frames[i]) ::
      Id(n.frames[i]) < s0)
  }

  ghost predicate AllCovered(n: Node, owed: Option<ShardMsg>) {
    forall c: ConnId, s0: nat | (c, s0) in n.lost :: c in n.added && Covered(n, owed, c, s0)
  }

  /** No frame is sent after one that was lost; not even another copy of it, when no list names a connection twice. */
  ghost predicate NoGap(n: Node) {
    forall c: ConnId, s: nat, s0: nat | (c, s) in n.sent && (c, s0) in n.lost :: s <= s0 && (n.tidy ==> s < s0)
  }

  ghost predicate HasLoss(n: Node, c: ConnId) {
    exists s0: nat :: (c, s0) in n.lost
  }

  /** Nobody is closed for a dropped frame, or for lagging, without having lost one. */
  ghost predicate Justified(n: Node, owed: Option<ShardMsg>) {
    && (forall c | c in n.shard.members && n.shard.members[c].lagged :: HasLoss(n, c))
    && (forall i, c: ConnId | 0 <= i < |n.control| && Names(n.control[i], c)
          && (c in n.shard.members || HasAdd(n.control[..i], c)) :: HasLoss(n, c))
    && (forall c: ConnId | owed.Some? && Names(owed.value, c) && c in n.added :: HasLoss(n, c))
  }

  ghost predicate NodeOk(n: Node, owed: Option<ShardMsg>, bound: nat) {
    && ShardOk(n.shard)
    && QueueOk(n, bound)
    && RosterOk(n, owed)
    && AllCovered(n, owed)
    && NoGap(n)
    && Justified(n, owed)
  }

  lemma NodeOkParts(n: Node, owed: Option<ShardMsg>, bound: nat)
    ensures NodeOk(n, owed, bound) <==>
      && ShardOk(n.shard) && QueueOk(n, bound) && RosterOk(n, owed)
      && AllCovered(n, owed) && NoGap(n) && Justified(n, owed)
  {
    hide ShardOk, QueueOk, RosterOk, AllCovered, NoGap, Justified;
  }

  lemma FreshNodeOk(bound: nat)
    ensures NodeOk(FRESH_NODE, None, bound)
  {
    assert forall key: Slot, c: ConnId ::
      c in Indexed(EMPTY, key) <==> c in EMPTY.members && EMPTY.members[c].slot == Some(key);
  }

  // The actor's steps.

  lemma HasAddConcat(a: seq<ShardMsg>, b: seq<ShardMsg>, c: ConnId)
    ensures HasAdd(a + b, c) <==> HasAdd(a, c) || HasAdd(b, c)
  {
    if HasAdd(a, c) {
      var i :| 0 <= i < |a| && Adds(a[i], c);
      assert (a + b)[i] == a[i];
    }
    if HasAdd(b, c) {
      var i :| 0 <= i < |b| && Adds(b[i], c);
      assert (a + b)[|a| + i] == b[i];
    }
  }

  lemma HasAddOne(msg: ShardMsg, c: ConnId)
    ensures HasAdd([msg], c) <==> Adds(msg, c)
  {
    if Adds(msg, c) {
      assert Adds([msg][0], c);
    }
  }

  /** The frames behind an owed notice stay behind it, and a new frame may follow once nothing is owed. */
  lemma QueuedKeepsOk(n: Node, msg: ShardMsg, bound: nat)
    requires NodeOk(n, None, bound) && !IsControl(msg) && Id(msg) >= bound
    ensures NodeOk(Queued(n, msg), None, Id(msg) + 1)
  {
    var t := Queued(n, msg);
    assert QueueOk(t, Id(msg) + 1) by {
      hide ShardOk, RosterOk, AllCovered, NoGap, Justified;
    }
    assert AllCovered(t, None) by {
      hide ShardOk, QueueOk, RosterOk, NoGap, Justified;
      forall c: ConnId, s0: nat | (c, s0) in t.lost ensures c in t.added && Covered(t, None, c, s0) {
        assert (c, s0) in n.lost;
        if i: nat :| NoticeAt(n, c, i) {
          assert NoticeAt(t, c, i);
        }
      }
    }
    assert Justified(t, None) by {
      hide ShardOk, QueueOk, RosterOk, NoGap, AllCovered;
      LossStays(n, t);
    }
  }

  lemma LossStays(n: Node, t: Node)
    requires n.lost <= t.lost
    ensures forall c: ConnId | HasLoss(n, c) :: HasLoss(t, c)
  {
  }

  /** Delivering to the control inbox what the actor owed it. */
  lemma ToldKeepsOk(n: Node, msg: ShardMsg, bound: nat)
    requires NodeOk(n, Some(msg), bound)
    ensures NodeOk(Told(n, msg), None, bound)
  {
    ToldKeepsRoster(n, msg);
    ToldKeepsCovered(n, msg);
    ToldKeepsJustified(n, msg);
    hide RosterOk, AllCovered, Justified, ShardOk;
  }

  lemma HasAddAfter(control: seq<ShardMsg>, msg: ShardMsg, i: nat, c: ConnId)
    requires i <= |control|
    ensures HasAdd((control + [msg])[i..], c) <==> HasAdd(control[i..], c) || Adds(msg, c)
  {
    assert (control + [msg])[i..] == control[i..] + [msg];
    HasAddConcat(control[i..], [msg], c);
    HasAddOne(msg, c);
  }

  lemma ToldKeepsRoster(n: Node, msg: ShardMsg)
    requires RosterOk(n, Some(msg))
    ensures RosterOk(Told(n, msg), None)
  {
    var t := Told(n, msg);
    forall c | c in t.shard.members ensures c in t.added && !HasAdd(t.control, c) {
      HasAddAfter(n.control, msg, 0, c);
      assert n.control[0..] == n.control && t.control[0..] == t.control;
    }
    forall i, c: ConnId | 0 <= i < |t.control| && Adds(t.control[i], c)
      ensures c in t.added && !HasAdd(t.control[i + 1..], c)
    {
      HasAddAfter(n.control, msg, i, c);
      if i < |n.control| {
        assert t.control[i] == n.control[i];
        HasAddAfter(n.control, msg, i + 1, c);
      }
    }
  }

  lemma ToldKeepsCovered(n: Node, msg: ShardMsg)
    requires RosterOk(n, Some(msg)) && AllCovered(n, Some(msg))
    ensures AllCovered(Told(n, msg), None)
  {
    var t := Told(n, msg);
    forall c: ConnId, s0: nat | (c, s0) in t.lost ensures c in t.added && Covered(t, None, c, s0) {
      assert c in n.added && Covered(n, Some(msg), c, s0);
      assert !Adds(msg, c);
      HasAddAfter(n.control, msg, 0, c);
      assert n.control[0..] == n.control && t.control[0..] == t.control;
      if i: nat :| NoticeAt(n, c, i) {
        HasAddAfter(n.control, msg, i, c);
        assert NoticeAt(t, c, i);
      } else if Names(msg, c) {
        HasAddAfter(n.control, msg, |n.control|, c);
        assert NoticeAt(t, c, |n.control|);
      }
    }
  }

  lemma ToldKeepsJustified(n: Node, msg: ShardMsg)
    requires RosterOk(n, Some(msg)) && Justified(n, Some(msg))
    ensures Justified(Told(n, msg), None)
  {
    var t := Told(n, msg);
    LossStays(n, t);
    LossStays(t, n);
    forall i, c: ConnId | 0 <= i < |t.control| && Names(t.control[i], c)
                          && (c in t.shard.members || HasAdd(t.control[..i], c))
      ensures HasLoss(t, c)
    {
      if i < |n.control| {
        assert t.control[..i] == n.control[..i];
      } else {
        assert t.control[..i] == n.control;
      }
    }
  }

  /** A refused frame is a loss for whoever it may have been for, and the notice is owed at once. */
  lemma RefusedKeepsOk(n: Node, msg: ShardMsg, bound: nat)
    requires NodeOk(n, None, bound) && !IsControl(msg) && Id(msg) >= bound
    ensures NodeOk(Refused(n, msg), Some(Notice(msg)), Id(msg) + 1)
  {
    var t := Refused(n, msg);
    var owed := Some(Notice(msg));
    assert QueueOk(t, Id(msg) + 1);
    assert NoGap(t) by {
      hide ShardOk, RosterOk, AllCovered, Justified;
    }
    assert RosterOk(t, owed) by {
      hide ShardOk, QueueOk, AllCovered, Justified, NoGap;
    }
    assert AllCovered(t, owed) by {
      hide ShardOk, RosterOk, NoGap, Justified;
      forall c: ConnId, s0: nat | (c, s0) in t.lost ensures c in t.added && Covered(t, owed, c, s0) {
        if (c, s0) in n.lost {
          assert Covered(n, None, c, s0);
          if i: nat :| NoticeAt(n, c, i) {
            assert NoticeAt(t, c, i);
          }
        }
      }
    }
    assert Justified(t, owed) by {
      hide ShardOk, QueueOk, RosterOk, NoGap, AllCovered;
      LossStays(n, t);
      forall c: ConnId | Names(owed.value, c) && c in n.added ensures HasLoss(t, c) {
        assert (c, Id(msg)) in t.lost;
      }
    }
  }

  // The shard's steps.

  /** What a control message means for one connection. */
  lemma ControlOn(s: ShardState, msg: ShardMsg, c: ConnId)
    requires IsControl(msg) && Fresh(s, msg) && SweptMeansLagged(s)
    ensures var t := Control(s, msg);
      && (c in t.members <==> (c in s.members && msg != Remove(c)) || Adds(msg, c))
      && (c in t.members && c in s.members ==> (t.members[c].lagged <==> s.members[c].lagged || Names(msg, c)))
      && (c in t.members && c !in s.members ==> !t.members[c].lagged)
  {
  }

  /** An `Add` in the control inbox is never for a member. */
  lemma HeadIsFresh(n: Node, owed: Option<ShardMsg>)
    requires RosterOk(n, owed) && n.control != []
    ensures Fresh(n.shard, n.control[0])
  {
    var msg := n.control[0];
    if msg.Add? && msg.conn in n.shard.members {
      assert Adds(n.control[0], msg.conn);
      assert false;
    }
  }

  lemma HasAddSplit(control: seq<ShardMsg>, c: ConnId)
    requires control != []
    ensures HasAdd(control, c) <==> Adds(control[0], c) || HasAdd(control[1..], c)
  {
    assert control == [control[0]] + control[1..];
    HasAddConcat([control[0]], control[1..], c);
    HasAddOne(control[0], c);
  }

  lemma TookControlKeepsRoster(n: Node, owed: Option<ShardMsg>)
    requires RosterOk(n, owed) && SweptMeansLagged(n.shard) && n.control != []
    ensures RosterOk(TookControl(n), owed)
  {
    var t := TookControl(n);
    var msg := n.control[0];
    HeadIsFresh(n, owed);
    assert n.control[0 + 1..] == t.control;
    hide Control, HasAdd;
    forall i | 0 <= i < |t.control| ensures IsControl(t.control[i]) {
      assert t.control[i] == n.control[i + 1];
    }
    forall c | c in t.shard.members ensures c in t.added && !HasAdd(t.control, c) {
      ControlOn(n.shard, msg, c);
      HasAddSplit(n.control, c);
    }
    forall i, c: ConnId | 0 <= i < |t.control| && Adds(t.control[i], c)
      ensures c in t.added && !HasAdd(t.control[i + 1..], c)
    {
      assert t.control[i] == n.control[i + 1];
      assert t.control[i + 1..] == n.control[i + 1 + 1..];
      assert Adds(n.control[i + 1], c);
    }
  }

  lemma TookControlKeepsCovered(n: Node, owed: Option<ShardMsg>)
    requires RosterOk(n, owed) && AllCovered(n, owed) && SweptMeansLagged(n.shard) && n.control != []
    ensures AllCovered(TookControl(n), owed)
  {
    var t := TookControl(n);
    var msg := n.control[0];
    HeadIsFresh(n, owed);
    hide Control;
    forall c: ConnId, s0: nat | (c, s0) in t.lost ensures c in t.added && Covered(t, owed, c, s0) {
      assert (c, s0) in n.lost && Covered(n, owed, c, s0);
      ControlOn(n.shard, msg, c);
      HasAddSplit(n.control, c);
      if i: nat :| NoticeAt(n, c, i) {
        if i == 0 {
          assert n.control[0..] == n.control;
        } else {
          assert t.control[i - 1..] == n.control[i..];
          assert NoticeAt(t, c, i - 1);
        }
      }
    }
  }

  lemma TookControlKeepsJustified(n: Node, owed: Option<ShardMsg>)
    requires RosterOk(n, owed) && Justified(n, owed) && SweptMeansLagged(n.shard) && n.control != []
    ensures Justified(TookControl(n), owed)
  {
    var t := TookControl(n);
    var msg := n.control[0];
    HeadIsFresh(n, owed);
    hide Control;
    LossStays(n, t);
    forall c | c in t.shard.members && t.shard.members[c].lagged ensures HasLoss(t, c) {
      ControlOn(n.shard, msg, c);
      assert Names(n.control[0], c) ==> Names(msg, c);
    }
    forall i, c: ConnId | 0 <= i < |t.control| && Names(t.control[i], c)
                          && (c in t.shard.members || HasAdd(t.control[..i], c))
      ensures HasLoss(t, c)
    {
      ControlOn(n.shard, msg, c);
      assert Names(n.control[i + 1], c);
      assert n.control[..i + 1][1..] == t.control[..i];
      assert n.control[..i + 1][0] == msg;
      HasAddSplit(n.control[..i + 1], c);
    }
  }

  /** Handling a control message. */
  lemma TookControlKeepsOk(n: Node, owed: Option<ShardMsg>, bound: nat)
    requires NodeOk(n, owed, bound) && n.control != []
    ensures Fresh(n.shard, n.control[0]) && NodeOk(TookControl(n), owed, bound)
  {
    HeadIsFresh(n, owed);
    ControlKeepsIndex(n.shard, n.control[0]);
    ControlKeepsBooks(n.shard, n.control[0]);
    hide Control, IndexOk, AllBooksOk, SweptMeansLagged;
    TookControlKeepsRoster(n, owed);
    TookControlKeepsCovered(n, owed);
    TookControlKeepsJustified(n, owed);
    hide RosterOk, AllCovered, Justified;
  }


  /** How a node looks after a fan-out, from any one connection. */
  predicate Passed(n: Node, t: Node, f: Fan)
    requires n.frames != [] && !IsControl(n.frames[0])
  {
    && f.sent <= n.shard.members.Keys && f.lost <= n.shard.members.Keys
    && t.shard.members.Keys == n.shard.members.Keys
    && (forall c | c in n.shard.members :: TransmitOn(n.shard.members[c], t.shard.members[c], c in f.sent, c in f.lost))
    && t.frames == n.frames[1..] && n.control == [] && t.control == [] && t.added == n.added && t.tidy == n.tidy
    && t.sent == n.sent + At(f.sent, Id(n.frames[0]))
    && t.lost == n.lost + At(f.lost, Id(n.frames[0]))
    && (n.tidy ==> f.sent !! f.lost)
  }

  lemma FramePasses(n: Node, recips: seq<ConnId>, answers: Answers, compress: Compressor)
    requires MayTakeFrame(n, recips) && IndexOk(n.shard) && (n.tidy ==> TidyList(n.frames[0]))
    ensures Passed(n, TookFrame(n, recips, answers, compress), FanFor(n.shard, n.frames[0], recips, answers, compress))
  {
    var msg := n.frames[0];
    TransmitEffect(n.shard, msg, recips, answers, compress);
    if n.tidy {
      AddressedMembers(n.shard, msg, recips);
      if msg.Broadcast? {
        AudienceIsScan(n.shard, msg.to, recips);
      }
      assert Distinct(recips);
      SentOrLost(n.shard.members, recips, |recips|, msg.msg, answers, compress);
    }
    hide IndexOk, IsAudience, FanOut, Marked, TransmitOn;
  }

  lemma PassedKeepsQueue(n: Node, t: Node, f: Fan, bound: nat)
    requires QueueOk(n, bound) && n.frames != [] && Passed(n, t, f)
    ensures QueueOk(t, bound)
  {
  }

  lemma PassedKeepsRoster(n: Node, t: Node, f: Fan, owed: Option<ShardMsg>, bound: nat)
    requires QueueOk(n, bound) && n.frames != [] && Passed(n, t, f) && RosterOk(n, owed)
    ensures RosterOk(t, owed)
  {
    assert forall c | c in t.shard.members :: c in n.shard.members.Keys;
  }

  /**
   * Whoever has lost a frame and is still a member is either lagged, or owed a notice with only older frames waiting.
   */
  lemma PassedKeepsNoGap(n: Node, t: Node, f: Fan, owed: Option<ShardMsg>, bound: nat)
    requires NodeOk(n, owed, bound) && n.frames != [] && Passed(n, t, f)
    ensures NoGap(t)
  {
    hide ShardOk, RosterOk, Justified;
    var id := Id(n.frames[0]);
    forall c: ConnId, s: nat, s0: nat | (c, s) in t.sent && (c, s0) in t.lost
      ensures s <= s0 && (t.tidy ==> s < s0)
    {
      if (c, s0) in n.lost {
        assert Covered(n, owed, c, s0);
        if (c, s) !in n.sent {
          assert s == id && c in n.shard.members;
          assert TransmitOn(n.shard.members[c], t.shard.members[c], true, c in f.lost);
        }
      } else {
        assert s0 == id;
      }
    }
  }

  lemma PassedKeepsCovered(n: Node, t: Node, f: Fan, owed: Option<ShardMsg>, bound: nat)
    requires QueueOk(n, bound) && RosterOk(n, owed) && AllCovered(n, owed) && n.frames != [] && Passed(n, t, f)
    ensures AllCovered(t, owed)
  {
    forall c: ConnId, s0: nat | (c, s0) in t.lost ensures c in t.added && Covered(t, owed, c, s0) {
      if c in n.shard.members {
        assert TransmitOn(n.shard.members[c], t.shard.members[c], c in f.sent, c in f.lost);
      }
      if (c, s0) in n.lost {
        assert Covered(n, owed, c, s0);
      }
      assert c in t.shard.members <==> c in n.shard.members.Keys;
    }
  }

  lemma PassedKeepsJustified(n: Node, t: Node, f: Fan, owed: Option<ShardMsg>, bound: nat)
    requires QueueOk(n, bound) && Justified(n, owed) && n.frames != [] && Passed(n, t, f)
    ensures Justified(t, owed)
  {
    LossStays(n, t);
    forall c | c in t.shard.members && t.shard.members[c].lagged ensures HasLoss(t, c) {
      assert c in n.shard.members.Keys;
      assert TransmitOn(n.shard.members[c], t.shard.members[c], c in f.sent, c in f.lost);
      if c in f.lost {
        assert (c, Id(n.frames[0])) in t.lost;
      }
    }
  }

  /** Handling a frame: with the control inbox empty, only an owed notice can be outstanding. */
  lemma TookFrameKeepsOk(n: Node, owed: Option<ShardMsg>, bound: nat, recips: seq<ConnId>, answers: Answers,
                         compress: Compressor)
    requires NodeOk(n, owed, bound) && MayTakeFrame(n, recips)
    ensures NodeOk(TookFrame(n, recips, answers, compress), owed, bound)
  {
    var f := FanFor(n.shard, n.frames[0], recips, answers, compress);
    var t := TookFrame(n, recips, answers, compress);
    TransmitKeepsShardOk(n.shard, n.frames[0], recips, answers, compress);
    FramePasses(n, recips, answers, compress);
    hide Transmit, FanFor, TookFrame, Passed, MayTakeFrame;
    PassedKeepsQueue(n, t, f, bound);
    PassedKeepsRoster(n, t, f, owed, bound);
    PassedKeepsNoGap(n, t, f, owed, bound);
    PassedKeepsCovered(n, t, f, owed, bound);
    PassedKeepsJustified(n, t, f, owed, bound);
  }

  /** The same node with its members' queues served: nobody joins, leaves or changes standing. */
  predicate OnlyServed(n: Node, t: Node) {
    && t == n.(shard := t.shard)
    && (forall c | c in t.shard.members ::
      c in n.shard.members && t.shard.members[c].lagged == n.shard.members[c].lagged)
    && (forall c | c in n.shard.members :: c in t.shard.members)
  }

  lemma MovedServes(n: Node, e: Event, compress: Compressor)
    requires IsWriterEvent(n, e)
    ensures OnlyServed(n, Acted(n, e, compress))
  {
  }

  lemma ServedKeepsCovered(n: Node, t: Node, owed: Option<ShardMsg>)
    requires OnlyServed(n, t) && AllCovered(n, owed)
    ensures AllCovered(t, owed)
  {
    forall c: ConnId, s0: nat | (c, s0) in t.lost ensures c in t.added && Covered(t, owed, c, s0) {
      assert Covered(n, owed, c, s0);
      if i: nat :| NoticeAt(n, c, i) {
        assert NoticeAt(t, c, i);
      }
    }
  }

  lemma ServedKeepsJustified(n: Node, t: Node, owed: Option<ShardMsg>)
    requires OnlyServed(n, t) && Justified(n, owed)
    ensures Justified(t, owed)
  {
    LossStays(n, t);
  }

  lemma ServedKeepsRoster(n: Node, t: Node, owed: Option<ShardMsg>)
    requires OnlyServed(n, t) && RosterOk(n, owed)
    ensures RosterOk(t, owed)
  {
  }

  /** What a writer or a reader does to its own queue. */
  lemma MovedKeepsOk(n: Node, owed: Option<ShardMsg>, bound: nat, e: Event, compress: Compressor)
    requires NodeOk(n, owed, bound) && IsWriterEvent(n, e)
    ensures NodeOk(Acted(n, e, compress), owed, bound)
  {
    var t := Acted(n, e, compress);
    WriterKeepsShardOk(n.shard, e, compress);
    MovedServes(n, e, compress);
    NodeOkParts(n, owed, bound);
    assert t == n.(shard := t.shard);
    assert QueueOk(t, bound) && NoGap(t) by {
      hide ShardOk, Enabled, After, RosterOk, AllCovered, Justified, OnlyServed;
    }
    hide *;
    ServedKeepsCovered(n, t, owed);
    ServedKeepsJustified(n, t, owed);
    ServedKeepsRoster(n, t, owed);
    NodeOkParts(t, owed, bound);
  }

  /**
   * Once the control inbox is empty and nothing is owed, the members marked lagged are exactly those that lost a frame.
   */
  lemma SettledExactly(n: Node, bound: nat, c: ConnId)
    requires NodeOk(n, None, bound) && n.control == [] && c in n.shard.members
    ensures n.shard.members[c].lagged <==> HasLoss(n, c)
  {
    if HasLoss(n, c) {
      var s0: nat :| (c, s0) in n.lost;
      assert Covered(n, None, c, s0);
    }
  }
}
