/** The shard task itself: its tables changed in place, message by message. */
module ShardClass {
  import opened Common
  import opened Shard
  import opened ShardFacts

  /** Compressed forms made so far for one broadcast, by window size. */
  type Memo = seq<(nat, Bytes)>

  /** Every form kept is the one compression gives for its window, and none is kept twice. */
  predicate MemoOk(memo: Memo, payload: Bytes, compress: Compressor) {
    && (forall i | 0 <= i < |memo| :: memo[i].1 == compress(payload, memo[i].0))
    && (forall i, j | 0 <= i < j < |memo| :: memo[i].0 != memo[j].0)
  }

  class ShardTask {
    var members: Members
    var bySlot: map<Slot, seq<ConnId>>
    var swept: bool
    var deflaters: seq<nat>
    const compress: Compressor

    function State(): ShardState
      reads this
    {
      ShardState(members, bySlot, swept)
    }

    /** One compressor per window size. */
    predicate Valid()
      reads this
    {
      forall i, j | 0 <= i < j < |deflaters| :: deflaters[i] != deflaters[j]
    }

    constructor (compress: Compressor)
      ensures Valid() && State() == EMPTY && this.compress == compress
    {
      this.members := map[];
      this.bySlot := map[];
      this.swept := false;
      this.deflaters := [];
      this.compress := compress;
    }

    /** The frame a member takes, compressed at most once per window size in one broadcast. */
    method FrameFor(m: Member, msg: Message, memo: Memo) returns (frame: Bytes, grown: Memo)
      requires Valid() && MemoOk(memo, msg.payload, compress)
      modifies this`deflaters
      ensures Valid() && MemoOk(grown, msg.payload, compress)
      ensures frame == Variant(m, msg, compress)
      ensures memo <= grown && |grown| <= |memo| + 1
      ensures grown != memo ==> m.deflate.Some? && Last(grown).0 == m.deflate.value
    {
      if m.deflate.None? {
        return msg.payload, memo;
      }
      var bits := m.deflate.value;
      var i := 0;
      while i < |memo|
        invariant 0 <= i <= |memo|
        invariant forall j | 0 <= j < i :: memo[j].0 != bits
      {
        if memo[i].0 == bits {
          return memo[i].1, memo;
        }
        i := i + 1;
      }
      var k := 0;
      while k < |deflaters| && deflaters[k] != bits
        invariant 0 <= k <= |deflaters|
        invariant forall j | 0 <= j < k :: deflaters[j] != bits
      {
        k := k + 1;
      }
      if k == |deflaters| {
        deflaters := deflaters + [bits];
      }
      frame := compress(msg.payload, bits);
      grown := memo + [(bits, frame)];
    }

    method MarkBehind(behind: seq<ConnId>)
      modifies this`members
      ensures members == MarkLagged(old(members), behind)
    {
      var i := 0;
      while i < |behind|
        invariant 0 <= i <= |behind|
        invariant members == MarkLagged(old(members), behind[..i])
      {
        var c := behind[i];
        assert behind[..i + 1][..i] == behind[..i];
        if c in members && !members[c].lagged {
          members := members[c := ForceClose(members[c]).(lagged := true, closes := members[c].closes + 1)];
        }
        i := i + 1;
      }
      assert behind[..i] == behind;
    }

    method MarkOver(gone: seq<ConnId>)
      modifies this`members
      ensures members == MarkGone(old(members), gone)
    {
      var i := 0;
      while i < |gone|
        invariant 0 <= i <= |gone|
        invariant members == MarkGone(old(members), gone[..i])
      {
        var c := gone[i];
        assert gone[..i + 1][..i] == gone[..i];
        if c in members && !members[c].lagged {
          members := members[c := members[c].(lagged := true)];
        }
        i := i + 1;
      }
      assert gone[..i] == gone;
    }

    /** Deliver one message to one member, unless it is lagged or its filter drops it. */
    method Serve(c: ConnId, msg: Message, a: Answer, memo: Memo, ghost f: Fan) returns (result: Delivery, grown: Memo)
      requires Valid() && MemoOk(memo, msg.payload, compress)
      requires c in members && f.members == members
      modifies this`members, this`deflaters
      ensures Valid() && MemoOk(grown, msg.payload, compress)
      ensures var g := FanStep(f, c, msg, a, compress);
        && members == g.members
        && g.behind == (if result.Behind? then f.behind + [c] else f.behind)
        && g.gone == (if result.Gone? then f.gone + [c] else f.gone)
    {
      hide Variant, Filtered, Deliver, MemoOk;
      // The queues are shared: this is what writers and readers have done since the last delivery.
      members := Meanwhile(members, a.motions);
      hide Meanwhile;
      var m := members[c];
      grown := memo;
      result := Sent;
      if !m.lagged && !Filtered(m, msg, a) {
        var frame;
        frame, grown := FrameFor(m, msg, memo);
        var (n, d) := Deliver(m, msg, frame, a);
        members := members[c := n];
        result := d;
      }
    }

    /** Deliver one message to an audience, noting those that could not take it. */
    method DeliverAll(recips: seq<ConnId>, msg: Message, answers: Answers) returns (behind: seq<ConnId>,
                      gone: seq<ConnId>)
      requires Valid() && Within(members, recips)
      modifies this`members, this`deflaters
      ensures Valid()
      ensures var f := FanOut(old(members), recips, |recips|, msg, answers, compress);
        members == f.members && behind == f.behind && gone == f.gone
    {
      var memo: Memo := [];
      behind, gone := [], [];
      ghost var f := Fan(members, [], [], {}, {});
      assert MemoOk(memo, msg.payload, compress);
      FanOutNone(members, recips, msg, answers, compress);
      hide FanOut, FanStep, Variant, Filtered, Deliver, MemoOk;
      var i := 0;
      while i < |recips|
        invariant 0 <= i <= |recips|
        invariant Valid() && MemoOk(memo, msg.payload, compress)
        invariant f == FanOut(old(members), recips, i, msg, answers, compress)
        invariant f.members == members && f.behind == behind && f.gone == gone
      {
        var c := recips[i];
        FanOutNext(old(members), recips, i + 1, msg, answers, compress);
        var result;
        ghost var next := FanStep(f, c, msg, answers(i), compress);
        result, memo := Serve(c, msg, answers(i), memo, f);
        match result {
          case Behind => behind := behind + [c];
          case Gone => gone := gone + [c];
          case Sent =>
        }
        f := next;
        i := i + 1;
      }
    }

    /** Deliver, then mark. */
    method Expand(recips: seq<ConnId>, msg: Message, answers: Answers)
      requires Valid() && Within(members, recips)
      modifies this`members, this`deflaters
      ensures Valid()
      ensures members == Marked(FanOut(old(members), recips, |recips|, msg, answers, compress))
    {
      hide FanOut, MarkLagged, MarkGone;
      var behind, gone := DeliverAll(recips, msg, answers);
      MarkBehind(behind);
      MarkOver(gone);
    }

    /** The members whose record alone decides, in the order the table yields them. */
    method Scan(to: Recipients) returns (recips: seq<ConnId>)
      requires to.All? || to.AllText? || to.AllTextAbout? || to.AllTextFull?
      ensures IsAudience(State(), to, recips)
    {
      recips := [];
      var todo := members.Keys;
      while todo != {}
        invariant todo <= members.Keys
        invariant Distinct(recips)
        invariant forall i | 0 <= i < |recips| ::
          recips[i] in members && recips[i] !in todo && Wanted(to, recips[i], members[recips[i]])
        invariant forall c | c in members && c !in todo :: Wanted(to, c, members[c]) ==> c in recips
        decreases |todo|
      {
        var c :| c in todo;
        if Wanted(to, c, members[c]) {
          recips := recips + [c];
        }
        todo := todo - {c};
      }
    }

    /** The members named by a list or by the slot index that pass the rest of the test. */
    method Choose(cs: seq<ConnId>, to: Recipients) returns (recips: seq<ConnId>)
      ensures recips == Pick(State(), cs, to)
    {
      recips := [];
      var i := 0;
      while i < |cs|
        invariant 0 <= i <= |cs|
        invariant recips == Pick(State(), cs[..i], to)
      {
        assert cs[..i + 1][..i] == cs[..i];
        if cs[i] in members && PassesIndexed(to, members[cs[i]]) {
          recips := recips + [cs[i]];
        }
        i := i + 1;
      }
      assert cs[..i] == cs;
    }

    method Audience(to: Recipients) returns (recips: seq<ConnId>)
      ensures IsAudience(State(), to, recips)
    {
      match to {
        case SlotAll(key) => recips := Choose(Indexed(State(), key), to);
        case SlotText(key) => recips := Choose(Indexed(State(), key), to);
        case SlotScopedText(key) => recips := Choose(Indexed(State(), key), to);
        case These(list) => recips := Choose(list, to);
        case _ => recips := Scan(to);
      }
    }

    /** Handle one frame message. */
    method HandleFrame(msg: ShardMsg, answers: Answers) returns (recips: seq<ConnId>)
      requires Valid() && (msg.Send? || msg.Broadcast?)
      modifies this`members, this`deflaters
      ensures Valid()
      ensures Addressed(old(State()), msg, recips)
      ensures State() == Transmit(old(State()), msg, recips, answers, compress)
    {
      if msg.Send? {
        recips := if msg.conn in members then [msg.conn] else [];
      } else {
        recips := Audience(msg.to);
        AudienceMembers(State(), msg.to, recips);
      }
      hide FanOut, Marked, IsAudience;
      Expand(recips, msg.msg, answers);
    }

    /** Take a connection off the list of a slot. */
    method Strike(slot: Option<Slot>, c: ConnId)
      modifies this`bySlot
      ensures bySlot == Unlist(old(bySlot), slot, c)
    {
      if slot.Some? && slot.value in bySlot {
        var list := bySlot[slot.value];
        var kept: seq<ConnId> := [];
        var i := 0;
        while i < |list|
          invariant 0 <= i <= |list|
          invariant kept == Without(list[..i], c)
        {
          assert list[..i + 1][..i] == list[..i];
          if list[i] != c {
            kept := kept + [list[i]];
          }
          i := i + 1;
        }
        assert list[..i] == list;
        bySlot := bySlot[slot.value := kept];
      }
    }

    /** Close everybody not yet lagged. */
    method SweepAll()
      modifies this`members
      ensures members == Sweep(old(members))
    {
      hide CloseMember;
      var todo := members.Keys;
      while todo != {}
        invariant todo <= members.Keys == old(members).Keys
        invariant forall c | c in members ::
          members[c] == if c in todo then old(members)[c] else Desync(old(members)[c])
        decreases |todo|
      {
        var c :| c in todo;
        if !members[c].lagged {
          members := members[c := CloseMember(members[c].(lagged := true)).(closes := members[c].closes + 1)];
        }
        todo := todo - {c};
      }
    }

    /** Handle one control message. */
    method HandleControl(msg: ShardMsg)
      requires IsControl(msg)
      modifies this`members, this`bySlot, this`swept
      ensures State() == Control(old(State()), msg)
    {
      match msg {
        case Add(c, capacity, deflate, scoped) =>
          swept := false;
          members := members[c := NewMember(capacity, deflate, scoped)];
        case Remove(c) =>
          if c in members {
            var m := members[c];
            members := members - {c};
            Strike(m.slot, c);
          }
        case Update(c, auth, noText, slot) =>
          if c in members {
            var m := members[c];
            if m.slot != slot {
              Strike(m.slot, c);
              if slot.Some? {
                var list := if slot.value in bySlot then bySlot[slot.value] else [];
                bySlot := bySlot[slot.value := list + [c]];
              }
            }
            members := members[c := m.(auth := auth, noText := noText, slot := slot)];
          }
        case SetFilter(c, filter) =>
          if c in members {
            members := members[c := members[c].(filter := filter)];
          }
        case CloseConn(c) =>
          if c in members {
            members := members[c := CloseMember(members[c])];
          }
        case DesyncedOne(c) =>
          if c in members && !members[c].lagged {
            members := members[c := CloseMember(members[c].(lagged := true)).(closes := members[c].closes + 1)];
          }
        case DesyncedAll =>
          if !swept {
            swept := true;
            SweepAll();
          }
      }
    }
  }
}
