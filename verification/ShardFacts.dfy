/** What one shard keeps from message to message, and over every run of messages. */
module ShardFacts {
  import opened Common
  import opened Shard

  // The slot index.

  /** A connection is listed exactly once under a slot, and only under the slot its own record names. */
  ghost predicate IndexOk(s: ShardState) {
    && (forall key | key in s.bySlot :: Distinct(s.bySlot[key]))
    && (forall key: Slot, c: ConnId :: c in Indexed(s, key) <==> c in s.members && s.members[c].slot == Some(key))
  }

  /** Connection ids are never used twice, so no `Add` names a member. */
  predicate Fresh(s: ShardState, msg: ShardMsg) {
    msg.Add? ==> msg.conn !in s.members
  }

  lemma ControlKeepsIndex(s: ShardState, msg: ShardMsg)
    requires IsControl(msg) && IndexOk(s) && Fresh(s, msg)
    ensures IndexOk(Control(s, msg))
  {
    if msg.Add? {
      AddKeepsIndex(s, msg);
    } else if msg.Remove? {
      RemoveKeepsIndex(s, msg.conn);
    } else if msg.Update? {
      UpdateKeepsIndex(s, msg);
    } else {
      OthersKeepSlots(s, msg);
      SameSlotsKeepIndex(s, Control(s, msg));
    }
  }

  lemma OthersKeepSlots(s: ShardState, msg: ShardMsg)
    requires msg.SetFilter? || msg.CloseConn? || msg.DesyncedOne? || msg.DesyncedAll?
    ensures SameSlots(s, Control(s, msg))
  {
    if msg.DesyncedAll? {
      SweepKeepsSlots(s);
    } else {
      CloseKeepsSlots(s, msg);
    }
  }

  lemma CloseKeepsSlots(s: ShardState, msg: ShardMsg)
    requires msg.SetFilter? || msg.CloseConn? || msg.DesyncedOne?
    ensures SameSlots(s, Control(s, msg))
  {
  }

  lemma SweepKeepsSlots(s: ShardState)
    ensures SameSlots(s, Control(s, DesyncedAll))
  {
    hide Desync;
    forall c | c in s.members ensures Sweep(s.members)[c].slot == s.members[c].slot {
      DesyncKeepsSlot(s.members[c]);
    }
  }

  lemma DesyncKeepsSlot(m: Member)
    ensures Desync(m).slot == m.slot
  {
  }

  lemma UpdateKeepsIndex(s: ShardState, msg: ShardMsg)
    requires msg.Update? && IndexOk(s)
    ensures IndexOk(Control(s, msg))
  {
    var t := Control(s, msg);
    var c := msg.conn;
    if c in s.members {
      var m := s.members[c].(auth := msg.auth, noText := msg.noText, slot := msg.slot);
      assert t.members == s.members[c := m];
      if s.members[c].slot != msg.slot {
        assert t.bySlot == Enlist(Unlist(s.bySlot, s.members[c].slot, c), msg.slot, c);
        MoveKeepsIndex(s, c, msg.slot, m);
        hide IndexOk, Enlist, Unlist;
      } else {
        hide IndexOk;
        assert SameSlots(s, t);
        SameSlotsKeepIndex(s, t);
      }
    }
  }

  lemma AddKeepsIndex(s: ShardState, msg: ShardMsg)
    requires msg.Add? && IndexOk(s) && Fresh(s, msg)
    ensures IndexOk(Control(s, msg))
  {
    var t := Control(s, msg);
    var m := NewMember(msg.capacity, msg.deflate, msg.scoped);
    assert t.bySlot == s.bySlot && t.members == s.members[msg.conn := m] && m.slot == None;
    hide Control, NewMember;
    forall key: Slot, d: ConnId ensures d in Indexed(t, key) <==> d in t.members && t.members[d].slot == Some(key) {
      assert d in Indexed(s, key) <==> d in s.members && s.members[d].slot == Some(key);
    }
  }

  predicate SameSlots(s: ShardState, t: ShardState) {
    && t.bySlot == s.bySlot && t.members.Keys == s.members.Keys
    && (forall c | c in s.members :: t.members[c].slot == s.members[c].slot)
  }

  lemma SameSlotsKeepIndex(s: ShardState, t: ShardState)
    requires IndexOk(s) && SameSlots(s, t)
    ensures IndexOk(t)
  {
    forall key: Slot, d: ConnId ensures d in Indexed(t, key) <==> d in t.members && t.members[d].slot == Some(key) {
      assert d in Indexed(s, key) <==> d in s.members && s.members[d].slot == Some(key);
      assert d in t.members <==> d in s.members.Keys;
    }
  }

  lemma RemoveKeepsIndex(s: ShardState, c: ConnId)
    requires IndexOk(s)
    ensures IndexOk(Control(s, Remove(c)))
  {
    var t := Control(s, Remove(c));
    if c in s.members {
      forall key: Slot, d: ConnId ensures d in Indexed(t, key) <==> d in t.members && t.members[d].slot == Some(key) {
        assert d in Indexed(s, key) <==> d in s.members && s.members[d].slot == Some(key);
        assert c in Indexed(s, key) <==> s.members[c].slot == Some(key);
      }
    }
  }

  /** Moving a member from the list of its old slot to the list of its new one. */
  lemma MoveKeepsIndex(s: ShardState, c: ConnId, slot: Option<Slot>, m: Member)
    requires IndexOk(s) && c in s.members && s.members[c].slot != slot && m.slot == slot
    ensures IndexOk(s.(members := s.members[c := m], bySlot := Enlist(Unlist(s.bySlot, s.members[c].slot, c), slot, c)))
  {
    var was := s.members[c].slot;
    var off := Unlist(s.bySlot, was, c);
    var t := s.(members := s.members[c := m], bySlot := Enlist(off, slot, c));
    assert slot.Some? ==> c !in Indexed(s, slot.value);
    forall key: Slot, d: ConnId ensures d in Indexed(t, key) <==> d in t.members && t.members[d].slot == Some(key) {
      assert d in Indexed(s, key) <==> d in s.members && s.members[d].slot == Some(key);
    }
  }

  /**
   * An `Add` keeps the index exactly when its id is no member's, or that member holds no slot the table would forget.
   */
  lemma AddKeepsIndexExactly(s: ShardState, msg: ShardMsg)
    requires msg.Add? && IndexOk(s)
    ensures IndexOk(Control(s, msg)) <==> (msg.conn in s.members ==> s.members[msg.conn].slot.None?)
  {
    var t := Control(s, msg);
    var c := msg.conn;
    if c !in s.members {
      AddKeepsIndex(s, msg);
    } else {
      var m := NewMember(msg.capacity, msg.deflate, msg.scoped);
      assert t.bySlot == s.bySlot && t.members == s.members[c := m] && m.slot == None;
      hide Control, NewMember;
      if s.members[c].slot.None? {
        assert SameSlots(s, t);
        SameSlotsKeepIndex(s, t);
      } else {
        var key := s.members[c].slot.value;
        assert c in Indexed(s, key);
        assert c in Indexed(t, key) && t.members[c].slot != Some(key);
      }
    }
  }

  /** Reusing an id does break the index: the table forgets the slot and the index does not. */
  lemma ReusedIdBreaksIndex()
    ensures
      var s := ShardState(map[7 := NewMember(1, None, false).(slot := Some(3))], map[3 := [7]], false);
      IndexOk(s) && !IndexOk(Control(s, Add(7, 1, None, false)))
  {
    var s := ShardState(map[7 := NewMember(1, None, false).(slot := Some(3))], map[3 := [7]], false);
    assert forall key: Slot, c: ConnId :: c in Indexed(s, key) <==> c in s.members && s.members[c].slot == Some(key);
    AddKeepsIndexExactly(s, Add(7, 1, None, false));
  }

  /** What a frame leaves alone in a member's record; a writer may stop meanwhile, and never starts again. */
  predicate SameStanding(m: Member, n: Member) {
    n.slot == m.slot && n.auth == m.auth && n.noText == m.noText && n.scoped == m.scoped && n.deflate == m.deflate
    && n.filter == m.filter && n.capacity == m.capacity && (m.writerGone ==> n.writerGone)
  }

  /** A queued close stays queued until the writer takes it and stops. */
  predicate KeepsClose(m: Member, n: Member) {
    Close in m.out ==> n.writerGone || Close in n.out
  }

  /** The whole effect of one fan-out on each member, before anyone is marked. */
  predicate FanOutOn(ms: Members, recips: seq<ConnId>, f: Fan, c: ConnId)
    requires c in ms && c in f.members
  {
    && SameStanding(ms[c], f.members[c])
    && KeepsClose(ms[c], f.members[c])
    && f.members[c].lagged == ms[c].lagged
    && f.members[c].closes == ms[c].closes
    && f.members[c].closeSignal == ms[c].closeSignal
    && (c in f.sent ==> c in recips && !ms[c].lagged && !ms[c].writerGone)
    && (c in f.lost <==> c in f.behind || c in f.gone || (ms[c].lagged && c in recips))
    && (c in f.gone ==> f.members[c].writerGone)
    && (c in f.behind || c in f.gone ==> !ms[c].lagged && c in recips)
  }

  /** What writers and readers change: the queue, and whether the writer runs. */
  predicate Evolved(m: Member, n: Member) {
    n == m.(out := n.out, writerGone := n.writerGone) && (m.writerGone ==> n.writerGone) && KeepsClose(m, n)
  }

  lemma MovedOneEvolves(m: Member, x: Motion)
    ensures Evolved(m, MovedOne(m, x))
  {
    if x.Takes? && CanMove(m, x) {
      assert m.out == [m.out[0]] + m.out[1..];
    }
  }

  lemma {:induction false} MeanwhileEvolves(ms: Members, xs: seq<Motion>, c: ConnId)
    requires c in ms
    ensures Evolved(ms[c], Meanwhile(ms, xs)[c])
  {
    if xs != [] {
      MeanwhileEvolves(ms, xs[..|xs| - 1], c);
      var mid := Meanwhile(ms, xs[..|xs| - 1]);
      if Last(xs).conn == c {
        MovedOneEvolves(mid[c], Last(xs));
      }
      hide MovedOne;
    }
  }

  /** The queues moving changes nothing the fan-out so far has settled. */
  lemma MeanwhileKeepsFanOutOn(ms: Members, recips: seq<ConnId>, f: Fan, xs: seq<Motion>, c: ConnId)
    requires c in ms && c in f.members && FanOutOn(ms, recips, f, c)
    ensures FanOutOn(ms, recips, f.(members := Meanwhile(f.members, xs)), c)
  {
    MeanwhileEvolves(f.members, xs, c);
    hide Meanwhile;
  }

  /** One place of the audience, seen from any member. */
  lemma HandToEffect(ms: Members, before: seq<ConnId>, f: Fan, c: ConnId, msg: Message, a: Answer, compress: Compressor,
                     d: ConnId)
    requires f.members.Keys == ms.Keys && c in ms && d in ms && FanOutOn(ms, before, f, d)
    ensures FanOutOn(ms, before + [c], HandTo(f, c, msg, a, compress), d)
  {
    assert d in f.members && c in f.members;
    assert d in before + [c] <==> d in before || d == c;
    if d != c {
      hide Deliver, KeepsClose;
    } else {
      DeliverKeeps(f.members[c], msg, Variant(f.members[c], msg, compress), a);
      hide Deliver, KeepsClose;
    }
    hide Variant, Filtered;
  }

  lemma DeliverKeeps(m: Member, msg: Message, bytes: Bytes, a: Answer)
    ensures var (n, d) := Deliver(m, msg, bytes, a);
      && n == m.(out := n.out) && (d.Sent? ==> !m.writerGone) && (d.Gone? ==> m.writerGone)
      && forall o: Member | KeepsClose(o, m) :: KeepsClose(o, n)
  {
  }

  lemma FanStepEffect(ms: Members, before: seq<ConnId>, f: Fan, c: ConnId, msg: Message, a: Answer,
                      compress: Compressor, d: ConnId)
    requires f.members.Keys == ms.Keys && c in ms && d in ms && FanOutOn(ms, before, f, d)
    ensures FanOutOn(ms, before + [c], FanStep(f, c, msg, a, compress), d)
  {
    assert d in f.members.Keys;
    MeanwhileKeepsFanOutOn(ms, before, f, a.motions, d);
    HandToEffect(ms, before, f.(members := Meanwhile(f.members, a.motions)), c, msg, a, compress, d);
    hide FanOutOn, HandTo, Meanwhile;
  }

  predicate FanOutOnAll(ms: Members, recips: seq<ConnId>, f: Fan) {
    f.members.Keys == ms.Keys && forall c | c in ms :: FanOutOn(ms, recips, f, c)
  }

  lemma FanStepOnAll(ms: Members, before: seq<ConnId>, f: Fan, c: ConnId, msg: Message, a: Answer, compress: Compressor)
    requires FanOutOnAll(ms, before, f) && c in ms
    ensures FanOutOnAll(ms, before + [c], FanStep(f, c, msg, a, compress))
  {
    hide FanOutOn, FanStep;
    forall d | d in ms ensures FanOutOn(ms, before + [c], FanStep(f, c, msg, a, compress), d) {
      FanStepEffect(ms, before, f, c, msg, a, compress, d);
    }
  }

  lemma {:induction false} FanOutEffect(ms: Members, recips: seq<ConnId>, k: nat, msg: Message, answers: Answers,
                                        compress: Compressor)
    requires k <= |recips| && Within(ms, recips)
    ensures FanOutOnAll(ms, recips[..k], FanOut(ms, recips, k, msg, answers, compress))
  {
    hide FanStep, FanOutOn;
    if k == 0 {
      FanOutFirst(ms, recips);
    } else {
      FanOutEffect(ms, recips, k - 1, msg, answers, compress);
      hide *;
      assert recips[..k] == recips[..k - 1] + [recips[k - 1]];
      FanStepOnAll(ms, recips[..k - 1], FanOut(ms, recips, k - 1, msg, answers, compress), recips[k - 1], msg,
                   answers(k - 1), compress);
      FanOutNext(ms, recips, k, msg, answers, compress);
    }
  }

  lemma FanOutFirst(ms: Members, recips: seq<ConnId>)
    ensures FanOutOnAll(ms, recips[..0], Fan(ms, [], [], {}, {}))
  {
  }

  lemma FanOutNext(ms: Members, recips: seq<ConnId>, k: nat, msg: Message, answers: Answers, compress: Compressor)
    requires 0 < k <= |recips| && Within(ms, recips)
    ensures FanOut(ms, recips, k, msg, answers, compress)
         == FanStep(FanOut(ms, recips, k - 1, msg, answers, compress), recips[k - 1], msg, answers(k - 1), compress)
  {
    hide FanStep;
  }

  /** Marking lags exactly those named, and closes each of them at most once. */
  lemma {:induction false} MarkLaggedEffect(ms: Members, behind: seq<ConnId>)
    ensures forall c | c in ms ::
      var n := MarkLagged(ms, behind)[c];
      n ==
        if c in behind && !ms[c].lagged then ForceClose(ms[c]).(lagged := true, closes := ms[c].closes + 1) else ms[c]
  {
    if behind != [] {
      MarkLaggedEffect(ms, behind[..|behind| - 1]);
      assert behind == behind[..|behind| - 1] + [Last(behind)];
    }
  }

  lemma {:induction false} MarkGoneEffect(ms: Members, gone: seq<ConnId>)
    ensures forall c | c in ms :: MarkGone(ms, gone)[c] == if c in gone then ms[c].(lagged := true) else ms[c]
  {
    if gone != [] {
      MarkGoneEffect(ms, gone[..|gone| - 1]);
      assert gone == gone[..|gone| - 1] + [Last(gone)];
    }
  }

  /** What one frame message does to one member. */
  predicate TransmitOn(m: Member, n: Member, sent: bool, lost: bool) {
    && SameStanding(m, n)
    && n.lagged == (m.lagged || lost)
    && KeepsClose(m, n)
    && (sent ==> !m.lagged && !m.writerGone)
    && (!m.lagged && lost ==> (n.closes == m.closes + 1 && n.closeSignal) || (n.closes == m.closes && n.writerGone))
    && (m.lagged || !lost ==> n.closes == m.closes && n.closeSignal == m.closeSignal)
  }

  /** From one member's fan-out to its marking. */
  lemma MarkingEffect(ms: Members, recips: seq<ConnId>, f: Fan, c: ConnId)
    requires c in ms && c in f.members && FanOutOn(ms, recips, f, c)
    ensures TransmitOn(ms[c], Marked(f)[c], c in f.sent, c in f.lost)
  {
    MarkLaggedEffect(f.members, f.behind);
    var mid := MarkLagged(f.members, f.behind);
    MarkGoneEffect(mid, f.gone);
    assert mid[c] == if c in f.behind && !f.members[c].lagged
                     then ForceClose(f.members[c]).(lagged := true, closes := f.members[c].closes + 1)
                     else f.members[c];
    assert Marked(f)[c] == if c in f.gone then mid[c].(lagged := true) else mid[c];
    hide MarkLagged, MarkGone, Marked;
  }

  /** A frame message lags exactly those who lost the frame, and sends to nobody already lagged. */
  lemma TransmitEffect(s: ShardState, msg: ShardMsg, recips: seq<ConnId>, answers: Answers, compress: Compressor)
    requires Addressed(s, msg, recips)
    ensures
      var f := FanFor(s, msg, recips, answers, compress);
      var t := Transmit(s, msg, recips, answers, compress);
      && t.members.Keys == s.members.Keys
      && (forall c | c in s.members :: TransmitOn(s.members[c], t.members[c], c in f.sent, c in f.lost))
  {
    AddressedMembers(s, msg, recips);
    FanOutEffect(s.members, recips, |recips|, msg.msg, answers, compress);
    assert recips[..|recips|] == recips;
    var f := FanFor(s, msg, recips, answers, compress);
    hide FanOut, FanOutOn, TransmitOn, Marked, Addressed;
    forall c | c in s.members ensures TransmitOn(s.members[c], Marked(f)[c], c in f.sent, c in f.lost) {
      MarkingEffect(s.members, recips, f, c);
    }
  }

  lemma HandToServes(f: Fan, c: ConnId, msg: Message, a: Answer, compress: Compressor)
    requires c in f.members
    ensures var g := HandTo(f, c, msg, a, compress);
      && f.sent <= g.sent && f.lost <= g.lost
      && (!Filtered(f.members[c], msg, a) ==> c in g.sent || c in g.lost)
      && (f.sent !! f.lost && c !in f.sent && c !in f.lost ==> g.sent !! g.lost)
  {
    hide Filtered, Variant;
  }

  lemma FanStepServes(f: Fan, c: ConnId, msg: Message, a: Answer, compress: Compressor)
    requires c in f.members
    ensures var g := FanStep(f, c, msg, a, compress);
      && f.sent <= g.sent && f.lost <= g.lost
      && (!Filtered(f.members[c], msg, a) ==> c in g.sent || c in g.lost)
      && (f.sent !! f.lost && c !in f.sent && c !in f.lost ==> g.sent !! g.lost)
  {
    MeanwhileEvolves(f.members, a.motions, c);
    HandToServes(f.(members := Meanwhile(f.members, a.motions)), c, msg, a, compress);
    hide HandTo, Meanwhile;
  }

  /** Everyone among the first `k` whose filter lets the frame through is sent it or loses it. */
  predicate AllServed(ms: Members, recips: seq<ConnId>, k: nat, msg: Message, answers: Answers, f: Fan)
    requires k <= |recips| && Within(ms, recips)
  {
    forall i | 0 <= i < k && !Filtered(ms[recips[i]], msg, answers(i)) :: recips[i] in f.sent || recips[i] in f.lost
  }

  lemma NextServed(ms: Members, recips: seq<ConnId>, k: nat, msg: Message, answers: Answers, compress: Compressor,
                   f: Fan)
    requires k < |recips| && Within(ms, recips)
    requires FanOutOnAll(ms, recips[..k], f) && AllServed(ms, recips, k, msg, answers, f)
    ensures AllServed(ms, recips, k + 1, msg, answers, FanStep(f, recips[k], msg, answers(k), compress))
  {
    hide FanStep;
    FanStepServes(f, recips[k], msg, answers(k), compress);
    assert FanOutOn(ms, recips[..k], f, recips[k]);
  }

  lemma FanOutNone(ms: Members, recips: seq<ConnId>, msg: Message, answers: Answers, compress: Compressor)
    requires Within(ms, recips)
    ensures FanOut(ms, recips, 0, msg, answers, compress) == Fan(ms, [], [], {}, {})
    ensures AllServed(ms, recips, 0, msg, answers, Fan(ms, [], [], {}, {}))
  {
    hide FanStep;
  }

  /** Nobody in the audience is passed over: each is sent the frame, or lost it, or was filtered. */
  lemma {:induction false} NobodyMissed(ms: Members, recips: seq<ConnId>, k: nat, msg: Message, answers: Answers,
                                        compress: Compressor)
    requires k <= |recips| && Within(ms, recips)
    ensures AllServed(ms, recips, k, msg, answers, FanOut(ms, recips, k, msg, answers, compress))
  {
    hide *;
    if k == 0 {
      FanOutNone(ms, recips, msg, answers, compress);
    } else {
      NobodyMissed(ms, recips, k - 1, msg, answers, compress);
      FanOutEffect(ms, recips, k - 1, msg, answers, compress);
      FanOutNext(ms, recips, k, msg, answers, compress);
      NextServed(ms, recips, k - 1, msg, answers, compress, FanOut(ms, recips, k - 1, msg, answers, compress));
    }
  }

  lemma NextDisjoint(ms: Members, recips: seq<ConnId>, k: nat, msg: Message, a: Answer, compress: Compressor, f: Fan)
    requires k < |recips| && Within(ms, recips) && Distinct(recips)
    requires FanOutOnAll(ms, recips[..k], f) && f.sent !! f.lost
    ensures FanStep(f, recips[k], msg, a, compress).sent !! FanStep(f, recips[k], msg, a, compress).lost
  {
    hide FanStep;
    assert recips[k] !in recips[..k];
    assert FanOutOn(ms, recips[..k], f, recips[k]);
    FanStepServes(f, recips[k], msg, a, compress);
  }

  /** In an audience that lists nobody twice, nobody both gets a frame and loses it. */
  lemma {:induction false} SentOrLost(ms: Members, recips: seq<ConnId>, k: nat, msg: Message, answers: Answers,
                                      compress: Compressor)
    requires k <= |recips| && Within(ms, recips)
    requires Distinct(recips)
    ensures FanOut(ms, recips, k, msg, answers, compress).sent !! FanOut(ms, recips, k, msg, answers, compress).lost
  {
    hide *;
    if k == 0 {
      FanOutNone(ms, recips, msg, answers, compress);
    } else {
      SentOrLost(ms, recips, k - 1, msg, answers, compress);
      FanOutEffect(ms, recips, k - 1, msg, answers, compress);
      FanOutNext(ms, recips, k, msg, answers, compress);
      NextDisjoint(ms, recips, k - 1, msg, answers(k - 1), compress, FanOut(ms, recips, k - 1, msg, answers, compress));
    }
  }

  /**
   * A queue fed only at its end, with replies and copies of `frame`, some of it since taken from the front: `tail` is
   * what was added and `taken` how much has left. While the writer runs no close has left.
   */
  predicate FedBy(before: seq<Outbound>, n: Member, frame: Outbound, sent: bool, tail: seq<Outbound>, taken: nat) {
    && taken <= |before + tail|
    && n.out == (before + tail)[taken..]
    && (forall i | 0 <= i < |tail| :: tail[i] == frame || tail[i] == Reply)
    && (sent ==> frame in tail)
    && (frame in tail ==> sent)
    && (n.writerGone || Close !in (before + tail)[..taken])
  }

  ghost predicate Fed(before: seq<Outbound>, n: Member, frame: Outbound, sent: bool) {
    exists tail: seq<Outbound>, taken: nat :: FedBy(before, n, frame, sent, tail, taken)
  }

  lemma MovedOneFeeds(before: seq<Outbound>, n: Member, frame: Outbound, sent: bool, x: Motion)
    requires Fed(before, n, frame, sent) && frame.Frame?
    ensures Fed(before, MovedOne(n, x), frame, sent)
  {
    var tail: seq<Outbound>, taken: nat :| FedBy(before, n, frame, sent, tail, taken);
    var m := MovedOne(n, x);
    if x.Responds? && CanMove(n, x) {
      var longer := tail + [Reply];
      assert before + longer == (before + tail) + [Reply];
      assert FedBy(before, m, frame, sent, longer, taken);
    } else if x.Takes? && CanMove(n, x) {
      assert (before + tail)[..taken + 1] == (before + tail)[..taken] + [n.out[0]];
      assert FedBy(before, m, frame, sent, tail, taken + 1);
    } else {
      assert FedBy(before, m, frame, sent, tail, taken);
    }
  }

  lemma {:induction false} MeanwhileFeeds(before: seq<Outbound>, ms: Members, c: ConnId, frame: Outbound, sent: bool,
                                          xs: seq<Motion>)
    requires c in ms && Fed(before, ms[c], frame, sent) && frame.Frame?
    ensures Fed(before, Meanwhile(ms, xs)[c], frame, sent)
    decreases |xs|
  {
    if xs != [] {
      MeanwhileFeeds(before, ms, c, frame, sent, xs[..|xs| - 1]);
      var mid := Meanwhile(ms, xs[..|xs| - 1]);
      hide Fed, MovedOne;
      if Last(xs).conn == c {
        MovedOneFeeds(before, mid[c], frame, sent, Last(xs));
      }
    }
  }

  lemma DeliveryFeeds(before: seq<Outbound>, n: Member, frame: Outbound, sent: bool)
    requires Fed(before, n, frame, sent) && frame.Frame?
    ensures Fed(before, n.(out := n.out + [frame]), frame, true)
  {
    var tail: seq<Outbound>, taken: nat :| FedBy(before, n, frame, sent, tail, taken);
    var longer := tail + [frame];
    assert before + longer == (before + tail) + [frame];
    assert longer[|tail|] == frame;
    assert FedBy(before, n.(out := n.out + [frame]), frame, true, longer, taken);
  }

  /** Every member's writer queue is fed by its own variant of this frame, at the end, exactly if it was sent. */
  ghost predicate OutQueued(ms: Members, f: Fan, msg: Message, compress: Compressor) {
    forall c | c in ms && c in f.members :: FedOne(ms[c], f.members[c], msg, compress, c in f.sent)
  }

  ghost predicate FedOne(m: Member, n: Member, msg: Message, compress: Compressor, sent: bool) {
    n.deflate == m.deflate && Fed(m.out, n, Frame(msg.id, Variant(m, msg, compress)), sent)
  }

  lemma DeliverExtends(m: Member, msg: Message, bytes: Bytes, a: Answer)
    ensures var (n, d) := Deliver(m, msg, bytes, a);
      && n == m.(out := n.out)
      && n.out == (if d.Sent? then m.out + [Frame(msg.id, bytes)] else m.out)
      && (d.Sent? ==> |n.out| <= m.capacity)
  {
  }

  lemma HandToFeeds(ms: Members, f: Fan, c: ConnId, msg: Message, a: Answer, compress: Compressor, d: ConnId)
    requires c in f.members && d in ms && d in f.members && FedOne(ms[d], f.members[d], msg, compress, d in f.sent)
    ensures var g := HandTo(f, c, msg, a, compress); FedOne(ms[d], g.members[d], msg, compress, d in g.sent)
  {
    if d == c {
      var bytes := Variant(f.members[c], msg, compress);
      DeliverExtends(f.members[c], msg, bytes, a);
      assert bytes == Variant(ms[c], msg, compress);
      DeliveryFeeds(ms[c].out, f.members[c], Frame(msg.id, bytes), c in f.sent);
    }
    hide Deliver, Filtered, Variant, Fed;
  }

  lemma NextQueues(ms: Members, recips: seq<ConnId>, k: nat, f: Fan, msg: Message, a: Answer, compress: Compressor)
    requires k < |recips| && Within(ms, recips) && f.members.Keys == ms.Keys && OutQueued(ms, f, msg, compress)
    ensures OutQueued(ms, FanStep(f, recips[k], msg, a, compress), msg, compress)
  {
    assert recips[k] in f.members.Keys;
    var mid := f.(members := Meanwhile(f.members, a.motions));
    var g := FanStep(f, recips[k], msg, a, compress);
    hide HandTo, Meanwhile, Fed, Variant;
    forall d | d in ms && d in g.members ensures FedOne(ms[d], g.members[d], msg, compress, d in g.sent) {
      assert d in f.members.Keys;
      assert FedOne(ms[d], f.members[d], msg, compress, d in f.sent);
      MeanwhileEvolves(f.members, a.motions, d);
      MeanwhileFeeds(ms[d].out, f.members, d, Frame(msg.id, Variant(ms[d], msg, compress)), d in f.sent, a.motions);
      HandToFeeds(ms, mid, recips[k], msg, a, compress, d);
    }
  }

  lemma QueuedNone(ms: Members, msg: Message, compress: Compressor)
    ensures OutQueued(ms, Fan(ms, [], [], {}, {}), msg, compress)
  {
    forall c | c in ms ensures FedOne(ms[c], ms[c], msg, compress, false) {
      assert ms[c].out + [] == ms[c].out;
      assert FedBy(ms[c].out, ms[c], Frame(msg.id, Variant(ms[c], msg, compress)), false, [], 0);
    }
  }

  lemma {:induction false} FanOutQueues(ms: Members, recips: seq<ConnId>, k: nat, msg: Message, answers: Answers,
                                        compress: Compressor)
    requires k <= |recips| && Within(ms, recips)
    ensures OutQueued(ms, FanOut(ms, recips, k, msg, answers, compress), msg, compress)
    decreases k
  {
    hide *;
    if k == 0 {
      FanOutNone(ms, recips, msg, answers, compress);
      QueuedNone(ms, msg, compress);
    } else {
      FanOutQueues(ms, recips, k - 1, msg, answers, compress);
      FanOutNext(ms, recips, k, msg, answers, compress);
      NextQueues(ms, recips, k - 1, FanOut(ms, recips, k - 1, msg, answers, compress), msg, answers(k - 1), compress);
    }
  }

  /** What a frame message does to the writers' queues: marking touches none of them. */
  lemma TransmitQueues(s: ShardState, msg: ShardMsg, recips: seq<ConnId>, answers: Answers, compress: Compressor)
    requires Addressed(s, msg, recips)
    ensures
      var f := FanFor(s, msg, recips, answers, compress);
      var t := Transmit(s, msg, recips, answers, compress);
      forall c | c in s.members :: c in t.members && FedOne(s.members[c], t.members[c], msg.msg, compress, c in f.sent)
  {
    AddressedMembers(s, msg, recips);
    FanOutQueues(s.members, recips, |recips|, msg.msg, answers, compress);
    FanOutEffect(s.members, recips, |recips|, msg.msg, answers, compress);
    var f := FanFor(s, msg, recips, answers, compress);
    hide FanOut, Addressed, Variant, Fed, FanOutOn;
    MarkedQueues(f);
    forall c | c in s.members ensures FedOne(s.members[c], Marked(f)[c], msg.msg, compress, c in f.sent) {
      assert FedOne(s.members[c], f.members[c], msg.msg, compress, c in f.sent);
      FedAlike(s.members[c].out, f.members[c], Marked(f)[c],
               Frame(msg.msg.id, Variant(s.members[c], msg.msg, compress)), c in f.sent);
    }
    hide Marked;
  }

  lemma FedAlike(before: seq<Outbound>, n: Member, o: Member, frame: Outbound, sent: bool)
    requires Fed(before, n, frame, sent) && o.out == n.out && o.writerGone == n.writerGone
    ensures Fed(before, o, frame, sent)
  {
    var tail: seq<Outbound>, taken: nat :| FedBy(before, n, frame, sent, tail, taken);
    assert FedBy(before, o, frame, sent, tail, taken);
  }

  predicate SameQueue(m: Member, n: Member) {
    n.out == m.out && n.writerGone == m.writerGone && n.deflate == m.deflate
  }

  lemma MarkedQueues(f: Fan)
    ensures forall c | c in f.members ::
      SameQueue(f.members[c], Marked(f)[c])
  {
    MarkLaggedEffect(f.members, f.behind);
    MarkGoneEffect(MarkLagged(f.members, f.behind), f.gone);
    hide MarkLagged, MarkGone;
  }

  // When a frame is both sent and lost.

  predicate StandsTwice(cs: seq<ConnId>, c: ConnId) {
    exists i, j :: 0 <= i < j < |cs| && cs[i] == c && cs[j] == c
  }

  /** The writer can take the first `n` things queued without coming to a close, and then there is room. */
  predicate RoomAfter(m: Member, n: nat) {
    n <= |m.out| && |m.out| - n < m.capacity && Close !in m.out[..n]
  }

  /** A member a frame can still be queued for, perhaps once its writer has caught up. */
  ghost predicate CanStillTake(m: Member) {
    !m.lagged && !m.writerGone && exists n: nat :: RoomAfter(m, n)
  }

  /** When nothing queued is a close, any queue that can hold something at all. */
  lemma CanStillTakeUnclosed(m: Member)
    requires Close !in m.out
    ensures CanStillTake(m) <==> !m.lagged && !m.writerGone && m.capacity > 0
  {
    if m.capacity > 0 {
      assert RoomAfter(m, |m.out|);
    }
  }

  /** Sent means there could be room; sent and lost means listed twice. */
  ghost predicate Accounted(ms: Members, before: seq<ConnId>, f: Fan, c: ConnId)
    requires c in ms && c in f.members
  {
    && (c in f.sent ==> CanStillTake(ms[c]))
    && (c in f.sent && c in f.lost ==> StandsTwice(before, c))
    && (c in f.sent || c in f.lost ==> c in before)
  }

  lemma AccountedGrows(before: seq<ConnId>, d: ConnId, c: ConnId)
    ensures StandsTwice(before, c) ==> StandsTwice(before + [d], c)
    ensures c in before && d == c ==> StandsTwice(before + [d], c)
  {
    var after := before + [d];
    if StandsTwice(before, c) {
      var i, j :| 0 <= i < j < |before| && before[i] == c && before[j] == c;
      assert after[i] == c && after[j] == c;
    }
    if c in before && d == c {
      var i :| 0 <= i < |before| && before[i] == c;
      assert after[i] == c && after[|before|] == c;
    }
  }

  /** A running writer with room now could make room from the start: what it has taken so far is no close. */
  lemma RoomFromStart(m: Member, n: Member, frame: Outbound, sent: bool)
    requires Fed(m.out, n, frame, sent) && !n.writerGone && |n.out| < n.capacity == m.capacity
    requires !m.lagged && !m.writerGone
    ensures CanStillTake(m)
  {
    var tail: seq<Outbound>, taken: nat :| FedBy(m.out, n, frame, sent, tail, taken);
    var k := if taken <= |m.out| then taken else |m.out|;
    assert (m.out + tail)[..taken][..k] == m.out[..k];
    assert RoomAfter(m, k);
  }

  lemma HandToAccounted(ms: Members, before: seq<ConnId>, f: Fan, d: ConnId, msg: Message, a: Answer,
                        compress: Compressor, c: ConnId)
    requires c in ms && c in f.members && d in f.members && FanOutOn(ms, before, f, c) && Accounted(ms, before, f, c)
    requires FedOne(ms[c], f.members[c], msg, compress, c in f.sent)
    ensures Accounted(ms, before + [d], HandTo(f, d, msg, a, compress), c)
  {
    AccountedGrows(before, d, c);
    hide StandsTwice, CanStillTake;
    if d == c {
      var m := f.members[c];
      if !ms[c].lagged && !m.writerGone && |m.out| < m.capacity {
        assert ms[c].writerGone ==> m.writerGone;
        RoomFromStart(ms[c], m, Frame(msg.id, Variant(ms[c], msg, compress)), c in f.sent);
      }
      hide Fed, Variant, Filtered;
    } else {
      hide Deliver, Fed, Variant, Filtered;
    }
  }

  lemma NextAccounted(ms: Members, recips: seq<ConnId>, k: nat, f: Fan, msg: Message, a: Answer, compress: Compressor,
                      c: ConnId)
    requires k < |recips| && Within(ms, recips) && c in ms && FanOutOnAll(ms, recips[..k], f)
    requires Accounted(ms, recips[..k], f, c)
    requires OutQueued(ms, f, msg, compress)
    ensures Accounted(ms, recips[..k + 1], FanStep(f, recips[k], msg, a, compress), c)
  {
    assert recips[..k + 1] == recips[..k] + [recips[k]];
    assert c in f.members.Keys && recips[k] in f.members.Keys;
    var mid := f.(members := Meanwhile(f.members, a.motions));
    assert FanOutOn(ms, recips[..k], f, c);
    MeanwhileKeepsFanOutOn(ms, recips[..k], f, a.motions, c);
    MeanwhileEvolves(f.members, a.motions, c);
    assert FedOne(ms[c], f.members[c], msg, compress, c in f.sent);
    MeanwhileFeeds(ms[c].out, f.members, c, Frame(msg.id, Variant(ms[c], msg, compress)), c in f.sent, a.motions);
    hide HandTo, Meanwhile, Fed, Variant, FanOutOn, CanStillTake, StandsTwice;
    HandToAccounted(ms, recips[..k], mid, recips[k], msg, a, compress, c);
  }

  lemma {:induction false} FanOutAccounted(ms: Members, recips: seq<ConnId>, k: nat, msg: Message, answers: Answers,
                                           compress: Compressor, c: ConnId)
    requires k <= |recips| && Within(ms, recips) && c in ms
    ensures Accounted(ms, recips[..k], FanOut(ms, recips, k, msg, answers, compress), c)
    decreases k
  {
    hide *;
    if k == 0 {
      FanOutNone(ms, recips, msg, answers, compress);
      AccountedNone(ms, recips, c);
    } else {
      FanOutAccounted(ms, recips, k - 1, msg, answers, compress, c);
      FanOutEffect(ms, recips, k - 1, msg, answers, compress);
      FanOutQueues(ms, recips, k - 1, msg, answers, compress);
      FanOutNext(ms, recips, k, msg, answers, compress);
      NextAccounted(ms, recips, k - 1, FanOut(ms, recips, k - 1, msg, answers, compress), msg, answers(k - 1), compress,
                    c);
    }
  }

  lemma AccountedNone(ms: Members, recips: seq<ConnId>, c: ConnId)
    requires c in ms
    ensures Accounted(ms, recips[..0], Fan(ms, [], [], {}, {}), c)
  {
  }

  /** The writer of `c` takes `n` things. */
  function TakesOf(c: ConnId, n: nat): (xs: seq<Motion>)
    ensures |xs| == n
  {
    if n == 0 then [] else TakesOf(c, n - 1) + [Takes(c)]
  }

  lemma {:induction false} TakesRun(ms: Members, c: ConnId, n: nat)
    requires c in ms && !ms[c].writerGone && n <= |ms[c].out| && Close !in ms[c].out[..n]
    ensures Meanwhile(ms, TakesOf(c, n)) == ms[c := ms[c].(out := ms[c].out[n..])]
    decreases n
  {
    var m := ms[c];
    if n == 0 {
      assert m.out[0..] == m.out && ms[c := m.(out := m.out)] == ms;
    } else {
      assert m.out[..n] == m.out[..n - 1] + [m.out[n - 1]];
      TakesRun(ms, c, n - 1);
      var xs := TakesOf(c, n - 1);
      assert (xs + [Takes(c)])[..|xs|] == xs;
      TakeOne(ms, c, n - 1);
      hide MovedOne, Moved;
    }
  }

  lemma TakeOne(ms: Members, c: ConnId, n: nat)
    requires c in ms && !ms[c].writerGone && n < |ms[c].out| && ms[c].out[n] != Close
    ensures Moved(ms[c := ms[c].(out := ms[c].out[n..])], Takes(c)) == ms[c := ms[c].(out := ms[c].out[n + 1..])]
  {
    assert ms[c].out[n..][1..] == ms[c].out[n + 1..];
  }

  /** The budget refuses at every place but one, and before that one the writer of `c` takes `n` things. */
  function RefusedBut(j: nat, c: ConnId, n: nat): Answers {
    (i: nat) => if i == j then Answer(false, false, TakesOf(c, n)) else Answer(false, true, [])
  }

  /** Nothing is sent yet, and whoever is listed so far has lost the frame. */
  predicate AllRefused(ms: Members, recips: seq<ConnId>, k: nat, f: Fan) {
    k <= |recips| && f.sent == {} && f.members == ms && forall i | 0 <= i < k :: recips[i] in f.lost
  }

  lemma NextRefused(ms: Members, recips: seq<ConnId>, k: nat, f: Fan, msg: Message, compress: Compressor)
    requires AllRefused(ms, recips, k, f) && k < |recips| && Within(ms, recips)
    ensures AllRefused(ms, recips, k + 1, FanStep(f, recips[k], msg, Answer(false, true, []), compress))
  {
    var a := Answer(false, true, []);
    assert Meanwhile(f.members, []) == f.members;
    HandToServes(f, recips[k], msg, a, compress);
    hide Variant;
    assert ms[recips[k] := ms[recips[k]]] == ms;
  }

  lemma AllRefusedNone(ms: Members, recips: seq<ConnId>)
    ensures AllRefused(ms, recips, 0, Fan(ms, [], [], {}, {}))
  {
  }

  lemma {:induction false} RefusedUntil(ms: Members, recips: seq<ConnId>, k: nat, j: nat, c: ConnId, n: nat,
                                        msg: Message, compress: Compressor)
    requires k <= j < |recips| && Within(ms, recips)
    ensures AllRefused(ms, recips, k, FanOut(ms, recips, k, msg, RefusedBut(j, c, n), compress))
    decreases k
  {
    hide *;
    if k == 0 {
      FanOutNone(ms, recips, msg, RefusedBut(j, c, n), compress);
      AllRefusedNone(ms, recips);
    } else {
      RefusedUntil(ms, recips, k - 1, j, c, n, msg, compress);
      FanOutNext(ms, recips, k, msg, RefusedBut(j, c, n), compress);
      RefusedAt(j, c, n, k - 1);
      NextRefused(ms, recips, k - 1, FanOut(ms, recips, k - 1, msg, RefusedBut(j, c, n), compress), msg, compress);
    }
  }

  lemma RefusedAt(j: nat, c: ConnId, n: nat, i: nat)
    ensures RefusedBut(j, c, n)(i) == if i == j then Answer(false, false, TakesOf(c, n)) else Answer(false, true, [])
  {
  }

  lemma {:induction false} FanOutOnlyAdds(ms: Members, recips: seq<ConnId>, k: nat, n: nat, msg: Message,
                                          answers: Answers, compress: Compressor)
    requires k <= n <= |recips| && Within(ms, recips)
    ensures FanOut(ms, recips, k, msg, answers, compress).sent <= FanOut(ms, recips, n, msg, answers, compress).sent
    ensures FanOut(ms, recips, k, msg, answers, compress).lost <= FanOut(ms, recips, n, msg, answers, compress).lost
    decreases n
  {
    hide *;
    if k < n {
      FanOutOnlyAdds(ms, recips, k, n - 1, msg, answers, compress);
      FanOutNext(ms, recips, n, msg, answers, compress);
      ListedIsMember(ms, recips, n - 1);
      FanStepServes(FanOut(ms, recips, n - 1, msg, answers, compress), recips[n - 1], msg, answers(n - 1), compress);
    }
  }

  lemma ListedIsMember(ms: Members, recips: seq<ConnId>, k: nat)
    requires k < |recips| && Within(ms, recips)
    ensures recips[k] in ms
  {
  }

  lemma LastCopySent(ms: Members, recips: seq<ConnId>, i: nat, j: nat, n: nat, f: Fan, msg: Message,
                     compress: Compressor)
    requires i < j < |recips| && Within(ms, recips) && recips[i] == recips[j]
    requires !ms[recips[j]].lagged && !ms[recips[j]].writerGone && RoomAfter(ms[recips[j]], n)
    requires AllRefused(ms, recips, j, f)
    ensures var g := FanStep(f, recips[j], msg, Answer(false, false, TakesOf(recips[j], n)), compress);
      recips[j] in g.sent && recips[j] in g.lost
  {
    TakesRun(ms, recips[j], n);
    hide Meanwhile, Variant;
  }

  /**
   * Refused everywhere but its second place, a member whose writer has caught up there is sent the frame after losing
   * it.
   */
  lemma SecondCopySent(ms: Members, recips: seq<ConnId>, i: nat, j: nat, n: nat, msg: Message, compress: Compressor)
    requires i < j < |recips| && Within(ms, recips) && recips[i] == recips[j] && recips[j] in ms
    requires !ms[recips[j]].lagged && !ms[recips[j]].writerGone && RoomAfter(ms[recips[j]], n)
    ensures var f := FanOut(ms, recips, |recips|, msg, RefusedBut(j, recips[j], n), compress);
      recips[j] in f.sent && recips[j] in f.lost
  {
    hide *;
    var c := recips[j];
    RefusedUntil(ms, recips, j, j, c, n, msg, compress);
    FanOutNext(ms, recips, j + 1, msg, RefusedBut(j, c, n), compress);
    FanOutOnlyAdds(ms, recips, j + 1, |recips|, msg, RefusedBut(j, c, n), compress);
    RefusedAt(j, c, n, j);
    LastCopySent(ms, recips, i, j, n, FanOut(ms, recips, j, msg, RefusedBut(j, c, n), compress), msg, compress);
  }

  predicate SentAfterLosing(f: Fan, c: ConnId) {
    c in f.sent && c in f.lost
  }

  /** Budget, filters and writers can have a frame both sent to `c` and lost for it. */
  ghost predicate MaySendAfterLosing(ms: Members, recips: seq<ConnId>, msg: Message, compress: Compressor, c: ConnId)
    requires Within(ms, recips)
  {
    exists answers: Answers ::
      SentAfterLosing(FanOut(ms, recips, |recips|, msg, answers, compress), c)
  }

  /**
   * They can exactly when the list names `c` at two places, and `c` is not lagged, its writer runs, and the writer
   * could make room in its queue, if there is none, before coming to a close.
   */
  lemma RepeatedExactly(ms: Members, recips: seq<ConnId>, msg: Message, compress: Compressor, c: ConnId)
    requires Within(ms, recips) && c in ms
    ensures MaySendAfterLosing(ms, recips, msg, compress, c) <==> StandsTwice(recips, c) && CanStillTake(ms[c])
  {
    if MaySendAfterLosing(ms, recips, msg, compress, c) {
      var answers: Answers :|
        SentAfterLosing(FanOut(ms, recips, |recips|, msg, answers, compress), c);
      FanOutAccounted(ms, recips, |recips|, msg, answers, compress, c);
      assert recips[..|recips|] == recips;
    }
    if StandsTwice(recips, c) && CanStillTake(ms[c]) {
      var i, j :| 0 <= i < j < |recips| && recips[i] == c && recips[j] == c;
      var n: nat :| RoomAfter(ms[c], n);
      SecondCopySent(ms, recips, i, j, n, msg, compress);
      assert SentAfterLosing(FanOut(ms, recips, |recips|, msg, RefusedBut(j, c, n), compress), c);
    }
  }

  /** One such list: the queue is full at first, its writer has emptied it by the second copy, the first was refused. */
  lemma RepeatedRecipient(bytes: Bytes, compress: Compressor)
    ensures
      var ms: Members := map[7 := NewMember(1, None, false).(out := [Reply])];
      var f := FanOut(ms, [7, 7], 2, Message(5, bytes, false), RefusedBut(1, 7, 1), compress);
      7 in f.sent && 7 in f.lost
  {
    SecondCopySent(map[7 := NewMember(1, None, false).(out := [Reply])], [7, 7], 0, 1, 1, Message(5, bytes, false),
                   compress);
  }
}
