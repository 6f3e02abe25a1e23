/** What each control message and each frame brings about, told of the messages themselves. */
module ShardEffects {
  import opened Common
  import opened Shard
  import opened ShardFacts
  import opened ShardRuns

  /** Only the member `c` may differ, and the sweep mark and the index do not. */
  predicate OnlyMember(s: ShardState, t: ShardState, c: ConnId) {
    && t.members.Keys == s.members.Keys && t.bySlot == s.bySlot && t.swept == s.swept
    && forall d | d in s.members && d != c :: t.members[d] == s.members[d]
  }

  /** A member as before but for its queue, or the signal that stands in for a close. */
  predicate Closing(m: Member, n: Member) {
    && n == m.(out := n.out, closeSignal := n.closeSignal)
    && (if m.writerGone || |m.out| >= m.capacity then n.out == m.out && n.closeSignal
        else n.out == m.out + [Close] && n.closeSignal == m.closeSignal)
  }

  /** A kick reaches its connection, behind what is queued or out of band, and touches nobody else. */
  lemma KickArrives(s: ShardState, c: ConnId)
    ensures var t := Control(s, CloseConn(c));
      && OnlyMember(s, t, c)
      && (c in s.members ==> c in t.members.Keys && Closing(s.members[c], t.members[c]))
      && (c !in s.members ==> t == s)
  {
  }

  /** Whose frame was dropped is marked and closed, once, and nobody else. */
  lemma DesyncArrives(s: ShardState, c: ConnId)
    ensures var t := Control(s, DesyncedOne(c));
      && OnlyMember(s, t, c)
      && (c in s.members && s.members[c].lagged ==> t == s)
      && (c in s.members && !s.members[c].lagged ==>
            && c in t.members.Keys
            && t.members[c].lagged && t.members[c].closes == s.members[c].closes + 1
            && Closing(s.members[c].(lagged := true, closes := s.members[c].closes + 1), t.members[c]))
      && (c !in s.members ==> t == s)
  {
  }

  /** A lost broadcast does as much to every member, unless everyone here has been through it already. */
  lemma SweepArrives(s: ShardState, c: ConnId)
    requires c in s.members && !s.swept
    ensures var t := Control(s, DesyncedAll);
      && t.swept && t.members.Keys == s.members.Keys && t.bySlot == s.bySlot && c in t.members
      && t.members[c] == Control(s, DesyncedOne(c)).members[c]
  {
  }

  /**
   * A new member starts with an empty queue, hears only what is addressed to it by name, nothing is filtered for it,
   * and a later lost broadcast will not pass it by; everyone else is as before.
   */
  lemma AddArrives(s: ShardState, c: ConnId, capacity: nat, deflate: Option<nat>, scoped: bool, to: Recipients)
    ensures var t := Control(s, Add(c, capacity, deflate, scoped));
      && t.members.Keys == s.members.Keys + {c} && !t.swept && t.bySlot == s.bySlot
      && (forall d | d in s.members && d != c :: t.members[d] == s.members[d])
      && c in t.members
      && var m := t.members[c];
         && m.out == [] && m.capacity == capacity && m.deflate == deflate && m.scoped == scoped
         && !m.writerGone && !m.closeSignal && !m.lagged && m.closes == 0 && m.filter.None?
         && (Wanted(to, c, m) <==> to.These? && c in to.list)
  {
  }

  /** A member removed is gone, from the table and the index; everyone else is as before. */
  lemma RemoveArrives(s: ShardState, c: ConnId, key: Slot)
    requires IndexOk(s)
    ensures var t := Control(s, Remove(c));
      && t.members == s.members - {c} && t.swept == s.swept
      && c !in Indexed(t, key)
      && (forall d: ConnId | d != c :: d in Indexed(t, key) <==> d in Indexed(s, key))
  {
    ControlKeepsIndex(s, Remove(c));
    var t := Control(s, Remove(c));
    assert t.members == s.members - {c};
    forall d: ConnId | d != c ensures d in Indexed(t, key) <==> d in Indexed(s, key) {
      assert d in t.members <==> d in s.members;
      assert d in Indexed(t, key) <==> d in t.members && t.members[d].slot == Some(key);
    }
    assert c !in t.members;
    hide Control, Indexed;
  }

  /** A filter is stored, or taken away, for that member alone. */
  lemma FilterArrives(s: ShardState, c: ConnId, filter: Option<nat>)
    ensures var t := Control(s, SetFilter(c, filter));
      && OnlyMember(s, t, c)
      && (c in s.members ==> c in t.members.Keys && t.members[c] == s.members[c].(filter := filter))
      && (c !in s.members ==> t == s)
  {
  }

  /** A new standing is stored for that member alone. */
  lemma UpdateArrives(s: ShardState, c: ConnId, auth: bool, noText: bool, slot: Option<Slot>)
    ensures var t := Control(s, Update(c, auth, noText, slot));
      && t.members.Keys == s.members.Keys && t.swept == s.swept
      && (forall d | d in s.members && d != c :: t.members[d] == s.members[d])
      && (c in s.members ==>
            c in t.members.Keys && t.members[c] == s.members[c].(auth := auth, noText := noText, slot := slot))
      && (c !in s.members ==> t == s)
  {
  }

  /** What a member without a negotiated window takes: the bytes as they came; with one, compressed for that window. */
  function BytesFor(m: Member, payload: Bytes, compress: Compressor): Bytes {
    if m.deflate.Some? then compress(payload, m.deflate.value) else payload
  }

  /**
   * A frame message feeds each queue at its end, exactly if the member was sent it, with the frame under its own number
   * and in the bytes that member takes.
   */
  lemma TransmitBytes(s: ShardState, msg: ShardMsg, recips: seq<ConnId>, answers: Answers, compress: Compressor,
                      c: ConnId)
    requires Addressed(s, msg, recips) && c in s.members
    ensures var t := Transmit(s, msg, recips, answers, compress);
      && c in t.members
      && Fed(s.members[c].out, t.members[c],
             Frame(msg.msg.id, BytesFor(s.members[c], msg.msg.payload, compress)),
             c in FanFor(s, msg, recips, answers, compress).sent)
  {
    TransmitQueues(s, msg, recips, answers, compress);
    hide Addressed, FanFor, Transmit, Fed;
    assert FedOne(s.members[c], Transmit(s, msg, recips, answers, compress).members[c], msg.msg, compress,
                  c in FanFor(s, msg, recips, answers, compress).sent);
  }

  /** A rule drops the frame for `c` wherever it is listed among the first `k`. */
  predicate DroppedThroughout(ms: Members, recips: seq<ConnId>, k: nat, msg: Message, answers: Answers, c: ConnId)
    requires k <= |recips| && c in ms
  {
    && ms[c].filter.Some? && ms[c].slot.Some? && msg.tagged && !ms[c].lagged
    && forall i | 0 <= i < k && recips[i] == c :: answers(i).drops
  }

  lemma HandToOthers(f: Fan, c: ConnId, msg: Message, a: Answer, compress: Compressor, d: ConnId)
    requires c in f.members && d in f.members && d !in f.sent && d !in f.lost
    requires d == c ==> !f.members[c].lagged && Filtered(f.members[c], msg, a)
    ensures var g := HandTo(f, c, msg, a, compress); d !in g.sent && d !in g.lost
  {
    hide Filtered, Deliver;
  }

  lemma StillDropped(ms: Members, before: seq<ConnId>, f: Fan, c: ConnId, msg: Message, a: Answer)
    requires FanOutOnAll(ms, before, f) && c in ms && a.drops
    requires ms[c].filter.Some? && ms[c].slot.Some? && msg.tagged && !ms[c].lagged
    ensures c in f.members
    ensures !Meanwhile(f.members, a.motions)[c].lagged && Filtered(Meanwhile(f.members, a.motions)[c], msg, a)
  {
    assert FanOutOn(ms, before, f, c);
    MeanwhileEvolves(f.members, a.motions, c);
    hide Meanwhile, KeepsClose;
  }

  lemma NextDropped(ms: Members, before: seq<ConnId>, f: Fan, d: ConnId, msg: Message, a: Answer, compress: Compressor,
                    c: ConnId)
    requires FanOutOnAll(ms, before, f) && c in ms && d in ms && (d == c ==> a.drops)
    requires ms[c].filter.Some? && ms[c].slot.Some? && msg.tagged && !ms[c].lagged
    requires c !in f.sent && c !in f.lost
    ensures d in f.members
    ensures var g := FanStep(f, d, msg, a, compress); c !in g.sent && c !in g.lost
  {
    assert c in f.members.Keys && d in f.members.Keys;
    hide HandTo, Meanwhile, Filtered, FanOutOn;
    if d == c {
      StillDropped(ms, before, f, c, msg, a);
    }
    HandToOthers(f.(members := Meanwhile(f.members, a.motions)), d, msg, a, compress, c);
  }

  /** Whoever a rule spares the frame is neither sent it nor counted as having lost it. */
  lemma {:induction false} DroppedIsSpared(ms: Members, recips: seq<ConnId>, k: nat, msg: Message, answers: Answers,
                                           compress: Compressor, c: ConnId)
    requires k <= |recips| && Within(ms, recips) && c in ms && DroppedThroughout(ms, recips, k, msg, answers, c)
    ensures var f := FanOut(ms, recips, k, msg, answers, compress); c !in f.sent && c !in f.lost
  {
    hide FanStep, FanOutOnAll;
    if k > 0 {
      DroppedIsSpared(ms, recips, k - 1, msg, answers, compress, c);
      FanOutEffect(ms, recips, k - 1, msg, answers, compress);
      NextDropped(ms, recips[..k - 1], FanOut(ms, recips, k - 1, msg, answers, compress), recips[k - 1], msg,
                  answers(k - 1), compress, c);
    }
  }
}
