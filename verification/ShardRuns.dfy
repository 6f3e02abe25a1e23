/** One shard over every run: its audiences, its sweeps, and the closes it owes. */
module ShardRuns {
  import opened Common
  import opened Shard
  import opened ShardFacts

  // Audiences.

  /** However an audience is listed, it is the members a scan of the whole table would choose. */
  lemma AudienceIsScan(s: ShardState, to: Recipients, recips: seq<ConnId>)
    requires IndexOk(s) && IsAudience(s, to, recips)
    ensures forall c: ConnId :: c in recips <==> c in s.members && Wanted(to, c, s.members[c])
    ensures (to.These? ==> Distinct(to.list)) ==> Distinct(recips)
  {
    match to
    case SlotAll(key) => IndexedAudience(s, key, to, recips);
    case SlotText(key) => IndexedAudience(s, key, to, recips);
    case SlotScopedText(key) => IndexedAudience(s, key, to, recips);
    case These(list) => PickAll(s, list, to, recips);
    case _ =>
  }

  lemma IndexedAudience(s: ShardState, key: Slot, to: Recipients, recips: seq<ConnId>)
    requires IndexOk(s) && recips == Pick(s, Indexed(s, key), to)
    requires to == SlotAll(key) || to == SlotText(key) || to == SlotScopedText(key)
    ensures forall c: ConnId :: c in recips <==> c in s.members && Wanted(to, c, s.members[c])
    ensures Distinct(recips)
  {
    PickAll(s, Indexed(s, key), to, recips);
    forall c: ConnId ensures c in recips <==> c in s.members && Wanted(to, c, s.members[c]) {
      assert c in Indexed(s, key) <==> c in s.members && s.members[c].slot == Some(key);
    }
  }

  /**
   * Once an update is handled, the member hears exactly what its new standing entitles it to, by every kind of
   * audience.
   */
  lemma UpdateDecidesAudiences(s: ShardState, c: ConnId, auth: bool, noText: bool, slot: Option<Slot>, to: Recipients,
                               recips: seq<ConnId>)
    requires IndexOk(s) && c in s.members && IsAudience(Control(s, Update(c, auth, noText, slot)), to, recips)
    ensures to.All? ==> (c in recips <==> auth)
    ensures to.AllText? ==> (c in recips <==> auth && !noText)
    ensures to.SlotAll? ==> (c in recips <==> slot == Some(to.key))
    ensures to.SlotText? ==> (c in recips <==> slot == Some(to.key) && !noText)
    ensures to.AllTextAbout? ==> (c in recips <==> auth && !noText && (s.members[c].scoped ==> slot == Some(to.key)))
    ensures to.AllTextFull? ==> (c in recips <==> auth && !noText && !s.members[c].scoped)
    ensures to.SlotScopedText? ==> (c in recips <==> slot == Some(to.key) && !noText && s.members[c].scoped)
  {
    ControlKeepsIndex(s, Update(c, auth, noText, slot));
    AudienceIsScan(Control(s, Update(c, auth, noText, slot)), to, recips);
    hide IsAudience, IndexOk, Enlist, Unlist;
  }

  /** The members a message about `key` must not miss: scoped text clients of that slot that are not authenticated. */
  predicate SlotImpliesAuth(s: ShardState, key: Slot) {
    forall c | c in s.members && s.members[c].slot == Some(key) && s.members[c].scoped && !s.members[c].noText ::
      s.members[c].auth
  }

  /**
   * Sending to everyone unscoped and, separately, to the scoped clients of one slot reaches nobody twice, and reaches
   * exactly the audience of the combined message precisely when holding the slot implies being authenticated.
   */
  lemma AboutSplits(s: ShardState, key: Slot, full: seq<ConnId>, scoped: seq<ConnId>, about: seq<ConnId>)
    requires IndexOk(s)
    requires IsAudience(s, AllTextFull, full) && IsAudience(s, SlotScopedText(key), scoped)
    requires IsAudience(s, AllTextAbout(key), about)
    ensures forall c: ConnId :: !(c in full && c in scoped)
    ensures (forall c: ConnId :: c in about <==> c in full || c in scoped) <==> SlotImpliesAuth(s, key)
  {
    AudienceIsScan(s, AllTextFull, full);
    AudienceIsScan(s, SlotScopedText(key), scoped);
    AudienceIsScan(s, AllTextAbout(key), about);
    if forall c: ConnId :: c in about <==> c in full || c in scoped {
      forall c | c in s.members && s.members[c].slot == Some(key) && s.members[c].scoped && !s.members[c].noText
        ensures s.members[c].auth
      {
        assert c in scoped;
        assert c in about;
      }
    }
  }

  // Runs.

  /** A message to the shard, or something a member's writer or reader does. */
  datatype Event =
    | Ctl(msg: ShardMsg)
    | Frames(msg: ShardMsg, recips: seq<ConnId>, answers: Answers)
    | Act(motion: Motion)

  ghost predicate Enabled(s: ShardState, e: Event) {
    match e
    case Ctl(msg) => IsControl(msg) && Fresh(s, msg)
    case Frames(msg, recips, _) => Addressed(s, msg, recips)
    case Act(x) => x.conn in s.members && CanMove(s.members[x.conn], x)
  }

  ghost function After(s: ShardState, e: Event, compress: Compressor): ShardState
    requires Enabled(s, e)
  {
    match e
    case Ctl(msg) => Control(s, msg)
    case Frames(msg, recips, answers) => Transmit(s, msg, recips, answers, compress)
    case Act(x) => s.(members := Moved(s.members, x))
  }

  ghost function Run(es: seq<Event>, compress: Compressor): Option<ShardState> {
    if es == [] then Some(EMPTY)
    else
      match Run(es[..|es| - 1], compress)
      case None => None
      case Some(s) => if Enabled(s, Last(es)) then Some(After(s, Last(es), compress)) else None
  }

  /** The same shard without the debounce: every lost broadcast walks the whole membership. */
  ghost function AfterWalking(s: ShardState, e: Event, compress: Compressor): ShardState
    requires Enabled(s, e)
  {
    if e == Ctl(DesyncedAll) then s.(swept := true, members := Sweep(s.members)) else After(s, e, compress)
  }

  ghost function RunWalking(es: seq<Event>, compress: Compressor): Option<ShardState> {
    if es == [] then Some(EMPTY)
    else
      match RunWalking(es[..|es| - 1], compress)
      case None => None
      case Some(s) => if Enabled(s, Last(es)) then Some(AfterWalking(s, Last(es), compress)) else None
  }

  /** One member's books: at most one close for lagging, none before it lags, and a lagged one has an end in sight. */
  predicate BooksOk(m: Member) {
    && m.closes <= 1
    && (!m.lagged ==> m.closes == 0)
    && (m.lagged ==> m.closes == 1 || m.writerGone)
    && (m.lagged ==> m.writerGone || m.closeSignal || Close in m.out)
  }

  predicate AllBooksOk(s: ShardState) {
    forall c | c in s.members :: BooksOk(s.members[c])
  }

  predicate SweptMeansLagged(s: ShardState) {
    s.swept ==> forall c | c in s.members :: s.members[c].lagged
  }

  /** Whatever the queue holds, a closed member has its close queued or signalled, or its writer has already stopped. */
  lemma CloseArrives(m: Member)
    ensures var n := CloseMember(m); n.writerGone || n.closeSignal || Close in n.out
    ensures CloseMember(m).out[..|m.out|] == m.out
  {
    if !m.writerGone && |m.out| < m.capacity {
      assert Last(m.out + [Close]) == Close;
    }
  }

  lemma DesyncBooks(m: Member)
    requires BooksOk(m)
    ensures BooksOk(Desync(m)) && Desync(m).lagged
  {
    CloseArrives(m.(lagged := true));
  }

  lemma CloseBooks(m: Member)
    requires BooksOk(m)
    ensures BooksOk(CloseMember(m)) && CloseMember(m).lagged == m.lagged
  {
    CloseArrives(m);
  }

  lemma DrainBooks(m: Member)
    requires BooksOk(m) && !m.writerGone && m.out != []
    ensures BooksOk(Drained(m)) && Drained(m).lagged == m.lagged
  {
    assert m.out == [m.out[0]] + m.out[1..];
  }

  /** Whatever a control message, a writer or a reader does to a member is one of these. */
  predicate MemberMove(m: Member, n: Member) {
    || n == Desync(m)
    || n == CloseMember(m)
    || (m.out != [] && !m.writerGone && n == Drained(m))
    || (SameClosing(m, n) && n.out == m.out && (m.writerGone ==> n.writerGone))
    || (SameClosing(m, n) && n.out == m.out + [Reply] && n.writerGone == m.writerGone)
  }

  lemma DesyncOut(m: Member)
    ensures Desync(m).out == m.out || Desync(m).out == m.out + [Close]
    ensures CloseMember(m).out == m.out || CloseMember(m).out == m.out + [Close]
  {
  }

  predicate SameClosing(m: Member, n: Member) {
    n.closeSignal == m.closeSignal && n.lagged == m.lagged && n.closes == m.closes
  }

  lemma MemberMoveBooks(m: Member, n: Member)
    requires BooksOk(m) && MemberMove(m, n)
    ensures BooksOk(n) && (m.lagged ==> n.lagged)
  {
    if n == Desync(m) {
      DesyncBooks(m);
    } else if n == CloseMember(m) {
      CloseBooks(m);
    } else if m.out != [] && !m.writerGone && n == Drained(m) {
      DrainBooks(m);
    }
  }

  predicate NewOrMoved(s: ShardState, t: ShardState, c: ConnId)
    requires c in t.members
  {
    if c in s.members then MemberMove(s.members[c], t.members[c])
    else !t.members[c].lagged && t.members[c].closes == 0 && t.members[c].out == [] && !t.swept
  }

  lemma ControlMoves(s: ShardState, msg: ShardMsg, c: ConnId)
    requires IsControl(msg) && Fresh(s, msg) && c in Control(s, msg).members
    ensures NewOrMoved(s, Control(s, msg), c)
  {
  }

  lemma TransmitBooks(m: Member, n: Member, sent: bool, lost: bool)
    requires BooksOk(m) && TransmitOn(m, n, sent, lost)
    ensures BooksOk(n) && (m.lagged ==> n.lagged)
  {
  }

  // What holds throughout.

  ghost predicate ShardOk(s: ShardState) {
    IndexOk(s) && AllBooksOk(s) && SweptMeansLagged(s)
  }

  lemma MovesKeepBooks(s: ShardState, t: ShardState)
    requires AllBooksOk(s) && SweptMeansLagged(s) && (t.swept ==> s.swept)
    requires forall c | c in t.members :: NewOrMoved(s, t, c)
    ensures AllBooksOk(t) && SweptMeansLagged(t)
  {
    forall c | c in t.members ensures BooksOk(t.members[c]) && (t.swept ==> t.members[c].lagged) {
      assert NewOrMoved(s, t, c);
      if c in s.members {
        MemberMoveBooks(s.members[c], t.members[c]);
      }
    }
  }

  lemma SweepBooks(s: ShardState)
    requires AllBooksOk(s)
    ensures forall c | c in s.members :: BooksOk(Sweep(s.members)[c]) && Sweep(s.members)[c].lagged
  {
    hide BooksOk, Desync;
    forall c | c in s.members ensures BooksOk(Sweep(s.members)[c]) && Sweep(s.members)[c].lagged {
      DesyncBooks(s.members[c]);
    }
  }

  lemma ControlKeepsBooks(s: ShardState, msg: ShardMsg)
    requires IsControl(msg) && Fresh(s, msg) && AllBooksOk(s) && SweptMeansLagged(s)
    ensures AllBooksOk(Control(s, msg)) && SweptMeansLagged(Control(s, msg))
  {
    if msg == DesyncedAll {
      SweepBooks(s);
    } else {
      forall c | c in Control(s, msg).members ensures NewOrMoved(s, Control(s, msg), c) {
        ControlMoves(s, msg, c);
      }
      assert Control(s, msg).swept ==> s.swept by {
        hide Desync, CloseMember, NewOrMoved, AllBooksOk, SweptMeansLagged;
      }
      hide Control, NewOrMoved;
      MovesKeepBooks(s, Control(s, msg));
    }
  }

  lemma TransmitKeepsShardOk(s: ShardState, msg: ShardMsg, recips: seq<ConnId>, answers: Answers, compress: Compressor)
    requires Addressed(s, msg, recips) && ShardOk(s)
    ensures ShardOk(Transmit(s, msg, recips, answers, compress))
  {
    var f := FanFor(s, msg, recips, answers, compress);
    var t := Transmit(s, msg, recips, answers, compress);
    TransmitEffect(s, msg, recips, answers, compress);
    assert t.bySlot == s.bySlot && t.swept == s.swept;
    hide Transmit, FanFor, Addressed, BooksOk;
    SameSlotsKeepIndex(s, t) by {
      hide IndexOk;
    }
    forall c | c in t.members ensures BooksOk(t.members[c]) && (s.members[c].lagged ==> t.members[c].lagged) {
      assert c in s.members.Keys;
      assert TransmitOn(s.members[c], t.members[c], c in f.sent, c in f.lost);
      TransmitBooks(s.members[c], t.members[c], c in f.sent, c in f.lost);
    }
  }

  /** The books, the index and the meaning of `swept` survive every message and everything a writer does. */
  lemma EventKeepsShardOk(s: ShardState, e: Event, compress: Compressor)
    requires Enabled(s, e) && ShardOk(s)
    ensures ShardOk(After(s, e, compress))
  {
    var t := After(s, e, compress);
    match e
    case Ctl(msg) =>
      ControlKeepsIndex(s, msg);
      ControlKeepsBooks(s, msg);
    case Frames(msg, recips, answers) =>
      TransmitKeepsShardOk(s, msg, recips, answers, compress);
    case _ => WriterKeepsShardOk(s, e, compress);
  }

  lemma WriterKeepsShardOk(s: ShardState, e: Event, compress: Compressor)
    requires e.Act?
    requires Enabled(s, e) && ShardOk(s)
    ensures ShardOk(After(s, e, compress))
  {
    var t := After(s, e, compress);
    SameSlotsKeepIndex(s, t) by {
      hide IndexOk;
    }
    MovesKeepBooks(s, t) by {
      hide BooksOk, IndexOk;
    }
  }

  /**
   * In every reachable state: the index agrees with the members, a swept shard has only lagged members, each
   * membership was closed for lagging at most once, and every lagged member has its close on the way.
   */
  lemma {:induction false} EveryRunIsOk(es: seq<Event>, compress: Compressor)
    requires Run(es, compress).Some?
    ensures ShardOk(Run(es, compress).value)
  {
    if es != [] {
      var front := es[..|es| - 1];
      EveryRunIsOk(front, compress);
      EventKeepsShardOk(Run(front, compress).value, Last(es), compress);
    }
  }

  /** A sweep of members that are all lagged closes nobody and changes nothing. */
  lemma SecondSweepChangesNothing(s: ShardState)
    requires s.swept && SweptMeansLagged(s)
    ensures Sweep(s.members) == s.members
  {
  }

  /** Skipping the repeated sweeps is invisible: the shard that never skips one goes through the same states. */
  lemma {:induction false} DebouncingIsInvisible(es: seq<Event>, compress: Compressor)
    ensures RunWalking(es, compress) == Run(es, compress)
  {
    if es != [] {
      var front := es[..|es| - 1];
      DebouncingIsInvisible(front, compress);
      if Run(front, compress).Some? && Last(es) == Ctl(DesyncedAll) {
        EveryRunIsOk(front, compress);
        var s := Run(front, compress).value;
        if s.swept {
          SecondSweepChangesNothing(s);
        }
      }
    }
  }
}
