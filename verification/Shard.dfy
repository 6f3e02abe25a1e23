/** One fan-out shard (`crates/pahoa-net/src/shard.rs`): its membership, its slot index, and what each message does. */
module Shard {
  import opened Common

  type ConnId = nat
  type Slot = nat
  type Bytes = seq<Byte>

  /**
   * What a writer task accepts. A frame carries the number the actor gave it; the number is history, not payload. A
   * reply is what the connection's own reader queues: a pong or a close echo.
   */
  datatype Outbound = Frame(id: nat, bytes: Bytes) | Reply | Close

  /**
   * A member and its writer's queue. `closes` counts the closes issued to it for lagging or for a dropped frame.
   */
  datatype Member = Member(
    out: seq<Outbound>,
    capacity: nat,
    writerGone: bool,
    closeSignal: bool,
    auth: bool,
    noText: bool,
    slot: Option<Slot>,
    deflate: Option<nat>,
    lagged: bool,
    filter: Option<nat>,
    scoped: bool,
    closes: nat)

  datatype Recipients =
    | All
    | AllText
    | SlotAll(key: Slot)
    | SlotText(key: Slot)
    | AllTextAbout(key: Slot)
    | AllTextFull
    | SlotScopedText(key: Slot)
    | These(list: seq<ConnId>)

  /** A frame before it is compressed: its number, its plain bytes, and whether a filter rule may name it. */
  datatype Message = Message(id: nat, payload: Bytes, tagged: bool)

  datatype ShardMsg =
    | Add(conn: ConnId, capacity: nat, deflate: Option<nat>, scoped: bool)
    | Remove(conn: ConnId)
    | Update(conn: ConnId, auth: bool, noText: bool, slot: Option<Slot>)
    | SetFilter(conn: ConnId, filter: Option<nat>)
    | Send(conn: ConnId, msg: Message)
    | Broadcast(to: Recipients, msg: Message)
    | CloseConn(conn: ConnId)
    | DesyncedOne(conn: ConnId)
    | DesyncedAll

  /** Changes what a shard knows rather than what it sends. */
  predicate IsControl(m: ShardMsg) {
    !m.Send? && !m.Broadcast?
  }

  type Members = map<ConnId, Member>

  datatype ShardState = ShardState(members: Members, bySlot: map<Slot, seq<ConnId>>, swept: bool)

  const EMPTY := ShardState(map[], map[], false)

  /**
   * What another task does to a member's queue: its writer takes the next thing or stops, or its reader queues a reply.
   */
  datatype Motion = Takes(conn: ConnId) | Stops(conn: ConnId) | Responds(conn: ConnId)

  /**
   * What is decided outside the shard at one delivery: whether the filter's rules drop it, whether the budget refuses
   * it, and what writers and readers have done since the delivery before.
   */
  datatype Answer = Answer(drops: bool, refuses: bool, motions: seq<Motion>)

  /** Per place in the audience of one message. */
  type Answers = nat -> Answer

  type Compressor = (Bytes, nat) -> Bytes

  datatype Delivery = Sent | Behind | Gone

  // Closing.

  /** In order behind what is queued if there is room, otherwise out of band. */
  function CloseMember(m: Member): Member {
    if !m.writerGone && |m.out| < m.capacity then m.(out := m.out + [Close]) else ForceClose(m)
  }

  function ForceClose(m: Member): Member {
    m.(closeSignal := true)
  }

  // Writers and readers.

  /** A writer takes the next thing queued; a close ends it. */
  function Drained(m: Member): Member
    requires m.out != []
  {
    m.(out := m.out[1..], writerGone := m.out[0].Close?)
  }

  /** Whether there is anything for it to do: a writer that has stopped does nothing, and nobody replies through it. */
  predicate CanMove(m: Member, x: Motion) {
    && !m.writerGone
    && match x
       case Takes(_) => m.out != []
       case Stops(_) => true
       case Responds(_) => |m.out| < m.capacity
  }

  function MovedOne(m: Member, x: Motion): Member {
    if !CanMove(m, x) then m
    else
      match x
      case Takes(_) => Drained(m)
      case Stops(_) => m.(writerGone := true)
      case Responds(_) => m.(out := m.out + [Reply])
  }

  function Moved(ms: Members, x: Motion): (r: Members)
    ensures r.Keys == ms.Keys
  {
    if x.conn in ms then ms[x.conn := MovedOne(ms[x.conn], x)] else ms
  }

  /** After several motions, in order. */
  function Meanwhile(ms: Members, xs: seq<Motion>): (r: Members)
    ensures r.Keys == ms.Keys
  {
    if xs == [] then ms else Moved(Meanwhile(ms, xs[..|xs| - 1]), Last(xs))
  }

  // One frame to one member.

  predicate Filtered(m: Member, msg: Message, a: Answer) {
    m.filter.Some? && msg.tagged && m.slot.Some? && a.drops
  }

  /** The bytes this member takes: plain, or compressed for its window. */
  function Variant(m: Member, msg: Message, compress: Compressor): Bytes {
    match m.deflate
    case None => msg.payload
    case Some(bits) => compress(msg.payload, bits)
  }

  function Deliver(m: Member, msg: Message, bytes: Bytes, a: Answer): (Member, Delivery) {
    if a.refuses then (m, Behind)
    else if m.writerGone then (m, Gone)
    else if |m.out| >= m.capacity then (m, Behind)
    else (m.(out := m.out + [Frame(msg.id, bytes)]), Sent)
  }

  /**
   * A message on its way through its audience: members so far, who fell behind or is gone, who was sent it and who
   * was meant to have it but was not. A filtered member is neither.
   */
  datatype Fan = Fan(members: Members, behind: seq<ConnId>, gone: seq<ConnId>, sent: set<ConnId>, lost: set<ConnId>)

  /** One place of the audience, as the queues then stand. */
  function HandTo(f: Fan, c: ConnId, msg: Message, a: Answer, compress: Compressor): (g: Fan)
    requires c in f.members
    ensures g.members.Keys == f.members.Keys
    ensures g.sent + g.lost <= f.sent + f.lost + {c}
  {
    var m := f.members[c];
    if m.lagged then f.(lost := f.lost + {c})
    else if Filtered(m, msg, a) then f
    else
      var (n, d) := Deliver(m, msg, Variant(m, msg, compress), a);
      Fan(f.members[c := n],
          if d.Behind? then f.behind + [c] else f.behind,
          if d.Gone? then f.gone + [c] else f.gone,
          if d.Sent? then f.sent + {c} else f.sent,
          if d.Sent? then f.lost else f.lost + {c})
  }

  /** The next place: writers and readers have moved since the one before. */
  function FanStep(f: Fan, c: ConnId, msg: Message, a: Answer, compress: Compressor): (g: Fan)
    requires c in f.members
    ensures g.members.Keys == f.members.Keys
    ensures g.sent + g.lost <= f.sent + f.lost + {c}
  {
    HandTo(f.(members := Meanwhile(f.members, a.motions)), c, msg, a, compress)
  }

  predicate Within(ms: Members, recips: seq<ConnId>) {
    forall i | 0 <= i < |recips| :: recips[i] in ms
  }

  /** The first `k` of the audience. */
  function FanOut(ms: Members, recips: seq<ConnId>, k: nat, msg: Message, answers: Answers,
                  compress: Compressor): (f: Fan)
    requires k <= |recips| && Within(ms, recips)
    ensures f.members.Keys == ms.Keys && f.sent + f.lost <= ms.Keys
  {
    if k == 0 then Fan(ms, [], [], {}, {})
    else FanStep(FanOut(ms, recips, k - 1, msg, answers, compress), recips[k - 1], msg, answers(k - 1), compress)
  }

  function MarkLagged(ms: Members, behind: seq<ConnId>): (r: Members)
    ensures r.Keys == ms.Keys
  {
    if behind == [] then ms
    else
      var rest := MarkLagged(ms, behind[..|behind| - 1]);
      var c := Last(behind);
      if c in rest && !rest[c].lagged then
        rest[c := ForceClose(rest[c]).(lagged := true, closes := rest[c].closes + 1)]
      else rest
  }

  function MarkGone(ms: Members, gone: seq<ConnId>): (r: Members)
    ensures r.Keys == ms.Keys
  {
    if gone == [] then ms
    else
      var rest := MarkGone(ms, gone[..|gone| - 1]);
      var c := Last(gone);
      if c in rest && !rest[c].lagged then rest[c := rest[c].(lagged := true)] else rest
  }

  function Marked(f: Fan): (r: Members)
    ensures r.Keys == f.members.Keys
  {
    MarkGone(MarkLagged(f.members, f.behind), f.gone)
  }

  // The audience of a broadcast.

  /** Whether a member is meant, found by looking at the member alone. */
  predicate Wanted(to: Recipients, c: ConnId, m: Member) {
    match to
    case All => m.auth
    case AllText => m.auth && !m.noText
    case SlotAll(key) => m.slot == Some(key)
    case SlotText(key) => m.slot == Some(key) && !m.noText
    case AllTextAbout(key) => m.auth && !m.noText && (!m.scoped || m.slot == Some(key))
    case AllTextFull => m.auth && !m.noText && !m.scoped
    case SlotScopedText(key) => m.slot == Some(key) && !m.noText && m.scoped
    case These(list) => c in list
  }

  predicate Distinct(cs: seq<ConnId>) {
    forall i, j | 0 <= i < j < |cs| :: cs[i] != cs[j]
  }

  function Indexed(s: ShardState, key: Slot): seq<ConnId> {
    if key in s.bySlot then s.bySlot[key] else []
  }

  /** The members among `cs` that pass the test of the audience, in order. */
  function Pick(s: ShardState, cs: seq<ConnId>, to: Recipients): (r: seq<ConnId>)
    ensures forall i | 0 <= i < |r| :: r[i] in s.members && r[i] in cs
  {
    if cs == [] then []
    else
      var rest := Pick(s, cs[..|cs| - 1], to);
      var c := Last(cs);
      if c in s.members && PassesIndexed(to, s.members[c]) then rest + [c] else rest
  }

  /** What is still tested of a member found through the index or the list. */
  predicate PassesIndexed(to: Recipients, m: Member) {
    match to
    case SlotText(_) => !m.noText
    case SlotScopedText(_) => !m.noText && m.scoped
    case _ => true
  }

  /**
   * How the audience is listed: slot audiences through the index, an explicit list as given, all others by going over
   * the members in whatever order the table yields them.
   */
  predicate IsAudience(s: ShardState, to: Recipients, recips: seq<ConnId>) {
    match to
    case SlotAll(key) => recips == Pick(s, Indexed(s, key), to)
    case SlotText(key) => recips == Pick(s, Indexed(s, key), to)
    case SlotScopedText(key) => recips == Pick(s, Indexed(s, key), to)
    case These(list) => recips == Pick(s, list, to)
    case _ =>
      && Distinct(recips)
      && (forall i | 0 <= i < |recips| :: recips[i] in s.members && Wanted(to, recips[i], s.members[recips[i]]))
      && (forall c | c in s.members :: Wanted(to, c, s.members[c]) ==> c in recips)
  }

  lemma {:induction false} PickAll(s: ShardState, cs: seq<ConnId>, to: Recipients, recips: seq<ConnId>)
    requires recips == Pick(s, cs, to)
    ensures forall i | 0 <= i < |recips| ::
      recips[i] in s.members && recips[i] in cs && PassesIndexed(to, s.members[recips[i]])
    ensures forall c | c in cs && c in s.members && PassesIndexed(to, s.members[c]) :: c in recips
    ensures Distinct(cs) ==> Distinct(recips)
  {
    if cs != [] {
      var front := cs[..|cs| - 1];
      PickAll(s, front, to, Pick(s, front, to));
      assert forall c | c in cs :: c in front || c == Last(cs);
      assert forall i | 0 <= i < |front| :: front[i] == cs[i];
    }
  }

  lemma AudienceMembers(s: ShardState, to: Recipients, recips: seq<ConnId>)
    requires IsAudience(s, to, recips)
    ensures Within(s.members, recips)
  {
  }

  // The messages.

  function Without(cs: seq<ConnId>, c: ConnId): (r: seq<ConnId>)
    ensures forall d | d in r :: d in cs && d != c
    ensures forall d | d in cs && d != c :: d in r
    ensures Distinct(cs) ==> Distinct(r)
  {
    if cs == [] then []
    else
      var rest := Without(cs[..|cs| - 1], c);
      assert forall d | d in cs :: d in cs[..|cs| - 1] || d == Last(cs);
      assert Distinct(cs) ==> Last(cs) !in cs[..|cs| - 1];
      if Last(cs) == c then rest else rest + [Last(cs)]
  }

  function Unlist(bySlot: map<Slot, seq<ConnId>>, slot: Option<Slot>, c: ConnId): map<Slot, seq<ConnId>> {
    if slot.Some? && slot.value in bySlot then bySlot[slot.value := Without(bySlot[slot.value], c)] else bySlot
  }

  function Enlist(bySlot: map<Slot, seq<ConnId>>, slot: Option<Slot>, c: ConnId): map<Slot, seq<ConnId>> {
    match slot
    case None => bySlot
    case Some(key) => bySlot[key := (if key in bySlot then bySlot[key] else []) + [c]]
  }

  function NewMember(capacity: nat, deflate: Option<nat>, scoped: bool): Member {
    Member([], capacity, false, false, false, false, None, deflate, false, None, scoped, 0)
  }

  /** Lags and closes one member whose frame was dropped on the way here. */
  function Desync(m: Member): Member {
    if m.lagged then m else CloseMember(m.(lagged := true)).(closes := m.closes + 1)
  }

  function Sweep(ms: Members): Members {
    map c | c in ms :: Desync(ms[c])
  }

  /** What a control message does. */
  function Control(s: ShardState, msg: ShardMsg): ShardState
    requires IsControl(msg)
  {
    match msg
    case Add(c, capacity, deflate, scoped) =>
      s.(swept := false, members := s.members[c := NewMember(capacity, deflate, scoped)])
    case Remove(c) =>
      if c !in s.members then s
      else s.(members := s.members - {c}, bySlot := Unlist(s.bySlot, s.members[c].slot, c))
    case Update(c, auth, noText, slot) =>
      if c !in s.members then s
      else
        var m := s.members[c];
        var index := if m.slot == slot then s.bySlot else Enlist(Unlist(s.bySlot, m.slot, c), slot, c);
        s.(members := s.members[c := m.(auth := auth, noText := noText, slot := slot)], bySlot := index)
    case SetFilter(c, filter) =>
      if c !in s.members then s else s.(members := s.members[c := s.members[c].(filter := filter)])
    case CloseConn(c) =>
      if c !in s.members then s else s.(members := s.members[c := CloseMember(s.members[c])])
    case DesyncedOne(c) =>
      if c !in s.members then s else s.(members := s.members[c := Desync(s.members[c])])
    case DesyncedAll =>
      if s.swept then s else s.(swept := true, members := Sweep(s.members))
  }

  /** The audience a frame message is for. */
  predicate Addressed(s: ShardState, msg: ShardMsg, recips: seq<ConnId>) {
    match msg
    case Send(c, _) => recips == if c in s.members then [c] else []
    case Broadcast(to, _) => IsAudience(s, to, recips)
    case _ => false
  }

  lemma AddressedMembers(s: ShardState, msg: ShardMsg, recips: seq<ConnId>)
    requires Addressed(s, msg, recips)
    ensures Within(s.members, recips)
  {
    if msg.Broadcast? {
      AudienceMembers(s, msg.to, recips);
    }
  }

  function FanFor(s: ShardState, msg: ShardMsg, recips: seq<ConnId>, answers: Answers, compress: Compressor): (f: Fan)
    requires Addressed(s, msg, recips)
    ensures f.members.Keys == s.members.Keys && f.sent + f.lost <= s.members.Keys
  {
    AddressedMembers(s, msg, recips);
    FanOut(s.members, recips, |recips|, msg.msg, answers, compress)
  }

  /** What a frame message does. */
  function Transmit(s: ShardState, msg: ShardMsg, recips: seq<ConnId>, answers: Answers,
                    compress: Compressor): ShardState
    requires Addressed(s, msg, recips)
  {
    s.(members := Marked(FanFor(s, msg, recips, answers, compress)))
  }
}
