/** What the reader's bookkeeping guarantees: an exact list of live slots, and a bound on the tree it holds. */
module PickleBounds {
  import opened Common
  import opened PyObjects
  import opened PickleStream
  import opened PickleReader

  ghost predicate NamesLive(memo: seq<Slot>, entry: (nat, nat)) {
    entry.1 < |memo| && memo[entry.1] == Live(entry.0)
  }

  /** `live` and the live memo slots match one to one, in ascending order of both stack position and memo index. */
  lemma {:induction false} LiveListExact(memo: seq<Slot>)
    requires MemoSorted(memo)
    ensures forall k | 0 <= k < |LiveEntries(memo)| :: NamesLive(memo, LiveEntries(memo)[k])
    ensures forall m | 0 <= m < |memo| && memo[m].Live? :: (memo[m].index, m) in LiveEntries(memo)
    ensures forall j, k | 0 <= j < k < |LiveEntries(memo)| ::
              LiveEntries(memo)[j].0 <= LiveEntries(memo)[k].0 && LiveEntries(memo)[j].1 < LiveEntries(memo)[k].1
  {
    if memo != [] {
      var n := |memo| - 1;
      var front, live := LiveEntries(memo[..n]), LiveEntries(memo);
      LiveListExact(memo[..n]);
      forall k | 0 <= k < |live| ensures NamesLive(memo, live[k]) {
        if k < |front| {
          assert live[k] == front[k] && NamesLive(memo[..n], front[k]);
        }
      }
      forall m | 0 <= m < |memo| && memo[m].Live? ensures (memo[m].index, m) in live {
        if m < n {
          assert (memo[..n][m].index, m) in front;
        }
      }
      forall j, k | 0 <= j < k < |live| ensures live[j].0 <= live[k].0 && live[j].1 < live[k].1 {
        assert live[j] == front[j] && NamesLive(memo[..n], front[j]);
      }
    }
  }

  // Counting nodes.

  ghost function Nodes(v: PyObj): nat
    decreases v, |Kids(v)| + 1
  {
    1 + NodesInside(v, |Kids(v)|)
  }

  ghost function NodesInside(v: PyObj, n: nat): nat
    requires n <= |Kids(v)|
    decreases v, n
  {
    if n == 0 then 0 else NodesInside(v, n - 1) + Nodes(Kids(v)[n - 1])
  }

  ghost function NodesAll(vs: seq<PyObj>): nat {
    if vs == [] then 0 else NodesAll(vs[..|vs| - 1]) + Nodes(Last(vs))
  }

  lemma {:induction false} NodesInsideAll(v: PyObj, n: nat)
    requires n <= |Kids(v)|
    ensures NodesInside(v, n) == NodesAll(Kids(v)[..n])
  {
    if n > 0 {
      NodesInsideAll(v, n - 1);
      assert Kids(v)[..n][..n - 1] == Kids(v)[..n - 1];
    }
  }

  lemma NodesOf(v: PyObj)
    ensures Nodes(v) == 1 + NodesAll(Kids(v))
  {
    NodesInsideAll(v, |Kids(v)|);
    assert Kids(v)[..|Kids(v)|] == Kids(v);
  }

  lemma {:induction false} NodesConcat(a: seq<PyObj>, b: seq<PyObj>)
    ensures NodesAll(a + b) == NodesAll(a) + NodesAll(b)
  {
    if b == [] {
      assert a + b == a;
    } else {
      assert (a + b)[..|a + b| - 1] == a + b[..|b| - 1];
      NodesConcat(a, b[..|b| - 1]);
    }
  }

  lemma NodesOne(v: PyObj)
    ensures NodesAll([v]) == Nodes(v)
  {
    assert [v][..0] == [];
  }

  ghost predicate WithinBudget(s: State) {
    NodesAll(s.stack) <= s.objects
  }

  lemma NodesPush(s: State, v: PyObj)
    requires NodesAll(s.stack) + Nodes(v) <= s.objects + 1 && Pushed(s, v).Next?
    ensures WithinBudget(Pushed(s, v).s)
  {
    NodesConcat(s.stack, [v]);
    NodesOne(v);
  }

  lemma NodesAdd(s: State, kind: Kind, items: seq<PyObj>, at: nat, name: string)
    requires Inv(s) && NodesAll(s.stack) + NodesAll(items) <= s.objects && AddItems(s, kind, items, at, name).Next?
    ensures WithinBudget(AddItems(s, kind, items, at, name).s)
  {
    hide Inv;
    var top := |s.stack| - 1;
    var v, x := s.stack[top], Extend(s.stack[top], items);
    var t := AddItems(s, kind, items, at, name).s;
    assert t.stack[..top] == s.stack[..top] && Last(t.stack) == x;
    NodesOf(v);
    NodesOf(x);
    assert Kids(x) == Kids(v) + items;
    NodesConcat(Kids(v), items);
  }

  lemma NodesPair(items: seq<PyObj>)
    requires |items| == 2
    ensures NodesAll(items) == Nodes(items[0]) + Nodes(items[1])
  {
    assert items == [items[0]] + [items[1]];
    NodesConcat([items[0]], [items[1]]);
    NodesOne(items[0]);
    NodesOne(items[1]);
  }

  lemma NodesConstruct(s: State, build: Build, items: seq<PyObj>, at: nat, name: string, allow: Allowlist)
    requires Inv(s) && (build.MakeGlobal? || build.MakeInstance? ==> |items| == 2)
    requires NodesAll(s.stack) + NodesAll(items) <= s.objects && Construct(s, build, items, at, name, allow).Next?
    ensures WithinBudget(Construct(s, build, items, at, name, allow).s)
  {
    hide Inv, AddItems, Pushed, NodesAll, WithinBudget;
    match build
    case MakeTuple =>
      NodesOf(Tuple(items));
      NodesPush(s, Tuple(items));
    case AddTo(kind) => NodesAdd(s, kind, items, at, name);
    case MakeGlobal =>
      NodesGlobal(items, ClassId(items[0].text, items[1].text));
      NodesPush(s, Global(ClassId(items[0].text, items[1].text)));
    case MakeInstance =>
      NodesInstance(items);
      NodesPush(s, Instance(items[0].class_, items[1].items));
  }

  lemma NodesGlobal(items: seq<PyObj>, c: ClassId)
    requires |items| == 2
    ensures Nodes(Global(c)) == 1 <= NodesAll(items)
  {
    NodesPair(items);
    NodesOf(Global(c));
    NodesOf(items[0]);
  }

  lemma NodesInstance(items: seq<PyObj>)
    requires |items| == 2 && items[0].Global? && items[1].Tuple?
    ensures Nodes(Instance(items[0].class_, items[1].items)) <= NodesAll(items)
  {
    var v := Instance(items[0].class_, items[1].items);
    NodesPair(items);
    NodesOf(v);
    NodesOf(items[1]);
    assert Kids(v) == Kids(items[1]);
  }

  lemma NodesExecute(s: State, instr: Instr, at: nat, referenced: Option<set<nat>>, allow: Allowlist)
    requires Inv(s) && WellShaped(instr) && !instr.Get? && WithinBudget(s)
    requires Execute(s, instr, at, referenced, allow).Next?
    ensures WithinBudget(Execute(s, instr, at, referenced, allow).s)
  {
    hide LiveEntries, MemoSorted, LiveOnStack, MarksOk, CopyOut, LiveBelow;
    match instr
    case Push(v) =>
      NodesOf(v);
      NodesPush(s, v);
    case Combine(grab, build, name) =>
      var (t, items) := Grabbed(s, grab, name).value;
      var height := |t.stack|;
      assert s.stack == s.stack[..height] + s.stack[height..];
      NodesConcat(s.stack[..height], s.stack[height..]);
      NodesConstruct(t, build, items, at, name, allow);
    case _ =>
  }

  /** Successive states of a run from the start in which nothing is fetched from the memo. */
  ghost predicate UnfetchedRun(buf: seq<Byte>, states: seq<State>, referenced: Option<set<nat>>, allow: Allowlist) {
    && states != [] && states[0] == START
    && (forall i | 0 <= i < |states| :: Inv(states[i]) && states[i].pos <= |buf|)
    && (forall i | 0 <= i < |states| - 1 ::
          && Lex(buf, states[i].pos).Ok? && !Lex(buf, states[i].pos).value.0.Get?
          && Step(buf, states[i], referenced, allow) == Next(states[i + 1]))
  }

  /** The object limit bounds the tree: the values held have at most `objects`, hence at most MAX_OBJECTS, nodes. */
  lemma {:induction false} NodesBounded(buf: seq<Byte>, states: seq<State>, referenced: Option<set<nat>>,
                                        allow: Allowlist)
    requires UnfetchedRun(buf, states, referenced, allow)
    ensures NodesAll(Last(states).stack) <= Last(states).objects <= MAX_OBJECTS
    decreases |states|
  {
    hide Lex, Execute;
    var n := |states| - 1;
    if n > 0 {
      var before := states[..n];
      assert forall i | 0 <= i < n :: before[i] == states[i];
      NodesBounded(buf, before, referenced, allow);
      var s := states[n - 1];
      assert Step(buf, states[n - 1], referenced, allow) == Next(states[n - 1 + 1]);
      var (instr, next) := Lex(buf, s.pos).value;
      assert Lex(buf, s.pos) == Ok((instr, next));
      assert Execute(s.(pos := next), instr, s.pos, referenced, allow) == Next(states[n]);
      NodesExecute(s.(pos := next), instr, s.pos, referenced, allow);
    }
  }
}
