/** The reader as an object: fields updated in place by the decoding loop, proved against the machine on states. */
module ReaderClass {
  import opened Common
  import opened PyObjects
  import opened PickleStream
  import opened PickleReader
  import opened PickleBounds

  /** The last entry of `live` names the last live slot; copying that slot out removes exactly that entry. */
  lemma {:induction false} CopyLast(memo: seq<Slot>, v: PyObj)
    requires LiveEntries(memo) != []
    ensures var (i, m) := Last(LiveEntries(memo));
            && m < |memo| && memo[m] == Live(i)
            && LiveEntries(memo[m := Value(v)]) == LiveEntries(memo)[..|LiveEntries(memo)| - 1]
            && forall k | m < k < |memo| :: !memo[k].Live?
  {
    var n := |memo| - 1;
    var front := LiveEntries(memo[..n]);
    if memo[n].Live? {
      assert memo[n := Value(v)][..n] == memo[..n];
      assert LiveEntries(memo)[..|front|] == front;
    } else {
      assert LiveEntries(memo) == front;
      CopyLast(memo[..n], v);
      var (_, m) := Last(front);
      assert memo[m := Value(v)][..n] == memo[..n][m := Value(v)];
    }
  }

  lemma CopyOneOut(memo: seq<Slot>, stack: seq<PyObj>, height: nat)
    requires MemoSorted(memo) && LiveOnStack(memo, stack) && LiveEntries(memo) != []
    requires Last(LiveEntries(memo)).0 >= height
    ensures var (i, m) := Last(LiveEntries(memo));
            && i < |stack| && m < |memo|
            && CopyOut(memo[m := Value(stack[i])], stack, height) == CopyOut(memo, stack, height)
            && MemoSorted(memo[m := Value(stack[i])]) && LiveOnStack(memo[m := Value(stack[i])], stack)
  {
    CopyLast(memo, NoneObj);
  }

  lemma NothingToCopy(memo: seq<Slot>, stack: seq<PyObj>, height: nat)
    requires MemoSorted(memo) && (LiveEntries(memo) != [] ==> Last(LiveEntries(memo)).0 < height)
    ensures CopyOut(memo, stack, height) == memo
    ensures LiveBelow(LiveEntries(memo), height) == LiveEntries(memo)
  {
    LiveListExact(memo);
    forall m | 0 <= m < |memo| && memo[m].Live? ensures memo[m].index < height {
      assert (memo[m].index, m) in LiveEntries(memo);
    }
  }

  lemma ShrinkTwice(s: State, h1: nat, h2: nat)
    requires h2 <= h1 <= |s.stack| && Inv(s)
    ensures Shrink(Shrink(s, h1), h2) == Shrink(s, h2)
  {
    var t := Shrink(s, h1);
    assert t.stack[..h2] == s.stack[..h2];
    assert CopyOut(t.memo, t.stack, h2) == CopyOut(s.memo, s.stack, h2);
    BelowTwice(s.live, h1, h2);
  }

  lemma {:induction false} BelowTwice(live: seq<(nat, nat)>, h1: nat, h2: nat)
    requires h2 <= h1
    ensures LiveBelow(LiveBelow(live, h1), h2) == LiveBelow(live, h2)
  {
    if live != [] && Last(live).0 >= h1 {
      BelowTwice(live[..|live| - 1], h1, h2);
    }
  }

  /** Popping one value and then `n` more is popping `n + 1`. */
  lemma PopsCompose(s: State, n: nat, name: string)
    requires Inv(s)
    ensures match Grabbed(s, Top(1), name)
            case Err(e) => Grabbed(s, Top(n + 1), name) == Err(e)
            case Ok((t, one)) =>
              (match Grabbed(t, Top(n), name)
               case Err(e) => Grabbed(s, Top(n + 1), name) == Err(e)
               case Ok((u, rest)) => Grabbed(s, Top(n + 1), name) == Ok((u, rest + one)))
  {
    hide Inv;
    var h := |s.stack| - 1 - n;
    if Grabbed(s, Top(n + 1), name).Ok? {
      ShrinkTwice(s, |s.stack| - 1, h);
      assert s.stack[..|s.stack| - 1][h..] + s.stack[|s.stack| - 1..] == s.stack[h..];
      assert s == s.(marks := MarksAfter(s.marks, Top(n)));
      var t := Grabbed(s, Top(1), name).value.0;
      assert t == Shrink(s, |s.stack| - 1);
      assert t == t.(marks := MarksAfter(t.marks, Top(n)));
    }
  }

  lemma OneItem(s: State, name: string)
    requires Inv(s) && Grabbed(s, Top(1), name).Ok?
    ensures Grabbed(s, Top(1), name).value.1 == [Last(s.stack)]
  {
  }

  class Reader {
    const buf: seq<Byte>
    const referenced: Option<set<nat>>
    const allow: Allowlist
    var pos: nat
    var stack: seq<PyObj>
    var marks: seq<nat>
    var memo: seq<Slot>
    var live: seq<(nat, nat)>
    var objects: nat

    constructor (buf: seq<Byte>, allow: Allowlist)
      ensures this.buf == buf && this.allow == allow && referenced == ScanFrom(buf, 0)
      ensures Current() == START
    {
      var refs := ScanMemoRefs(buf);
      this.buf, this.allow, this.referenced := buf, allow, refs;
      pos, stack, marks, memo, live, objects := 0, [], [], [], [], 0;
    }

    ghost function Current(): State
      reads this
    {
      State(pos, stack, marks, memo, live, objects)
    }

    /** Copies out every live slot at or above `height`, from the end of `live`. */
    method MaterializeAbove(height: nat)
      requires Inv(Current()) && height <= |stack|
      modifies `memo, `live
      ensures memo == CopyOut(old(memo), stack, height) && live == LiveBelow(old(live), height)
    {
      while live != [] && Last(live).0 >= height
        invariant live == LiveEntries(memo) && MemoSorted(memo) && LiveOnStack(memo, stack)
        invariant LiveBelow(live, height) == LiveBelow(old(live), height)
        invariant CopyOut(memo, stack, height) == CopyOut(old(memo), stack, height)
        decreases |live|
      {
        var (stackIndex, memoIndex) := Last(live);
        CopyOneOut(memo, stack, height);
        CopyLast(memo, stack[stackIndex]);
        live := live[..|live| - 1];
        memo := memo[memoIndex := Value(stack[stackIndex])];
      }
      NothingToCopy(memo, stack, height);
    }

    method Push(v: PyObj) returns (r: Result<(), Error>)
      modifies `stack, `objects
      ensures match Pushed(old(Current()), v)
              case Next(t) => r == Ok(()) && Current() == t
              case Done(_) => false
              case Fail(e) => r == Err(e)
    {
      if |stack| >= MAX_STACK {
        return Err(TooDeep(pos));
      }
      objects := objects + 1;
      if objects > MAX_OBJECTS {
        return Err(TooManyObjects(pos));
      }
      stack := stack + [v];
      return Ok(());
    }

    method Pop(name: string) returns (r: Result<PyObj, Error>)
      requires Inv(Current())
      modifies `stack, `memo, `live
      ensures match Grabbed(old(Current()), Top(1), name)
              case Ok((t, items)) => r == Ok(items[0]) && Current() == t
              case Err(e) => r == Err(e)
    {
      if marks != [] && Last(marks) >= |stack| {
        return Err(StackUnderflow(pos, name));
      }
      if |stack| == 0 {
        return Err(StackUnderflow(pos, name));
      }
      var height := |stack| - 1;
      MaterializeAbove(height);
      var v := stack[height];
      stack := stack[..height];
      return Ok(v);
    }

    /** Pops `n` values, one at a time, deepest first in the result. */
    method PopTop(n: nat, name: string) returns (r: Result<seq<PyObj>, Error>)
      requires Inv(Current())
      modifies `stack, `memo, `live
      ensures match Grabbed(old(Current()), Top(n), name)
              case Ok((t, items)) => r == Ok(items) && Current() == t
              case Err(e) => r == Err(e)
      decreases n
    {
      if n == 0 {
        NothingGrabbed(Current(), name);
        return Ok([]);
      }
      PopsCompose(Current(), n - 1, name);
      if Grabbed(Current(), Top(1), name).Ok? {
        OneItem(Current(), name);
      }
      var top := Pop(name);
      if top.Err? {
        return Err(top.error);
      }
      var rest := PopTop(n - 1, name);
      if rest.Err? {
        return rest;
      }
      assert Grabbed(old(Current()), Top(n), name).Ok?;
      return Ok(rest.value + [top.value]);
    }

    method PopToMark(name: string) returns (r: Result<seq<PyObj>, Error>)
      requires Inv(Current())
      modifies `stack, `marks, `memo, `live
      ensures match Grabbed(old(Current()), ToMark, name)
              case Ok((t, items)) => r == Ok(items) && Current() == t
              case Err(e) => r == Err(e)
    {
      if marks == [] {
        return Err(NoMark(pos, name));
      }
      var m := Last(marks);
      marks := marks[..|marks| - 1];
      if m > |stack| {
        // No mark ever stands above the stack.
        assert false;
      }
      MaterializeAbove(m);
      var items := stack[m..];
      stack := stack[..m];
      return Ok(items);
    }

    method Fetch(index: nat) returns (r: Result<PyObj, Error>)
      requires Inv(Current())
      ensures r == MemoGet(Current(), index)
    {
      if index >= |memo| {
        return Err(BadMemo(pos, index, |memo|));
      }
      match memo[index]
      case Value(v) => return Ok(v);
      case Live(i) => return Ok(stack[i]);
      case Unreferenced => return Err(BadMemo(pos, index, |memo|));
    }

    method Remember(at: nat) returns (r: Result<(), Error>)
      requires Inv(Current())
      modifies `memo, `live
      ensures match MemoizeTop(old(Current()), referenced, at)
              case Next(t) => r == Ok(()) && Current() == t
              case Done(_) => false
              case Fail(e) => r == Err(e)
    {
      hide Inv, LiveEntries, MemoSorted, MarksOk;
      if stack == [] {
        return Err(StackUnderflow(at, "MEMOIZE"));
      }
      var index := |stack| - 1;
      var memoIndex := |memo|;
      if !IsReferenced(referenced, memoIndex) {
        memo := memo + [Unreferenced];
      } else if IsContainer(stack[index]) {
        live := live + [(index, memoIndex)];
        memo := memo + [Live(index)];
      } else {
        memo := memo + [Value(stack[index])];
      }
      return Ok(());
    }

    /** Fills the container on top of the stack. */
    method AddTop(kind: Kind, items: seq<PyObj>, at: nat, name: string) returns (r: Result<(), Error>)
      requires Inv(Current())
      modifies `stack
      ensures match AddItems(old(Current()), kind, items, at, name)
              case Next(t) => r == Ok(()) && Current() == t
              case Done(_) => false
              case Fail(e) => r == Err(e)
    {
      if kind.KDict? && |items| % 2 != 0 {
        return Err(OddSetItems(at));
      }
      if stack == [] || HeadOf(Last(stack)) != Cell(kind) {
        return Err(TypeMismatch(at, name, KindName(kind), FoundName(stack)));
      }
      var top := |stack| - 1;
      stack := stack[..top] + [Extend(stack[top], items)];
      return Ok(());
    }

    method Make(build: Build, items: seq<PyObj>, at: nat, name: string) returns (r: Result<(), Error>)
      requires Inv(Current()) && (build.MakeGlobal? || build.MakeInstance? ==> |items| == 2)
      modifies `stack, `objects
      ensures match Construct(old(Current()), build, items, at, name, allow)
              case Next(t) => r == Ok(()) && Current() == t
              case Done(_) => false
              case Fail(e) => r == Err(e)
    {
      match build
      case MakeTuple => r := Push(Tuple(items));
      case AddTo(kind) => r := AddTop(kind, items, at, name);
      case MakeGlobal =>
        if !items[0].Str? || !items[1].Str? {
          return Err(TypeMismatch(at, name, "two strings", "something else"));
        }
        var c := ClassId(items[0].text, items[1].text);
        if !Permits(allow, c) {
          return Err(ForbiddenClass(at, c));
        }
        r := Push(Global(c));
      case MakeInstance =>
        if !items[1].Tuple? {
          return Err(TypeMismatch(at, name, "tuple of arguments", TypeName(items[1])));
        }
        if !items[0].Global? {
          return Err(TypeMismatch(at, name, "class", TypeName(items[0])));
        }
        r := Push(Instance(items[0].class_, items[1].items));
    }

    /** The decoding loop. */
    method Decode() returns (r: Result<PyObj, Error>)
      requires Current() == START
      modifies this
      ensures r == Run(buf, START, referenced, allow)
    {
      while true
        invariant Inv(Current()) && pos <= |buf|
        invariant Run(buf, Current(), referenced, allow) == Run(buf, START, referenced, allow)
        decreases |buf| - pos
      {
        hide Lex;
        var at := pos;
        var lexed := Lex(buf, at);
        if lexed.Err? {
          return Err(lexed.error);
        }
        var (instr, next) := lexed.value;
        pos := next;
        if instr.Stop? {
          return if |stack| != 1 then Err(UnbalancedStack(|stack|)) else Ok(stack[0]);
        }
        var done := Perform(instr, at);
        if done.Err? {
          return Err(done.error);
        }
      }
    }

    /** One instruction other than STOP. */
    method Perform(instr: Instr, at: nat) returns (r: Result<(), Error>)
      requires Inv(Current()) && WellShaped(instr) && !instr.Stop?
      modifies `stack, `marks, `memo, `live, `objects
      ensures match Execute(old(Current()), instr, at, referenced, allow)
              case Next(t) => r == Ok(()) && Current() == t
              case Done(_) => false
              case Fail(e) => r == Err(e)
    {
      match instr
      case Skip => return Ok(());
      case Push(v) => r := Push(v);
      case PushMark =>
        marks := marks + [|stack|];
        return Ok(());
      case Memoize => r := Remember(at);
      case Get(index) =>
        var v := Fetch(index);
        if v.Err? {
          return Err(v.error);
        }
        r := Push(v.value);
      case Combine(grab, build, name) =>
        var items: Result<seq<PyObj>, Error>;
        match grab {
          case Top(n) => items := PopTop(n, name);
          case ToMark => items := PopToMark(name);
        }
        if items.Err? {
          return Err(items.error);
        }
        r := Make(build, items.value, at, name);
    }
  }

  lemma NothingGrabbed(s: State, name: string)
    requires Inv(s)
    ensures Grabbed(s, Top(0), name) == Ok((s, []))
  {
    var n := |s.stack|;
    assert s.stack[..n] == s.stack && s.stack[n..] == [];
    if s.live != [] {
      LiveListExact(s.memo);
      assert NamesLive(s.memo, s.live[|s.live| - 1]);
    }
    NothingToCopy(s.memo, s.stack, n);
    assert Shrink(s, n) == s;
  }

  /** Decoding a byte string from a slice of memory: the object runs the machine the theorems are about. */
  method FromSlice(buf: seq<Byte>, allow: Allowlist) returns (r: Result<PyObj, Error>)
    ensures r == Decode(buf, allow)
  {
    var reader := new Reader(buf, allow);
    r := reader.Decode();
  }
}
