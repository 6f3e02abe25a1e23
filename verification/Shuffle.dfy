/**
 * Shuffling with the generator (`crates/pahoa-pyrandom/src/lib.rs`): a downward Fisher-Yates, one arrangement per
 * choice.
 */
module Shuffle {
  import opened Common
  import opened Mersenne
  import opened PyRandom

  function Swapped<T>(x: seq<T>, i: nat, j: nat): (r: seq<T>)
    requires i < |x| && j < |x|
    ensures |r| == |x|
  {
    x[i := x[j]][j := x[i]]
  }

  /** A choice `js[t] <= t` for each position `t` from 1 to `i`. */
  ghost predicate Choices(js: seq<nat>, i: nat) {
    i < |js| && forall t | 1 <= t <= i :: js[t] <= t
  }

  /** From position `i` down to 1, the element there changes places with the chosen one at or below it. */
  ghost function FisherYates<T>(x: seq<T>, i: nat, js: seq<nat>): (r: seq<T>)
    requires i < |x| && Choices(js, i)
    ensures |r| == |x|
    decreases i
  {
    if i == 0 then x else FisherYates(Swapped(x, i, js[i]), i - 1, js)
  }

  lemma SwapPermutes<T>(x: seq<T>, i: nat, j: nat)
    requires i < |x| && j < |x|
    ensures multiset(Swapped(x, i, j)) == multiset(x)
  {
  }

  lemma {:induction false} ShufflePermutes<T>(x: seq<T>, i: nat, js: seq<nat>)
    requires i < |x| && Choices(js, i)
    ensures multiset(FisherYates(x, i, js)) == multiset(x)
    decreases i
  {
    if i > 0 {
      SwapPermutes(x, i, js[i]);
      ShufflePermutes(Swapped(x, i, js[i]), i - 1, js);
    }
  }

  /** Positions above `i` are final. */
  lemma {:induction false} ShuffleLeavesAbove<T>(x: seq<T>, i: nat, js: seq<nat>, p: nat)
    requires i < p < |x| && Choices(js, i)
    ensures FisherYates(x, i, js)[p] == x[p]
    decreases i
  {
    if i > 0 {
      ShuffleLeavesAbove(Swapped(x, i, js[i]), i - 1, js, p);
    }
  }

  /** The first choice settles the last place: the element it names ends there. */
  lemma FirstChoiceSettled<T>(x: seq<T>, i: nat, js: seq<nat>)
    requires 0 < i < |x| && Choices(js, i)
    ensures FisherYates(x, i, js)[i] == x[js[i]]
    ensures FisherYates(x, i, js)[..i] == FisherYates(Swapped(x, i, js[i]), i - 1, js)[..i]
  {
    ShuffleLeavesAbove(Swapped(x, i, js[i]), i - 1, js, i);
  }

  ghost predicate Distinct<T>(x: seq<T>) {
    forall i, j | 0 <= i < j < |x| :: x[i] != x[j]
  }

  lemma SwapDistinct<T>(x: seq<T>, i: nat, j: nat)
    requires i < |x| && j < |x| && Distinct(x)
    ensures Distinct(Swapped(x, i, j))
  {
  }

  /** Of distinct elements, different choices give different arrangements. */
  lemma {:induction false} ShuffleInjective<T>(x: seq<T>, i: nat, js: seq<nat>, ks: seq<nat>)
    requires i < |x| && Choices(js, i) && Choices(ks, i) && Distinct(x)
    requires FisherYates(x, i, js) == FisherYates(x, i, ks)
    ensures forall t | 1 <= t <= i :: js[t] == ks[t]
    decreases i
  {
    if i > 0 {
      var a, b := Swapped(x, i, js[i]), Swapped(x, i, ks[i]);
      ShuffleLeavesAbove(a, i - 1, js, i);
      ShuffleLeavesAbove(b, i - 1, ks, i);
      assert a[i] == x[js[i]] && b[i] == x[ks[i]];
      assert js[i] == ks[i];
      SwapDistinct(x, i, js[i]);
      ShuffleInjective(a, i - 1, js, ks);
    }
  }

  lemma PrefixMultiset<T>(x: seq<T>, y: seq<T>, i: nat)
    requires i < |x| == |y| && multiset(x[..i + 1]) == multiset(y[..i + 1]) && x[i] == y[i]
    ensures multiset(x[..i]) == multiset(y[..i])
  {
    assert x[..i + 1] == x[..i] + [x[i]] && y[..i + 1] == y[..i] + [y[i]];
    assert multiset(x[..i]) == multiset(x[..i + 1]) - multiset{x[i]};
    assert multiset(y[..i]) == multiset(y[..i + 1]) - multiset{y[i]};
  }

  /** Every arrangement of the first `i + 1` elements comes from some choice. */
  lemma {:induction false} ShuffleSurjective<T>(x: seq<T>, y: seq<T>, i: nat) returns (js: seq<nat>)
    requires i < |x| == |y| && multiset(x[..i + 1]) == multiset(y[..i + 1]) && x[i + 1..] == y[i + 1..]
    ensures |js| == |x| && Choices(js, i) && FisherYates(x, i, js) == y
    decreases i
  {
    if i == 0 {
      js := seq(|x|, _ => 0);
      assert x[..1] == [x[0]] && y[..1] == [y[0]];
      assert x[0] in multiset(y[..1]);
      assert x == x[..1] + x[1..] && y == y[..1] + y[1..];
    } else {
      var j := PlaceOf(x, y, i);
      var a := Swapped(x, i, j);
      var rest := ShuffleSurjective(a, y, i - 1);
      js := rest[i := j];
      ChoicesAboveUnused(a, i - 1, rest, js);
    }
  }

  /**
   * Where in the first `i + 1` elements of `x` the one wanted at `i` stands; bringing it there leaves the rest to do.
   */
  lemma PlaceOf<T>(x: seq<T>, y: seq<T>, i: nat) returns (j: nat)
    requires i < |x| == |y| && multiset(x[..i + 1]) == multiset(y[..i + 1]) && x[i + 1..] == y[i + 1..]
    ensures j <= i
    ensures var a := Swapped(x, i, j); multiset(a[..i]) == multiset(y[..i]) && a[i..] == y[i..]
  {
    assert y[..i + 1][i] == y[i];
    assert y[i] in multiset(x[..i + 1]);
    j :| 0 <= j < |x[..i + 1]| && x[..i + 1][j] == y[i];
    PlacedRight(x, y, i, j);
  }

  lemma PlacedRight<T>(x: seq<T>, y: seq<T>, i: nat, j: nat)
    requires j <= i < |x| == |y| && multiset(x[..i + 1]) == multiset(y[..i + 1]) && x[i + 1..] == y[i + 1..]
    requires x[j] == y[i]
    ensures var a := Swapped(x, i, j); multiset(a[..i]) == multiset(y[..i]) && a[i..] == y[i..]
  {
    var a := Swapped(x, i, j);
    assert a[..i + 1] == Swapped(x[..i + 1], i, j);
    SwapPermutes(x[..i + 1], i, j);
    hide Swapped;
    assert a[i] == y[i] by { SwappedEnds(x, i, j); }
    PrefixMultiset(a, y, i);
    assert a[i + 1..] == x[i + 1..] by { SwappedEnds(x, i, j); }
    assert a[i..] == [a[i]] + a[i + 1..] && y[i..] == [y[i]] + y[i + 1..];
  }

  lemma SwappedEnds<T>(x: seq<T>, i: nat, j: nat)
    requires j <= i < |x|
    ensures Swapped(x, i, j)[i] == x[j] && Swapped(x, i, j)[i + 1..] == x[i + 1..]
  {
  }

  lemma {:induction false} ChoicesAboveUnused<T>(x: seq<T>, i: nat, js: seq<nat>, ks: seq<nat>)
    requires i < |x| && Choices(js, i) && Choices(ks, i) && forall t | 1 <= t <= i :: js[t] == ks[t]
    ensures FisherYates(x, i, js) == FisherYates(x, i, ks)
    decreases i
  {
    if i > 0 {
      ChoicesAboveUnused(Swapped(x, i, js[i]), i - 1, js, ks);
    }
  }

  /** The choices are the generator's answers below i + 1, i, ..., 2 in turn, ending with generator `h`. */
  ghost predicate Chosen(g: Gen, i: nat, js: seq<nat>, attempts: nat, h: Gen)
    requires ValidGen(g) && i < |js|
    decreases i
  {
    if i == 0 then h == g
    else
      match FirstBelow(g, BitLength(i + 1), i + 1, attempts)
      case None => false
      case Some((v, next)) => v == js[i] && ValidGen(next) && Chosen(next, i - 1, js, attempts, h)
  }

  lemma BelowIsValid(g: Gen, k: nat, n: nat, attempts: nat)
    requires ValidGen(g) && FirstBelow(g, k, n, attempts).Some?
    ensures var (v, h) := FirstBelow(g, k, n, attempts).value; 0 <= v < n && ValidGen(h)
  {
    var m := FirstBelowIsFirst(g, k, n, attempts);
  }

  /** Draws made so far, from `top` down to above `i`. */
  ghost predicate ChosenAbove(g: Gen, top: nat, i: nat, js: seq<nat>, attempts: nat, now: Gen)
    requires ValidGen(g) && ValidGen(now) && i <= top < |js|
    decreases top
  {
    if i == top then now == g
    else
      match FirstBelow(g, BitLength(top + 1), top + 1, attempts)
      case None => false
      case Some((v, next)) =>
        v == js[top] && ValidGen(next) && ChosenAbove(next, top - 1, i, js, attempts, now)
  }

  lemma {:induction false} ChosenStep(g: Gen, top: nat, i: nat, js: seq<nat>, attempts: nat, now: Gen, v: nat,
                                      next: Gen)
    requires ValidGen(g) && ValidGen(now) && 0 < i <= top < |js| && ChosenAbove(g, top, i, js, attempts, now)
    requires FirstBelow(now, BitLength(i + 1), i + 1, attempts) == Some((v, next)) && ValidGen(next)
    ensures ChosenAbove(g, top, i - 1, js[i := v], attempts, next)
    decreases top
  {
    hide FirstBelow, BitLength;
    if i < top {
      ChosenStep(FirstBelow(g, BitLength(top + 1), top + 1, attempts).value.1, top - 1, i, js, attempts, now, v, next);
    } else {
      assert ChosenAbove(next, top - 1, i - 1, js[i := v], attempts, next);
    }
  }

  lemma {:induction false} ChosenAll(g: Gen, top: nat, js: seq<nat>, attempts: nat, now: Gen)
    requires ValidGen(g) && ValidGen(now) && top < |js| && ChosenAbove(g, top, 0, js, attempts, now)
    ensures Chosen(g, top, js, attempts, now)
    decreases top
  {
    hide FirstBelow, BitLength;
    if top > 0 {
      ChosenAll(FirstBelow(g, BitLength(top + 1), top + 1, attempts).value.1, top - 1, js, attempts, now);
    }
  }

  lemma {:induction false} StepDown<T>(x: seq<T>, top: nat, i: nat, js: seq<nat>, v: nat)
    requires 0 < i <= top < |x| == |js| && Choices(js, top) && v <= i && forall t | 1 <= t <= i :: js[t] == 0
    ensures Choices(js[i := v], top)
    ensures StepsAbove(x, top, i - 1, js[i := v]) == Swapped(StepsAbove(x, top, i, js), i, v)
    decreases top
  {
    if i < top {
      StepDown(Swapped(x, top, js[top]), top - 1, i, js, v);
    } else {
      assert StepsAbove(Swapped(x, top, v), top - 1, i - 1, js[i := v]) == Swapped(x, top, v);
    }
  }

  /** The exchanges at positions from `top` down to above `i` only. */
  ghost function StepsAbove<T>(x: seq<T>, top: nat, i: nat, js: seq<nat>): (r: seq<T>)
    requires i <= top < |x| && Choices(js, top)
    ensures |r| == |x|
    decreases top
  {
    if i == top then x else StepsAbove(Swapped(x, top, js[top]), top - 1, i, js)
  }

  lemma {:induction false} StepsToBottom<T>(x: seq<T>, top: nat, js: seq<nat>)
    requires top < |x| && Choices(js, top)
    ensures StepsAbove(x, top, 0, js) == FisherYates(x, top, js)
    decreases top
  {
    if top > 0 {
      StepsToBottom(Swapped(x, top, js[top]), top - 1, js);
    }
  }

  lemma SwappedBy<T>(x: seq<T>, i: nat, j: nat, y: seq<T>)
    requires i < |x| == |y| && j < |x| && y[i] == x[j] && y[j] == x[i]
    requires forall p | 0 <= p < |x| && p != i && p != j :: y[p] == x[p]
    ensures y == Swapped(x, i, j)
  {
  }

  lemma StartOfSteps<T>(g: Gen, x: seq<T>, js: seq<nat>, attempts: nat)
    requires ValidGen(g) && |js| == |x| > 0 && Choices(js, |x| - 1)
    ensures ChosenAbove(g, |x| - 1, |x| - 1, js, attempts, g) && StepsAbove(x, |x| - 1, |x| - 1, js) == x
  {
  }

  /**
   * Where the shuffle stands above place `i`: the choices made, the generator after them, and the arrangement they
   * give.
   */
  ghost predicate Standing<T>(start: seq<T>, g: Gen, top: nat, i: nat, js: seq<nat>, attempts: nat, x: seq<T>,
                              now: Gen) {
    && i <= top < |start| == |js| && ValidGen(g) && ValidGen(now)
    && Choices(js, top) && (forall t | 1 <= t <= i :: js[t] == 0)
    && ChosenAbove(g, top, i, js, attempts, now)
    && x == StepsAbove(start, top, i, js)
    && multiset(x) == multiset(start)
  }

  lemma StandingAtFirst<T>(g: Gen, start: seq<T>, attempts: nat)
    requires ValidGen(g) && |start| > 0
    ensures Standing(start, g, |start| - 1, |start| - 1, seq(|start|, _ => 0), attempts, start, g)
  {
    var js := seq(|start|, _ => 0);
    assert Choices(js, |start| - 1);
    StartOfSteps(g, start, js, attempts);
    hide ChosenAbove, StepsAbove;
  }

  lemma StandingNext<T>(start: seq<T>, g: Gen, top: nat, i: nat, js: seq<nat>, attempts: nat, x: seq<T>, now: Gen,
                        v: nat, next: Gen)
    requires i > 0 && Standing(start, g, top, i, js, attempts, x, now)
    requires FirstBelow(now, BitLength(i + 1), i + 1, attempts) == Some((v, next)) && ValidGen(next) && v <= i
    ensures Standing(start, g, top, i - 1, js[i := v], attempts, Swapped(x, i, v), next)
  {
    hide FirstBelow, BitLength, Draws, Swapped, ChosenAbove, StepsAbove;
    ChosenStep(g, top, i, js, attempts, now, v, next);
    StepDown(start, top, i, js, v);
    SwapPermutes(x, i, v);
  }

  lemma StandingAtLast<T>(start: seq<T>, g: Gen, top: nat, js: seq<nat>, attempts: nat, x: seq<T>, now: Gen)
    requires Standing(start, g, top, 0, js, attempts, x, now)
    ensures |js| == |start| && top < |js| && ValidGen(g) && Choices(js, top) && Chosen(g, top, js, attempts, now)
    ensures x == FisherYates(start, top, js)
  {
    hide FirstBelow, BitLength, ChosenAbove, StepsAbove, Chosen, FisherYates;
    ChosenAll(g, top, js, attempts, now);
    StepsToBottom(start, top, js);
  }

  /** One round: draw a place at or below `i` and exchange. */
  method Exchange<T>(mt: Mt19937, x: array<T>, i: nat, attempts: nat) returns (drawn: Option<int>)
    requires mt.Valid() && 0 < i < x.Length <= 0xffff_ffff_ffff_ffff
    requires x as object != mt && x as object != mt.state
    modifies mt, mt.state, x
    ensures mt.Valid() && mt.state == old(mt.state) && ValidGen(old(mt.Value())) && ValidGen(mt.Value())
    ensures match FirstBelow(old(mt.Value()), BitLength(i + 1), i + 1, attempts)
      case None => drawn == None && x[..] == old(x[..])
      case Some((v, next)) =>
        && drawn == Some(v) && 0 <= v <= i && mt.Value() == next
        && x[..] == Swapped(old(x[..]), i, v)
  {
    hide FirstBelow, BitLength, Draws, Swapped;
    ghost var before, now := x[..], mt.Value();
    drawn := RandBelow(mt, i + 1, attempts);
    if drawn.Some? {
      BelowIsValid(now, BitLength(i + 1), i + 1, attempts);
      var j := drawn.value;
      assert x[..] == before;
      x[i], x[j] := x[j], x[i];
      SwappedBy(before, i, j, x[..]);
    }
  }

  /**
   * Shuffles in place; `done` is false only when some draw was given up. The arrangement is the Fisher-Yates one for
   * exactly the answers the generator gives, and no draw is made for fewer than two elements.
   */
  method ShuffleInPlace<T>(mt: Mt19937, x: array<T>, attempts: nat) returns (done: bool, ghost js: seq<nat>)
    requires mt.Valid() && x.Length <= 0xffff_ffff_ffff_ffff
    requires x as object != mt && x as object != mt.state
    modifies mt, mt.state, x
    ensures mt.Valid() && mt.state == old(mt.state) && ValidGen(old(mt.Value()))
    ensures multiset(x[..]) == multiset(old(x[..]))
    ensures x.Length < 2 ==> done && x[..] == old(x[..]) && mt.Value() == old(mt.Value())
    ensures x.Length >= 2 && done ==>
      && |js| == x.Length && Choices(js, x.Length - 1)
      && Chosen(old(mt.Value()), x.Length - 1, js, attempts, mt.Value())
      && x[..] == FisherYates(old(x[..]), x.Length - 1, js)
  {
    hide FirstBelow, BitLength, Draws, Swapped, Standing, Chosen, FisherYates;
    ghost var start, g := x[..], mt.Value();
    js := [];
    if x.Length < 2 {
      return true, js;
    }
    ghost var top := x.Length - 1;
    js := seq(x.Length, _ => 0);
    StandingAtFirst(g, start, attempts);
    var i := x.Length - 1;
    while i > 0
      invariant 0 <= i <= top == x.Length - 1
      invariant mt.Valid() && mt.state == old(mt.state) && ValidGen(g) && ValidGen(mt.Value())
      invariant Standing(start, g, top, i, js, attempts, x[..], mt.Value())
    {
      ghost var now, before := mt.Value(), x[..];
      StandingFacts(start, g, top, i, js, attempts, before, now);
      var drawn := Exchange(mt, x, i, attempts);
      if drawn.None? {
        return false, js;
      }
      StandingNext(start, g, top, i, js, attempts, before, now, drawn.value, mt.Value());
      js := js[i := drawn.value];
      i := i - 1;
    }
    StandingFacts(start, g, top, 0, js, attempts, x[..], mt.Value());
    StandingAtLast(start, g, top, js, attempts, x[..], mt.Value());
    return true, js;
  }

  lemma StandingFacts<T>(start: seq<T>, g: Gen, top: nat, i: nat, js: seq<nat>, attempts: nat, x: seq<T>, now: Gen)
    requires Standing(start, g, top, i, js, attempts, x, now)
    ensures multiset(x) == multiset(start) && |js| == |start|
  {
  }
}
