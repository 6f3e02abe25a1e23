/** Byte strings in lexicographic order, and sorting them: a sorted listing depends only on what is listed. */
module TextOrder {
  import opened Common

  type Text = seq<Byte>

  predicate LexLe(a: Text, b: Text) {
    a == [] || (b != [] && (a[0] < b[0] || (a[0] == b[0] && LexLe(a[1..], b[1..]))))
  }

  lemma {:induction false} LexTotal(a: Text, b: Text)
    ensures LexLe(a, b) || LexLe(b, a)
  {
    if a != [] && b != [] && a[0] == b[0] {
      LexTotal(a[1..], b[1..]);
    }
  }

  lemma {:induction false} LexTransitive(a: Text, b: Text, c: Text)
    requires LexLe(a, b) && LexLe(b, c)
    ensures LexLe(a, c)
  {
    if a != [] && a[0] == b[0] && b[0] == c[0] {
      LexTransitive(a[1..], b[1..], c[1..]);
    }
  }

  lemma {:induction false} LexAntisymmetric(a: Text, b: Text)
    requires LexLe(a, b) && LexLe(b, a)
    ensures a == b
  {
    if a != [] {
      LexAntisymmetric(a[1..], b[1..]);
      assert a == [a[0]] + a[1..] && b == [b[0]] + b[1..];
    }
  }

  predicate Sorted(ts: seq<Text>) {
    forall i, j | 0 <= i < j < |ts| :: LexLe(ts[i], ts[j])
  }

  function Insert(t: Text, ts: seq<Text>): seq<Text> {
    if ts == [] || LexLe(t, ts[0]) then [t] + ts else [ts[0]] + Insert(t, ts[1..])
  }

  function Sort(ts: seq<Text>): seq<Text> {
    if ts == [] then [] else Insert(ts[0], Sort(ts[1..]))
  }

  lemma {:induction false} InsertPermutes(t: Text, ts: seq<Text>)
    ensures multiset(Insert(t, ts)) == multiset{t} + multiset(ts)
  {
    if ts != [] && !LexLe(t, ts[0]) {
      InsertPermutes(t, ts[1..]);
      assert ts == [ts[0]] + ts[1..];
    }
  }

  lemma {:induction false} InsertSorts(t: Text, ts: seq<Text>)
    requires Sorted(ts)
    ensures Sorted(Insert(t, ts))
  {
    if ts == [] {
    } else if LexLe(t, ts[0]) {
      forall j | 0 <= j < |ts| ensures LexLe(t, ts[j]) {
        if j > 0 { LexTransitive(t, ts[0], ts[j]); }
      }
    } else {
      InsertSorts(t, ts[1..]);
      InsertPermutes(t, ts[1..]);
      var rest := Insert(t, ts[1..]);
      forall j | 0 <= j < |rest| ensures LexLe(ts[0], rest[j]) {
        assert rest[j] in multiset(rest);
        if rest[j] == t {
          LexTotal(t, ts[0]);
        } else {
          assert rest[j] in multiset(ts[1..]);
          assert rest[j] in ts[1..];
        }
      }
    }
  }

  lemma {:induction false} SortCorrect(ts: seq<Text>)
    ensures Sorted(Sort(ts)) && multiset(Sort(ts)) == multiset(ts)
  {
    if ts != [] {
      SortCorrect(ts[1..]);
      InsertSorts(ts[0], Sort(ts[1..]));
      InsertPermutes(ts[0], Sort(ts[1..]));
      assert ts == [ts[0]] + ts[1..];
    }
  }

  lemma {:induction false} SortedUnique(a: seq<Text>, b: seq<Text>)
    requires Sorted(a) && Sorted(b) && multiset(a) == multiset(b)
    ensures a == b
  {
    if a == [] {
      assert |multiset(b)| == 0;
    } else {
      SameLeast(a, b);
      assert a == [a[0]] + a[1..] && b == [b[0]] + b[1..];
      assert multiset(a[1..]) == multiset(a) - multiset{a[0]};
      assert multiset(b[1..]) == multiset(b) - multiset{b[0]};
      SortedUnique(a[1..], b[1..]);
    }
  }

  lemma SameLeast(a: seq<Text>, b: seq<Text>)
    requires Sorted(a) && Sorted(b) && multiset(a) == multiset(b) && a != []
    ensures b != [] && a[0] == b[0]
  {
    assert |multiset(a)| == |multiset(b)|;
    assert a[0] in multiset(b) && b[0] in multiset(a);
    LeastBelow(a, b[0]);
    LeastBelow(b, a[0]);
    LexAntisymmetric(a[0], b[0]);
  }

  lemma LeastBelow(a: seq<Text>, t: Text)
    requires Sorted(a) && t in a
    ensures LexLe(a[0], t)
  {
    var i :| 0 <= i < |a| && a[i] == t;
    LexTotal(t, t);
  }

  /** Equal contents sort to the same list. */
  lemma SortCanonical(a: seq<Text>, b: seq<Text>)
    requires multiset(a) == multiset(b)
    ensures Sort(a) == Sort(b)
  {
    SortCorrect(a);
    SortCorrect(b);
    SortedUnique(Sort(a), Sort(b));
  }
}
