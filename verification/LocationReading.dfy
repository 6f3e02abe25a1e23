/** Reading a location table from a decoded value, and what a table that passes validation is. */
module LocationReading {
  import opened Common
  import opened PyObjects
  import opened Locations

  // Extraction.

  function ReadInt(v: PyObj): Result<int, TableError> {
    match v
    case Int(i) => Ok(i)
    case Bool(b) => Ok(if b then 1 else 0)
    case _ => Err(WrongType)
  }

  function ReadU32(v: PyObj): Result<Word, TableError> {
    var i :- ReadInt(v);
    if 0 <= i < WORD_BASE then Ok(i as Word) else Err(OutOfRange)
  }

  function ReadDict(v: PyObj): Result<seq<(PyObj, PyObj)>, TableError> {
    if v.Dict? then Ok(v.pairs) else Err(WrongType)
  }

  function ReadItems(v: PyObj, n: nat): (r: Result<seq<PyObj>, TableError>)
    ensures r.Ok? ==> |r.value| == n
  {
    if !(v.List? || v.Tuple? || v.Set?) then Err(WrongType)
    else if |v.items| != n then Err(WrongArity)
    else Ok(v.items)
  }

  /** One location: its key, and its item, receiver and flags. */
  function ReadRow(sender: Word, row: (PyObj, PyObj)): Result<Entry, TableError> {
    var location :- ReadInt(row.0);
    var t :- ReadItems(row.1, 3);
    var item :- ReadInt(t[0]);
    var receiver :- ReadU32(t[1]);
    var flags :- ReadU32(t[2]);
    Ok(Entry(sender, location, item, receiver, flags))
  }

  function ReadRows(sender: Word, rows: seq<(PyObj, PyObj)>, k: nat): Result<seq<Entry>, TableError>
    requires k <= |rows|
    decreases k
  {
    if k == 0 then Ok([])
    else
      var before :- ReadRows(sender, rows, k - 1);
      var e :- ReadRow(sender, rows[k - 1]);
      Ok(before + [e])
  }

  function ReadKey(v: PyObj): Result<Word, TableError> {
    var sender :- ReadU32(v);
    if sender == 0 then Err(ServerSlot) else Ok(sender)
  }

  /** One slot: its id and its entries. */
  function ReadSlot(slot: (PyObj, PyObj)): Result<(Word, seq<Entry>), TableError> {
    var sender :- ReadKey(slot.0);
    var rows :- ReadDict(slot.1);
    var entries :- ReadRows(sender, rows, |rows|);
    Ok((sender, entries))
  }

  /** The declared slots and all entries of the first `k` slots. */
  datatype Table = Table(keys: seq<Word>, entries: seq<Entry>)

  function ReadSlots(slots: seq<(PyObj, PyObj)>, k: nat): Result<Table, TableError>
    requires k <= |slots|
    decreases k
  {
    if k == 0 then Ok(Table([], []))
    else
      var before :- ReadSlots(slots, k - 1);
      var slot :- ReadSlot(slots[k - 1]);
      Ok(Table(before.keys + [slot.0], before.entries + slot.1))
  }

  function ReadTable(v: PyObj): Result<Table, TableError> {
    var slots :- ReadDict(v);
    ReadSlots(slots, |slots|)
  }

  function Highest(keys: seq<Word>): Word {
    if keys == [] then 0
    else
      var rest := Highest(keys[..|keys| - 1]);
      if rest < Last(keys) then Last(keys) else rest
  }

  lemma {:induction false} HighestBounds(keys: seq<Word>)
    ensures forall i | 0 <= i < |keys| :: keys[i] <= Highest(keys)
    ensures keys != [] ==> Highest(keys) in keys
  {
    if keys != [] {
      HighestBounds(keys[..|keys| - 1]);
      assert keys == keys[..|keys| - 1] + [Last(keys)];
    }
  }

  /** What reading guarantees: every entry belongs to a declared slot, and no slot is the server's. */
  predicate Declared(t: Table) {
    && (forall i | 0 <= i < |t.entries| :: t.entries[i].sender in t.keys)
    && (forall i | 0 <= i < |t.keys| :: t.keys[i] != 0)
  }

  lemma {:induction false} RowsOfSender(sender: Word, rows: seq<(PyObj, PyObj)>, k: nat)
    requires k <= |rows| && ReadRows(sender, rows, k).Ok?
    ensures |ReadRows(sender, rows, k).value| == k
    ensures forall i | 0 <= i < k :: ReadRows(sender, rows, k).value[i].sender == sender
    decreases k
  {
    if k > 0 {
      RowsOfSender(sender, rows, k - 1);
    }
  }

  lemma SlotOfSender(slot: (PyObj, PyObj))
    requires ReadSlot(slot).Ok?
    ensures ReadSlot(slot).value.0 != 0
    ensures forall i | 0 <= i < |ReadSlot(slot).value.1| :: ReadSlot(slot).value.1[i].sender == ReadSlot(slot).value.0
  {
    RowsOfSender(ReadKey(slot.0).value, slot.1.pairs, |slot.1.pairs|);
  }

  lemma {:induction false} SlotsDeclared(slots: seq<(PyObj, PyObj)>, k: nat)
    requires k <= |slots| && ReadSlots(slots, k).Ok?
    ensures Declared(ReadSlots(slots, k).value) && |ReadSlots(slots, k).value.keys| == k
    decreases k
  {
    if k > 0 {
      SlotsDeclared(slots, k - 1);
      var before := ReadSlots(slots, k - 1).value;
      var sender := ReadSlot(slots[k - 1]).value.0;
      SlotOfSender(slots[k - 1]);
      var t := ReadSlots(slots, k).value;
      assert t.keys == before.keys + [sender];
      assert t.entries == before.entries + ReadSlot(slots[k - 1]).value.1;
      assert sender in t.keys && forall w | w in before.keys :: w in t.keys;
    }
  }

  lemma {:induction false} RowsFailEarly(sender: Word, rows: seq<(PyObj, PyObj)>, j: nat, k: nat)
    requires j <= k <= |rows| && ReadRows(sender, rows, j).Err?
    ensures ReadRows(sender, rows, k) == ReadRows(sender, rows, j)
    decreases k
  {
    if j < k {
      RowsFailEarly(sender, rows, j, k - 1);
    }
  }

  lemma {:induction false} SlotsFailEarly(slots: seq<(PyObj, PyObj)>, j: nat, k: nat)
    requires j <= k <= |slots| && ReadSlots(slots, j).Err?
    ensures ReadSlots(slots, k) == ReadSlots(slots, j)
    decreases k
  {
    if j < k {
      SlotsFailEarly(slots, j, k - 1);
    }
  }

  /** Read one slot, row by row. */
  method SlotFrom(slot: (PyObj, PyObj)) returns (r: Result<(Word, seq<Entry>), TableError>)
    ensures r == ReadSlot(slot)
  {
    hide ReadRow;
    var sender :- ReadKey(slot.0);
    var rows :- ReadDict(slot.1);
    var entries: seq<Entry> := [];
    var i := 0;
    while i < |rows|
      invariant 0 <= i <= |rows|
      invariant ReadRows(sender, rows, i) == Ok(entries)
    {
      match ReadRow(sender, rows[i]) {
        case Ok(e) =>
          entries := entries + [e];
        case Err(e) =>
          RowsFailEarly(sender, rows, i + 1, |rows|);
          return Err(e);
      }
      i := i + 1;
    }
    return Ok((sender, entries));
  }

  lemma NoKeys()
    ensures Highest([]) == 0
  {
  }

  lemma OneMoreKey(keys: seq<Word>, w: Word)
    ensures Highest(keys + [w]) == if Highest(keys) < w then w else Highest(keys)
  {
    assert (keys + [w])[..|keys|] == keys;
  }

  /** Read every slot, keeping the highest id and counting the keys. */
  method SlotsFrom(slots: seq<(PyObj, PyObj)>) returns (r: Result<(seq<Entry>, Word, nat), TableError>)
    ensures r == match ReadSlots(slots, |slots|)
                 case Err(e) => Err(e)
                 case Ok(t) => Ok((t.entries, Highest(t.keys), |t.keys|))
  {
    var entries: seq<Entry> := [];
    ghost var keys: seq<Word> := [];
    var maxSlot: Word := 0;
    var count := 0;
    var i := 0;
    hide ReadSlot, Highest;
    assert maxSlot == Highest(keys) by { NoKeys(); }
    while i < |slots|
      invariant 0 <= i <= |slots|
      invariant ReadSlots(slots, i) == Ok(Table(keys, entries))
      invariant count == |keys| && maxSlot == Highest(keys)
    {
      var read := SlotFrom(slots[i]);
      if read.Err? {
        SlotsFailEarly(slots, i + 1, |slots|);
        return Err(read.error);
      }
      count := count + 1;
      var (sender, more) := read.value;
      OneMoreKey(keys, sender);
      maxSlot := if maxSlot < sender then sender else maxSlot;
      entries := entries + more;
      keys := keys + [sender];
      i := i + 1;
    }
    return Ok((entries, maxSlot, count));
  }

  lemma EntriesWithin(t: Table)
    requires Declared(t)
    ensures forall i | 0 <= i < |t.entries| :: 1 <= t.entries[i].sender <= Highest(t.keys)
  {
    HighestBounds(t.keys);
    forall i | 0 <= i < |t.entries| ensures 1 <= t.entries[i].sender <= Highest(t.keys) {
      assert t.entries[i].sender in t.keys;
    }
  }

  /** Read the table slot by slot, then sort and index it; the number of keys read is the number of slots declared. */
  method FromPy(v: PyObj) returns (r: Result<Store, TableError>)
    requires ReadTable(v).Ok? ==> |ReadTable(v).value.entries| < WORD_BASE
    ensures ReadTable(v).Err? <==> r.Err?
    ensures r.Err? ==> ReadTable(v) == Err(r.error)
    ensures r.Ok? ==> IsStoreOf(r.value, ReadTable(v).value)
  {
    var slots :- ReadDict(v);
    var all :- SlotsFrom(slots);
    var (entries, maxSlot, count) := all;
    SlotsDeclared(slots, |slots|);
    EntriesWithin(ReadTable(v).value);
    hide ReadSlots, Highest, Declared;
    var store := FromEntries(entries, maxSlot);
    return Ok(store.(slots := count));
  }

  /** The store of a table as read. */
  predicate IsStoreOf(s: Store, t: Table) {
    Built(s, t.entries, Highest(t.keys)) && s.slots == |t.keys|
  }

  // What validation accepts.

  predicate DistinctSlots(keys: seq<Word>) {
    forall i, j | 0 <= i < j < |keys| :: keys[i] != keys[j]
  }

  predicate OneToHighest(keys: seq<Word>) {
    forall w: Word :: 1 <= w <= Highest(keys) ==> w in keys
  }

  /** What passing validation means for a table as read. */
  lemma ValidMeans(s: Store, t: Table)
    requires Declared(t) && IsStoreOf(s, t)
    ensures Passes(s) <==> t.entries != [] && |t.keys| == Highest(t.keys) && DistinctPlaces(t.entries)
  {
    EntriesWithin(t);
    NeighboursSuffice(s, t.entries, Highest(t.keys));
    if DistinctPlaces(s.entries) {
      DistinctPlacesMoves(s.entries, t.entries);
    }
    if DistinctPlaces(t.entries) {
      DistinctPlacesMoves(t.entries, s.entries);
    }
    assert s.entries == [] <==> t.entries == [] by {
      assert |multiset(s.entries)| == |multiset(t.entries)|;
    }
  }

  function Range(n: nat): (r: set<Word>)
    requires n < WORD_BASE
    ensures |r| == n && forall w: Word :: w in r <==> 1 <= w <= n
  {
    if n == 0 then {} else Range(n - 1) + {n as Word}
  }

  function KeysOf(keys: seq<Word>): set<Word> {
    set w | w in keys
  }

  lemma {:induction false} DistinctCount(keys: seq<Word>)
    requires DistinctSlots(keys)
    ensures |KeysOf(keys)| == |keys|
  {
    if keys == [] {
      assert KeysOf(keys) == {};
    } else {
      var front := keys[..|keys| - 1];
      DistinctCount(front);
      assert keys == front + [Last(keys)];
      assert KeysOf(keys) == KeysOf(front) + {Last(keys)};
      assert Last(keys) !in front;
    }
  }

  /**
   * With distinct slot keys, counting them is enough: as many as the highest, and they are exactly 1 to the highest.
   */
  lemma CountingFindsGaps(keys: seq<Word>)
    requires DistinctSlots(keys) && forall i | 0 <= i < |keys| :: keys[i] != 0
    ensures |keys| == Highest(keys) <==> OneToHighest(keys)
  {
    HighestBounds(keys);
    DistinctCount(keys);
    var all := Range(Highest(keys));
    CountedAgainst(keys, Highest(keys), all);
  }

  lemma CountedAgainst(keys: seq<Word>, n: nat, all: set<Word>)
    requires |KeysOf(keys)| == |keys| && |all| == n && forall w: Word :: w in all <==> 1 <= w <= n
    requires forall i | 0 <= i < |keys| :: 1 <= keys[i] <= n
    ensures |keys| == n <==> forall w: Word :: 1 <= w <= n ==> w in keys
  {
    assert KeysOf(keys) <= all;
    if |keys| == n {
      SubsetOfSameSize(KeysOf(keys), all);
      forall w: Word | 1 <= w <= n ensures w in keys {
        assert w in KeysOf(keys);
      }
    }
    if forall w: Word :: 1 <= w <= n ==> w in keys {
      assert KeysOf(keys) == all;
    }
  }

  lemma {:induction false} FewerWhenRepeated(keys: seq<Word>)
    ensures |KeysOf(keys)| <= |keys|
    ensures |KeysOf(keys)| == |keys| ==> DistinctSlots(keys)
  {
    if keys == [] {
      assert KeysOf(keys) == {};
    } else {
      var front := keys[..|keys| - 1];
      FewerWhenRepeated(front);
      assert keys == front + [Last(keys)];
      assert KeysOf(keys) == KeysOf(front) + {Last(keys)};
      assert Last(keys) in front ==> KeysOf(keys) == KeysOf(front);
    }
  }

  /** As many keys as the highest, and every number up to it among them, leave no room for a repeat. */
  lemma NoRoomForRepeats(keys: seq<Word>)
    requires |keys| == Highest(keys) && OneToHighest(keys)
    ensures DistinctSlots(keys)
  {
    FewerWhenRepeated(keys);
    var all := Range(Highest(keys));
    assert all <= KeysOf(keys);
    SubsetSize(all, KeysOf(keys));
  }

  lemma SubsetSize(a: set<Word>, b: set<Word>)
    requires a <= b
    ensures |a| <= |b|
  {
    assert b == a + (b - a);
  }

  /** A table that passes declares exactly 1 to its highest if and only if no slot key was given twice. */
  lemma PassingTableIsContiguous(s: Store, t: Table)
    requires Declared(t) && IsStoreOf(s, t) && Passes(s)
    ensures OneToHighest(t.keys) <==> DistinctSlots(t.keys)
  {
    ValidMeans(s, t);
    if DistinctSlots(t.keys) {
      CountingFindsGaps(t.keys);
    }
    if OneToHighest(t.keys) {
      NoRoomForRepeats(t.keys);
    }
  }

  /**
   * A table with distinct slot keys that passes has exactly the slots 1 to the highest, and every lookup is the map's.
   */
  lemma ValidTable(s: Store, t: Table, slot: Word, location: int, r: Option<Entry>)
    requires Declared(t) && IsStoreOf(s, t)
    requires DistinctSlots(t.keys) && Passes(s) && Answers(s, slot, location, r)
    ensures OneToHighest(t.keys)
    ensures r == if (slot, location) in PlainMap(t.entries) then Some(PlainMap(t.entries)[(slot, location)]) else None
  {
    ValidMeans(s, t);
    CountingFindsGaps(t.keys);
    EntriesWithin(t);
    GetIsMapLookup(s, t.entries, Highest(t.keys), slot, location, r);
  }

  /** Slot 1 with one location, slot 3 empty, and slot 3 given again. */
  const GAPPED := [
    (Int(1), Dict([(Int(10), PyObjects.Tuple([Int(77), Int(1), Int(0)]))])),
    (Int(3), Dict([])),
    (Int(3), Dict([]))]

  lemma GappedReads()
    ensures ReadTable(Dict(GAPPED)) == Ok(Table([1, 3, 3], [Entry(1, 10, 77, 1, 0)]))
  {
    var e := Entry(1, 10, 77, 1, 0);
    var rows := GAPPED[0].1.pairs;
    assert ReadRow(1, rows[0]) == Ok(e);
    assert ReadRows(1, rows, 0) == Ok([]);
    assert ReadRows(1, rows, 1) == Ok([] + [e]);
    assert [] + [e] == [e] && [e] + [] == [e];
    assert ReadSlot(GAPPED[0]) == Ok((1, [e]));
    assert ReadRows(3, GAPPED[1].1.pairs, 0) == Ok([]);
    assert ReadSlot(GAPPED[1]) == Ok((3, []));
    var one: seq<Word> := [1];
    var two: seq<Word> := [1, 3];
    var three: seq<Word> := [1, 3, 3];
    assert [] + [1] == one && one + [3] == two && two + [3] == three;
    assert ReadSlots(GAPPED, 0) == Ok(Table([], []));
    assert ReadSlots(GAPPED, 1) == Ok(Table(one, [e]));
    assert ReadSlot(GAPPED[1]) == Ok((3, []));
    assert ReadSlots(GAPPED, 2) == Ok(Table(two, [e]));
    assert ReadSlots(GAPPED, 3) == Ok(Table(three, [e]));
  }

  lemma GappedHighest()
    ensures Highest([1, 3, 3]) == 3
  {
    assert [1, 3, 3][..2] == [1, 3] && [1, 3][..1] == [1] && [1][..0] == [];
    assert Highest([1]) == 1;
    assert Highest([1, 3]) == 3;
  }

  /** With a slot key given twice the count hides a gap: this table passes, and slot 2 is declared nowhere. */
  lemma RepeatedKeyHidesGap(s: Store)
    requires ReadTable(Dict(GAPPED)).Ok?
    requires IsStoreOf(s, ReadTable(Dict(GAPPED)).value)
    ensures Passes(s) && !OneToHighest(ReadTable(Dict(GAPPED)).value.keys)
  {
    GappedReads();
    GappedHighest();
    hide ReadTable, Highest;
    var t := Table([1, 3, 3], [Entry(1, 10, 77, 1, 0)]);
    ValidMeans(s, t);
    var two: Word := 2;
    assert two !in t.keys;
  }
}
