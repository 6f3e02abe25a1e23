/** A location table as written in a decoded value, and that reading it gives exactly what is written. */
module LocationTable {
  import opened Common
  import opened PyObjects
  import opened Locations
  import opened LocationReading

  /** A number, or a truth value standing for 1 or 0. */
  predicate Spells(v: PyObj, n: int) {
    v == Int(n) || (v == Bool(true) && n == 1) || (v == Bool(false) && n == 0)
  }

  /** The location is the key; item, receiver and flags follow in this order. */
  predicate RowSpells(row: (PyObj, PyObj), e: Entry) {
    && Spells(row.0, e.location)
    && (row.1.List? || row.1.Tuple? || row.1.Set?) && |row.1.items| == 3
    && Spells(row.1.items[0], e.item)
    && Spells(row.1.items[1], e.receiver)
    && Spells(row.1.items[2], e.flags)
  }

  /** A slot other than the server's, and its entries row by row. */
  predicate SlotSpells(slot: (PyObj, PyObj), key: Word, entries: seq<Entry>) {
    && key != 0 && Spells(slot.0, key)
    && slot.1.Dict? && |slot.1.pairs| == |entries|
    && forall i | 0 <= i < |entries| :: RowSpells(slot.1.pairs[i], entries[i]) && entries[i].sender == key
  }

  ghost predicate TableSpells(v: PyObj, keys: seq<Word>, groups: seq<seq<Entry>>) {
    && v.Dict? && |v.pairs| == |keys| == |groups|
    && forall i | 0 <= i < |keys| :: SlotSpells(v.pairs[i], keys[i], groups[i])
  }

  ghost function Flat(groups: seq<seq<Entry>>): seq<Entry> {
    if groups == [] then [] else Flat(groups[..|groups| - 1]) + Last(groups)
  }

  lemma IntSpelled(v: PyObj)
    ensures ReadInt(v).Ok? <==> v.Int? || v.Bool?
    ensures ReadInt(v).Ok? ==> Spells(v, ReadInt(v).value)
    ensures forall n :: Spells(v, n) ==> ReadInt(v) == Ok(n)
  {
  }

  lemma RowSpelled(sender: Word, row: (PyObj, PyObj), e: Entry)
    ensures ReadRow(sender, row) == Ok(e) <==> RowSpells(row, e) && e.sender == sender
  {
    IntSpelled(row.0);
    if row.1.List? || row.1.Tuple? || row.1.Set? {
      if |row.1.items| == 3 {
        IntSpelled(row.1.items[0]);
        IntSpelled(row.1.items[1]);
        IntSpelled(row.1.items[2]);
      }
    }
    hide ReadInt, Spells;
  }

  lemma {:induction false} RowsSpelled(sender: Word, rows: seq<(PyObj, PyObj)>, k: nat, entries: seq<Entry>)
    requires k <= |rows|
    ensures ReadRows(sender, rows, k) == Ok(entries) <==>
              |entries| == k && forall i | 0 <= i < k :: RowSpells(rows[i], entries[i]) && entries[i].sender == sender
    decreases k
  {
    hide ReadRow, RowSpells;
    if k > 0 {
      if entries != [] {
        var front := entries[..|entries| - 1];
        assert entries == front + [Last(entries)];
        RowsSpelled(sender, rows, k - 1, front);
        RowSpelled(sender, rows[k - 1], Last(entries));
        LastRow(sender, rows, k, entries);
      } else {
        RowsCounted(sender, rows, k);
      }
    }
  }

  lemma LastRow(sender: Word, rows: seq<(PyObj, PyObj)>, k: nat, entries: seq<Entry>)
    requires 0 < k <= |rows| && entries != []
    ensures ReadRows(sender, rows, k) == Ok(entries) <==>
              && ReadRows(sender, rows, k - 1) == Ok(entries[..|entries| - 1])
              && ReadRow(sender, rows[k - 1]) == Ok(Last(entries))
  {
    hide ReadRow;
    assert entries == entries[..|entries| - 1] + [Last(entries)];
    var before := ReadRows(sender, rows, k - 1);
    if ReadRows(sender, rows, k) == Ok(entries) {
      var e := ReadRow(sender, rows[k - 1]).value;
      assert entries == before.value + [e];
      assert before.value == entries[..|entries| - 1];
    }
  }

  lemma RowsCounted(sender: Word, rows: seq<(PyObj, PyObj)>, k: nat)
    requires k <= |rows|
    ensures ReadRows(sender, rows, k).Ok? ==> |ReadRows(sender, rows, k).value| == k
  {
    if ReadRows(sender, rows, k).Ok? {
      RowsOfSender(sender, rows, k);
    }
  }

  lemma SlotSpelled(slot: (PyObj, PyObj), key: Word, entries: seq<Entry>)
    ensures ReadSlot(slot) == Ok((key, entries)) <==> SlotSpells(slot, key, entries)
  {
    hide ReadRows, RowSpells;
    IntSpelled(slot.0);
    if slot.1.Dict? {
      RowsSpelled(key, slot.1.pairs, |slot.1.pairs|, entries);
    }
    hide Spells;
  }

  lemma {:induction false} SlotsSpelled(slots: seq<(PyObj, PyObj)>, k: nat, keys: seq<Word>, groups: seq<seq<Entry>>)
    requires k == |keys| == |groups| <= |slots|
    requires forall i | 0 <= i < k :: SlotSpells(slots[i], keys[i], groups[i])
    ensures ReadSlots(slots, k) == Ok(Table(keys, Flat(groups)))
    decreases k
  {
    hide ReadSlot, SlotSpells;
    if k > 0 {
      SlotsSpelled(slots, k - 1, keys[..k - 1], groups[..k - 1]);
      SlotSpelled(slots[k - 1], keys[k - 1], groups[k - 1]);
      assert keys == keys[..k - 1] + [keys[k - 1]];
    }
  }

  lemma {:induction false} SlotsHaveSpelling(slots: seq<(PyObj, PyObj)>, k: nat)
    returns (keys: seq<Word>, groups: seq<seq<Entry>>)
    requires k <= |slots| && ReadSlots(slots, k).Ok?
    ensures |keys| == |groups| == k && forall i | 0 <= i < k :: SlotSpells(slots[i], keys[i], groups[i])
    decreases k
  {
    hide ReadSlot, SlotSpells;
    keys, groups := [], [];
    if k > 0 {
      keys, groups := SlotsHaveSpelling(slots, k - 1);
      var (key, entries) := ReadSlot(slots[k - 1]).value;
      SlotSpelled(slots[k - 1], key, entries);
      keys, groups := keys + [key], groups + [entries];
    }
  }

  /** A table is read if and only if it is spelled out, and what is read is what is spelled, in its order. */
  lemma TableReadsBack(v: PyObj)
    ensures forall keys, groups :: TableSpells(v, keys, groups) ==> ReadTable(v) == Ok(Table(keys, Flat(groups)))
    ensures ReadTable(v).Ok? <==> exists keys, groups :: TableSpells(v, keys, groups)
  {
    hide SlotSpells;
    forall keys, groups | TableSpells(v, keys, groups) ensures ReadTable(v) == Ok(Table(keys, Flat(groups))) {
      SlotsSpelled(v.pairs, |v.pairs|, keys, groups);
    }
    if ReadTable(v).Ok? {
      var keys, groups := SlotsHaveSpelling(v.pairs, |v.pairs|);
      assert TableSpells(v, keys, groups);
    }
  }

  // Writing one out.

  ghost function WrittenRow(e: Entry): (PyObj, PyObj) {
    (Int(e.location), Tuple([Int(e.item), Int(e.receiver), Int(e.flags)]))
  }

  ghost function WrittenSlot(key: Word, entries: seq<Entry>): (PyObj, PyObj) {
    (Int(key), Dict(seq(|entries|, i requires 0 <= i < |entries| => WrittenRow(entries[i]))))
  }

  ghost function WrittenTable(keys: seq<Word>, groups: seq<seq<Entry>>): PyObj
    requires |keys| == |groups|
  {
    Dict(seq(|keys|, i requires 0 <= i < |keys| => WrittenSlot(keys[i], groups[i])))
  }

  /** Any slots and entries written out are read back. */
  lemma WrittenReadsBack(keys: seq<Word>, groups: seq<seq<Entry>>)
    requires |keys| == |groups| && forall i | 0 <= i < |keys| :: keys[i] != 0
    requires forall i | 0 <= i < |keys| :: forall j | 0 <= j < |groups[i]| :: groups[i][j].sender == keys[i]
    ensures ReadTable(WrittenTable(keys, groups)) == Ok(Table(keys, Flat(groups)))
  {
    hide ReadTable;
    TableReadsBack(WrittenTable(keys, groups));
    assert TableSpells(WrittenTable(keys, groups), keys, groups);
  }
}
