/** The location table (`crates/pahoa-multidata/src/locations.rs`): one sorted array and a per-slot index. */
module Locations {
  import opened Common

  datatype Entry = Entry(sender: Word, location: int, item: int, receiver: Word, flags: Word)

  /** `index[s]` is where slot `s` starts in `entries` and how many it has; `slots` is how many slots are declared. */
  datatype Store = Store(entries: seq<Entry>, index: seq<(nat, nat)>, slots: nat)

  datatype TableError = WrongType | WrongArity | OutOfRange | ServerSlot | NoLocations | NotContiguous | Repeated

  // Sorting.

  /** By sender, then location. */
  predicate Before(a: Entry, b: Entry) {
    a.sender < b.sender || (a.sender == b.sender && a.location <= b.location)
  }

  predicate Ordered(es: seq<Entry>) {
    forall i, j | 0 <= i < j < |es| :: Before(es[i], es[j])
  }

  /** How a sort may leave the input: entries with equal keys may come in any order. */
  predicate Sorts(sorted: seq<Entry>, input: seq<Entry>) {
    Ordered(sorted) && multiset(sorted) == multiset(input)
  }

  function InsertEntry(e: Entry, es: seq<Entry>): seq<Entry> {
    if es == [] || Before(e, es[0]) then [e] + es else [es[0]] + InsertEntry(e, es[1..])
  }

  function SortEntries(es: seq<Entry>): seq<Entry> {
    if es == [] then [] else InsertEntry(es[0], SortEntries(es[1..]))
  }

  lemma {:induction false} InsertEntrySorts(e: Entry, es: seq<Entry>)
    requires Ordered(es)
    ensures Ordered(InsertEntry(e, es)) && multiset(InsertEntry(e, es)) == multiset{e} + multiset(es)
  {
    if es != [] {
      assert es == [es[0]] + es[1..];
      if !Before(e, es[0]) {
        InsertEntrySorts(e, es[1..]);
        var rest := InsertEntry(e, es[1..]);
        forall j | 0 <= j < |rest| ensures Before(es[0], rest[j]) {
          assert rest[j] in multiset(rest);
          assert rest[j] == e || rest[j] in es[1..];
        }
      }
    }
  }

  lemma {:induction false} SortEntriesSorts(es: seq<Entry>)
    ensures Sorts(SortEntries(es), es)
  {
    if es != [] {
      SortEntriesSorts(es[1..]);
      InsertEntrySorts(es[0], SortEntries(es[1..]));
      assert es == [es[0]] + es[1..];
    }
  }

  // The index.

  predicate IndexFits(s: Store) {
    forall k | 0 <= k < |s.index| :: s.index[k].0 + s.index[k].1 <= |s.entries|
  }

  predicate InRun(run: (nat, nat), i: nat) {
    run.0 <= i < run.0 + run.1
  }

  /** Each slot's run is exactly the places its entries hold. */
  predicate IndexOk(s: Store) {
    && IndexFits(s)
    && (forall k, i | 0 <= k < |s.index| && 0 <= i < |s.entries| :: InRun(s.index[k], i) <==> s.entries[i].sender == k)
  }

  function Senders(es: seq<Entry>): set<Word> {
    set i | 0 <= i < |es| :: es[i].sender
  }

  /** A store holding these entries, sorted and indexed. */
  predicate Built(s: Store, input: seq<Entry>, maxSlot: Word) {
    Sorts(s.entries, input) && IndexOk(s) && |s.index| == maxSlot + 1
  }

  /** Where the run of equal senders that starts here ends. */
  method RunEnd(es: seq<Entry>, start: nat) returns (end: nat)
    requires start < |es| && Ordered(es)
    ensures start < end <= |es|
    ensures forall j | start <= j < end :: es[j].sender == es[start].sender
    ensures end < |es| ==> es[end - 1].sender < es[end].sender
  {
    end := start;
    while end < |es| && es[end].sender == es[start].sender
      invariant start <= end <= |es|
      invariant forall j | start <= j < end :: es[j].sender == es[start].sender
    {
      end := end + 1;
    }
    assert end < |es| ==> Before(es[end - 1], es[end]);
  }

  /** The first `i` entries are indexed, and no run reaches further. */
  predicate IndexedTo(index: seq<(nat, nat)>, es: seq<Entry>, i: nat) {
    && i <= |es|
    && (forall k | 0 <= k < |index| :: index[k].0 + index[k].1 <= i)
    && (forall k, j | 0 <= k < |index| && 0 <= j < i :: InRun(index[k], j) <==> es[j].sender == k)
  }

  lemma IndexGrows(index: seq<(nat, nat)>, es: seq<Entry>, i: nat, end: nat)
    requires i < end <= |es| && es[i].sender < |index| && IndexedTo(index, es, i)
    requires forall j | 0 <= j < i :: es[j].sender < es[i].sender
    requires forall j | i <= j < end :: es[j].sender == es[i].sender
    ensures IndexedTo(index[es[i].sender as int := (i, end - i)], es, end)
  {
  }

  lemma IndexedAll(s: Store)
    requires IndexedTo(s.index, s.entries, |s.entries|)
    ensures IndexOk(s)
  {
  }

  lemma NoSenders(es: seq<Entry>)
    requires es == []
    ensures |Senders(es)| == 0
  {
    assert Senders(es) == {};
  }

  lemma HasSender(es: seq<Entry>, i: nat)
    requires i < |es|
    ensures es[i].sender in Senders(es)
  {
  }

  lemma SendersWithin(es: seq<Entry>, sender: Word, maxSlot: Word)
    requires sender in Senders(es) && forall i | 0 <= i < |es| :: es[i].sender <= maxSlot
    ensures sender <= maxSlot
  {
  }

  lemma EarlierBelow(es: seq<Entry>, i: nat)
    requires i < |es| && Ordered(es) && (i > 0 ==> es[i - 1].sender < es[i].sender)
    ensures forall j | 0 <= j < i :: es[j].sender < es[i].sender
  {
    forall j | 0 <= j < i ensures es[j].sender < es[i].sender {
      assert j < i - 1 ==> Before(es[j], es[i - 1]);
    }
  }

  /** Sort the entries and index them, one run per sender. */
  method FromEntries(input: seq<Entry>, maxSlot: Word) returns (s: Store)
    requires |input| < WORD_BASE && forall i | 0 <= i < |input| :: input[i].sender <= maxSlot
    ensures Built(s, input, maxSlot)
    ensures s.slots == |Senders(input)|
  {
    var es := SortEntries(input);
    SortEntriesSorts(input);
    SameSenders(es, input);
    var n := |es|;
    assert n == |multiset(es)| == |input|;
    var index := new (nat, nat)[maxSlot + 1](_ => (0, 0));
    assert IndexedTo(index[..], es, 0);
    hide SortEntries, InsertEntry, Before, Senders, IndexedTo;
    var i := 0;
    var slots := 0;
    assert |Senders(es[..0])| == 0 by { NoSenders(es[..0]); }
    while i < n
      invariant 0 <= i <= n
      invariant 0 < i < n ==> es[i - 1].sender < es[i].sender
      invariant IndexedTo(index[..], es, i)
      invariant slots == |Senders(es[..i])|
    {
      var sender := es[i].sender;
      assert sender in Senders(es) by { HasSender(es, i); }
      assert sender <= maxSlot by { SendersWithin(input, sender, maxSlot); }
      var end := RunEnd(es, i);
      EarlierBelow(es, i);
      NewSender(es, i, end, sender);
      // Both fit 32 bits, the array holding fewer entries than that.
      assert i < WORD_BASE && end - i < WORD_BASE;
      IndexGrows(index[..], es, i, end);
      index[sender] := (i, end - i);
      slots := slots + 1;
      i := end;
    }
    assert es[..n] == es;
    s := Store(es, index[..], slots);
    IndexedAll(s);
  }

  lemma SameSenders(a: seq<Entry>, b: seq<Entry>)
    requires multiset(a) == multiset(b)
    ensures Senders(a) == Senders(b)
  {
    assert forall e :: e in multiset(a) <==> e in a;
    assert forall e :: e in multiset(b) <==> e in b;
    forall w: Word ensures w in Senders(a) <==> w in Senders(b) {
      SenderMoves(a, b, w);
      SenderMoves(b, a, w);
    }
  }

  lemma SenderMoves(a: seq<Entry>, b: seq<Entry>, w: Word)
    requires multiset(a) == multiset(b)
    ensures w in Senders(a) ==> w in Senders(b)
  {
    if w in Senders(a) {
      var i :| 0 <= i < |a| && a[i].sender == w;
      assert a[i] in multiset(b);
      var j :| 0 <= j < |b| && b[j] == a[i];
    }
  }

  lemma NewSender(es: seq<Entry>, start: nat, i: nat, sender: Word)
    requires start < i <= |es|
    requires forall j | 0 <= j < start :: es[j].sender < sender
    requires forall j | start <= j < i :: es[j].sender == sender
    ensures |Senders(es[..i])| == |Senders(es[..start])| + 1
  {
    assert es[start].sender == sender;
    assert es[..i][start] == es[start];
    assert Senders(es[..i]) == Senders(es[..start]) + {sender};
    assert sender !in Senders(es[..start]);
  }

  // Reading the table back.

  function MaxSlot(s: Store): nat {
    if |s.index| == 0 then 0 else |s.index| - 1
  }

  function ForSlot(s: Store, slot: nat): seq<Entry>
    requires IndexFits(s)
  {
    if slot < |s.index| then s.entries[s.index[slot].0 .. s.index[slot].0 + s.index[slot].1] else []
  }

  lemma RunIsAll(s: Store, slot: nat, e: Entry)
    requires IndexOk(s) && slot < |s.index|
    ensures multiset(ForSlot(s, slot))[e] == if e.sender == slot then multiset(s.entries)[e] else 0
  {
    var es := s.entries;
    var a, b := s.index[slot].0, s.index[slot].0 + s.index[slot].1;
    var left, run, right := es[..a], es[a..b], es[b..];
    assert es == left + run + right;
    forall i | 0 <= i < |left| ensures left[i].sender != slot {
      assert !InRun(s.index[slot], i);
    }
    forall i | 0 <= i < |run| ensures run[i].sender == slot {
      assert InRun(s.index[slot], a + i);
    }
    forall i | 0 <= i < |right| ensures right[i].sender != slot {
      assert !InRun(s.index[slot], b + i);
    }
    hide IndexOk, InRun;
    assert e.sender == slot ==> e !in left && e !in right;
    assert e.sender != slot ==> e !in run;
    assert multiset(es) == multiset(left) + multiset(run) + multiset(right);
  }

  /** `for_slot` holds exactly the input entries of that slot, as often as the input does, by ascending location. */
  lemma ForSlotHolds(s: Store, input: seq<Entry>, maxSlot: Word, slot: nat, e: Entry)
    requires Built(s, input, maxSlot) && forall i | 0 <= i < |input| :: input[i].sender <= maxSlot
    ensures multiset(ForSlot(s, slot))[e] == if e.sender == slot then multiset(input)[e] else 0
    ensures forall i, j | 0 <= i < j < |ForSlot(s, slot)| ::
      ForSlot(s, slot)[i].location <= ForSlot(s, slot)[j].location
  {
    SliceAscends(s, slot);
    if slot < |s.index| {
      RunIsAll(s, slot, e);
    } else {
      assert e.sender == slot ==> e !in multiset(input);
    }
  }

  lemma SliceAscends(s: Store, slot: nat)
    requires IndexOk(s) && Ordered(s.entries)
    ensures forall i, j | 0 <= i < j < |ForSlot(s, slot)| ::
      ForSlot(s, slot)[i].location <= ForSlot(s, slot)[j].location
  {
    var slice := ForSlot(s, slot);
    forall i | 0 <= i < |slice| ensures slice[i].sender == slot {
      assert InRun(s.index[slot], s.index[slot].0 + i);
    }
  }

  /** The slices of slots below `k`, joined. */
  function Slices(s: Store, k: nat): seq<Entry>
    requires IndexFits(s)
    decreases k
  {
    if k == 0 then [] else Slices(s, k - 1) + ForSlot(s, k - 1)
  }

  /** In a sorted array the run of a slot starts where the entries of earlier slots end. */
  lemma RunStarts(s: Store, k: nat, p: nat)
    requires IndexOk(s) && Ordered(s.entries) && k < |s.index| && p <= |s.entries|
    requires forall i | 0 <= i < |s.entries| :: i < p <==> s.entries[i].sender < k
    ensures s.index[k].1 > 0 ==> s.index[k].0 == p
    ensures forall i | 0 <= i < |s.entries| :: i < p + s.index[k].1 <==> s.entries[i].sender < k + 1
  {
    var es := s.entries;
    var run := s.index[k];
    if run.1 > 0 {
      assert InRun(run, run.0);
      assert es[run.0].sender == k && p <= run.0;
      assert p == run.0 || Before(es[p], es[run.0]);
      assert es[p].sender == k;
      assert InRun(run, p);
    }
    forall i | 0 <= i < |es| ensures i < p + run.1 <==> es[i].sender < k + 1 {
      assert InRun(run, i) <==> es[i].sender == k;
      assert i < p <==> es[i].sender < k;
    }
  }

  predicate PrefixBelow(s: Store, prefix: seq<Entry>, k: nat) {
    prefix <= s.entries && forall i | 0 <= i < |s.entries| :: i < |prefix| <==> s.entries[i].sender < k
  }

  lemma NextSlice(s: Store, k: nat, prefix: seq<Entry>)
    requires IndexOk(s) && Ordered(s.entries) && k < |s.index| && PrefixBelow(s, prefix, k)
    ensures PrefixBelow(s, prefix + ForSlot(s, k), k + 1)
  {
    var p := |prefix|;
    RunStarts(s, k, p);
    var end := p + s.index[k].1;
    assert ForSlot(s, k) == s.entries[p..end];
    hide IndexOk, Ordered, ForSlot;
    assert prefix == s.entries[..p];
    assert s.entries[..p] + s.entries[p..end] == s.entries[..end];
  }

  lemma {:induction false} SlicesArePrefix(s: Store, k: nat)
    requires IndexOk(s) && Ordered(s.entries) && k <= |s.index|
    ensures PrefixBelow(s, Slices(s, k), k)
    decreases k
  {
    hide *;
    FitsIfOk(s);
    SlicesUnfold(s, k);
    if k == 0 {
      NoSlice(s);
    } else {
      SlicesArePrefix(s, k - 1);
      NextSlice(s, k - 1, Slices(s, k - 1));
    }
  }

  lemma SlicesUnfold(s: Store, k: nat)
    requires IndexFits(s)
    ensures Slices(s, k) == if k == 0 then [] else Slices(s, k - 1) + ForSlot(s, k - 1)
  {
  }

  lemma NoSlice(s: Store)
    ensures PrefixBelow(s, [], 0)
  {
  }

  lemma FitsIfOk(s: Store)
    requires IndexOk(s)
    ensures IndexFits(s)
  {
  }

  /** The slices of all slots, in order, are the sorted array: nothing is outside them and nothing in two. */
  lemma SlicesPartition(s: Store, input: seq<Entry>, maxSlot: Word)
    requires Built(s, input, maxSlot) && forall i | 0 <= i < |input| :: input[i].sender <= maxSlot
    ensures Slices(s, |s.index|) == s.entries && multiset(s.entries) == multiset(input)
  {
    SlicesArePrefix(s, |s.index|);
    forall i | 0 <= i < |s.entries| ensures s.entries[i].sender <= maxSlot {
      assert s.entries[i] in multiset(input);
    }
    var n := |s.entries|;
    if n > 0 {
      assert s.entries[n - 1].sender < |s.index|;
      assert n - 1 < |Slices(s, |s.index|)|;
    }
    assert s.entries[..n] == s.entries;
  }

  // Lookup.

  /** What a lookup may answer. */
  predicate Answers(s: Store, slot: nat, location: int, r: Option<Entry>)
    requires IndexFits(s)
  {
    match r
    case Some(e) => e in ForSlot(s, slot) && e.location == location
    case None => forall e | e in ForSlot(s, slot) :: e.location != location
  }

  /** Binary search in the slot's slice. */
  method Get(s: Store, slot: nat, location: int) returns (r: Option<Entry>)
    requires IndexOk(s) && Ordered(s.entries)
    ensures Answers(s, slot, location, r)
  {
    var slice := ForSlot(s, slot);
    SliceAscends(s, slot);
    var lo, hi := 0, |slice|;
    while lo < hi
      invariant 0 <= lo <= hi <= |slice|
      invariant forall i | 0 <= i < lo :: slice[i].location < location
      invariant forall i | hi <= i < |slice| :: slice[i].location > location
      decreases hi - lo
    {
      var mid := lo + (hi - lo) / 2;
      if slice[mid].location == location {
        return Some(slice[mid]);
      } else if slice[mid].location < location {
        lo := mid + 1;
      } else {
        hi := mid;
      }
    }
    return None;
  }

  predicate DistinctPlaces(es: seq<Entry>) {
    forall i, j | 0 <= i < j < |es| :: es[i].sender != es[j].sender || es[i].location != es[j].location
  }

  /** The table as a plain map; a later entry would replace an earlier one. */
  function PlainMap(es: seq<Entry>): map<(Word, int), Entry> {
    if es == [] then map[] else PlainMap(es[..|es| - 1])[(Last(es).sender, Last(es).location) := Last(es)]
  }

  lemma {:induction false} PlainMapHolds(es: seq<Entry>, key: (Word, int))
    requires DistinctPlaces(es)
    ensures key in PlainMap(es) ==> PlainMap(es)[key] in es
    ensures key in PlainMap(es) ==> (PlainMap(es)[key].sender, PlainMap(es)[key].location) == key
    ensures forall e | e in es && (e.sender, e.location) == key :: key in PlainMap(es) && PlainMap(es)[key] == e
  {
    if es != [] {
      PlainMapHolds(es[..|es| - 1], key);
      assert es == es[..|es| - 1] + [Last(es)];
    }
  }

  /** When no place is listed twice, a lookup agrees with the plain map. */
  lemma GetIsMapLookup(s: Store, input: seq<Entry>, maxSlot: Word, slot: Word, location: int, r: Option<Entry>)
    requires Built(s, input, maxSlot) && forall i | 0 <= i < |input| :: input[i].sender <= maxSlot
    requires DistinctPlaces(input) && Answers(s, slot, location, r)
    ensures r == if (slot, location) in PlainMap(input) then Some(PlainMap(input)[(slot, location)]) else None
  {
    PlainMapHolds(input, (slot, location));
    if r.Some? {
      SliceIsInput(s, input, maxSlot, slot, r.value);
    }
    if (slot, location) in PlainMap(input) {
      SliceIsInput(s, input, maxSlot, slot, PlainMap(input)[(slot, location)]);
    }
  }

  lemma SliceIsInput(s: Store, input: seq<Entry>, maxSlot: Word, slot: nat, e: Entry)
    requires Built(s, input, maxSlot) && forall i | 0 <= i < |input| :: input[i].sender <= maxSlot
    ensures e in ForSlot(s, slot) <==> e in input && e.sender == slot
  {
    ForSlotHolds(s, input, maxSlot, slot, e);
    assert e in ForSlot(s, slot) <==> multiset(ForSlot(s, slot))[e] > 0;
    assert e in input <==> multiset(input)[e] > 0;
  }

  // Validation.

  predicate NoRepeat(es: seq<Entry>) {
    forall i | 0 <= i < |es| - 1 :: es[i].location != es[i + 1].location
  }

  /** Refuse a table that is empty, whose declared slots cannot be 1 to the highest, or that lists a place twice. */
  method Validate(s: Store) returns (r: Result<(), TableError>)
    requires IndexOk(s)
    ensures r == Err(NoLocations) <==> s.entries == []
    ensures r == Err(NotContiguous) <==> s.entries != [] && s.slots != MaxSlot(s)
    ensures r.Ok? <==> Passes(s)
    ensures r.Ok? || r == Err(NoLocations) || r == Err(NotContiguous) || r == Err(Repeated)
  {
    if s.entries == [] {
      return Err(NoLocations);
    }
    if s.slots != MaxSlot(s) {
      return Err(NotContiguous);
    }
    var slot := 1;
    while slot <= MaxSlot(s)
      invariant 1 <= slot <= MaxSlot(s) + 1
      invariant forall k | 1 <= k < slot :: NoRepeat(ForSlot(s, k))
    {
      var slice := ForSlot(s, slot);
      var i := 0;
      while i + 1 < |slice|
        invariant 0 <= i && (i <= |slice| - 1 || i == 0)
        invariant forall j | 0 <= j < i :: slice[j].location != slice[j + 1].location
      {
        if slice[i].location == slice[i + 1].location {
          assert !NoRepeat(ForSlot(s, slot));
          return Err(Repeated);
        }
        i := i + 1;
      }
      assert NoRepeat(ForSlot(s, slot));
      slot := slot + 1;
    }
    return Ok(());
  }

  predicate Passes(s: Store)
    requires IndexFits(s)
  {
    s.entries != [] && s.slots == MaxSlot(s) && forall k | 1 <= k <= MaxSlot(s) :: NoRepeat(ForSlot(s, k))
  }

  /** With no entries for slot 0, looking at neighbours finds every place listed twice. */
  lemma NeighboursSuffice(s: Store, input: seq<Entry>, maxSlot: Word)
    requires Built(s, input, maxSlot)
    requires forall i | 0 <= i < |input| :: 1 <= input[i].sender <= maxSlot
    ensures (forall k | 1 <= k <= MaxSlot(s) :: NoRepeat(ForSlot(s, k))) <==> DistinctPlaces(s.entries)
  {
    var es := s.entries;
    forall i | 0 <= i < |es| ensures 1 <= es[i].sender <= maxSlot {
      assert es[i] in multiset(input);
    }
    if forall k | 1 <= k <= MaxSlot(s) :: NoRepeat(ForSlot(s, k)) {
      forall i, j | 0 <= i < j < |es| ensures es[i].sender != es[j].sender || es[i].location != es[j].location {
        if es[i].sender == es[j].sender {
          var k := es[i].sender;
          assert NoRepeat(ForSlot(s, k));
          assert InRun(s.index[k], i) && InRun(s.index[k], j) && InRun(s.index[k], i + 1);
          var a := s.index[k].0;
          assert ForSlot(s, k)[i - a] == es[i] && ForSlot(s, k)[i - a + 1] == es[i + 1];
          assert Before(es[i], es[i + 1]) && (i + 1 < j ==> Before(es[i + 1], es[j]));
        }
      }
    }
    if DistinctPlaces(es) {
      forall k | 1 <= k <= MaxSlot(s) ensures NoRepeat(ForSlot(s, k)) {
        var a := s.index[k].0;
        forall i | 0 <= i < |ForSlot(s, k)| - 1 ensures ForSlot(s, k)[i].location != ForSlot(s, k)[i + 1].location {
          assert InRun(s.index[k], a + i) && InRun(s.index[k], a + i + 1);
        }
      }
    }
  }

  lemma {:induction false} DistinctPlacesMoves(a: seq<Entry>, b: seq<Entry>)
    requires multiset(a) == multiset(b) && DistinctPlaces(a)
    ensures DistinctPlaces(b)
  {
    forall i, j | 0 <= i < j < |b| ensures b[i].sender != b[j].sender || b[i].location != b[j].location {
      TwoPlaces(a, b, i, j);
    }
  }

  lemma WithoutOne(a: seq<Entry>, k: nat)
    requires k < |a|
    ensures multiset(a[..k] + a[k + 1..]) == multiset(a) - multiset{a[k]}
  {
    assert a == a[..k] + [a[k]] + a[k + 1..];
  }

  lemma TwoPlaces(a: seq<Entry>, b: seq<Entry>, i: nat, j: nat)
    requires multiset(a) == multiset(b) && i < j < |b|
    ensures exists k, l :: 0 <= k < |a| && 0 <= l < |a| && k != l && a[k] == b[i] && a[l] == b[j]
  {
    assert b[i] in multiset(a);
    var k :| 0 <= k < |a| && a[k] == b[i];
    WithoutOne(a, k);
    WithoutOne(b, i);
    var rest := a[..k] + a[k + 1..];
    var left := b[..i] + b[i + 1..];
    assert left[j - 1] == b[j];
    assert b[j] in multiset(left);
    assert multiset(left) == multiset(rest);
    var m :| 0 <= m < |rest| && rest[m] == b[j];
    assert a[if m < k then m else m + 1] == b[j];
  }
}
