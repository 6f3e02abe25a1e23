# A verified model of pahoa's core

pahoa hosts Archipelago rooms. This project models five parts of it in Dafny and proves what they are for.

* **The pickle reader** (`crates/pahoa-pickle`). `PickleStream`, `PickleReader` and `ReaderClass` are the stack machine
  with marks and its lazy memo; `PickleHeap` is a plain interpreter with references, and `PickleViews`, `PickleFilling`,
  `PickleAgreement` and `PickleDecoding` relate the two on every byte string. `PickleBounds` bounds what is built.
  `PickleWriting` is the format from the writer's side, with opcode bytes and number encodings of its own;
  `PickleWritten`, `PickleEncoding` and `PickleLimits` prove that the reader takes back whatever is written. `Utf8` is
  text, `Numerals` and `BigInts` the wide integers, `Canonical`, `CanonicalTexts`, `CanonicalReading` and
  `CanonicalDecoding` the canonical text.
* **Fan-out and its budget** (`crates/pahoa-net`). `Shard` says what each message does to one shard, `ShardClass` is the
  shard changing its tables in place, `ShardFacts`, `ShardEffects` and `ShardRuns` prove what it does and what it keeps
  over every run. `FanoutNode`, `Fanout` and `FanoutOrder` interleave the room actor, any number of shards with their two
  inboxes, writers and readers: the actor one channel operation at a time, a shard one message at a time, and writers and
  readers at any moment, between the recipients of one message too. `FanoutRecord` and `FanoutDelivery` keep a record of
  what the room asked for and account for every frame and every message in it. `BudgetSteps` interleaves the budget calls at single atomic
  operations, `BudgetCalls` takes whole calls, `BudgetHistory` judges them by what happened to the connection alone, and
  `ShardBudget` joins a shard to the budget it pays from.
* **The Mersenne Twister** (`crates/pahoa-pyrandom`). `Bitwise` and `WordBits` are the word operations bit by bit;
  `Mersenne`, `PyRandom` and `Shuffle` build on them, and `Twister` says what the word functions do and undoes the tempering.
* **Data-storage operations** (`crates/pahoa-datastore`). `PyValue`, `PyEquality`, `PyOrdering` and `PyLexical` are
  Python's numbers, equality and order over JSON; `Widths`, `Ops`, `OpsArithmetic`, `OpsContainers`, `OpsSequences` and
  `OpsKeyed` the eighteen operations.
* **Two smaller pieces.** `Depth` is the JSON depth guard of `crates/pahoa-proto`, against JSON text as in sections 4, 5
  and 7 of RFC 8259; `Locations`, `LocationReading` and `LocationTable` are the location table of `crates/pahoa-multidata`.

Code that changes things in place is modelled by classes and methods over arrays and fields, each proved equal to a
function; the theorems are lemmas about those functions. A function named in a method's `ensures` is the specification,
and the lemmas beside it say what it means.

How the fan-out system is read: frames carry the number the actor gave them, which is history and not payload. `sent`
records each frame put on a connection's writer queue; `lost` each frame meant for a connection and dropped after its
`Add`. A broadcast refused by a shard's inbox counts as lost for every connection told to that shard, since nobody outside
the shard knows whom it was for. The actor's call is a plan of channel operations; a refused one is replaced by the notice
it owes, before anything else.

Where a promise fails as one would first state it, the code is kept, a lemma gives the input, and the exact condition is proved:

* decoding agrees with references exactly when nothing already fetched is filled (`DecodeMatchesHeap`);
* a repeated explicit recipient can get the second copy of a frame whose first copy was refused, exactly when it is not
  lagged, its writer runs and could make room in its queue before coming to a close (`RepeatedExactly`): with no close
  queued, whenever the queue can hold anything at all (`CanStillTakeUnclosed`). The room never builds such a list, its
  targets coming from a set or a table and being tested before one is added (`crates/pahoa-room/src/room.rs:1192-1204`,
  `crates/pahoa-room/src/room.rs:1272-1288`, `crates/pahoa-room/src/room.rs:2695-2708`);
* over classes whose names hold no closing bracket, the canonical text is ambiguous exactly when two permitted classes
  print the same dotted name (`NamesDecide`); with brackets, classes that print differently can collide all the same
  (`BracketedNamesCollide`), and never when no printed reference begins with another (`CanonicalDecides`);
* the depth guard accepts a bare scalar under limit 0, and limits above the signed range turn negative (`SensibleLimits`);
* zero shifted left by more than the width bound is refused (`LeftShiftOfZero`), and a product of exactly the bound may be
  (`MulRefusesOneThatFits`);
* a number beyond the range of a double equals nothing, itself included, so updating a list is idempotent exactly when
  every new entry can be read (`EqualityLaws`, `UpdateTwice`);
* reusing a connection id breaks the slot index exactly when its member holds a slot (`AddKeepsIndexExactly`);
* a location table that passes misses a slot exactly when a slot key was given twice (`PassingTableIsContiguous`).

## Model

| member | source | states |
|---|---|---|
| `PickleDecoding.DecodeMatchesHeap` | crates/pahoa-pickle/src/reader.rs:264-321 | For every byte string, `decode` and a plain interpreter with a heap and a memo of references fail with the same error or both succeed; the decoded value is the unfolding of the reference if and only if the heap run never filled, with at least one item, a container already fetched from the memo |
| `PickleDecoding.FillAfterFetchDiffers` | crates/pahoa-pickle/src/reader.rs:436-458 | A stream that appends to a list after fetching it: both interpreters succeed, and the decoded value is not the unfolding of the reference |
| `PickleLimits.LimitsAreExact` | crates/pahoa-pickle/src/reader.rs:373-398 | However a value is written in the format (every opcode the reader knows, any use of the memo, any frames, whatever follows the end), its bytes decode to exactly that value if and only if they take at most 1,048,576 stack places and 4,000,000 pushed values; otherwise the refusal names one of the two limits |
| `PickleEncoding.EncodedReadsBack` | crates/pahoa-pickle/src/reader.rs:460-738 | Every value with permitted classes, integers of at most 255 bytes and texts below 2^32 bytes, written out by an encoder of its own within the two limits, decodes to itself whatever follows the end |
| `PickleWritten.ReadsCode` | crates/pahoa-pickle/src/reader.rs:460-738 | From any state of the reader: the bytes of anything written leave its value on top of the stack, and every memo fetch finds what the writer stored there |
| `PickleEncoding.OtherProtocolsRefused` | crates/pahoa-pickle/src/reader.rs:464-475 | Protocols other than 2 to 5 are refused, and the version is in the error |
| `PickleEncoding.OtherOpcodesRefused` | crates/pahoa-pickle/src/reader.rs:709-738 | A first byte is refused as no instruction exactly when it is none of the 33 the reader carries out |
| `PickleLimits.ForbiddenRefused` | crates/pahoa-pickle/src/reader.rs:661-680 | A class that is not on the list is refused where it is named, whatever comes before and after |
| `Utf8.TextsAreEncodings` | crates/pahoa-pickle/src/reader.rs:363-369 | A text is accepted if and only if it is the encoding of some Unicode scalar values one after another |
| `PickleAgreement.RunsAgree` | crates/pahoa-pickle/src/reader.rs:460-738 | The same agreement from any two related states, to the end of the stream |
| `PickleAgreement.InstructionAgrees` | crates/pahoa-pickle/src/reader.rs:460-738 | One instruction keeps the two interpreters related, or ends both with the same error |
| `PickleHeap.DenotesUnique` | crates/pahoa-pickle/src/reader.rs:436-441 | A reference in a heap unfolds to at most one value, cycles included |
| `PickleDecoding.PrescanChangesNothing` | crates/pahoa-pickle/src/reader.rs:164-262 | Decoding with the pre-scanned set of memo indices gives the same value or the same error as decoding with every index tracked |
| `PickleDecoding.UntrackedNeverFetched` | crates/pahoa-pickle/src/reader.rs:436-458 | The `Unreferenced` arm of `memo_get` is never reached when decoding with the pre-scan |
| `PickleStream.ScannerFollowsDecoder` | crates/pahoa-pickle/src/reader.rs:164-262 | Wherever the decoder can read an instruction, the scanner steps to the same next boundary and has recorded the index the instruction fetches |
| `PickleStream.ScanMemoRefs` | crates/pahoa-pickle/src/reader.rs:164-262 | The scanning loop computes the set the pre-scan theorems are about, or gives up where they say |
| `PickleBounds.LiveListExact` | crates/pahoa-pickle/src/reader.rs:264-283 | The `live` list is sorted by stack position and matches the `Live` memo slots one to one |
| `PickleBounds.NodesBounded` | crates/pahoa-pickle/src/reader.rs:373-398 | Until something is fetched, the nodes of all values on the stack number at most `objects`, itself at most MAX_OBJECTS |
| `PickleReader.Step` | crates/pahoa-pickle/src/reader.rs:460-738 | Each instruction keeps the marks ascending below the stack height and every `Live` slot naming a list, dict or set on the stack, and moves the cursor forward within the buffer |
| `PickleReader.ShrinkKeepsInv` | crates/pahoa-pickle/src/reader.rs:309-321 | Cutting the stack at any height the marks allow keeps the reader invariant, because live slots above it are copied out first |
| `PickleReader.MemoizeKeepsInv` | crates/pahoa-pickle/src/reader.rs:627-648 | Memoizing the top of the stack, live or by value, keeps the invariant |
| `PickleReader.ShrinkKeepsFetches` | crates/pahoa-pickle/src/reader.rs:309-321 | Cutting the stack changes nothing that any later fetch from the memo sees |
| `ReaderClass.Reader.MaterializeAbove` | crates/pahoa-pickle/src/reader.rs:309-321 | In place: the memo with the live slots above the height copied out, and the live list without them |
| `ReaderClass.Reader.Push` | crates/pahoa-pickle/src/reader.rs:373-398 | Stack and object count after a push, or the error at the depth or object limit |
| `ReaderClass.Reader.Pop` | crates/pahoa-pickle/src/reader.rs:400-418 | The top value and the stack without it, materialized first; or the underflow error |
| `ReaderClass.Reader.PopTop` | crates/pahoa-pickle/src/reader.rs:522-536 | Popping one at a time takes the same items as taking them at once |
| `ReaderClass.Reader.PopToMark` | crates/pahoa-pickle/src/reader.rs:421-434 | The items above the last mark, materialized first, and the mark gone; or the error |
| `ReaderClass.Reader.Fetch` | crates/pahoa-pickle/src/reader.rs:436-458 | What a memo index holds: the stored value, a copy of the live one, or the error |
| `ReaderClass.Reader.Remember` | crates/pahoa-pickle/src/reader.rs:627-648 | The memo and live list after MEMOIZE: live for a container that is fetched later, a value otherwise |
| `ReaderClass.Reader.AddTop` | crates/pahoa-pickle/src/reader.rs:543-625 | The container on top extended by the items, or the error; nothing else changes |
| `ReaderClass.Reader.Make` | crates/pahoa-pickle/src/reader.rs:661-707 | Classes only from the allowlist and instances only of classes, built from popped items |
| `ReaderClass.Reader.Perform` | crates/pahoa-pickle/src/reader.rs:460-738 | Each opcode arm changes the fields as the instruction function says |
| `ReaderClass.Reader.Decode` | crates/pahoa-pickle/src/reader.rs:460-738 | The whole loop answers what the run function answers |
| `ReaderClass.FromSlice` | crates/pahoa-pickle/src/lib.rs:43-46 | Pre-scan then decode, the value or error of the theorems above |
| `BigInts.FromLeTwosComplement` | crates/pahoa-pickle/src/bigint.rs:26-70 | For every byte string, the two's-complement value with a normalised magnitude |
| `BigInts.TwosComplementMeans` | crates/pahoa-pickle/src/bigint.rs:22-70 | For n bytes, n > 0, the value lies from -256^n/2 up to but not including 256^n/2 and is congruent to the unsigned value modulo 256^n |
| `BigInts.NegateInPlace` | crates/pahoa-pickle/src/bigint.rs:26-70 | Inverting the bytes and adding one in place leaves the value subtracted from the power of 256 |
| `BigInts.Limbs` | crates/pahoa-pickle/src/bigint.rs:26-70 | Packing bytes into 32-bit limbs keeps the value and stays normalised |
| `BigInts.BigUnique` | crates/pahoa-pickle/src/bigint.rs:14-20 | A well-formed sign and magnitude is the only one for its value |
| `BigInts.ToI64Exact` | crates/pahoa-pickle/src/bigint.rs:79-94 | `to_i64` answers exactly when the value fits, and then with the value |
| `BigInts.DecodeLong` | crates/pahoa-pickle/src/reader.rs:742-748 | A long payload becomes a machine integer exactly when it fits |
| `BigInts.Display` | crates/pahoa-pickle/src/bigint.rs:97-135 | The division loop ends and prints the decimal text of the value |
| `BigInts.DecimalReadsBack` | crates/pahoa-pickle/src/bigint.rs:97-135 | Reading the decimal text back gives the integer; no leading zeros; a minus sign exactly when negative |
| `BigInts.DivideByChunk` | crates/pahoa-pickle/src/bigint.rs:97-135 | One pass over the limbs divides by 10^9, quotient and remainder exact and every quotient limb within a word |
| `BigInts.ChunksOf` | crates/pahoa-pickle/src/bigint.rs:97-135 | The chunks have the value of the limbs and no leading zero chunk |
| `BigInts.DigitsFromChunks` | crates/pahoa-pickle/src/bigint.rs:97-135 | Zero-padding every chunk but the first gives the digits of the value |
| `CanonicalReading.CanonicalDecides` | crates/pahoa-pickle/src/canonical.rs:24-89 | Over any list of classes where no printed reference begins with another, two values render alike if and only if they are equal up to the order of set elements at every level, floats by bit pattern |
| `CanonicalReading.Reading` | crates/pahoa-pickle/src/canonical.rs:24-89 | One reading: if two renderings followed by anything that may follow a value coincide, values and remainders coincide |
| `CanonicalReading.SetReading` | crates/pahoa-pickle/src/canonical.rs:52-58 | Sorted set renderings coincide only for the same elements in some order |
| `CanonicalReading.StrReading` | crates/pahoa-pickle/src/canonical.rs:39-41 | The length prefix separates a string from whatever follows it, whatever the string holds |
| `CanonicalReading.NamesDecide` | crates/pahoa-pickle/src/canonical.rs:71-79 | Over the classes of any list without closing brackets, the text tells all values apart if and only if no two classes of the list print the same dotted name |
| `CanonicalReading.DotFreeNamesDiffer` | crates/pahoa-pickle/src/canonical.rs:71-79 | Class names without dots never print alike |
| `CanonicalReading.DifferentNamesPrefixFree` | crates/pahoa-pickle/src/canonical.rs:71-79 | Names without closing brackets that print differently are such a list |
| `CanonicalReading.DottedNamesCollide` | crates/pahoa-pickle/src/canonical.rs:71-73 | Two class ids that print alike and are not the same |
| `CanonicalReading.BracketedNamesCollide` | crates/pahoa-pickle/src/canonical.rs:71-79 | Two classes that print differently, one name holding a bracket, and two instances of them that render alike |
| `CanonicalDecoding.DecodedUnder` | crates/pahoa-pickle/src/canonical.rs:18-89 | For any two streams decoded under any such list, equal canonical texts mean equal values and conversely |
| `CanonicalDecoding.DecodedTextDecides` | crates/pahoa-pickle/src/canonical.rs:18-89 | For any two streams decoded with the Archipelago allowlist, equal canonical texts mean equal values and conversely |
| `CanonicalDecoding.RunIsFine` | crates/pahoa-pickle/src/reader.rs:460-738 | Everything a decode returns, at every level: integers narrowed whenever they fit, texts well-formed UTF-8, classes permitted by the allowlist |
| `CanonicalDecoding.ArchipelagoIsPlain` | crates/pahoa-pickle/src/allowlist.rs:44-63 | No class of the Archipelago allowlist holds a closing bracket and no two print alike |
| `CanonicalTexts.ShippedExactly` | crates/pahoa-pickle/src/allowlist.rs:44-63 | The classes that may be named are the six of NetUtils and the counter, by name, and no other |
| `CanonicalTexts.FloatReadsBack` | crates/pahoa-pickle/src/canonical.rs:35-38 | A float is sixteen digits 0 to 9 or a to f after `f:`, and they read back as its 64 bits |
| `CanonicalTexts.HexReadsBack` | crates/pahoa-pickle/src/canonical.rs:35-38 | The digits of a number within their width are hexadecimal and read back as it |
| `CanonicalTexts.PlainTexts` | crates/pahoa-pickle/src/canonical.rs:24-41 | The words for None, True and False, the decimal of an integer of either kind, and a string behind its length |
| `CanonicalTexts.EnclosedTexts` | crates/pahoa-pickle/src/canonical.rs:42-70 | The brackets and separators of tuples, lists, sets and dictionaries, the texts of a set sorted |
| `CanonicalTexts.ClassTexts` | crates/pahoa-pickle/src/canonical.rs:71-79 | A class is its dotted name in angle brackets, an instance that and its arguments in parentheses |
| `Canonical.RenderInto` | crates/pahoa-pickle/src/canonical.rs:24-80 | Rendering appends the text of the value to the buffer and changes nothing before it |
| `Canonical.JoinInto` | crates/pahoa-pickle/src/canonical.rs:82-89 | The items' texts with separators between them are appended |
| `Canonical.PartsOf` | crates/pahoa-pickle/src/canonical.rs:52-58 | The texts of the elements, in order, before they are sorted |
| `Canonical.CanonicalText` | crates/pahoa-pickle/src/canonical.rs:18-22 | The buffer started empty ends as the text of the value |
| `TextOrder.SortCanonical` | crates/pahoa-pickle/src/canonical.rs:52-58 | Sorting the element texts depends only on which texts there are, so element order cannot show |
| `Mersenne.OutputIsTempered` | crates/pahoa-pyrandom/src/mt19937.rs:96-107 | The k-th output from any valid state is the tempering of element index+k of the infinite recurrence |
| `Twister.TemperUndone` | crates/pahoa-pyrandom/src/mt19937.rs:96-107 | Tempering undone by its own shifts and masks gives the word back, so an output determines its state word |
| `Twister.TwistBits` | crates/pahoa-pyrandom/src/mt19937.rs:83-93 | Bit i of a new word from the bits of the three words read and of the matrix row |
| `Twister.InitRecurrence` | crates/pahoa-pyrandom/src/mt19937.rs:24-33 | Each word of the first initialisation from the one before, its folding told bit by bit |
| `Twister.KeyRecurrence` | crates/pahoa-pyrandom/src/mt19937.rs:37-81 | Each write of array seeding from the write before and the word that stood there, key word and place added or place taken away |
| `Twister.SeededState` | crates/pahoa-pyrandom/src/mt19937.rs:37-81 | The state after seeding: for each place the last write that went there, and a first word that is never zero |
| `Bitwise.XorBits` | crates/pahoa-pyrandom/src/mt19937.rs:83-107 | Each bit of an exclusive or is the sum of the two bits without carry |
| `Bitwise.AndBits` | crates/pahoa-pyrandom/src/mt19937.rs:83-107 | Each bit of an and is set exactly when both are |
| `WordBits.ShiftRightBits` | crates/pahoa-pyrandom/src/mt19937.rs:83-107 | A right shift moves every bit down, zeros from above |
| `WordBits.ShiftLeftBits` | crates/pahoa-pyrandom/src/mt19937.rs:96-107 | A left shift moves every bit up, zeros from below, bits past the top lost |
| `Mersenne.SequenceContinues` | crates/pahoa-pyrandom/src/mt19937.rs:83-93 | The regenerated 624 words are elements 624 to 1247 of the recurrence: the next generation and no word of the wrong one |
| `Mersenne.DrawsAdd` | crates/pahoa-pyrandom/src/mt19937.rs:96-107 | Drawing j times and then k times is drawing j+k times |
| `Mersenne.SavedComesBack` | crates/pahoa-pyrandom/src/mt19937.rs:112-133 | Restoring a saved state gives back the same generator, hence the same outputs forever |
| `Mersenne.RestoredIsValid` | crates/pahoa-pyrandom/src/mt19937.rs:121-133 | A saved state is accepted exactly when it has 625 words and an index of at most 624, and then saves back to itself |
| `Mersenne.Mt19937.Regenerate` | crates/pahoa-pyrandom/src/mt19937.rs:83-93 | The in-place, wrap-around loop leaves the next 624 elements of the recurrence |
| `Mersenne.Mt19937.NextU32` | crates/pahoa-pyrandom/src/mt19937.rs:96-107 | One draw: the tempered word, the index moved on, regenerating first when the words are used up |
| `Mersenne.Mt19937.ToState` | crates/pahoa-pyrandom/src/mt19937.rs:112-117 | The 624 words and the index |
| `Mersenne.FromState` | crates/pahoa-pyrandom/src/mt19937.rs:121-133 | A fresh generator equal to the saved one, or none |
| `Mersenne.Mt19937.Seed` | crates/pahoa-pyrandom/src/mt19937.rs:24-33 | The state words follow the initialisation recurrence |
| `Mersenne.SeedFromKey` | crates/pahoa-pyrandom/src/mt19937.rs:37-81 | Seeding from a key leaves the state the two passes of writes define, seen as writes at growing times rather than wrapped indices |
| `Mersenne.FirstPass` | crates/pahoa-pyrandom/src/mt19937.rs:37-81 | The first in-place pass, wrap-around included, makes the first max(624, key length) writes |
| `Mersenne.SecondPass` | crates/pahoa-pyrandom/src/mt19937.rs:37-81 | The second pass makes the next 623 writes |
| `Mersenne.LastWrite` | crates/pahoa-pyrandom/src/mt19937.rs:37-81 | Every place but the first is last written within the final 623 writes |
| `PyRandom.SeedBeBytes` | crates/pahoa-pyrandom/src/lib.rs:50-67 | The generator seeded depends on the bytes only through the integer they spell |
| `PyRandom.KeyFromBytes` | crates/pahoa-pyrandom/src/lib.rs:50-67 | Reversing, trimming and chunking the bytes gives the 32-bit digits of the integer, or one zero word |
| `PyRandom.KeyDecides` | crates/pahoa-pyrandom/src/lib.rs:50-67 | Two byte strings give the same key exactly when they spell the same integer |
| `PyRandom.KeySpells` | crates/pahoa-pyrandom/src/lib.rs:50-67 | The key words spell the integer, least significant first, with no zero word on top but for zero itself |
| `PyRandom.BytesSpell` | crates/pahoa-pyrandom/src/lib.rs:50-67 | Bytes are read most significant first |
| `PyRandom.LeadingZerosIgnored` | crates/pahoa-pyrandom/src/lib.rs:50-67 | Leading zero bytes never change what is seeded |
| `PyRandom.GetRandBitsWords` | crates/pahoa-pyrandom/src/lib.rs:89-111 | Exactly ceil(k/32) generator words are consumed, least significant first, the last shifted down |
| `PyRandom.BitWords` | crates/pahoa-pyrandom/src/lib.rs:89-111 | How many words, which outputs they are, and by how much the last is shifted |
| `PyRandom.BitsBound` | crates/pahoa-pyrandom/src/lib.rs:89-111 | The number drawn is below 2^k |
| `PyRandom.GetRandBitsU64` | crates/pahoa-pyrandom/src/lib.rs:114-123 | The two words joined are that number |
| `PyRandom.RandBelow` | crates/pahoa-pyrandom/src/lib.rs:128-139 | The loop answers the first draw below n and leaves the generator just after it; zero consumes nothing |
| `PyRandom.FirstBelowIsFirst` | crates/pahoa-pyrandom/src/lib.rs:128-139 | Every earlier draw was at or above n, and the words consumed are those of the draws made |
| `PyRandom.MoreAttempts` | crates/pahoa-pyrandom/src/lib.rs:128-139 | An answer does not depend on how many attempts were allowed |
| `PyRandom.AttemptsSuffice` | crates/pahoa-pyrandom/src/lib.rs:128-139 | The range drawn from is at most twice n, so each draw is accepted with a chance of at least one half |
| `PyRandom.BitLength` | crates/pahoa-pyrandom/src/lib.rs:128-139 | 64 minus the leading zeros is the least width that holds n |
| `Shuffle.ShuffleInPlace` | crates/pahoa-pyrandom/src/lib.rs:142-150 | In place: a downward Fisher-Yates with exactly the `randbelow` draws in order, a permutation whatever is drawn |
| `Shuffle.ShufflePermutes` | crates/pahoa-pyrandom/src/lib.rs:142-150 | Every sequence of choices permutes |
| `Shuffle.ShuffleInjective` | crates/pahoa-pyrandom/src/lib.rs:142-150 | On distinct elements, different choices give different results |
| `Shuffle.ShuffleSurjective` | crates/pahoa-pyrandom/src/lib.rs:142-150 | Every permutation is the result of some choices, so each arises from exactly one |
| `Shuffle.ShuffleLeavesAbove` | crates/pahoa-pyrandom/src/lib.rs:142-150 | A place once passed is not touched again |
| `Shuffle.FirstChoiceSettled` | crates/pahoa-pyrandom/src/lib.rs:142-150 | The element the first draw names ends in the last place, and the rest is shuffled without it |
| `Fanout.NoGapEver` | crates/pahoa-net/src/shard.rs:283-338 | Over every interleaving of actor, shards, writers and readers: once a frame meant for a connection is lost after its Add, by the inbox, the budget or the writer queue, no later frame is ever queued for it, nor a second copy of that frame while no explicit list names a connection twice |
| `FanoutRecord.NoFrameVanishes` | crates/pahoa-net/src/shard.rs:283-338 | Over every interleaving, by a record kept of the room's calls alone: every frame made for a shard waits in the actor's plan, waits in its inbox, was taken by it and is in the books of everyone it was for as sent or lost unless a rule dropped it, or is lost for every connection added there by then that it may have been for |
| `FanoutDelivery.EveryConnectionAnswered` | crates/pahoa-net/src/shard.rs:283-338 | With nothing planned and a shard's inbox empty, every connection added there before a frame was made has it sent or lost, unless the room removed it, the frame was not for it when the shard took it, or a rule of its own filter dropped it |
| `FanoutDelivery.EveryFrameAnswered` | crates/pahoa-net/src/shard.rs:318-338 | With nothing planned and the inbox empty, every frame made for the shard was taken and served or is lost there |
| `FanoutDelivery.FramesInOrder` | crates/pahoa-net/src/shard.rs:318-338 | What a shard has taken, holds and is being offered is, in that order, frames made for it in the order of making, none twice |
| `FanoutDelivery.TellsArriveInOrder` | crates/pahoa-net/src/shard.rs:283-305 | Notices aside, what a shard has heard, holds and is being told is exactly what the room told it, in order |
| `FanoutDelivery.InboxesBounded` | crates/pahoa-net/src/shard.rs:236-250 | No inbox ever holds more frames than it is deep |
| `FanoutDelivery.OfferTaken` | crates/pahoa-net/src/shard.rs:318-338 | An offer is taken exactly when there is room, and then stands last |
| `Fanout.ClosedExactlyForLoss` | crates/pahoa-net/src/shard.rs:580-624 | Over every interleaving, with the actor idle and the control inbox empty, the members marked lagged are exactly those a frame was lost for |
| `Fanout.OneShardEach` | crates/pahoa-net/src/shard.rs:272-274 | A connection is served by one shard only, and that shard's state is sound |
| `Fanout.EveryRunIsOk` | crates/pahoa-net/src/shard.rs:340-387 | The whole invariant holds after every run of the system |
| `FanoutOrder.EveryRunInOrder` | crates/pahoa-net/src/shard.rs:716-745 | Over every interleaving, frames wait for a writer in the order they were made, and only frames recorded as sent wait |
| `FanoutNode.QueuedKeepsOk` | crates/pahoa-net/src/shard.rs:318-338 | A frame accepted by the bounded inbox keeps the node invariant |
| `FanoutNode.RefusedKeepsOk` | crates/pahoa-net/src/shard.rs:283-338 | A frame refused by the inbox is a loss for whoever it may have been for, and owing the notice covers it |
| `FanoutNode.ToldKeepsOk` | crates/pahoa-net/src/shard.rs:283-305 | A message put on the unbounded inbox, notice or membership change, keeps the invariant |
| `FanoutNode.TookControlKeepsOk` | crates/pahoa-net/src/shard.rs:364-387 | Taking control messages first keeps the invariant: no Add names a member, and a notice closes whom it was for |
| `FanoutNode.TookFrameKeepsOk` | crates/pahoa-net/src/shard.rs:364-387 | Taking a frame with the control inbox empty keeps it: whoever lost an earlier frame is lagged already or only older frames remain |
| `FanoutNode.SettledExactly` | crates/pahoa-net/src/shard.rs:580-624 | At one settled shard, lagged means a frame was lost and conversely |
| `ShardRuns.EveryRunIsOk` | crates/pahoa-net/src/shard.rs:340-628 | In every reachable shard state: the index agrees with the members, swept means every member is lagged, each membership had at most one lag or desync close, and every lagged member has its close queued, signalled or its writer stopped |
| `ShardRuns.DebouncingIsInvisible` | crates/pahoa-net/src/shard.rs:605-621 | A shard that always walks the membership goes through exactly the same states as one that skips repeated sweeps |
| `ShardRuns.SecondSweepChangesNothing` | crates/pahoa-net/src/shard.rs:605-621 | Sweeping members that are all lagged closes nobody and changes nothing |
| `ShardRuns.CloseArrives` | crates/pahoa-net/src/shard.rs:54-61 | A closed member has its close queued behind everything already there, or signalled out of band, or no writer left |
| `ShardEffects.KickArrives` | crates/pahoa-net/src/shard.rs:571-579 | A kick closes its connection behind what is queued, or out of band when there is no room, and touches nobody else |
| `ShardEffects.DesyncArrives` | crates/pahoa-net/src/shard.rs:580-589 | A dropped frame marks and closes its connection once and touches nobody else |
| `ShardEffects.SweepArrives` | crates/pahoa-net/src/shard.rs:605-624 | A dropped broadcast does to each member what a dropped frame does to one |
| `ShardEffects.AddArrives` | crates/pahoa-net/src/shard.rs:389-416 | A new member starts empty, unfiltered, heard by no audience but an explicit list, and ends the debounce; everyone else is as before |
| `ShardEffects.RemoveArrives` | crates/pahoa-net/src/shard.rs:417-429 | A removed member is gone from the table and the index, everyone else as before |
| `ShardEffects.FilterArrives` | crates/pahoa-net/src/shard.rs:467-492 | A filter is stored for that member alone |
| `ShardEffects.UpdateArrives` | crates/pahoa-net/src/shard.rs:430-466 | A new standing is stored for that member alone |
| `ShardEffects.TransmitBytes` | crates/pahoa-net/src/shard.rs:663-745 | A frame goes to the end of each queue exactly if sent, plain without a negotiated window, compressed for the window with one |
| `ShardEffects.DroppedIsSpared` | crates/pahoa-net/src/shard.rs:547-571 | Whoever a rule drops the frame for, wherever listed, is neither sent it nor counted as having lost it |
| `ShardRuns.AudienceIsScan` | crates/pahoa-net/src/shard.rs:493-545 | Every audience, indexed or scanned, is exactly the members a scan of the whole table would choose, each once unless an explicit list repeats |
| `ShardRuns.AboutSplits` | crates/pahoa-net/src/shard.rs:520-541 | `AllTextFull` and `SlotScopedText(k)` are disjoint and together `AllTextAbout(k)` if and only if the scoped text members of slot k are authenticated |
| `ShardRuns.UpdateDecidesAudiences` | crates/pahoa-net/src/shard.rs:430-466 | After an update the member is in each kind of audience exactly as its new standing says |
| `ShardFacts.ControlKeepsIndex` | crates/pahoa-net/src/shard.rs:389-471 | With fresh ids every control message keeps a connection listed exactly once under the slot its record names and nowhere else |
| `ShardFacts.AddKeepsIndexExactly` | crates/pahoa-net/src/shard.rs:389-416 | An Add keeps the index if and only if its id is no member's or that member holds no slot |
| `ShardFacts.ReusedIdBreaksIndex` | crates/pahoa-net/src/shard.rs:389-416 | One state and Add for which it does not |
| `ShardFacts.TransmitEffect` | crates/pahoa-net/src/shard.rs:472-570 | A frame message lags exactly those who lost it, sends to nobody lagged, and closes each at most once |
| `ShardFacts.TransmitQueues` | crates/pahoa-net/src/shard.rs:472-570 | However writers and readers move meanwhile, every queue is fed only at its end, by replies and the member's own variant of this frame, the latter exactly if it was sent, and emptied only from its front |
| `ShardFacts.NobodyMissed` | crates/pahoa-net/src/shard.rs:549-567 | Everyone in the audience whose filter lets the frame through is sent it or recorded as having lost it |
| `ShardFacts.SentOrLost` | crates/pahoa-net/src/shard.rs:549-567 | In an audience without repeats nobody is both |
| `ShardFacts.RepeatedExactly` | crates/pahoa-net/src/shard.rs:541-567 | For every table and list, some answers of budget and filters and some moves of writers between recipients have a frame both sent to a member and lost for it if and only if the list names it at two places, it is not lagged, its writer runs, and the writer could make room before coming to a close |
| `ShardFacts.CanStillTakeUnclosed` | crates/pahoa-net/src/shard.rs:541-567 | With no close queued that condition is a queue of any capacity but zero |
| `ShardFacts.RepeatedRecipient` | crates/pahoa-net/src/shard.rs:541-567 | One such list |
| `ShardFacts.MarkLaggedEffect` | crates/pahoa-net/src/shard.rs:772-790 | Exactly those named and not yet lagged are lagged, signalled and counted, each once |
| `ShardFacts.MarkGoneEffect` | crates/pahoa-net/src/shard.rs:760-770 | Those whose writer has gone are lagged and nothing is closed |
| `Shard.PickAll` | crates/pahoa-net/src/shard.rs:501-544 | Listing through the index or an explicit list keeps exactly those who pass the rest of the test, without new repeats |
| `ShardClass.ShardTask.FrameFor` | crates/pahoa-net/src/shard.rs:663-689 | The memo and the compressors, searched in loops, give each member exactly the compression of the payload for its window; each window is compressed at most once in a broadcast |
| `ShardClass.ShardTask.Serve` | crates/pahoa-net/src/shard.rs:549-567 | One member: skipped if lagged or filtered, otherwise its variant is delivered and the outcome reported |
| `ShardClass.ShardTask.DeliverAll` | crates/pahoa-net/src/shard.rs:547-570 | The delivery loop leaves the members and the lists of those behind and gone that the fan-out function gives |
| `ShardClass.ShardTask.MarkBehind` | crates/pahoa-net/src/shard.rs:772-790 | The loop marks and signals as the function the lemmas are about |
| `ShardClass.ShardTask.MarkOver` | crates/pahoa-net/src/shard.rs:760-770 | Likewise for those whose writer has gone |
| `ShardClass.ShardTask.Audience` | crates/pahoa-net/src/shard.rs:493-545 | The audience loops list an audience of the message |
| `ShardClass.ShardTask.Scan` | crates/pahoa-net/src/shard.rs:495-531 | Going over the table in any order lists exactly the members wanted, each once |
| `ShardClass.ShardTask.HandleFrame` | crates/pahoa-net/src/shard.rs:472-570 | One frame message: the whole new state |
| `ShardClass.ShardTask.HandleControl` | crates/pahoa-net/src/shard.rs:389-624 | One membership, close or desync message: the whole new state |
| `ShardClass.ShardTask.SweepAll` | crates/pahoa-net/src/shard.rs:616-621 | The sweep loop closes everyone not yet lagged, once |
| `ShardClass.ShardTask.Strike` | crates/pahoa-net/src/shard.rs:424-428 | `retain` takes the connection off its slot list and leaves the order of the rest |
| `BudgetSteps.EveryInterleaving` | crates/pahoa-net/src/budget.rs:219-382 | Over every interleaving of single atomic operations: the global counter is the sum of all queued bytes plus what calls in progress still owe, never below zero, at most the limit apart from reservations about to be taken back; PEAK never exceeds the limit |
| `BudgetSteps.StepKeepsInv` | crates/pahoa-net/src/budget.rs:219-382 | Each atomic operation keeps that |
| `BudgetSteps.OperateConserves` | crates/pahoa-net/src/budget.rs:219-382 | Each atomic operation moves the global counter by exactly what it moves in the connection and in the call |
| `BudgetCalls.Budget.ReserveReported` | crates/pahoa-net/src/budget.rs:219-316 | The room's counter, its peak and the connection after an offer, and the answer, as the function `HistoryDecides` speaks of |
| `BudgetCalls.Budget.GiveBack` | crates/pahoa-net/src/budget.rs:334-376 | One release: never more than the connection holds, progress recorded, and the oversize allowance gone once nothing is held |
| `BudgetCalls.Budget.GiveBackAll` | crates/pahoa-net/src/budget.rs:378-382 | What was never drained is returned once |
| `BudgetCalls.ConnBudget.StalledTime` | crates/pahoa-net/src/budget.rs:188-193 | How long a backlog has gone undrained, none without a backlog |
| `BudgetCalls.ConnBudget.MadeProgress` | crates/pahoa-net/src/budget.rs:171-173 | Progress is stamped with the clock |
| `BudgetCalls.ReserveAlone` | crates/pahoa-net/src/budget.rs:219-316 | Running the atomic operations of a reservation with nobody between them is the whole-call reservation: same counters, same admission or refusal with the same numbers |
| `BudgetCalls.ReleaseAlone` | crates/pahoa-net/src/budget.rs:334-376 | The same for a release |
| `BudgetCalls.ReleaseAllAlone` | crates/pahoa-net/src/budget.rs:378-382 | The same for returning everything |
| `BudgetCalls.WholeLife` | crates/pahoa-net/src/budget.rs:244-280 | Over a connection's whole life with each release matching a reserved frame: queued is the bytes in flight, at most oversize plus the share, and no frame is refused for the share while the undrained ordinary bytes and the new frame fit it |
| `BudgetCalls.MoveKeepsLedger` | crates/pahoa-net/src/budget.rs:244-376 | Each offer, drain and teardown keeps the ledger that proves it |
| `BudgetCalls.ShareIsFair` | crates/pahoa-net/src/budget.rs:244-280 | However many oversize payloads are in flight, ordinary bytes that fit the share are not refused for it |
| `BudgetCalls.OversizeDeliverable` | crates/pahoa-net/src/budget.rs:244-280 | A payload larger than the share is admitted when ordinary bytes are below it, the room has space and the client is draining |
| `BudgetCalls.IdleIsNotStalled` | crates/pahoa-net/src/budget.rs:265-272 | From a moment when a connection holds nothing, whatever is offered, drained or torn down after that, no offer within the deadline of that moment is refused as stalled |
| `BudgetHistory.HistoryDecides` | crates/pahoa-net/src/budget.rs:219-316 | After any traffic the answer to an offer is decided by which frames were admitted and drained and when: stalled past two minutes without draining a backlog, over its share, over the room's limit, or admitted, each refusal with its numbers |
| `BudgetHistory.StuckIsRefused` | crates/pahoa-net/src/budget.rs:265-272 | A connection that holds something and drains nothing is refused as stalled since it last moved as soon as two minutes have passed, whatever was offered to it meanwhile |
| `BudgetHistory.ShareBinds` | crates/pahoa-net/src/budget.rs:273-280 | Once empty, and offered nothing larger than its share since, a connection holds at most its share, and an ordinary frame past it is refused for it unless the connection has stalled |
| `BudgetHistory.PeakIsHighest` | crates/pahoa-net/src/budget.rs:281-290 | The peak is the most that was queued in the room after any of the calls so far, refused offers not counted |
| `ShardBudget.EveryPaidRunBalances` | crates/pahoa-net/src/shard.rs:716-745 | Over every run of a shard that reserves before it queues, gives back what the queue refused, releases what its writers wrote and returns the rest at a Remove, with writers, readers, late releases and the rest of the room moving between any two recipients: the global counter is what the rest of the room holds plus the sum of the members' reservations, within the limit; no member holds more than the frames taken by its writer or waiting for it, and exactly that while no reply was taken; the shard's part is one of its own runs |
| `ShardBudget.NextKeepsPaidOk` | crates/pahoa-net/src/shard.rs:389-624 | Each message and each thing a writer or reader does keeps that balance |
| `ShardBudget.PaidIsFanOut` | crates/pahoa-net/src/shard.rs:546-567 | Delivering with the budget is the shard's fan-out under the answers the budget gives place by place, so every theorem about the shard applies |
| `ShardBudget.HandKeepsPurse` | crates/pahoa-net/src/shard.rs:549-567 | One recipient keeps that balance |
| `ShardBudget.DeedKeepsPurse` | crates/pahoa-net/src/server.rs:627-660 | What a writer, a reader or the rest of the room does keeps it |
| `ShardBudget.DeliverableBalances` | crates/pahoa-net/src/shard.rs:716-745 | One delivery: the reservation stays exactly if the frame was queued |
| `ShardBudget.LateReleaseFreesNothing` | crates/pahoa-net/src/budget.rs:376-385 | A release by the writer of a removed connection frees nothing and changes no counter |
| `Depth.GuardIsExact` | crates/pahoa-proto/src/depth.rs:29-69 | For every JSON tree printed with the string escapes of section 7 of RFC 8259, any whitespace around and within, and every limit from 1 to the largest signed 64-bit integer: accepted exactly when 1 plus the container nesting is at most the limit, TooDeep otherwise |
| `Depth.DocumentVerdict` | crates/pahoa-proto/src/depth.rs:29-69 | The verdict for every limit, the cast to a signed integer included |
| `Depth.SensibleLimits` | crates/pahoa-proto/src/depth.rs:29-69 | The guard is exact for a limit if and only if the limit is at least 1 and does not turn negative in the cast |
| `Depth.ScanValue` | crates/pahoa-proto/src/depth.rs:29-69 | Scanning any printed value from any depth comes back to that depth, or stops at the first bracket past the limit |
| `Depth.ScanQuoted` | crates/pahoa-proto/src/depth.rs:29-69 | A string leaves the scanner where it was, whatever brackets, quotes and backslashes it spells |
| `Depth.UnquotedVerdict` | crates/pahoa-proto/src/depth.rs:29-69 | Any text without quotes or backslashes, well-formed or not: too deep exactly when some opener brings the balance past the limit, otherwise accepted exactly when as many brackets close as open, in whatever order |
| `Depth.CheckDepth` | crates/pahoa-proto/src/depth.rs:29-69 | The byte loop computes the verdict those theorems are about, on every byte string |
| `PyValue.CmpNumsExact` | crates/pahoa-datastore/src/pyvalue.rs:68-107 | Comparison across integers and doubles is comparison of exact values, infinities outermost, and only NaN has no order |
| `PyValue.CmpIntF64Exact` | crates/pahoa-datastore/src/pyvalue.rs:68-95 | An integer of any width against a double: exactly the order of the two numbers |
| `PyValue.CmpNumsTransitive` | crates/pahoa-datastore/src/pyvalue.rs:100-107 | Hence transitive across the two kinds |
| `PyValue.FloorModIsFloored` | crates/pahoa-datastore/src/pyvalue.rs:190-200 | The remainder leaves a multiple of the divisor and lies between zero and it, on its side |
| `PyEquality.EqualIsSameMeaning` | crates/pahoa-datastore/src/pyvalue.rs:222-242 | `py_eq` holds exactly when every number in both reads as finite and both denote the same nulls, exact numbers, texts, lists and maps |
| `PyEquality.EqualityLaws` | crates/pahoa-datastore/src/pyvalue.rs:222-242 | Symmetric and transitive on all values; a value equals itself if and only if all its numbers read as finite |
| `PyEquality.ShortcutAgrees` | crates/pahoa-datastore/src/pyvalue.rs:122-127 | Leaving out the small-integer shortcut at every level changes no answer |
| `PyOrdering.CmpSwap` | crates/pahoa-datastore/src/pyvalue.rs:247-268 | Swapping the operands reverses `py_cmp` and refuses the same pairs |
| `PyOrdering.CmpEqualIsEq` | crates/pahoa-datastore/src/pyvalue.rs:247-268 | `py_cmp` answers Equal exactly for `py_eq` values built of readable numbers, texts and lists |
| `PyOrdering.CmpCompose` | crates/pahoa-datastore/src/pyvalue.rs:247-268 | Two steps up are a step up, strict if either is |
| `PyLexical.NumberLess` | crates/pahoa-datastore/src/pyvalue.rs:247-254 | Finite numbers are ordered by what they exactly are, truth values as 1 and 0 |
| `PyLexical.TextLess` | crates/pahoa-datastore/src/pyvalue.rs:255 | A text is less exactly when it is a proper prefix or has the smaller byte at the first difference |
| `PyLexical.ListLess` | crates/pahoa-datastore/src/pyvalue.rs:256-265 | A list is less exactly when it is a proper prefix or has the smaller item at the first difference |
| `PyLexical.BytesOrderCharacters` | crates/pahoa-datastore/src/pyvalue.rs:255 | Comparing the UTF-8 bytes of two texts compares their characters by code point, as Python does |
| `OpsArithmetic.AddExact` | crates/pahoa-datastore/src/ops.rs:240-247 | `add` on integers: the exact sum within 65,536 bits, or IntegerTooWide and the sum has one bit more |
| `OpsArithmetic.MulExact` | crates/pahoa-datastore/src/ops.rs:311-322 | `mul` on integers: the exact product within 65,536 bits, or IntegerTooWide and the product has at least that many; refused exactly when the widths sum past the bound |
| `OpsArithmetic.MulRefusesOneThatFits` | crates/pahoa-datastore/src/ops.rs:311-322 | A product of exactly 65,536 bits that is refused |
| `OpsArithmetic.PowExact` | crates/pahoa-datastore/src/ops.rs:325-360 | The exact power within the bound, or IntegerTooWide and the power is more than half as wide; the 32-bit exponent limit and the bases 0, 1 and -1 included |
| `OpsArithmetic.LeftShiftExact` | crates/pahoa-datastore/src/ops.rs:465-481 | For anything but zero, a*2^n, refused exactly when it would be too wide |
| `OpsArithmetic.LeftShiftOfZero` | crates/pahoa-datastore/src/ops.rs:465-481 | Zero shifted further than the bound is refused although the answer is zero, and no less far |
| `OpsArithmetic.RightShiftExact` | crates/pahoa-datastore/src/ops.rs:482-494 | floor(a/2^n) for every count, too large a count included |
| `OpsArithmetic.NegativeShift` | crates/pahoa-datastore/src/ops.rs:469-471 | A negative count, and nothing else, is a ValueError |
| `OpsArithmetic.ModExact` | crates/pahoa-datastore/src/ops.rs:362-379 | The floored remainder, never too wide; dividing by zero is the only failure |
| `OpsArithmetic.RoundExact` | crates/pahoa-datastore/src/ops.rs:381-401 | `floor` and `ceil` of a double answer the one integer within one below or above it, refused exactly when it is too wide |
| `OpsArithmetic.RoundOthers` | crates/pahoa-datastore/src/ops.rs:381-401 | `floor` and `ceil` leave a whole number within the bound as it is, whatever the argument, and refuse what is no number |
| `OpsArithmetic.ScalarsChecked` | crates/pahoa-datastore/src/ops.rs:162-186 | Every numeric operation on scalars refuses what is no number, and an integer too wide, before anything else |
| `OpsArithmetic.BitwiseExact` | crates/pahoa-datastore/src/ops.rs:434-463 | `xor`, `or` and `and` of two truth values answer a truth value, of integers an integer within the bound |
| `OpsArithmetic.DoublesGoToLibrary` | crates/pahoa-datastore/src/ops.rs:325-379 | Numbers that are not both whole, and negative powers, go to double arithmetic under the operation's own name |
| `Widths.BitsOfProduct` | crates/pahoa-datastore/src/ops.rs:313-319 | A product is as wide as its factors together or one bit less |
| `Widths.BitsOfPower` | crates/pahoa-datastore/src/ops.rs:343-356 | How wide a power can and must be |
| `Widths.BitsOfShift` | crates/pahoa-datastore/src/ops.rs:472-481 | A left shift widens by exactly the count |
| `Widths.BitsAtMost` | crates/pahoa-datastore/src/ops.rs:52 | Width at most k is magnitude below 2^k |
| `OpsSequences.PickIsExtreme` | crates/pahoa-datastore/src/ops.rs:412-424 | `max` and `min` answer the operand the order names, the current value of two equals, and refuse exactly what cannot be ordered |
| `OpsSequences.MaxOfAll` | crates/pahoa-datastore/src/ops.rs:412-424 | After any run of `max` operations on orderable values the result is one of them and at least all of them |
| `OpsSequences.MinOfAll` | crates/pahoa-datastore/src/ops.rs:412-424 | After any run of `min` operations on orderable values the result is one of them and at most all of them |
| `OpsContainers.SimpleAnswers` | crates/pahoa-datastore/src/ops.rs:192-220 | `replace` answers the argument, `default` the current value, and an unknown name its error |
| `OpsContainers.AddJoins` | crates/pahoa-datastore/src/ops.rs:222-239 | `add` on two texts or two lists: all of the current value, then all of the argument, up to 16 MiB |
| `OpsContainers.AddRefuses` | crates/pahoa-datastore/src/ops.rs:240-247 | `add` of anything else that is not two numbers is a type error |
| `OpsContainers.MulRepeatsText` | crates/pahoa-datastore/src/ops.rs:250-310 | `mul` of a text and an integer in either order: as long as the text times the count, none below zero, place k the text's place k modulo its length; Overflow past 64 bits, ResultTooLarge past 16 MiB |
| `OpsContainers.MulRepeatsList` | crates/pahoa-datastore/src/ops.rs:250-310 | The same for a list |
| `OpsContainers.MulRefuses` | crates/pahoa-datastore/src/ops.rs:303-310 | Two sequences, a map, or a sequence and no integer are a type error |
| `OpsContainers.RemoveAnswers` | crates/pahoa-datastore/src/ops.rs:508-521 | `remove` takes out the first equal element, or nothing |
| `OpsContainers.PopAnswers` | crates/pahoa-datastore/src/ops.rs:532-567 | `pop` on a list for every index: which element goes, nothing past the end, the error before the start |
| `OpsContainers.PopKeyAnswers` | crates/pahoa-datastore/src/ops.rs:568-588 | `pop` on a map: that key alone goes, any other plain value changes nothing, a list or map as key is an error |
| `OpsContainers.PopRefuses` | crates/pahoa-datastore/src/ops.rs:508-590 | `remove` on anything but a list and `pop` on anything but a list or map are type errors, as is an index that is no integer |
| `OpsContainers.MergeAnswers` | crates/pahoa-datastore/src/ops.rs:454-462 | `or` and `update` on two maps: the argument wins, everything else stays, keys keep their places |
| `OpsContainers.UpdateAnswers` | crates/pahoa-datastore/src/ops.rs:605-640 | `update` on a list with anything that can be gone through: what it did not hold is appended in order, or which refusal |
| `OpsContainers.UpdateAgain` | crates/pahoa-datastore/src/ops.rs:605-640 | Repeating it changes nothing if and only if every entry can be read |
| `OpsContainers.UpdatePairsAnswers` | crates/pahoa-datastore/src/ops.rs:651-690 | `update` on a map with a sequence of pairs merges them, or answers the error of the first element that is no pair with a text key |
| `OpsContainers.UpdateRefuses` | crates/pahoa-datastore/src/ops.rs:600-690 | Anything else is a type error |
| `OpsContainers.Yields` | crates/pahoa-datastore/src/ops.rs:129-141 | Going through a list yields its items, through a text its characters, through a map its keys, and nothing else can be gone through |
| `OpsContainers.CharsAreScalars` | crates/pahoa-datastore/src/ops.rs:129-141 | The characters of a text are its Unicode scalar values, each encoded by itself |
| `OpsSequences.CopiesRepeat` | crates/pahoa-datastore/src/ops.rs:253-300 | A repeated text or list reads as it over and over |
| `OpsSequences.PopFromEnd` | crates/pahoa-datastore/src/ops.rs:532-567 | Negative indices count from the end, past the end is no change, before the start is the error, and putting the popped element back restores the list |
| `OpsSequences.MergeMeans` | crates/pahoa-datastore/src/ops.rs:454-462 | Merging objects: the argument wins, everything else stays, no key twice |
| `OpsSequences.MergeKeepsPlaces` | crates/pahoa-datastore/src/ops.rs:454-462 | The first object's keys keep their places |
| `OpsSequences.PopThenPut` | crates/pahoa-datastore/src/ops.rs:568-588 | Popping a key takes out that entry and no other, and putting it back restores every lookup and the size |
| `OpsSequences.UpdateAppends` | crates/pahoa-datastore/src/ops.rs:605-640 | `update` on a list appends in order every entry not there at the start, once for each time it is given, and only hashable ones |
| `OpsSequences.UpdateTwice` | crates/pahoa-datastore/src/ops.rs:605-640 | Repeating an update appends again exactly the out-of-range numbers among the new entries, or is refused for length; it is idempotent if and only if every entry can be read |
| `OpsSequences.UpdateSucceeds` | crates/pahoa-datastore/src/ops.rs:605-640 | With hashable entries an update fails exactly when what is missing does not fit |
| `OpsSequences.OutOfRangeNeverPresent` | crates/pahoa-datastore/src/ops.rs:605-640 | A number beyond the range of a double is appended to every list of hashable elements that has room |
| `OpsSequences.SequencesJoin` | crates/pahoa-datastore/src/ops.rs:718-723 | Running two sequences one after the other is running them joined: same value, or same failure at the same place |
| `OpsKeyed.RunsKeepKeyed` | crates/pahoa-datastore/src/ops.rs:718-723 | No run of operations ever builds an object holding a key twice, so the equality laws apply to everything computed |
| `OpsKeyed.ApplyKeepsKeyed` | crates/pahoa-datastore/src/ops.rs:192-220 | Each of the eighteen operations keeps that |
| `Ops.RemoveFrom` | crates/pahoa-datastore/src/ops.rs:508-521 | The first element equal to the argument goes, in order; the list is unchanged exactly when there is none |
| `Ops.UpdateList` | crates/pahoa-datastore/src/ops.rs:605-640 | The two loops append what the function the lemmas are about appends, or fail as it fails |
| `Ops.MergeInto` | crates/pahoa-datastore/src/ops.rs:454-462 | The insertion loop computes the merge |
| `Ops.UpdatePairs` | crates/pahoa-datastore/src/ops.rs:651-690 | The loop over pairs merges the pairs the elements stand for, or fails with the error of the first element that is no pair with a text key |
| `Ops.PairsRead` | crates/pahoa-datastore/src/ops.rs:651-690 | Every element read in order, or the first that is no pair |
| `Ops.ApplyEach` | crates/pahoa-datastore/src/ops.rs:718-723 | The last value of the whole sequence, or the index and error of the first operation that fails after all before it succeeded |
| `Locations.FromEntries` | crates/pahoa-multidata/src/locations.rs:108-129 | Sorted, a permutation of the input, each slot's run exactly the places its entries hold, one declared slot per distinct sender |
| `Locations.ForSlotHolds` | crates/pahoa-multidata/src/locations.rs:132-137 | `for_slot` holds exactly the input entries of that slot, as often as the input, by ascending location |
| `Locations.SlicesPartition` | crates/pahoa-multidata/src/locations.rs:132-137 | The slices of all slots, in order, are the sorted array |
| `Locations.Get` | crates/pahoa-multidata/src/locations.rs:140-146 | Binary search finds an entry at that place, or none is there |
| `Locations.GetIsMapLookup` | crates/pahoa-multidata/src/locations.rs:140-146 | With no place listed twice a lookup agrees with a plain map from (slot, location) to entry |
| `Locations.Validate` | crates/pahoa-multidata/src/locations.rs:177-213 | Which tables are refused and why, and which pass |
| `Locations.NeighboursSuffice` | crates/pahoa-multidata/src/locations.rs:203-212 | Looking at neighbours within slices finds every place listed twice |
| `LocationReading.FromPy` | crates/pahoa-multidata/src/locations.rs:59-100 | The store of the table read from the decoded value, or the error of the first thing that does not fit |
| `LocationTable.TableReadsBack` | crates/pahoa-multidata/src/locations.rs:59-100 | A decoded value is read as a table if and only if it spells one out, every slot, location, item, receiver and flag in its place, and what is read is what is spelled, in order |
| `LocationTable.WrittenReadsBack` | crates/pahoa-multidata/src/locations.rs:59-100 | Any slots and entries written out as a value are read back |
| `LocationReading.ValidMeans` | crates/pahoa-multidata/src/locations.rs:177-213 | A table as read passes exactly when it has locations, declares as many slots as its highest id, and lists no place twice |
| `LocationReading.CountingFindsGaps` | crates/pahoa-multidata/src/locations.rs:180-187 | With distinct keys, as many as the highest holds exactly when they are 1 to the highest |
| `LocationReading.ValidTable` | crates/pahoa-multidata/src/locations.rs:177-213 | A table with distinct slot keys that passes declares exactly 1 to its highest, and every lookup is the plain map's |
| `LocationReading.PassingTableIsContiguous` | crates/pahoa-multidata/src/locations.rs:177-201 | A table that passes declares exactly 1 to its highest if and only if no slot key was given twice |
| `LocationReading.RepeatedKeyHidesGap` | crates/pahoa-multidata/src/locations.rs:180-201 | Slots 1, 3 and 3 again pass although 2 is missing |

## Left out

- PyRandom.RandBelow: takes the number of attempts allowed and answers none when they run out, because the rejection loop ends only with probability one; `MoreAttempts` says the answer does not depend on the number.
- Shuffle.ShuffleInPlace: stops early when a draw runs out of attempts, for the same reason, and is then still a permutation.
- Locations.FromEntries: fewer than 2^32 entries, because the index stores 32-bit positions and the source truncates silently beyond; no sender above the highest slot, which the source would index out of bounds.
- LocationReading.FromPy: the same bound on entries; error paths and messages are reduced to which check failed.
- ShardClass.ShardTask.HandleFrame: the filter's verdict and the budget's refusal arrive as parameters per recipient, because filter rules and the room's random sampler are not part of this model; `ShardBudget` derives the budget's half.
- ShardBudget.EveryPaidRunBalances: each budget call is one step, and so is the delivery to one recipient with its reservation; the rest of the room, other shards included, is one number that moves within the limit.
- Fanout.NoGapEver: a shard handles one message as one step as far as the actor is concerned, since it does not look at its inboxes meanwhile; a sweep and the marking after a delivery are one step, each closing a member at most once.
- CanonicalReading.NamesDecide: only lists whose names hold no closing bracket; exactly which lists with brackets are ambiguous is not said.
- Ops.ApplyEach: double arithmetic, and bitwise operations on wide integers, are parameters; KeyError is never returned by the source and is not modelled.
- PyValue.FloorModIsFloored: integers only; the floating-point remainder is one of those parameters.
- BudgetCalls.WholeLife: whole calls only, because clearing `oversize` is a separate store; pongs and close echoes, queued without a reservation, would break the match of releases with frames.
- BudgetSteps.EveryInterleaving: counters are unbounded integers; the proved bounds keep them far from the machine width. Memory ordering weaker than one total order of operations is not modelled.
- PickleDecoding.FillAfterFetchDiffers: shows that the values differ; no claim is made that a fetched container could be kept in step.
- PickleReader.Step: the name strings that go with unsupported opcodes are not part of the error.
- Floats in pickles are bit patterns and never computed with; a JSON decimal is the exact value of the double it rounds to, so -0.0 and 0.0 are one value and float printing is not modelled.
- Texts are UTF-8 bytes; the model does not require texts in JSON values to be valid UTF-8.
- Compression is a pure function of payload and window size; SHA-512 in `seed_str` and zlib are not modelled.
- The shard stopping at process shutdown, metrics and log lines.
- Allocation sizes, and running time beyond the termination of every loop.
- Sockets, TLS, HTTP, keepalive, save files, the journal, serde packet shapes, the room state machine, hints, filters and WebSocket framing.
