# A model of the OCaml multicore runtime and its profiling interpreter

This project models the parts of the runtime where correctness depends on several functions, or several
threads, agreeing with each other, and proves what they promise. A 64-bit build is assumed throughout.

- **Marshalling.** `Bytes`, `MarshalFormat` (tokens and byte codes), `MarshalHeap` (heap graphs, what the writer emits,
  what the reader builds), `MarshalRoundTrip` (the simulation between the two), `MarshalMessage` (headers and the
  end-to-end theorem), `MarshalSizes` (the sizes in the header and the bytes), `OpenAddressing`, `Bitvect` and `PositionTable` (the table of objects already written, with its
  presence bits packed in words), `MarshalWriter` and `MarshalReader` (the two loops with their explicit stacks).
- **Lock-free skip list.** `LfLinks` (the linked cells and the three compare-and-swaps), `LfSkiplist` (all threads, one
  shared access per step), `LfReclaim` (garbage list, ownership, executions, freeing), `LfTower`, `LfUpper`, `LfUpperInv`
  and `LfUpperRuns` (an upper level, walked, linked, marked and snipped by the same threads), `LfUpperFree` (when freeing
  leaves no pointer to a freed cell, exactly), `LfUpperUse` (a discipline of the caller that is enough), `LfUpperWitness`
  and `LfUpperStale` (two executions after which freeing is not safe).
- **Stop-the-world sections and barrier.** `StwDomains`, `Stw`, `StwProgress` (sections come to an end), `Barrier`, and
  `StwBarrier` for sections whose callbacks use the barrier.
- **Bytecode machine and fibers.** `Bytecode`, `Interp`, `Currying`, `Traps`, and `Fibers`, `FiberRuns`, `Effects`,
  `FiberHandlers`, `FiberMachine` for effect handlers.
- **Structural comparison and hashing.** `OcamlValue`, `ValueOrder` (what the order says, clause by clause),
  `PolyCompare`, `PolyHash`, `HashMix` (what mixing keeps apart, and fixed values).
- **Bit-exact algorithms.** `FloatRounding`, `HexFloat`, `HexPrint`, `HexTexts`, `Md5`, `Lexer`.
- **The profiler.** `FunctionTable`, `Profiler` (counters exact for the function on top of its stack), `Attribution` (when
  that is the function that runs), `CallStack` (the calls in progress, as the frames on the bytecode machine's stack).

Code that updates state step by step is a class or a method with loops, proved against functions on values; theorems over
whole runs are lemmas about those functions. Concurrent protocols are transition systems in which every shared access is
one atomic step and any thread may move next.

Where the code and its comments differ, the model follows the code:

- `caml_lf_skiplist_insert` returns 1 both when it adds a key and when it finds the key present.
- `intern.c` leaves the code of big-endian and little-endian float arrays with 64-bit lengths out of its endianness test, so
  such an array comes back with the bytes of every element reversed on the host that wrote it. `MarshalMessage.ExactIff`
  states exactly when the copy is exact.
- `caml_hash` gives up on a value behind more than 1000 Forward links (`PolyHash.GivesUp`), so two equal values can hash
  differently (`PolyHash.ChainHashIff`); up to 1000 links a chain hashes as the value (`PolyHash.ChainHash`).
- `caml_lf_skiplist_insert` links its cell on the upper levels without looking at the cell's mark, and with the pointers of
  its first search. So a removed cell can be on an upper level when no operation is in flight, and
  `caml_lf_skiplist_free_garbage` then frees a cell that the next search reads. `LfUpperWitness.FreedButLinked` is such an
  execution with an insert and a remove of one key, `LfUpperStale.FreedThoughKeysApart` one in which calls in flight
  together never have the same key. `LfUpperFree.FreeIsCleanIff` says over all executions when freeing is safe, and
  `LfUpperUse.ApartIsClean` that it is for a caller that has let no insert overlap a remove since the last free. An execution goes on only after
  a free that is safe.
- `caml_float_of_hex` rounds to 53 bits and then scales, which rounds a subnormal result again: `0x1.00000000000001p-1075`
  is read as zero and not as the least double (`HexFloat.ReadAsZero`). `HexFloat.ParsedCorrectly` states the exact
  condition for any text.
- `caml_float_of_hex` refuses a number without digits, except when nothing or a point comes before the exponent and the
  exponent does not fit an int; then it reads zero (`HexPrint.NoDigits`).
- The profiler's function stack is pushed by APPLY and APPLY1-3 and popped by RETURN, and the counters stay exact for the
  function on top of it. That need not be the function that runs. A tail call enters a function without a push, GRAB with
  too few arguments returns without a pop, RETURN with arguments left pops although it enters a function, exceptions and
  effects leave functions without a pop, and a push on the full stack is lost. `Attribution` has a lemma for each at any
  point of any run (`TailCallCounted`, `PartialCounted`, `OverReturnCounted`, `RaiseCounted`, `SwitchCounted`,
  `DeepCallsShift`) and the exact conditions: `StackIff`, `AttributionIff`, and `NoRecursionIff` for runs without recursion.
- `compare` raises Out_of_memory on values that need 2^19 stack slots or more; `PolyCompare.CompareVal` says exactly when.

## Model

| member | source | states |
|---|---|---|
| `OpenAddressing.Insert` | ocaml/runtime/extern.c:345-355 | Filling the slot where the probe for an absent key ends makes the table represent the map with that key added, one key more. |
| `OpenAddressing.Overwrite` | interp.c:498-536 | Refilling a key's slot makes the table represent the updated map, with as many keys. |
| `OpenAddressing.EmptySlotExists` | ocaml/runtime/extern.c:324-339 | With fewer keys than slots there is an empty slot, so probing ends. |
| `OpenAddressing.ProbeStep` | ocaml/runtime/extern.c:324-339 | A probe step passes only full slots and comes strictly closer to an empty one. |
| `PositionTable.Grown` | ocaml/runtime/extern.c:273-281 | Eight times or twice the slots keep size and shift in agreement and raise the threshold. |
| `Bitvect.OrThenAnd` | ocaml/runtime/extern.c:250-262 | Setting one bit of a word by shift and or changes the test of that bit and of no other. |
| `Bitvect.SetTest` | ocaml/runtime/extern.c:250-262 | In a vector packed in 64-bit words, setting bit i makes i test true and leaves every other bit. |
| `Bitvect.SetFits` | ocaml/runtime/extern.c:259-262 | Setting a bit keeps every word below 2^64. |
| `PositionTable.Using` | ocaml/runtime/extern.c:345-350 | The presence map with one slot more in use. |
| `PositionTable.KnownHash` | ocaml/runtime/extern.c:209-216 | The slot of the address 8 in the first table. |
| `PositionTable.Probe` | ocaml/runtime/extern.c:324-339 | The look-up loop over the packed presence map ends at the key or at the free slot where it belongs. |
| `PositionTable.FirstFree` | ocaml/runtime/extern.c:306-314 | The loop of the growth step finds the free slot for a key not moved yet. |
| `PositionTable.Rehash` | ocaml/runtime/extern.c:300-317 | Moving every present entry to the new arrays represents the same map. |
| `PositionTable.Table.Lookup` | ocaml/runtime/extern.c:324-339 | Finds a key exactly if it was recorded, with the position stored for it; else the slot it belongs in. |
| `PositionTable.Table.Record` | ocaml/runtime/extern.c:345-355 | Adds exactly one key with the counter as position, growing the table at its threshold. |
| `PositionTable.Table.Grow` | ocaml/runtime/extern.c:264-317 | Growing keeps the contents and makes the table valid again. |
| `Bytes.FromToBigEndian` | ocaml/runtime/extern.c:458-472 | A stored word reads back modulo its size. |
| `MarshalFormat.EncodeSnoc` | ocaml/runtime/extern.c:476-537 | Output is appended token by token. |
| `MarshalFormat.DecodeEncode` | ocaml/runtime/intern.c:392-667 | Decoding the bytes of any token, on any pair of hosts and whatever follows, gives the received token and consumes exactly its bytes. |
| `MarshalFormat.DecodeEncodeInt` | ocaml/runtime/extern.c:540-563 | Every 63-bit integer is read back from its code. |
| `MarshalFormat.DecodeEncodeHeader` | ocaml/runtime/extern.c:580-599 | Block size and tag come back from the small, 32-bit and 64-bit header codes. |
| `MarshalFormat.DecodeEncodeString` | ocaml/runtime/extern.c:603-624 | Strings of any length below 2^64 come back. |
| `MarshalFormat.DecodeEncodeDoubleArray` | ocaml/runtime/extern.c:636-656 | Float arrays come back, elements reversed exactly for 64-bit lengths between equal hosts. |
| `MarshalRoundTrip.StepSim` | ocaml/runtime/intern.c:410-660 | One token written and read keeps writer and reader in step: same pending values, same object numbers, same words allocated. |
| `MarshalRoundTrip.SharedSim` | ocaml/runtime/intern.c:503-510 | At a shared reference the reader's table entry is the object the writer recorded. |
| `MarshalRoundTrip.Simulate` | ocaml/runtime/intern.c:392-670 | Fed the writer's bytes the reader consumes exactly them, fills every field, and allocates the words the writer counted. |
| `MarshalRoundTrip.PathsAgree` | ocaml/runtime/extern.c:745-886 | Every access path exists on both sides or neither and ends in corresponding values, cycles included. |
| `MarshalRoundTrip.GraphAgrees` | ocaml/runtime/extern.c:745-886 | The two graphs are isomorphic with the same sharing, or, without sharing, the copy is the tree unfolding. |
| `MarshalMessage.ParseHeaderFor` | ocaml/runtime/intern.c:694-736 | The header, small or big, is read back with its sizes and counts, the small one with the size for 32-bit readers. |
| `MarshalMessage.ObjectsBounded` | ocaml/runtime/extern.c:890-934 | The object count never exceeds the words counted, so it fits its header field. |
| `MarshalMessage.RoundTrip` | ocaml/runtime/extern.c:890-934 | Unmarshalling the message of any writable graph succeeds with an isomorphic graph of the same sharing, or its tree; counts and sizes in the header are those the reader uses. |
| `MarshalMessage.ExactIff` | ocaml/runtime/intern.c:249-283 | The copy's floats are exact if and only if hosts differ or no reachable array of 2^32 elements holds a non-palindromic double. |
| `MarshalMessage.LargeArrayGarbled` | ocaml/runtime/intern.c:267-269 | On either host there is a message, of an array of 2^32 doubles, that this host reads back to a graph with other floats. |
| `MarshalSizes.HeaderSizes` | ocaml/runtime/extern.c:890-934 | In the header of any message the sizes count, over the blocks written, one header word each and the least number of 4-byte, and of 8-byte, words for the contents; the object count is that of the blocks with sharing, 0 without; the small format is used exactly when all fit 32 bits. |
| `MarshalSizes.SizesUnique` | ocaml/runtime/extern.c:796-857 | These sizes are determined by the blocks. |
| `MarshalSizes.WrittenOnce` | ocaml/runtime/extern.c:784-792 | With sharing the blocks written are the objects recorded, each once and in order. |
| `MarshalSizes.CompatIff` | ocaml/runtime/extern.c:540-656 | COMPAT_32 refuses exactly integers of more than 31 bits and blocks of more than 2^22 words of a 32-bit host. |
| `MarshalSizes.HeaderRefusedIff` | ocaml/runtime/extern.c:906-915 | And messages of which a size or the length does not fit 32 bits. |
| `MarshalSizes.BigEndianAt` | ocaml/runtime/extern.c:458-472 | Every stored word has its most significant byte first. |
| `MarshalSizes.IntLength` | ocaml/runtime/extern.c:540-563 | The code of an integer takes 1, 2, 3, 5 or 9 bytes, by its range. |
| `MarshalSizes.KnownInts` | ocaml/runtime/extern.c:540-563 | The bytes of 1, -1, 1000 and -200000. |
| `MarshalSizes.KnownHeaders` | ocaml/runtime/extern.c:580-599 | The bytes of block headers, small, 32-bit and 64-bit. |
| `MarshalSizes.KnownReferences` | ocaml/runtime/extern.c:567-578 | The bytes of references to earlier objects. |
| `MarshalSizes.KnownStrings` | ocaml/runtime/extern.c:603-624 | The bytes of strings of each length class. |
| `MarshalSizes.KnownDoubles` | ocaml/runtime/extern.c:628-656 | The bytes of a double and the codes of float arrays on either kind of host. |
| `MarshalSizes.KnownMessage` | ocaml/runtime/extern.c:890-934 | The message of (1, "ab", -1), byte by byte. |
| `MarshalSizes.TruncatedIsRefused` | ocaml/runtime/intern.c:803-821 | A message cut short anywhere is refused. |
| `MarshalWriter.CompleteRunIsWritable` | ocaml/runtime/extern.c:745-886 | A complete traversal shows that every reachable value is writable. |
| `MarshalWriter.StuckRunIsNot` | ocaml/runtime/extern.c:820-822 | A traversal stops only at a reachable value that cannot be written. |
| `MarshalWriter.WeightDecreases` | ocaml/runtime/extern.c:745-886 | Without sharing, on acyclic input, every step shortens the work left. |
| `MarshalWriter.Extern.Write` | ocaml/runtime/extern.c:540-656 | Writes the token and counts its words, or refuses what 32-bit compatibility forbids. |
| `MarshalWriter.Extern.RecordLocation` | ocaml/runtime/extern.c:345-355 | Numbers the object next in order. |
| `MarshalWriter.Extern.Visit` | ocaml/runtime/extern.c:754-859 | Emits exactly the token the specification gives for the value. |
| `MarshalWriter.Extern.Advance` | ocaml/runtime/extern.c:860-884 | The stack holds exactly the values still to be written, in order. |
| `MarshalWriter.Extern.ExternRec` | ocaml/runtime/extern.c:745-886 | The traversal ends, writes the specified tokens, and fails if and only if a reachable value is not writable. |
| `MarshalWriter.ExternValue` | ocaml/runtime/extern.c:890-934 | Builds the specified message, or fails because of an unwritable value or a size 32-bit readers cannot take. |
| `MarshalReader.Intern.Step` | ocaml/runtime/intern.c:410-660 | One iteration does what the specification does with the token, and refuses references outside the table. |
| `MarshalReader.Intern.AllocateAndStore` | ocaml/runtime/intern.c:369-390 | Allocates at the writing pointer, enters the object table, asks for the fields. |
| `MarshalReader.Intern.InternRec` | ocaml/runtime/intern.c:392-670 | The stack loop is the recursive reader, with the same failures. |
| `MarshalReader.InputValue` | ocaml/runtime/intern.c:803-821 | Parsing, allocating and reading any bytes gives the specified result or failure. |
| `LfLinks.SnipKeeps` | ocaml/runtime/lf_skiplist.c:175-223 | Unlinking a marked successor keeps order, reachability of unmarked cells and the set. |
| `LfLinks.LinkAdds` | ocaml/runtime/lf_skiplist.c:393-403 | The insert's compare-and-swap adds exactly the new key, which was absent. |
| `LfLinks.MarkRemoves` | ocaml/runtime/lf_skiplist.c:478-496 | The mark removes exactly the marked cell's key. |
| `LfLinks.Gap` | ocaml/runtime/lf_skiplist.c:142-246 | An unmarked cell and its successor that enclose a key show it absent. |
| `LfSkiplist.EffectChained` | ocaml/runtime/lf_skiplist.c:142-246 | Every compare-and-swap keeps pointers going to larger keys and unmarked cells reachable from head. |
| `LfSkiplist.MarkedIsFrozen` | ocaml/runtime/lf_skiplist.c:478-496 | A marked cell's pointer never changes again; keys and marks are permanent. |
| `LfSkiplist.ThreadStable` | ocaml/runtime/lf_skiplist.c:142-246 | What a thread has learnt stays true under any step of any other thread. |
| `LfSkiplist.CoreStep` | ocaml/runtime/lf_skiplist.c:340-403 | Every step of every thread keeps the bottom list and the threads' knowledge, also after a snip above or with a predecessor marked meanwhile. |
| `LfReclaim.StepKeepsInv` | ocaml/runtime/lf_skiplist.c:181-223 | Every step keeps the invariants of the bottom level, the garbage list and ownership. |
| `LfReclaim.StepOnSet` | ocaml/runtime/lf_skiplist.c:340-403 | A step changes the set by nothing, by its insert's key, or by its remove's key. |
| `LfReclaim.ExecutionInv` | ocaml/runtime/lf_skiplist.c:142-246 | The invariant of the bottom level holds in every state of every execution. |
| `LfReclaim.AnswersAreJustified` | ocaml/runtime/lf_skiplist.c:441-498 | "Not there" and "already there" were true at some moment of the call. |
| `LfReclaim.RemovedOnce` | ocaml/runtime/lf_skiplist.c:478-496 | Two successful marks of a cell are one and the same step. |
| `LfReclaim.RemovalMarked` | ocaml/runtime/lf_skiplist.c:441-498 | A remove that reports success marked a cell itself, during its call. |
| `LfReclaim.OneRemoval` | ocaml/runtime/lf_skiplist.c:441-498 | Two calls that report the removal of one cell, not freed in between, are one call. |
| `LfReclaim.InsertionLinked` | ocaml/runtime/lf_skiplist.c:393-437 | An insert that reports a new key linked a cell of its key itself, during its call. |
| `LfReclaim.OneInsertion` | ocaml/runtime/lf_skiplist.c:393-437 | A call links at most one cell on the bottom level. |
| `LfReclaim.AnswersAreExact` | ocaml/runtime/lf_skiplist.c:340-498 | A call reports a removal if and only if it has marked a cell, and an insertion if and only if it has linked one. |
| `LfReclaim.MarkedStays` | ocaml/runtime/lf_skiplist.c:478-496 | Until freed, a marked cell keeps its mark and its pointer. |
| `LfReclaim.GarbageStep` | ocaml/runtime/lf_skiplist.c:181-223 | A cell joins the garbage list at most once, after being claimed, and the list stays linked to the head sentinel. |
| `LfReclaim.QuiescentGarbage` | ocaml/runtime/lf_skiplist.c:500-518 | With no operation in flight the list holds exactly the marked cells, all unreachable on the bottom level. |
| `LfReclaim.FreeGarbage` | ocaml/runtime/lf_skiplist.c:504-518 | The freeing walk ends and visits each garbage cell once. |
| `LfReclaim.FreeingKeepsBottom` | ocaml/runtime/lf_skiplist.c:504-518 | On the bottom level, freeing then keeps the invariant and the set, and frees exactly the garbage, none of it reachable. |
| `LfTower.SnipTracks` | ocaml/runtime/lf_skiplist.c:175-223 | A walk on its way to a removed cell stays on its way whatever other cells are snipped on the upper level. |
| `LfUpperInv.ShiftLeads` | ocaml/runtime/lf_skiplist.c:405-423 | Only a link step makes an upper pointer lead where it did not, and only through the cell linked. |
| `LfUpperRuns.WalkHunts` | ocaml/runtime/lf_skiplist.c:174-241 | The search that ends a remove cannot leave the upper level before it has met the removed cell there. |
| `LfUpperRuns.XStepKeepsInv` | ocaml/runtime/lf_skiplist.c:142-498 | Every step of every thread keeps the invariant of both levels. |
| `LfUpperFree.XExecutionInv` | ocaml/runtime/lf_skiplist.c:142-498 | It holds in every state of every execution whose frees are safe. |
| `LfUpperFree.QuiescentLevel` | ocaml/runtime/lf_skiplist.c:500-518 | With no operation in flight, the removed cells still on the upper level are exactly those that a link step made after their mark has led to. |
| `LfUpperFree.FreeIsCleanIff` | ocaml/runtime/lf_skiplist.c:405-423 | In a quiescent state of any execution, freeing leaves no upper pointer to a freed cell if and only if no link step taken after a cell's mark has led the level to it without its being snipped since. |
| `LfUpperFree.CleanFreeKeepsInv` | ocaml/runtime/lf_skiplist.c:504-518 | A safe free keeps the invariant of both levels. |
| `LfUpperFree.NeverStuck` | ocaml/runtime/lf_skiplist.c:142-246 | While every free is safe, no thread on either level reads a cell that does not exist. |
| `LfUpperFree.Projects` | ocaml/runtime/lf_skiplist.c:142-498 | The bottom level of any execution is an execution of the bottom level alone, so all its results carry over. |
| `LfUpperUse.ApartIsClean` | ocaml/runtime/lf_skiplist.c:500-518 | If no insert was in flight together with a remove since the last free, or the start, freeing is safe in a quiescent state. |
| `LfUpperWitness.FreedButLinked` | ocaml/runtime/lf_skiplist.c:405-423 | For any key: an insert and a remove of it after which, all calls finished, a garbage cell is linked on the upper level. |
| `LfUpperStale.FreedThoughKeysApart` | ocaml/runtime/lf_skiplist.c:380-423 | For any two keys: an execution with no insert and remove of one key in flight together that also ends so, through a stale upper pointer. |
| `StwDomains.SwapOutIs` | ocaml/runtime/domain.c:214-226 | Leaving by swapping removes exactly that domain. |
| `StwDomains.Table.Add` | ocaml/runtime/domain.c:199-212 | In-place swap adds the domain at the end and permutes the array. |
| `StwDomains.Table.Remove` | ocaml/runtime/domain.c:214-226 | In-place swap removes the domain and permutes the array. |
| `Stw.StepKeepsInv` | ocaml/runtime/domain.c:981-1141 | Any step of any domain keeps the protocol's invariant, for any number of domains. |
| `Stw.RunInv` | ocaml/runtime/domain.c:1044-1141 | It holds in every state of every run. |
| `Stw.NoOverlap` | ocaml/runtime/domain.c:1058-1072 | When a section begins no domain is in one or owes one. |
| `Stw.CallbackAfterAll` | ocaml/runtime/domain.c:1000-1035 | No callback starts before every domain of the snapshot has acknowledged. |
| `Stw.CallbackOnce` | ocaml/runtime/domain.c:1018-1027 | A domain enters the callback only as a member of the snapshot and once. |
| `Stw.ClearedWhenFinished` | ocaml/runtime/domain.c:981-997 | The leader word is cleared only when every member has finished. |
| `Stw.NoPendingInterrupt` | ocaml/runtime/domain.c:293-308 | No interrupt is pending for a domain that is sent one, or for a new domain: the assertions at 296 and 1112. |
| `Stw.WorldStopped` | ocaml/runtime/domain.c:1124-1131 | From release until a callback finishes, every domain is held in the section. |
| `StwProgress.LeaderIsBusy` | ocaml/runtime/domain.c:981-997 | In every state of every run, while the leader word is set some domain gathers the others, has yet to finish, or is clearing the word. |
| `StwProgress.AlwaysCanEnd` | ocaml/runtime/domain.c:981-1141 | From every state of every run some run leads to one without a section and with the lock free. |
| `StwProgress.RequestServed` | ocaml/runtime/domain.c:1044-1141 | A request made with word and lock free becomes a section that all domains of the set finish, and word and lock are free again. |
| `StwProgress.JoinsAndLeaves` | ocaml/runtime/domain.c:391-403 | A new domain joins the set, and one without a pending interrupt leaves it. |
| `Barrier.StepKeepsInv` | ocaml/runtime/domain.c:944-968 | Any domain's next step keeps the barrier's invariant. |
| `Barrier.RunInv` | ocaml/runtime/domain.c:941-974 | It holds over any number of rounds. |
| `Barrier.NobodyLeavesEarly` | ocaml/runtime/domain.c:955-968 | Nobody leaves a round before all have entered it, and nobody is two rounds ahead. |
| `Barrier.FinalSeesAll` | ocaml/runtime/domain.c:955-961 | The resetting store happens when all have arrived, so no arrival is lost. |
| `Barrier.OneFinal` | ocaml/runtime/domain.c:950-953 | At most one domain of a round is final. |
| `Barrier.SomeFinal` | ocaml/runtime/domain.c:950-953 | When all have arrived one is final. |
| `Barrier.WaiterReleased` | ocaml/runtime/domain.c:962-967 | A domain waiting in a round that is over can leave it. |
| `Barrier.RoundEnds` | ocaml/runtime/domain.c:941-974 | From every state some run ends the round. |
| `StwBarrier.StepKeepsInv` | ocaml/runtime/domain.c:941-1141 | Any step of any domain, of the section protocol or at a barrier, keeps both invariants together. |
| `StwBarrier.ResetIsFree` | ocaml/runtime/domain.c:1072-1083 | When the leader resets the barrier word no domain is inside a barrier. |
| `StwBarrier.SectionStartsFresh` | ocaml/runtime/domain.c:1083-1087 | A prepared section starts with a barrier nobody has entered, for exactly the domains it will announce and count. |
| `StwBarrier.CallbackBarrier` | ocaml/runtime/domain.c:950-968 | In every run a callback shares the barrier with exactly the domains of its section, and none leaves a barrier before all of them entered it. |
| `StwBarrier.AllStarted` | ocaml/runtime/domain.c:955-968 | Past its first barrier, a callback knows that every domain of the section has entered the callback. |
| `StwBarrier.BarrierPassed` | ocaml/runtime/domain.c:941-974 | With all domains of a section in its callback, some run takes them through a barrier. |
| `Currying.AfterRestart` | ocaml/runtime/interp.c:620-628 | RESTART turns a call of a partial application into a call of the function with all arguments in order. |
| `Currying.EnoughReachesBody` | ocaml/runtime/interp.c:630-635 | With enough arguments, held and new ones reach the body together, with the function as environment. |
| `Currying.FewReturnPartial` | ocaml/runtime/interp.c:635-645 | With too few, the caller gets a closure that holds them all and is otherwise as it was. |
| `Currying.GroupsReachBody` | ocaml/runtime/interp.c:473-646 | For every arity and every grouping the body is reached with all arguments in order. |
| `Currying.AnyGrouping` | ocaml/runtime/interp.c:473-646 | Grouped and full application reach the same state but for the dead accumulator. |
| `Currying.FewGroupsHeld` | ocaml/runtime/interp.c:630-646 | Groups too few in all leave one closure holding every argument. |
| `Currying.ReturnApplies` | ocaml/runtime/interp.c:578-584 | RETURN applies the result to the arguments beyond the arity, as an application would. |
| `Currying.OverApplication` | ocaml/runtime/interp.c:578-588 | Over-application and application in two steps come to the same call. |
| `Currying.ApplyInstruction` | ocaml/runtime/interp.c:487-528 | APPLY1-3 put a return frame under their arguments. |
| `Currying.ApplyAfterRetaddr` | ocaml/runtime/interp.c:473-485 | PUSH_RETADDR, the arguments and APPLY n make the application of n arguments that returns to the address pushed. |
| `Currying.TailCallApplies` | ocaml/runtime/interp.c:530-576 | A tail call takes over the caller's pending arguments. |
| `Interp.Machine.TryRealloc` | ocaml/runtime/fiber.c:383-440 | Moving the stack to a larger area changes nothing observable and makes the room asked for. |
| `Interp.Machine.CheckStacks` | ocaml/runtime/interp.c:1027-1034 | After the check there is room above the threshold, everything else as before. |
| `Interp.Machine.ApplyK` | ocaml/runtime/interp.c:487-528 | The stack after APPLY1-3 is the specified one. |
| `Interp.Machine.TailApply` | ocaml/runtime/interp.c:530-576 | The overlapping slide leaves exactly the arguments on the caller's frame. |
| `Interp.Machine.Restart` | ocaml/runtime/interp.c:620-628 | The copying loop pushes the held arguments in order. |
| `Interp.Machine.Grab` | ocaml/runtime/interp.c:630-646 | Goes on, or builds the partial application and returns. |
| `Interp.Machine.PushTrap` | ocaml/runtime/interp.c:945-953 | Builds the trap frame and links it by its offset from the high end. |
| `Interp.Machine.RaiseHere` | ocaml/runtime/interp.c:1014-1023 | Cuts the stack back to the trap and takes pc, link, environment and extra arguments from it. |
| `Interp.Machine.Run` | ocaml/runtime/interp.c:1027-1034 | Any number of instructions with the stack moved before any of them ends as the instructions alone do. |
| `Traps.LinkedOffsets` | ocaml/runtime/interp.c:945-966 | The offsets found by following links are those of the traps in force. |
| `Traps.RunLinked` | ocaml/runtime/interp.c:945-966 | Over every well-bracketed run the linked offsets are exactly the PUSHTRAPs not yet undone. |
| `Traps.RaiseRestores` | ocaml/runtime/interp.c:1014-1023 | RAISE restores sp, environment, extra arguments and outer link of the innermost PUSHTRAP. |
| `Traps.RaiseCaught` | ocaml/runtime/interp.c:987-988 | A handler is found on the stack exactly when a PUSHTRAP is in force. |
| `FiberRuns.StepKeepsInv` | ocaml/runtime/interp.c:1302-1418 | Every effect instruction, return, raise, use, allocation or growth keeps each stack in exactly one chain, linked as the pointers say. |
| `FiberRuns.PerformKeeps` | ocaml/runtime/interp.c:1344-1379 | PERFORM moves the innermost running stack to a new continuation. |
| `FiberRuns.ReperformKeeps` | ocaml/runtime/interp.c:1381-1418 | REPERFORMTERM appends the handler's stack to the continuation's end. |
| `FiberRuns.ResumeKeeps` | ocaml/runtime/interp.c:1313-1333 | Resuming puts the whole chain on top of the resumer. |
| `FiberRuns.FreePooledKeeps` | ocaml/runtime/fiber.c:449-466 | A freed stack goes to the front of its bucket and nowhere else. |
| `FiberRuns.GrowKeeps` | ocaml/runtime/fiber.c:383-440 | A full stack is replaced in its place by a larger one, cached or new, and given back. |
| `Effects.ExactlyOnePlace` | ocaml/runtime/interp.c:1302-1418 | In every state of every run each stack is in exactly one place: running, one continuation, in hand, or cached. |
| `Effects.FindTail` | ocaml/runtime/interp.c:1319-1319 | The walk along parents ends, at the last stack of the chain. |
| `Effects.Untouched` | ocaml/runtime/interp.c:1302-1418 | No action changes a suspended stack unless it names its owner. |
| `Effects.ForwardedChain` | ocaml/runtime/interp.c:1381-1418 | After any number of forwards, handlers' stacks growing meanwhile, the continuation and the running chain together are the original chain, in order. |
| `Effects.ResumeRestores` | ocaml/runtime/interp.c:1302-1418 | A perform forwarded through any handlers, kept through anything, taken and resumed has its stacks back in order on the resumer, with the words and trap of the perform, and the resumer's function is entered there with its argument. |
| `Effects.ContinueGoesOn` | ocaml/runtime/interp.c:611-617 | When the resumed function returns, pc, environment, extra arguments, words and trap are those of the perform. |
| `Effects.UnhandledAtPerform` | ocaml/runtime/interp.c:1392-1397 | An effect every handler forwards raises at the perform with its stack whole again. |
| `Effects.HandlerContext` | ocaml/runtime/interp.c:590-608 | However long a child runs, its return, exception or effect calls its handler over the resumer's words, with the resumer's trap and pending arguments. |
| `Effects.TakenStaysTaken` | ocaml/runtime/fiber.c:468-495 | A continuation is taken at most once. |
| `FiberHandlers.AllocGives` | ocaml/runtime/fiber.c:124-138 | A stack just allocated is in use, has the handlers given, no parent and no trap. |
| `FiberHandlers.HandlersStay` | ocaml/runtime/interp.c:1302-1418 | No action changes the handlers of a stack in use, growth included, and only its end takes it out of use. |
| `FiberHandlers.HandlersKept` | ocaml/runtime/interp.c:1302-1418 | Over any run a stack keeps its handlers until it ends, wherever it has moved. |
| `FiberHandlers.OwnHandlers` | ocaml/runtime/interp.c:590-608 | Over every run, a stack resumed, grown, captured and resumed again any number of times enters the value handler it was allocated with when it returns, the exception handler on an exception and the effect handler when it performs. |
| `FiberMachine.Domain.PerformEffect` | ocaml/runtime/interp.c:1344-1379 | The field updates are the perform of the model; without a parent nothing moves. |
| `FiberMachine.Domain.ReperformEffect` | ocaml/runtime/interp.c:1381-1418 | Both branches of REPERFORMTERM. |
| `FiberMachine.Domain.ResumeStack` | ocaml/runtime/interp.c:1302-1341 | RESUME and RESUMETERM, and the exception for a continuation already taken. |
| `FiberMachine.Domain.ContinuationUse` | ocaml/runtime/fiber.c:468-495 | Gives the stack and leaves NULL. |
| `FiberMachine.Domain.ReturnToParent` | ocaml/runtime/interp.c:590-609 | The value handler runs on the parent and the stack is given back. |
| `FiberMachine.Domain.RaiseToParent` | ocaml/runtime/interp.c:987-1013 | The exception handler runs on the parent; without a parent the exception is uncaught. |
| `FiberMachine.Domain.AllocStack` | ocaml/runtime/fiber.c:275-291 | A stack from the cache or a new one, in hand, with the three handlers given, holding the mark of no trap. |
| `FiberMachine.Domain.GrowStack` | ocaml/runtime/fiber.c:383-440 | The field updates are the growth of the model; the registers stay. |
| `OcamlValue.CompareFlips` | ocaml/runtime/compare.c:116-300 | Swapping the arguments flips the result, in both modes. |
| `OcamlValue.CompareTransitive` | ocaml/runtime/compare.c:116-300 | Total comparison is transitive, strictly so if either step is strict. |
| `OcamlValue.CompareReflexive` | ocaml/runtime/compare.c:124-124 | Total comparison of a value with itself is equal. |
| `OcamlValue.TotalDecides` | ocaml/runtime/compare.c:105-114 | Total comparison always decides, and a partial result that decides agrees with it. |
| `ValueOrder.OrderMeans` | ocaml/runtime/compare.c:122-299 | Less, Equal and Greater for any two values: integers by size and below blocks, then smaller tags, shorter blocks, and what is in them, the first unequal field deciding. |
| `ValueOrder.DoublesMean` | ocaml/runtime/compare.c:200-216 | Doubles compare as the numbers their sign, exponent and significand denote; NaN with nothing, or in total mode equal to NaN and below the rest. |
| `ValueOrder.BeyondInfinity` | ocaml/runtime/compare.c:205-214 | NaN is every pattern beyond infinity. |
| `ValueOrder.StringsMean` | ocaml/runtime/compare.c:187-199 | Strings: the smaller byte at the first difference, or a proper prefix, is less. |
| `ValueOrder.FirstFieldDecides` | ocaml/runtime/compare.c:273-299 | The first pair of fields that is not equal decides. |
| `ValueOrder.FirstDoubleDecides` | ocaml/runtime/compare.c:217-237 | So does the first pair of elements of float arrays. |
| `ValueOrder.LinksDoNotCount` | ocaml/runtime/compare.c:173-186 | Forward links on either side do not count. |
| `PolyCompare.CompareLeaves` | ocaml/runtime/compare.c:192-237 | Strings, floats, float arrays and objects: the integer returned has the sign of the order. |
| `PolyCompare.CompareStack.Push` | ocaml/runtime/compare.c:62-85 | Pushes across a resize; refused exactly at half the maximal size. |
| `PolyCompare.CompareVal` | ocaml/runtime/compare.c:116-300 | The loop returns the sign of the recursive comparison whatever resizes occur, in 64-bit range, UNORDERED exactly for unordered values; it raises exactly when the slots in use would reach 2^19. |
| `PolyCompare.PeakFits` | ocaml/runtime/compare.c:273-299 | Wherever the comparison ends, it uses no more slots than the nesting of the first value asks for. |
| `PolyCompare.EqualTakesAll` | ocaml/runtime/compare.c:116-300 | For values equal in partial mode it uses exactly those, so the exception depends on the first value alone. |
| `PolyCompare.SpineNeedsOne` | ocaml/runtime/compare.c:273-299 | Lists of any length need one stack slot. |
| `PolyCompare.CamlCompare` | ocaml/runtime/compare.c:302-312 | -1, 0 or 1 as the total order says. |
| `PolyCompare.CamlEqual` | ocaml/runtime/compare.c:314-318 | True exactly for equal values; never for NaN. |
| `PolyCompare.CamlNotEqual` | ocaml/runtime/compare.c:320-324 | True exactly otherwise. |
| `PolyCompare.CamlLessThan` | ocaml/runtime/compare.c:326-330 | True exactly for less. |
| `PolyCompare.CamlLessEqual` | ocaml/runtime/compare.c:332-336 | True exactly for less or equal. |
| `PolyCompare.CamlGreaterThan` | ocaml/runtime/compare.c:338-342 | True exactly for greater. |
| `PolyCompare.CamlGreaterEqual` | ocaml/runtime/compare.c:344-348 | True exactly for greater or equal. |
| `PolyHash.FoldSmall` | ocaml/runtime/hash.c:56-72 | A 32-bit integer is hashed as itself on 64-bit hosts. |
| `PolyHash.NormalAgrees` | ocaml/runtime/hash.c:84-115 | Two doubles are hashed as the same words if and only if they compare equal: both zeros, all NaNs. |
| `PolyHash.MixString` | ocaml/runtime/hash.c:145-175 | Four bytes at a time, then the rest, then the length. |
| `HashMix.MixInjective` | ocaml/runtime/hash.c:32-38 | Mixing is injective in the word for every state and in the state for every word. |
| `HashMix.FinalBack` | ocaml/runtime/hash.c:40-46 | The final mixing is injective. |
| `HashMix.IntsDiffer` | ocaml/runtime/hash.c:56-72 | Different 32-bit integers are mixed in differently. |
| `HashMix.DoublesDiffer` | ocaml/runtime/hash.c:84-115 | So are doubles that differ in one word. |
| `HashMix.ZerosFill` | ocaml/runtime/hash.c:163-171 | An incomplete last group of a string counts as filled up with zero bytes. |
| `HashMix.StringsDiffer` | ocaml/runtime/hash.c:145-175 | Strings of one length that differ in one group of four bytes only, the last incomplete one included, are mixed in differently. |
| `HashMix.HeadersDiffer` | ocaml/runtime/hash.c:279-281 | So are headers of different tag or size. |
| `PolyHash.Dereference` | ocaml/runtime/hash.c:233-242 | Finds the value behind Forward links if and only if there are at most 1000. |
| `PolyHash.CamlHash` | ocaml/runtime/hash.c:184-298 | The loop over the fixed queue computes the bounded breadth-first walk, below 2^30. |
| `HashMix.BlockOfInts` | ocaml/runtime/hash.c:279-289 | A block of integers: its header, then its fields in order, as many as count and limit allow. |
| `HashMix.LimitMeans` | ocaml/runtime/hash.c:194-199 | What any limit means for the queue. |
| `HashMix.NothingAllowed` | ocaml/runtime/hash.c:201-201 | Without an allowance the hash is that of the seed. |
| `HashMix.AllowanceUsed` | ocaml/runtime/hash.c:205-226 | A value costs one, a float array one for each element as long as the allowance lasts. |
| `HashMix.FloatsInTurn` | ocaml/runtime/hash.c:220-226 | Float arrays are mixed in element by element. |
| `HashMix.HashOfFloats` | ocaml/runtime/hash.c:220-226 | With one element they hash as the element. |
| `HashMix.HashOfObject` | ocaml/runtime/hash.c:249-252 | Objects hash as their identity. |
| `HashMix.HashOfFortyTwo` | ocaml/runtime/hash.c:205-207 | The hash of 42 with count 10, limit 100 and seed 0 is 395478795. |
| `HashMix.HashOfMinusOne` | ocaml/runtime/hash.c:205-207 | That of -1 is 911466517. |
| `HashMix.HashOfLarge` | ocaml/runtime/hash.c:205-207 | That of 2^40 is 268849449. |
| `HashMix.HashOfHello` | ocaml/runtime/hash.c:210-213 | That of "hello" is 840920576. |
| `HashMix.HashOfDouble` | ocaml/runtime/hash.c:214-217 | That of 1.0 is 57497256. |
| `HashMix.HashOfPair` | ocaml/runtime/hash.c:279-289 | That of (1, 2) is 1014741498. |
| `HashMix.HashOfNested` | ocaml/runtime/hash.c:279-289 | That of (1, (2, 0)) is 938002364. |
| `PolyHash.Lockstep` | ocaml/runtime/hash.c:201-290 | Walks over queues that compare equal place by place give the same hash. |
| `PolyHash.EqualValuesHashAlike` | ocaml/runtime/hash.c:184-298 | Values that compare equal hash alike for every count, limit and seed, Forward chains being at most 1000 long. |
| `PolyHash.GivesUp` | ocaml/runtime/hash.c:233-242 | Any value behind more than 1000 Forward links hashes as the seed alone, for every count, limit and seed. |
| `PolyHash.ChainHash` | ocaml/runtime/hash.c:233-242 | For every value and every count, limit and seed: a chain of up to 1000 links to it hashes as it does, a longer one as the seed alone. |
| `PolyHash.ChainHashIff` | ocaml/runtime/hash.c:233-242 | The two do differ: a chain to 0, with count 1, limit 1 and seed 0, compares equal to 0 and hashes as 0 if and only if it has at most 1000 links. |
| `FloatRounding.RoundDivNearest` | ocaml/runtime/floats.c:351-354 | Rounded division is nearest, ties to even (section 4.3.1 of IEEE 754-2008). |
| `FloatRounding.Round53Nearest` | ocaml/runtime/floats.c:351-354 | Rounding an integer to 53 bits gives the nearest 53-bit number, ties to the even significand. |
| `FloatRounding.StickyRound53` | ocaml/runtime/floats.c:332-345 | Cutting to at least 55 bits with a sticky bit and rounding is rounding the whole. |
| `FloatRounding.RoundedDenotes` | ocaml/runtime/floats.c:356-372 | A normal result denotes exactly the rounded integer times the power of two. |
| `FloatRounding.NearestDouble` | ocaml/runtime/floats.c:351-372 | A normal result is the double nearest to the exact value, ties to the even significand. |
| `FloatRounding.SubnormalIff` | ocaml/runtime/floats.c:351-372 | A subnormal result is the exact value correctly rounded if and only if the 53-bit number is no midpoint that the value lay beside on the side the tie leaves. |
| `FloatRounding.SubnormalWhole` | ocaml/runtime/floats.c:356-372 | A value that is a multiple of the least double and subnormal is represented exactly. |
| `FloatRounding.MisledBelow` | ocaml/runtime/floats.c:351-372 | The integer 2^56+1 scaled by 2^-1131 gives zero where the least double is nearest. |
| `FloatRounding.LdexpOfBits` | ocaml/runtime/floats.c:356-372 | Scaling what a double's bits denote gives the bits back, subnormals included. |
| `HexFloat.CutRounds` | ocaml/runtime/floats.c:328-349 | The sixty bits kept round as all the digits do. |
| `HexFloat.FloatOfHex` | ocaml/runtime/floats.c:285-372 | The parser returns all the digits rounded to 53 bits and then scaled, with the same errors, saturation included. |
| `HexFloat.ParsedCorrectly` | ocaml/runtime/floats.c:285-372 | For any accepted text that result is the nearest double, ties to even, when normal; infinity on overflow; and when subnormal it is correctly rounded if and only if the first rounding does not mislead. |
| `HexFloat.ReadAsZero` | ocaml/runtime/floats.c:351-372 | The text 0x1.00000000000001p-1075 is read as zero though the least double is nearer. |
| `HexPrint.HexString` | ocaml/runtime/floats.c:200-283 | The printer's text for any bits, no precision given. |
| `HexPrint.FloatOfString` | ocaml/runtime/floats.c:374-405 | Underscores, sign and prefix, then the hexadecimal value. |
| `HexPrint.RoundTrip` | ocaml/runtime/floats.c:200-372 | Printing any finite double and reading it gives the same bits, the sign of zero included. |
| `HexPrint.NoDigits` | ocaml/runtime/floats.c:304-327 | Any text without a hexadecimal digit before its exponent is refused, except nothing or a point before an exponent that parses and does not fit an int: that is zero. |
| `HexTexts.TextShape` | ocaml/runtime/floats.c:234-283 | Finite doubles print as sign, 0x, the digit 1 (0 for zero and subnormals), the fraction without trailing zeros if there is one, and the signed exponent. |
| `HexTexts.SpecialTexts` | ocaml/runtime/floats.c:226-232 | Infinities and every NaN, with their signs. |
| `HexTexts.UsualDigits` | ocaml/runtime/floats.c:313-319 | The sixteen digits, printed in lower case and read in either. |
| `HexTexts.UsualNumber` | ocaml/runtime/floats.c:280-280 | Exponents are printed in base ten without leading zeros. |
| `HexTexts.KnownTexts` | ocaml/runtime/floats.c:200-283 | The texts of 1, 2.5, -1 and both zeros. |
| `HexTexts.TextMeans` | ocaml/runtime/floats.c:297-345 | Digits, a point, digits and an exponent stand for all the digits as one integer, four binary places for each digit after the point. |
| `HexTexts.MalformedBody` | ocaml/runtime/floats.c:297-327 | Anything but digits with at most one point before the exponent is refused. |
| `HexTexts.KnownValue` | ocaml/runtime/floats.c:297-345 | 1.8p1 stands for 24/8. |
| `HexTexts.Underscores` | ocaml/runtime/floats.c:387-393 | Underscores do not count wherever they are. |
| `HexTexts.SignAndPrefix` | ocaml/runtime/floats.c:396-404 | A sign or none, the prefix in either case, then the rest as it stands. |
| `Md5.CountersAdd` | ocaml/runtime/md5.c:142-147 | The two 32-bit counters with carry hold the bit length modulo 2^64. |
| `Md5.Context.Update` | ocaml/runtime/md5.c:137-180 | The context stands for the message given so far followed by the new bytes. |
| `Md5.Context.Final` | ocaml/runtime/md5.c:186-225 | The digest is that of the padded message of sections 3.1 and 3.2 of RFC 1321, in one or two last blocks. |
| `Md5.DigestOfChunks` | ocaml/runtime/md5.c:122-225 | Any way of cutting a message into updates gives the digest of the whole. |
| `Md5.PadZeros` | ocaml/runtime/md5.c:194-214 | Fewer than 64 zeros, to 56 bytes modulo 64. |
| `Md5.LengthByteAt` | ocaml/runtime/md5.c:216-220 | The length in bits is appended modulo 2^64, least significant byte first. |
| `Md5.InitialBytes` | ocaml/runtime/md5.c:122-131 | The chaining words of section 3.3 of RFC 1321, byte by byte. |
| `Lexer.Lexbuf.Engine` | ocaml/runtime/lexing.c:61-117 | First entry and re-entry: action and position, failure or refill request fit the munch on what is unread and whatever follows. |
| `Lexer.Lexbuf.Lex` | ocaml/runtime/lexing.c:61-117 | With any refills the token is the munch of the unread characters and all the refills bring. |
| `Lexer.MunchIsMaximal` | ocaml/runtime/lexing.c:74-115 | The munch is maximal: an accepting state, else the last backtrack state on the automaton's path. |
| `Lexer.CuttingKeepsToken` | ocaml/runtime/lexing.c:85-95 | Where refills cut the characters does not change the token. |
| `Lexer.TablesEncode` | ocaml/runtime/lexing.c:100-104 | Tables made from any automaton, with default successors left to the fallback table, give its transitions back. |
| `FunctionTable.Probe` | interp.c:474-496 | The probe ends at the key or at the free slot where it belongs. |
| `FunctionTable.MaskIsRemainder` | interp.c:474-478 | The mask of a capacity that is a power of two is the remainder. |
| `FunctionTable.HashMultiplies` | interp.c:455-472 | The shifts and sums of the hash are a multiplication by the odd constant 0x9e37fffffffc0001 modulo 2^64. |
| `FunctionTable.HashInjective` | interp.c:455-472 | So different keys have different hashes before masking. |
| `FunctionTable.Table.Get` | interp.c:474-496 | The last value stored, or NULL. |
| `FunctionTable.Table.Set` | interp.c:572-594 | The map with the key updated; the length counts distinct keys. |
| `FunctionTable.Table.Expand` | interp.c:541-570 | Doubling keeps the contents. |
| `Profiler.FunctionStack.Push` | interp.c:361-372 | Pushes, or changes nothing on a full stack. |
| `Profiler.FunctionStack.Pop` | interp.c:377-387 | Pops, or changes nothing on an empty stack. |
| `Profiler.CountedExactly` | interp.c:888-899 | Counting one instruction keeps every counter exact, overall and per function. |
| `Profiler.AllocatedExactly` | interp.c:623-646 | A new array of zeros is exact for a function that has not run. |
| `Profiler.Counters.CountInstruction` | interp.c:601-621 | Counts the instruction for the function on top; neither assertion can fail. |
| `Profiler.Counters.EnterFunction` | interp.c:1028-1116 | Every function on the stack has an array, even after a failed push. |
| `Profiler.Counters.LeaveFunction` | interp.c:1178-1199 | RETURN pops, and keeps the counters. |
| `Profiler.Counters.Run` | interp.c:888-899 | Over any run of hooks the log grows by exactly the valid instructions, each with the function on top of the bounded stack; the stack is the bounded one of the hooks and the counters stay exact. |
| `Profiler.Conservation` | interp.c:888-899 | Opcode counters sum to the total, per-function arrays to the instructions executed in a function. |
| `Attribution.HooksCount` | interp.c:888-899 | The instructions the counters are exact for, over the pushes and pops of any run, are those of the run with the function on top of the bounded stack. |
| `Attribution.StackIff` | interp.c:1028-1261 | The function stack is the calls in progress throughout a run if and only if calls never nest deeper than 1024, every tail call is one of the function itself, no call has more or fewer arguments than its function takes, no exception leaves the function that catches it, and nothing switches to other calls. |
| `Attribution.AttributionIff` | interp.c:888-899 | Under exactly that condition every instruction of a run, and of every way of returning from any point of it, is counted for the function that runs it. |
| `Attribution.NoRecursionIff` | interp.c:888-899 | In a run that enters no function in progress again, every instruction is counted for the function that runs it if and only if the condition holds. |
| `Attribution.HiddenByRecursion` | interp.c:1178-1261 | With recursion it can fail unseen: two faults that make up for each other. |
| `Attribution.AttributionTrue` | interp.c:888-899 | In a run that meets the condition what is counted is what ran. |
| `Attribution.TailCallCounted` | interp.c:1118-1173 | After a tail call at any point the function called counts for the one counted for before. |
| `Attribution.PartialCounted` | interp.c:1244-1261 | After a call with too few arguments the caller counts for the function it called. |
| `Attribution.OverReturnCounted` | interp.c:1178-1191 | After a RETURN with arguments left the function entered counts for the caller, and after its RETURN the caller counts for its own caller. |
| `Attribution.RaiseCounted` | interp.c:1666-1699 | The handler of an exception raised by a callee counts for the callee. |
| `Attribution.SwitchCounted` | interp.c:1666-1691 | A function entered on another stack counts for the one left. |
| `Attribution.DeepCallsShift` | interp.c:361-387 | One call too deep and one return: the caller of the function that runs is counted for. |
| `CallStack.BackInCaller` | interp.c:1178-1225 | RETURN, or GRAB with too few arguments, goes back to the code address, environment, extra arguments and words of the call whose function it drops. |
| `CallStack.RaiseLaid` | interp.c:1692-1699 | RAISE goes to the innermost trap over the frames of any calls since its PUSHTRAP, and those calls are no longer in progress. |
| `CallStack.FramesAreCalls` | interp.c:1018-1261 | Over any run of the bytecode machine the calls in progress are those whose return frames are on its stack, in order, and the traps stand where they were pushed. |
| `CallStack.ProfiledIff` | interp.c:1018-1261 | The function stack holds the functions of the machine's return frames throughout a run if and only if every instruction meets the condition. |
| `CallStack.MachineMiscounts` | interp.c:1135-1144 | A program of the machine that runs one function while another is counted for. |

## Left out

- Custom blocks, closures, code pointers, Infix pointers, the Forward short-cut and fresh object ids in marshalling.
- Failure to allocate, and overflow of the marshaller's and unmarshaller's own stacks.
- Reading past the end of a message: the model fails where the C code reads beyond the buffer.
- More than one upper level of the skip list: one is modelled. A search of it steps from cell to cell as on the bottom level.
  After a safe free the cells that the upper level has lost are forgotten, as nothing follows their pointers again; after
  one that is not safe the execution has no next state. `caml_lf_skiplist_find`, `find_below` and the data field are not
  modelled.
- Weak memory orderings: every atomic access is sequentially consistent.
- Backup threads, domain creation apart from joining and leaving the set of domains, and the GC work done in callbacks.
- The interpreter's other instructions: in `Effects` they are arbitrary changes of the current stack, in `Traps` any change above
  the innermost trap frame, in `Bytecode` they leave the model.
- The caller's discipline that a continuation reaches REPERFORMTERM as its handler received it, and a raw stack reaches RESUME
  from a take or an allocation, is a condition on the actions; the standard library's Effect module keeps it.
- Signals, the debugger, backtraces and the trap barrier.
- Abstract, functional, continuation and custom values in comparison; custom blocks and closures in hashing; cyclic values.
- HexFloat.FloatOfHex: texts of 2^28 characters and more, for which the counters of the C code do not fit an int.
- HexPrint.FloatOfString: the same texts.
- Printing with a precision, and texts that go to `strtod`.
- The MD5 block transform, which is a parameter, and byte reversal on big-endian hosts.
- Refills that move the lexer's buffer and shift its positions, `caml_new_lex_engine`, and tables whose indices leave their bounds.
- Interp.Machine.Restart: the room for the held arguments, which the source leaves to the stack's threshold, is a precondition.
- In `CallStack` code is as the compiler makes it: a function keeps to the stack above its frame and returns when it has
  dropped all of that. Changes of stack by effects are steps of `Attribution` but not of `CallStack`. A callback from C
  starts an interpreter with a function stack of its own, and is a run of its own.
- Profiler.Counters.EnterFunction: allocation of counter arrays and of the larger table succeeds.
- Global roots, finalisers, bigarrays, integer primitives, frame descriptors, channels and the process interface.
