# Snapshots, collector, code generator and runtime lists of a deterministic Lua

This project models five parts of a fork of Lua whose whole state can be written to a byte
string and read back, and proves what they are for.

1. **Snapshots** (`lstasis.c`). A save numbers everything that the registry, the main thread
   and the type metatables lead to, breadth first, and writes one record for each object. A
   load makes a blank object for each record and then fills them, turning ids into pointers.
   The heap is a sequence of cells; a pointer is an index, and NULL is 0. `Snapshot` defines
   what the bytes of a state are and `LoadSpec` what any bytes are loaded to; the classes
   `ObjMap`, `ObjQ`, `SerState`, `Writer` and `Loader` work by updating tables, cursors and
   objects as the program does, and are proved to compute just that.
2. **The incremental collector** (`lgc.c`, with the open upvalues of `lfunc.c`). The class
   `Collector.State` holds colours, gray lists, the list of all objects and the phase. Its
   methods are the steps of the collector and of the program between them.
3. **Parts of the code generator** (`lcode.c`, `ldebug.c`): jumping code for `and`, `or`, `not`
   and comparisons, with pending jumps threaded through the operands of the jumps; the final
   pass that redirects jumps; and the encoding of line numbers, with its decoders.
4. **The sort** of `ltablib.c`, for comparison functions that may answer anything.
5. **Runtime lists and numbers**: the list of to-be-closed variables (`lfunc.c`), the string
   table (`lstring.c`), object ids (`lgc.c`) and the coded parameters of the collector
   (`lobject.c`).

The files belong together by prefix and import: `Words`, `Bytes`, `Heap` and `Graph` are the
ground; `Wire`, `TableRecords`, `ProtoRecords`, `Records` the record formats; `Discovery`,
`SaveVerdict`, `Saving`, `WholeSave` the save; `LoadSpec`, `Loading` the load; `Canonical`,
`Likeness`, `NormalForm`, `LoadFill`, `LoadPasses`, `LoadRelink`, `Restore`, `RoundTrip`,
`SaveLoad`, `LoadedStates`, `SameBytes`, `StringLaw`, `RoundTripLaw` lead to the laws of the
round trip; `LoadSafety`, `PassesAgree`, `RecordVerdict`, `LoadVerdict` and `KnownNames` are
about bytes from anywhere. `Gc*` leads to `Collector`, and `Runs` is about whole runs of it;
`Bytecode`, `JumpLists` and `Expr*` lead to `ShortCircuit`.

`dafny verify dfyconfig.toml` checks everything.

## Model

| member | source | states |
|---|---|---|
| RoundTripLaw.SaveThenLoad | lstasis.c:1771-2187 | Loading what a save wrote never fails, and brings every object that the roots lead to back, field by field: arrays, nodes and chain links, prototypes, call frames with their saved pc and continuation, stacks, payloads, object ids, roots, seed and counter. Open upvalues whose thread was not saved come back closed and holding nil, strings of at most 40 bytes come back interned; if the strings were interned, the result is isomorphic to the state without the lost threads |
| RoundTripLaw.RoundTripIff | lstasis.c:1771-2187 | There is a map under which the saved and the loaded state are the same cell by cell, field by field, if and only if every saved open upvalue belongs to a saved thread and no saved string of at most 40 bytes lies outside the string table; and the same for isomorphism of normal forms |
| RoundTripLaw.ResaveIff | lstasis.c:1146-1201 | Saving what was loaded gives the same bytes under exactly the same condition |
| Canonical.SaveIsCanonical | lstasis.c:1146-1201 | Isomorphic states, wherever their objects lie, are saved to the same bytes or both refused |
| RoundTripLaw.SameStatesSameBytes | lstasis.c:1146-1201 | States that are the same cell by cell but for addresses are saved to the same bytes or both refused |
| Likeness.IsomorphicIff | lstasis.c:780-1097 | Isomorphism of normal forms, which the proofs use, is sameness of every field of every object but those that a snapshot does not carry: the flag of fixed code, which empty variant an array slot holds, and frame fields that the status of the frame says are not in use |
| LoadedStates.AllBack | lstasis.c:1596-1734 | Whatever state the records of a normal form are restored to, each object that the roots lead to has come back, field by field |
| Loading.SaveAndLoad | lstasis.c:1771-2187 | The laws for the methods that do the work: save a state, load the bytes, and get every object back field by field, the same state exactly under the stated condition |
| LoadSafety.LoadIsSafe | lstasis.c:1226-1264 | For any bytes at all: a state that a load accepts has no dangling pointer and none to an object of a kind other than its use demands, however the ids and tags were forged |
| LoadVerdict.AcceptsExactly | lstasis.c:1771-2187 | For any bytes at all: a load accepts them if and only if they are cut exactly into records of known kinds, every record can be read to its end and says what it must, and the roots name objects of the right kinds |
| RecordVerdict.FillVerdict | lstasis.c:1267-1326 | The fill of a record latches an error exactly if one of its value bytes is no legal tag, a tag does not agree with the kind of the object, a C function or continuation has an unknown name, an id is out of range or of the wrong kind, a key is a NaN, a removed key has a value, or a chain link leads outside |
| LoadVerdict.NeverUndefined | lstasis.c:1771-2187 | If every record can be read to its end and has no dead-key tag where a value belongs, the load never leaves a buffer or an array, and refuses exactly what it does not accept |
| LoadVerdict.CreateVerdict | lstasis.c:1888-2001 | The first pass gets through all records if and only if each can be scanned to its end, and every table is then made with the node array its record asks for, no two of them the same |
| KnownNames.ReloadElsewhere | lstasis.c:1282-1284 | A snapshot loaded where other functions are known is accepted if and only if no object that the roots lead to uses a C function, or waits in a continuation, whose name is missing there; otherwise it is refused |
| KnownNames.AcceptedElsewhere | lstasis.c:1267-1326 | The same for any bytes that are accepted somewhere, in terms of the names in their records |
| PassesAgree.TableFillsInside | lstasis.c:1491-1594 | For any bytes: if filling a table latches no error, both passes consumed the same bytes, no store left the node array sized by the first pass, and every chain link stays inside it |
| PassesAgree.ProtoFillsInside | lstasis.c:1397-1453 | For any bytes: if filling a prototype latches no error, both passes consumed the same bytes up to the local variables, and every list has the size that was allocated |
| TableRecords.TablePassesAgree | lstasis.c:500-511 | Reading a table record and skipping over it end at the same place with the same sizes, unless a dead-key tag stands where a value belongs |
| ProtoRecords.ProtoPassesAgree | lstasis.c:1332-1391 | The sizes counted by the first pass over a prototype are those of the lists that the second pass reads, unless a constant carries a dead-key tag |
| Losses.ThreadAfterReload | lstasis.c:960-966 | A state with a closure whose upvalue is open in an unreachable coroutine is saved and loaded without error, but the result is isomorphic to it by no map and is saved to other bytes |
| Losses.StringAfterReload | lstasis.c:1294-1306 | The same for a state that holds an external string of one byte |
| Graph.DiscoveryIsExactClosure | lstasis.c:594-733 | The numbering covers exactly the objects that the roots lead to, each once, and gives up exactly when an edge that must be refused is met |
| Graph.DiscoverRenamed | lstasis.c:723-733 | Graphs of the same shape are numbered alike, and both accepted or both refused |
| SaveVerdict.SaveIsRefused | lstasis.c:594-733 | A save is refused if and only if the roots lead to something that cannot be saved: a light userdata, a C function or continuation without a name, a userdata that is not opted in, has user values or is too long |
| SaveVerdict.OrderIsReached | lstasis.c:594-733 | An object is numbered if and only if a chain of references leads to it from a root, following keys and values of tables but not removed keys, and upvalues but not their threads |
| Severance.SeveredOrder | lstasis.c:646-721 | Taking the lost threads away changes neither which objects are reached nor their ids |
| Records.ReadsObj | lstasis.c:1099-1141 | Each of the nine kinds of records is read back as it was written, byte for byte |
| LoadIndex.IndexFinds | lstasis.c:1816-1846 | The walk over the record headers finds every record where the save put it |
| SameBytes.SameRecords | lstasis.c:1816-1846 | Normal forms with the same bytes have the same records |
| StringLaw.SameBytesInterned | lstasis.c:1267-1326 | If saving again gives the same bytes, every string short enough to be interned was |
| Restore.LoadRestores | lstasis.c:1771-2187 | Loading the bytes of any fine normal form puts back each of its objects with pointers for ids |
| WholeSave.ClosedUnderEdges | lstasis.c:646-721 | When discovery refused nothing, whatever a numbered object refers to has an id |
| Words.MaskIsRemainder | lstasis.c:52-59 | Masking with the capacity less one is the remainder that the pointer table and the ring rely on |
| ObjTable.Misses | lstasis.c:52-59 | A probe that stops at a free slot has looked for a pointer that is not in the table |
| ObjTable.ObjMap.Find | lstasis.c:52-59 | The lookup gives the id that the abstract map holds for the pointer, or 0; the probe ends |
| ObjTable.ObjMap.Insert | lstasis.c:70-82 | The abstract map gains the pair and nothing else changes, whether or not the array grew; at most half the slots are ever in use |
| ObjTable.Rehash | lstasis.c:70-82 | Growing keeps the abstract map |
| ObjTable.InsertRaw | lstasis.c:61-68 | One probe and store adds one pair |
| ObjQueue.ObjQ.Push | lstasis.c:575-586 | The ring, with wrapping 32-bit counters, appends to an abstract list, also when it has to be unrolled into a larger one |
| ObjQueue.ObjQ.Pop | lstasis.c:587-590 | The oldest pointer leaves the list; NULL when it is empty |
| Discovery.MetatablePersists | lstasis.c:435-440 | True exactly if the metatable is not NULL and has a node with a live key that reads `__persist`, and the value of the first such node is neither a nil nor false |
| Discovery.SerState.DiscoverObj | lstasis.c:624-644 | A new object gets the next id and joins the work list; a refused userdata latches the error |
| Discovery.SerState.DiscoverTv | lstasis.c:594-601 | The same for a value; a light userdata is refused |
| Discovery.SerState.ProcessObj | lstasis.c:646-721 | All that the object refers to is discovered, in the order of its fields |
| Discovery.SerState.DiscoverAll | lstasis.c:723-733 | The numbering is the breadth-first one from registry, main thread and type metatables |
| Saving.Writer.WriteTv | lstasis.c:738-778 | A value is written as the bytes from which it is read back, with its id for a pointer; what has no name is an error |
| Saving.Writer.WriteString | lstasis.c:784-788 | A string record: length and bytes |
| Saving.Writer.WriteUserdata | lstasis.c:806-828 | A userdata record, or an error for user values |
| Saving.Writer.WriteTable | lstasis.c:859-914 | A table record: the non-empty array slots with their indices, the nodes in node order with removed keys by id, metatable, array size |
| Saving.Writer.WriteProto | lstasis.c:916-951 | A prototype record, with the flag that marks fixed code cleared |
| Saving.Writer.WriteLClosure | lstasis.c:953-958 | A Lua closure record |
| Saving.Writer.WriteCClosure | lstasis.c:968-985 | A C closure record: the function by name, then the upvalues |
| Saving.Writer.WriteThread | lstasis.c:1007-1097 | A thread record: stack, call frames from the base up, open upvalues with their slots; fields of a frame that mean nothing are written as 0 |
| Saving.Writer.WriteObj | lstasis.c:1099-1141 | A record with its header, the size patched in afterwards |
| WholeSave.SaveState | lstasis.c:1146-1201 | The whole save computes exactly the bytes of the normal form, or refuses exactly the states in which the roots lead to something that cannot be saved |
| Loading.Loader.SkipValue | lstasis.c:500-511 | Skipping a value, as the first pass does |
| Loading.Loader.ResolveId | lstasis.c:1251-1264 | An id of the wrong kind or out of range latches an error and gives NULL |
| Loading.Loader.TakeTv | lstasis.c:1267-1326 | Reading a value latches an error exactly if the tag is not legal, the name of a C function is unknown, or the tag does not agree with the kind of the object that the id names |
| Loading.Loader.SizeProto | lstasis.c:1332-1391 | The sizes of the arrays of a prototype to create |
| Loading.Loader.LoadProto | lstasis.c:1397-1453 | Filling a prototype from its record |
| Loading.Loader.LoadLClosure | lstasis.c:1455-1466 | Filling a Lua closure |
| Loading.Loader.LoadCClosure | lstasis.c:1468-1484 | Filling a C closure |
| Loading.Loader.LoadUpvalClosed | lstasis.c:1486-1489 | Filling a closed upvalue |
| Loading.Loader.LoadTable | lstasis.c:1491-1594 | Filling a table: array items, nodes with their chain links, metatable |
| Loading.Loader.LoadThread | lstasis.c:1596-1734 | Filling a thread, and opening and linking its upvalues |
| Loading.Loader.LoadUserdata | lstasis.c:1742-1766 | Filling a userdata |
| Loading.Loader.BuildIndex | lstasis.c:1816-1846 | The index of the records, or a refusal |
| Loading.Loader.CreateObjects | lstasis.c:1888-2001 | The first pass: a blank object for every record; short strings are shared by contents |
| Loading.Loader.RestoreObjids | lstasis.c:2005-2016 | Object ids are put back |
| Loading.Loader.FillRecords | lstasis.c:2018-2092 | The fill passes in their order, the main thread before other threads |
| Loading.Loader.LoadBuffer | lstasis.c:1771-2187 | The whole loader computes the outcome that the laws are about, for any bytes that it does not read out of bounds: a state if the bytes are acceptable, and a refusal if not |
| Collector.State.Perform | lgc.h:17-29 | What each operation does, in any order of operations by program and collector: an allocation adds one white object; a write and its barrier change one cell; a stack change touches no other object; an assignment is made to the slot or the closed upvalue; a capture finds the upvalue of the slot or links a new one at its place; closing closes exactly the upvalues at or above the level, with their values; new roots are just those; an interned string gets the current white; a step of the collector loses nothing that the roots keep alive, changes live objects but for weak references to dead ones, and goes on to the phase that is next, sweeping at most 20 objects at a time unless it is told to be fast. Afterwards everything that the roots lead to is allocated and live |
| Runs.UntouchedStays | lgc.c:1646-1715 | In every run, over any number of cycles: an object that is live at its end and that no operation of the program has written reads as it did before, however often the collector stepped in between; only tables may have lost entries, by weak references to objects that did not live on |
| Runs.ReachableAllAlong | lgc.c:918-935 | In every run: what the roots lead to at some time is allocated and live then, and was so at every time since it was made or found again |
| Runs.Run.Step | lgc.c:1646-1715 | Any sequence of operations on a new state is a run in that sense |
| Collector.State.FinishCycle | lgc.c:1646-1715 | Single steps end the cycle that is under way, from any state; then all that is left was live at the start |
| Collector.State.ReachableIsLive | lgc.c:918-935 | In every state that satisfies the invariant, what the roots lead to is allocated and does not have the dead colour |
| Collector.State.NoBlackToWhite | lgc.h:17-29 | While the invariant has to be kept, a black object refers to no white one |
| Collector.State.SingleStep | lgc.c:1646-1715 | Each step keeps the invariant, keeps alive all that the roots keep alive, changes nothing that a program can see but weak references to dead objects, and brings the cycle nearer its end |
| Collector.State.FullCollection | lgc.c:1799-1807 | From any point of a cycle, what is left afterwards lies inside every set that holds the roots and all that its members keep alive at the start, and is itself such a set: nothing reachable is lost and no garbage stays, but for strings that weak tables keep. What is left reads as before, but for weak references to what is gone |
| Collector.State.FullCycle | lgc.c:1799-1807 | The same for a cycle started in the pause |
| Collector.State.CollectAny | lgc.c:1646-1715 | A step taken at any time: what it may change, and its progress |
| Collector.State.ReallyMark | lgc.c:360-393 | Marking one object: only white ones change, strings and plain userdata turn black, others turn gray and are listed once |
| Collector.State.PropagateMark | lgc.c:753-766 | Visiting one gray object leaves it black with all it refers to marked, or in the list where it will be seen again; each visit is progress |
| Collector.State.PropagateAll | lgc.c:769-772 | Visiting until no gray object is left |
| Collector.State.TraverseStrongTable | lgc.c:602-615 | All keys and values are marked |
| Collector.State.TraverseWeakValue | lgc.c:513-534 | Keys are marked; the table is listed if it may hold values to be cleared |
| Collector.State.TraverseEphemeron | lgc.c:567-599 | A value is marked when its key is; the table is listed by what is still open |
| Collector.State.TraverseTable | lgc.c:634-654 | The traversal that the table's mode asks for |
| Collector.State.TraverseThread | lgc.c:721-746 | The stack is marked, and the thread will be seen again unless the atomic step is under way |
| Collector.State.ConvergeEphemerons | lgc.c:781-800 | The passes over ephemeron tables, in alternating directions, end, and then every marked key has a marked value |
| Collector.State.RemarkUpvals | lgc.c:427-447 | The values of visited open upvalues of dying threads are marked, and those threads leave the list |
| Collector.State.ClearByValues | lgc.c:834-852 | No value of a listed weak table is a dead object afterwards, and nothing else is lost |
| Collector.State.ClearByKeys | lgc.c:815-827 | No key of a listed ephemeron table is a dead object afterwards |
| Collector.State.AtomicStep | lgc.c:1569-1610 | The whites are exchanged with all that the roots keep alive marked; tables lose only weak references to objects that are not |
| Collector.State.SweepList | lgc.c:918-935 | Exactly the objects of the old white among those swept are freed; all others get the new white, and live ones read the same |
| Collector.State.EnterSweep | lgc.c:1530-1535 | The sweep starts past the first live object, so that new objects are not swept |
| Collector.State.Barrier | lgc.c:246-261 | The forward barrier restores the marking invariant or, while sweeping, whitens the object |
| Collector.State.BarrierBack | lgc.c:268-279 | The backward barrier puts the object on the list to be seen again |
| Collector.State.Write | lgc.c:246-279 | A write followed by its barrier keeps the invariant and the set of live objects |
| Collector.State.NewObject | lgc.c:315-327 | A new object gets the current white, is live, and the invariant holds; nothing else changes |
| Collector.State.SetStack | lgc.c:721-746 | A stack may change without a barrier |
| Collector.State.SetUpvalue | lvm.c:1293-1299 | An assignment through an upvalue, to the stack slot of an open one, is seen through that upvalue and no other, and changes nothing else |
| Collector.State.FindUpval | lfunc.c:87-99 | The open upvalue for a stack level is the one that exists, or the given new one in its place; the list stays strictly descending, and nothing else changes |
| Collector.State.CloseUpvals | lfunc.c:197-210 | Exactly the open upvalues at or above the level are closed, each keeps its value, and every other object reads the same |
| Collector.State.Resurrect | lstring.c:214-243 | A dead string found again is given the current white and is live |
| ShortCircuit.CompileAssignment | lcode.c:1719-1862 | The code made for `x = e`, run from its start on any registers, ends with Lua's value of `e` in `x` and every other variable as it was. It has at most 24 instructions for each operator and 5 more. Compilation succeeds whenever the variables and the operators together are fewer than 255, and under a weaker condition on the registers that `e` needs |
| ShortCircuit.Linear | lcode.c:1719-1862 | The registers and instructions that an expression needs grow at most linearly with the number of its operators |
| ShortCircuit.StoreVar | lcode.c:1105-1140 | The same behind any code and amid any pending jumps: those stay pending and every earlier run is unchanged; it fails only for want of registers or of jump range |
| ShortCircuit.Expression | lcode.c:1719-1862 | The description that is returned, with its two lists of pending jumps, yields the value of the expression on every run: falling through with it or leaving by the list of its truth value |
| ShortCircuit.Logic | lcode.c:1788-1805 | `and` and `or`: the second operand runs only if the first does not decide, and the lists of both are joined |
| ShortCircuit.Comparison | lcode.c:1635-1692 | A comparison, with immediates, constants and swapped operands where the code generator uses them |
| ExprNot.CodeNot | lcode.c:1231-1259 | `not` exchanges the two lists and keeps no values in them |
| ExprJumps.GoIfTrue | lcode.c:1178-1199 | Falls through exactly when the value is true; the list holds all other exits |
| ExprJumps.GoIfFalse | lcode.c:1205-1225 | Falls through exactly when the value is false |
| ExprJumps.JumpOnCond | lcode.c:1160-1172 | The test and its jump; a NOT just emitted is dropped and its operand tested |
| ExprReg.Exp2Reg | lcode.c:971-993 | The value ends up in the register on every run, whichever pending jump it came by, and no jump stays pending |
| ExprLoad.DischargeVars | lcode.c:819-874 | The description becomes that of a value and still yields the same |
| ExprLoad.Discharge2Reg | lcode.c:882-929 | The value is put in the register, also when a LOADNIL just before is widened |
| ShortCircuit.Exp2NextReg | lcode.c:999-1004 | The value in the next free register |
| ShortCircuit.Exp2AnyReg | lcode.c:1011-1026 | The value in some register; a local variable is not overwritten |
| ShortCircuit.Exp2RK | lcode.c:1085-1092 | A constant operand, or the value in a register |
| ShortCircuit.CodeOrder | lcode.c:1635-1660 | Order comparisons |
| ShortCircuit.CodeEq | lcode.c:1667-1692 | Equality comparisons |
| JumpLists.FuncState.Concat | lcode.c:182-193 | Two disjoint jump lists become one, without a cycle |
| JumpLists.FuncState.PatchListAux | lcode.c:290-300 | Each jump of the list gets its own target, and tests that keep a value the register for it |
| JumpLists.FuncState.PatchTestReg | lcode.c:261-273 | The test of a jump is told where to keep its value |
| JumpLists.FuncState.RemoveValues | lcode.c:279-282 | No test of the list keeps its value |
| JumpLists.FuncState.FixJump | lcode.c:168-176 | The jump goes to its target, or the offset does not fit |
| Bytecode.RunPatch | lcode.c:290-300 | Patching a pending jump changes only the runs that leave by it: they go on from its target |
| Bytecode.RunMergeNil | lcode.c:132-148 | A nil load merged into the LOADNIL before it runs as two loads do |
| JumpThreading.FinalTarget | lcode.c:1912-1922 | Follows at most 100 jumps, also through cycles, and ends where a chain of jumps leads |
| JumpThreading.Finish | lcode.c:1930-1972 | Redirecting all jumps in place keeps where every chain of jumps lands; each jump then goes straight there. It succeeds whenever the code is not longer than the largest offset |
| JumpThreading.SameExecution | lcode.c:1930-1972 | From any place and in any state the redirected code executes the same instructions, jumps aside, in the same states |
| LineInfo.Encoder.SaveLineInfo | lcode.c:331-346 | The encoding stands for the recorded lines with the new one at the end |
| LineInfo.Encoder.ReplaceLast | lcode.c:355-392 | Removing the last instruction and emitting another replaces its line |
| LineInfo.Encoder.FixLine | lcode.c:1869-1872 | The last instruction gets another line |
| LineInfo.GetBaseLine | ldebug.c:62-77 | The absolute line at or before the instruction, with none between |
| LineInfo.EstimateIsLow | ldebug.c:62-77 | The estimated entry is never past the instruction |
| LineInfo.GetFuncLine | ldebug.c:85-97 | The decoded line is the last one the encoder was given for the instruction |
| LineInfo.ChangedLine | ldebug.c:881-899 | True exactly when the two instructions are on different lines |
| TableSort.Sort | ltablib.c:404-414 | For any comparison function, even one that answers at will: it ends, only rearranges, and recurses at most logarithmically deep; without an error every two neighbours are vouched for by an answer of this sort; with the error "invalid order function" two answers, or one about an element and itself, contradict each other. For a strict weak order: no error, and the elements end up sorted. For a function that always answers true: the error, from 4 elements on |
| TableSort.AuxSort | ltablib.c:351-401 | The same for an interval, with nothing outside it touched |
| TableSort.Partition | ltablib.c:304-333 | Never leaves the interval. Splits it: every element is vouched to be on its side of the pivot, and is if the order is strict and weak; or catches the comparison function in a contradiction, which is the only other way to end |
| TableSort.ScanUp | ltablib.c:309-314 | The answers, call by call: all true up to the element returned, where the last answer is false, or is true at the pivot, which is an error |
| TableSort.ScanDown | ltablib.c:316-321 | The same from above: an error is a true answer below the place where the upward scan stopped |
| TableSort.PlainChained | ltablib.c:404-414 | For any function of two elements, an order or not: a sort without an error puts no element after a neighbour that it is before, unless each is before the other |
| TableSort.PlainCaught | ltablib.c:312-319 | For such a function an error means that two elements, or one and itself, are each before the other |
| TableSort.ChoosePivot | ltablib.c:340-345 | The pivot lies in the middle half, whatever the random number |
| TbcList.Tbc.Push | lfunc.c:172-183 | The delta list with its dummy nodes, for a gap of any size, represents the stack of levels with the new one on top |
| TbcList.Tbc.Pop | lfunc.c:216-223 | The topmost level, past its dummy nodes, is taken off |
| TbcList.Tbc.CloseFrom | lfunc.c:230-240 | Exactly the levels at or above the given one are taken off, topmost first |
| StringTable.Strt.Rehash | lstring.c:72-87 | In place, growing or shrinking: the same strings, each in the bucket of its hash for the new size |
| StringTable.Strt.Resize | lstring.c:95-113 | The table keeps its strings, each in the bucket of its hash, whether or not the allocation fails; the size changes unless it does |
| StringTable.Strt.Find | lstring.c:214-243 | The string with the given contents, if there is one |
| StringTable.Strt.Intern | lstring.c:214-243 | Contents that are in the table give their string; others are added once. No two strings of the table ever have the same contents. The table doubles exactly if it is full, can grow and the allocation succeeds, so that buckets stay as many as strings |
| StringTable.Strt.Remove | lstring.c:190-197 | Exactly the given string leaves the table |
| StringTable.Strt.constructor | lstring.c:133-146 | An empty table of the initial size |
| ObjIds.ObjidInjective | lgc.c:305-311 | For a fixed seed different sequence numbers give different object ids |
| ObjIds.UnmakeMake | lgc.c:305-311 | The sequence number can be computed from the id and the seed: by undoing the three shifts and the two multiplications |
| ObjIds.MakeUnmake | lgc.c:305-311 | And every word is the id of some sequence number |
| ObjIds.FreshObjid | lgc.c:305-327 | An id made from a larger sequence number was not given before |
| ObjIds.Objids.NewObject | lgc.c:315-327 | A new object's id differs from all ids in use, until the counter wraps |
| ObjIds.Objids.Load | lstasis.c:2146-2152 | With the saved counter put back, ids given after a load differ from those that the load restored |
| GcParam.CeilLog2 | lobject.c:37-52 | The rounded-up binary logarithm; 32 for 0 |
| GcParam.CodeParam | lobject.c:62-77 | The coded factor lies above 15/16 of the rounded-up percentage in 128ths and not above it, exactly equal for small ones; from the cutoff on it is the greatest code |
| GcParam.ApplyExact | lobject.c:89-112 | The amount never exceeds the greatest one; below the bound that the code checks it is the exact product rounded down |

## Findings

**The round trip is not exact, and this is when.** The repository promises that a loaded
snapshot is the saved state, and that saving it again gives the same bytes. Both fail for
states that save accepts without an error, in two ways and, under the assumptions below, no
others:

- *A lost upvalue.* The record of an open upvalue holds nothing (`lstasis.c:960-966`); only the
  record of its thread says where it points (`lstasis.c:1710-1727`). Discovery follows a closure
  to its upvalues but an open upvalue not to its thread (`lstasis.c:646-721`). If a closure
  outlives the last reference to a suspended coroutine, the upvalue comes back closed and
  holding nil. `Losses.LostThread` is such a state.
- *A string outside the string table.* `luaS_newextlstr` makes a string object of the long
  variant for contents of any length (`lstring.c:318-338`). Save writes its tag; load makes
  interned strings of all contents of at most 40 bytes, as the comment at
  `lstasis.c:1296-1303` says. Two such strings with the same contents become one object.
  `Losses.LostString` is such a state.

`RoundTripLaw.RoundTripIff` and `RoundTripLaw.ResaveIff` prove that apart from these two
families both promises hold: they hold if and only if every saved open upvalue belongs to a
saved thread and every saved string of at most 40 bytes is in the string table. In all cases
the load succeeds, and `RoundTripLaw.SaveThenLoad` says what it gives.

## Assumptions

`RoundTrip.Storable` collects what the laws take for granted of a state: the objects are
well-formed as the virtual machine keeps them (`WellFormed.GoodState`: a table's node array has
a power of two of slots, a Lua frame runs the closure in its function slot, a thread's open
upvalues point into its stack from the top down, every thread has its base frame, and so on);
save accepts it; the names given to C functions lead back to them; short strings are interned
and the compiler's names come from the string table; no record is as long as 2^32 bytes. The
base state that a load starts from (`LoadPasses.GoodBase`) has a main thread without open
upvalues; for bytes from anywhere (`LoadSafety.SafeState`) its pointers lead to objects of the
kinds that their uses demand. The build is the deterministic one, in which object ids and the allocation counter
are restored.

## Left out

Snapshots:
- LoadSpec.LinkOne: an upvalue that a forged thread record names twice gets two places in the list, where the program's list loops.
- Loading.Loader.LoadBuffer: says nothing of bytes that make the program read past the end of the buffer, other than that they are not acceptable (`LoadVerdict.AcceptsExactly`); counts of 2^31 and more are treated as such.
- The doubling of the write buffer and the capacity of the loader's index arrays; buffers are sequences.
- Checks of the write pass that discovery makes superfluous, and the texts of error messages.
- Enumeration of library functions and their names: the name maps are parameters.
- Opening libraries in the new state, its restored tag-method caches and the registration of finalizers (`lstasis.c:2094-2124`).
- Thread fields that a snapshot does not carry: hooks, C call count, error function, to-be-closed list; and the capacity of stacks.
- The cache of C functions, allocation failure, big-endian hosts, heaps of 2^30 objects and more.

Collector:
- Finalizers (`tobefnz`, `finobj`, resurrection of objects and the second convergence), generational mode, fixed objects, the string cache, emergency collections, sizes and debt.
- The mode of a weak table is a field of the table, not looked up in its metatable.
- A traversal writes the nodes of a table back when it ends rather than one by one.
- Collector.State.FullCollection: strings that are keys or values of weak tables may survive without another reference.
- Addresses of new objects are parameters.

Code generator:
- ShortCircuit.CompileAssignment: the condition under which it succeeds is sufficient; some expressions above the bound on the code compile too.
- Constants are named by value, and the instructions that load them (LOADI, LOADF, LOADK, LOADKX) are one; float constants, calls, indexing and arithmetic are not expressions here. The limit on the size of the code, other than that of jumps, is not modelled.
- The rewritings of `luaK_finish` other than those of jumps.
- Functions without debug information, and edits of line information other than those of the last instruction.

Sort:
- A comparison function that raises an error or writes to the table; its answers may depend on its arguments and on the number of the call.
- Tables with metamethods: the elements are an array, whose place 0 is not used.

Runtime lists and numbers:
- Close methods that create new to-be-closed variables, and false values, which need no closing.
- The full collection that a table of INT_MAX strings asks for, the cache of API strings; the hash function is a parameter.
- Object ids after 2^64 allocations, and negative amounts in `luaO_applyparam`.
