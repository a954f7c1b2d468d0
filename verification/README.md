# brutils: a Dafny verification project

This project models six components of the brutils C++ library and proves properties of the models.
`dafny verify dfyconfig.toml` checks all of it.

| component | files | sources |
|---|---|---|
| JSON printer and parser | `Text`, `Variant`, `Decimal`, `JsonParserSpec`, `JsonParser`, `JsonGenerator`, `JsonNumbers`, `JsonParserFacts`, `JsonRoundTrip`, `JsonExact`, `JsonFailures` | `json_parser.cpp`, `json_generator.cpp`, `variant.h` |
| signals, slots and event loops | `Lists`, `SignalSlot`, `SignalSlotRuns`, `EventLoop`, `EmissionOrder`, `Wiring` | `br_object.h` |
| thread pool | `Maps`, `ThreadPoolSpec`, `ThreadPool` | `ThreadPool.cpp`, `Thread.cpp` |
| combined timer | `CombinedTimerSpec`, `CombinedTimer` | `combined_timer.cpp` |
| TCP server tables | `TcpServerSpec`, `TcpServer` | `TcpServer.cpp` |
| time keeper and HTTP request parser | `TimeKeeper`, `RequestSpec`, `RequestParser`, `RequestRoundTrip`, `FieldsRoundTrip` | `TimeKeeper.cpp`, `RequestParser.cpp`, `HttpRequest.cpp` |

Code that changes things step by step is a class or a method with loops (the cursor over a
`string_view`, the pool, the timers, signals and slots, the server's tables, the record book, the
request in production). Its methods are proved equal to operations on values, and the main results
are about those: about all inputs, or about every run of a state machine whose steps are those
operations. `Drive`, `Play` and `Serve` methods carry the results over from runs to the objects.
The two parsers have no runs: their methods are equal to the functions the results are about.

What the environment decides is a parameter: readings of the clock, the order in which a hash map is
visited, ids given out by another component, what `accept` and `poll` report, the thread an emission
comes from, and the text a stream writes for a float.

## Where the code and its promises differ

The models follow the code. Each difference is a theorem.

- `ThreadPool::execute` starts a new worker without giving it the job
  (src/brutils/Thread/ThreadPool.cpp:45-47). A flag of the model, `handsOver`, tells the code (false)
  from what the class comment says (true): `JobsInOrder` holds with it, `AsWrittenNothingStarts` without.
- `parseString` never ends at a backslash in front of a quote (`ScanEndsIff`, `ParseHangs`). Bare
  integers lose their sign and a `+` in an exponent is not understood (`NumberReadsRightIff`), so the
  floats that a stream spells `-1` and `1e+06` do not come back (`LostFloats`). Nulls are printed as
  nothing, and a pretty empty list is read as an error (`RoundTripIff`, `Lost`), while the word `null` is
  read (`WordsRead`). A list or map that turns out malformed comes back empty, whatever was read of it
  (`ListGoesOn`, `MapGoesOn`), so that a list closed by a brace makes a good map (`Misnested`). Elements
  need no commas (`NoCommaNeeded`).
- A request line without a query, or with one that is empty or ends in `&`, is refused
  (`RequestLineRoundTripIff`). Header data that ends in an unfinished line is read past its end if and
  only if that line has a colon, and accepted as complete, with the cursor past its end, if and only if
  that line is the blank one cut short (`HeaderCutOffIff`). A line break of one character takes the next
  character along (`LoneBreak`).
- The combined timer takes the id -1 for "no timer". The 65536th timer gets that id
  (`LastIdIsAbandoned`); such a timer never fires (`MinusOneNeverFires`), ends the thread when it is due
  first (`ThreadEndsIff`) and keeps all timers dated later from firing (`MinusOneBlocks`).
- A server whose table is full and at which a connection waits looks at no client and so stays full
  (`FullTableStays`). Connections accepted when the table has just become full are dropped (`AcceptTakes`).
- A timer that has fired stays on record for its descriptor for good. If it fired before data arrived its
  timeout still disconnects whoever has the descriptor then, and only then (`StaleTimeoutClosesIff`,
  `FiredTimeoutCloses`); that can be a later client (`NewcomerTimedOut`).
- An emission on the signal's own thread overtakes those queued for it (`EmitInOrderIff`, `Overtakes`). A
  queued call to a slot whose root object has no thread throws (`SendAllThrowsIff`); an automatic
  connection asked for on another thread than the signal's is such a one (`PairThrowsIff`).
- A slot with a thread is called on another one if it has a direct connection with a signal that is not of
  that thread, and only then (`CalledOnOwnThreadIff`).
- Calls and emissions still queued refer to a slot or signal after it is destroyed
  (`DestroyedSlotReferredIff`, `DestroyedSignalReferredIff`).

## Model

| member | source | states |
|---|---|---|
| JsonExact.RoundTripIff | src/brutils/json_generator.cpp:13-68 | for every variant and both forms: parsing the generated text gives the value back (ints as floats) if and only if it is a list or map without nulls, negative ints, floats spelled with a + or as a bare negative integer other than -0, strings with a quote or a final backslash, invalid elements and, in pretty form, empty lists, at any depth |
| JsonExact.Lost | src/brutils/json_parser.cpp:86-111 | one concrete value of each kind that does not come back: [-1], [null], a quote, a backslash, the pretty empty list |
| JsonExact.LostFloats | src/brutils/json_parser.cpp:177-225 | the floats -1 and 1e+06, as a stream writes them, do not come back; an int of a million survives one round trip and turns into the second |
| JsonExact.FormsAgree | src/brutils/json_generator.cpp:18-48 | the compact and the pretty form of a value that survives the pretty form parse to the same value, to the end of the text |
| JsonRoundTrip.LegibleReads | src/brutils/json_parser.cpp:18-139 | the exact value every legible list or map comes back as, also where that differs from the original, as for floats that lose their sign |
| JsonRoundTrip.TextReads | src/brutils/json_parser.cpp:113-139 | the text of any legible value, in front of whatever may follow a value, is read as its read-back and nothing more |
| JsonParserFacts.ParseTerminates | src/brutils/json_parser.cpp:41-175 | on every text without a backslash in front of a quote the parser ends |
| JsonParserFacts.ParseHangs | src/brutils/json_parser.cpp:149-165 | a list of one string with an escaped quote makes it hang |
| JsonParserFacts.ParsedIsSound | src/brutils/json_parser.cpp:18-39 | whatever text is parsed, strings and keys of the result are free of quotes and of a final backslash, list elements are valid and no number is an int |
| JsonParserFacts.ValueFacts | src/brutils/json_parser.cpp:113-139 | what is read of any text has balanced brackets and closed quotes and no + outside quotes; no null comes from a text without an n, and no empty list from one without adjacent brackets |
| JsonNumbers.NumberReadsRightIff | src/brutils/json_parser.cpp:177-225 | for every number of section 6 of RFC 8259: the number denoted, which its digits times the power of ten define, is returned and the cursor left right behind it if and only if the exponent has no + and the number is not a bare negative integer other than -0 |
| JsonNumbers.NumberDenotes | src/brutils/json_parser.cpp:177-225 | every number of that grammar is read as the number that its digits and power of ten denote, without its sign if it is a bare integer and without its exponent if that has a + |
| JsonNumbers.ValueDenotes | src/brutils/json_parser.cpp:203-224 | one number is denoted: times ten to the number of fraction digits, and to a negative exponent, it is the digits with their sign, or these times ten to the exponent |
| JsonNumbers.LeadingZero | src/brutils/json_parser.cpp:187-201 | a zero in front of digits is a number by itself |
| JsonNumbers.PointAlone | src/brutils/json_parser.cpp:203-206 | a point without digits behind it is passed over and saves the sign |
| JsonNumbers.NumberReads | src/brutils/json_parser.cpp:177-225 | value and cursor for every number of that grammar, also the misread ones |
| JsonFailures.WordsRead | src/brutils/json_parser.cpp:227-254 | true, false and null are read as values, and every other word as none |
| JsonFailures.NoWord | src/brutils/json_parser.cpp:231-239 | what starts with no letter is left as it is, and a word at the end of the text throws |
| JsonFailures.ListOpens | src/brutils/json_parser.cpp:86-111 | what the list is when its first element is missing, unreadable or cut off |
| JsonFailures.ListGoesOn | src/brutils/json_parser.cpp:92-107 | behind any elements and a comma: the list as read, an exception, or an empty list |
| JsonFailures.NoCommaNeeded | src/brutils/json_parser.cpp:101-104 | two strings without a comma between them are two elements |
| JsonFailures.MapOpens | src/brutils/json_parser.cpp:41-56 | what the map is when its first member is missing, unreadable or cut off |
| JsonFailures.MapGoesOn | src/brutils/json_parser.cpp:58-80 | behind any members and a comma: the map as read, an exception, or an empty map |
| JsonFailures.CommasSkipped | src/brutils/json_parser.cpp:73-75 | any number of commas is passed over between members |
| JsonFailures.KeyGivesUp | src/brutils/json_parser.cpp:60-66 | a key without a colon, or one not closed, empties the map |
| JsonFailures.UnclosedString | src/brutils/json_parser.cpp:149-168 | a string without a closing quote is none |
| JsonFailures.SignAlone | src/brutils/json_parser.cpp:181-196 | a minus sign without digits is no number |
| JsonFailures.NumberCutOff | src/brutils/json_parser.cpp:256-259 | a whole number at the end of the text throws |
| JsonFailures.TrailingText | src/brutils/json_parser.cpp:34-38 | a printed list or map with anything but white space behind it is not parsed |
| JsonFailures.ContainersOnly | src/brutils/json_parser.cpp:18-32 | at the top only lists and maps are parsed, and an empty text throws |
| JsonFailures.Misnested | src/brutils/json_parser.cpp:86-111 | a map whose list of any elements is closed by the map's brace is parsed, with an empty list |
| JsonParser.ScanEndsIff | src/brutils/json_parser.cpp:151-165 | the scan for the closing quote ends, after however many passes, if and only if one pass ends it |
| JsonParser.Parse | src/brutils/json_parser.cpp:18-39 | the method returns, throws or hangs exactly as the parse function of the specification says |
| JsonParser.ParseObject | src/brutils/json_parser.cpp:41-84 | value and cursor after the loop over members, with every early return and exception |
| JsonParser.ParseArray | src/brutils/json_parser.cpp:86-111 | value and cursor after the loop over elements, with every early return and exception |
| JsonParser.ParseValue | src/brutils/json_parser.cpp:113-139 | dispatch on the first character, value and cursor |
| JsonParser.ParseString | src/brutils/json_parser.cpp:141-175 | the scan loop yields the text up to the first quote, fails without one, and hangs where the specification says |
| JsonParser.ParseNumber | src/brutils/json_parser.cpp:177-225 | value and cursor of a number, with its exceptions at the end of the text |
| JsonParser.ParseLiteral | src/brutils/json_parser.cpp:227-254 | the word in front, as true, false, null or invalid |
| JsonParser.ParseInt | src/brutils/json_parser.cpp:256-267 | the sum of digits weighted from the front is the decimal value of the digits |
| JsonParser.AddPlaces | src/brutils/json_parser.cpp:261-266 | the loop of positional weights gives the decimal value and eats exactly the digits |
| JsonParser.ParseAfterInt | src/brutils/json_parser.cpp:269-277 | the sum of digits over growing powers of ten is the value of the fraction |
| JsonParser.RemoveWhitespace | src/brutils/json_parser.cpp:279-284 | the cursor stands at the first character that is not white space |
| Text.ClassesAre | src/brutils/json_parser.cpp:227-284 | white space, digits and letters, character by character |
| Decimal.DigitIs | src/brutils/json_parser.cpp:263 | each digit has the value of its place among the ten |
| JsonGenerator.Generate | src/brutils/json_generator.cpp:13-16 | the text of a value at depth 0 |
| JsonGenerator.GenObject | src/brutils/json_generator.cpp:18-33 | appending with separators and erasing the last one gives the members joined, in key order, between braces |
| JsonGenerator.GenArray | src/brutils/json_generator.cpp:35-48 | the same for the elements of a list |
| JsonGenerator.GenValue | src/brutils/json_generator.cpp:50-68 | the text by kind of value; nulls and invalid values give nothing |
| JsonGenerator.GenTab | src/brutils/json_generator.cpp:118-125 | four blanks per level |
| JsonGenerator.LineStarts | src/brutils/json_generator.cpp:118-125 | in pretty form a line starts with CR, LF and four blanks per level, in compact form there are no lines |
| JsonGenerator.ListLayout | src/brutils/json_generator.cpp:35-48 | how the elements of a list are laid out |
| JsonGenerator.MapLayout | src/brutils/json_generator.cpp:18-33 | how the members of a map are laid out |
| Variant.SortedKeys | src/brutils/json_generator.cpp:21-27 | the keys of a `std::map`, each once, in the order of `std::less` |
| Variant.BeforeIff | src/brutils/json_generator.cpp:21-27 | a key comes before another if and only if at their first difference it ends or has the smaller character |
| SignalSlotRuns.NoDanglingConnections | include/brutils/br_object.h:305-381 | after every run of making, connecting, both disconnects and both destructors, a signal's direct plus queued entries of a slot are as many as the slot's entries of the signal, and every object referred to is live |
| SignalSlotRuns.NeverQueuedWithoutParents | include/brutils/br_object.h:328-347 | after every such run a queued connection has a parent at both ends |
| SignalSlotRuns.StepKeeps | include/brutils/br_object.h:272-282 | each of the seven operations keeps counts, liveness and placement |
| SignalSlotRuns.DisconnectCounts | include/brutils/br_object.h:368-381 | disconnecting a pair takes one connection from each list it is in |
| SignalSlotRuns.ConnectAppends | include/brutils/br_object.h:328-347 | a connection goes to the end of the slot's list and of one list of the signal, which by the parents, the type asked for and the threads; no other list changes |
| SignalSlotRuns.ListedInOrder | include/brutils/br_object.h:328-347 | over every run of connecting, a signal's lists hold their slots in the order of the calls |
| SignalSlotRuns.DisconnectCuts | include/brutils/br_object.h:368-381 | disconnecting a pair cuts out the first entry of each list, and leaves all else in its order |
| SignalSlotRuns.DisconnectAllFilters | include/brutils/br_object.h:352-362 | disconnecting a signal empties its lists and leaves those of all slots without it, in their order |
| SignalSlotRuns.DestroySignalFilters | include/brutils/br_object.h:305-307 | destroying a signal ends its lists, with the same for the slots |
| SignalSlotRuns.DestroySlotFilters | include/brutils/br_object.h:441-447 | destroying a slot leaves the lists of all signals without it, in their order |
| SignalSlotRuns.Play | include/brutils/br_object.h:169-440 | real objects driven by any script of commands end up consistent |
| SignalSlot.Placement | include/brutils/br_object.h:328-338 | never left undecided; direct exactly when an end has no parent, when asked for so, and for automatic connections when both ends report the same thread |
| SignalSlot.Signal.Connect | include/brutils/br_object.h:328-347 | the whole graph afterwards: one entry more at the end of one list of the signal and of the slot's list |
| SignalSlot.Signal.DisconnectAll | include/brutils/br_object.h:352-362 | the loops empty both lists and take all entries of the signal, and nothing else, from every slot |
| SignalSlot.Signal.Disconnect | include/brutils/br_object.h:368-381 | the first entry leaves each list that has one, and as many entries leave the slot's list |
| SignalSlot.Signal.RemoveSlotConnection | include/brutils/br_object.h:428-439 | the first entry leaves each of the signal's lists, of all signals only here |
| SignalSlot.Signal.Destroy | include/brutils/br_object.h:305-307 | the graph without the signal |
| SignalSlot.Slot.Destroy | include/brutils/br_object.h:441-447 | calling each connected signal once per entry leaves the graph without the slot, other entries in order |
| SignalSlot.SlotFacts | include/brutils/br_object.h:441-447 | in a consistent graph, removing the first entry once per connection the slot knows of removes all its entries |
| SignalSlot.SignalFacts | include/brutils/br_object.h:352-362 | the same for a signal disconnecting |
| SignalSlot.Signal.Emit | include/brutils/br_object.h:387-402 | calls made and queues afterwards, by parent and calling thread |
| SignalSlot.Signal.CallDirectConnections | include/brutils/br_object.h:411-417 | one call per direct connection, in list order |
| SignalSlot.Signal.CallQueuedConnections | include/brutils/br_object.h:419-425 | one task per queued connection, in list order, up to one that throws |
| SignalSlot.Slot.AddEventToParent | include/brutils/br_object.h:258-265 | queued at the root above the parent, dropped without a parent, thrown without a queue |
| SignalSlot.ThreadedObject.Turn | include/brutils/br_object.h:150-161 | the front event is carried out, then popped, behind what it queued |
| EventLoop.SendAllThrowsIff | include/brutils/br_object.h:258-265 | queueing calls throws if and only if a slot's root has no queue |
| EventLoop.SendAllExact | include/brutils/br_object.h:419-425 | each queue gains exactly the calls of the slots that live there, in list order, up to a slot that throws |
| EventLoop.StepKeeps | include/brutils/br_object.h:150-161 | every emission and loop turn keeps delivery exact, direct calls exact and handling on the owner's thread |
| EmissionOrder.QueuedDeliveryExact | include/brutils/br_object.h:387-425 | in every run, at every queue, calls made followed by calls waiting are, in order, the queued calls of the emissions handled, those that threw included |
| EmissionOrder.SlotSequence | include/brutils/br_object.h:387-425 | for every slot with a thread, any signals and any duplicates: values received followed by values queued for it are the values of the emissions handled, in order, each once per queued connection reached |
| EmissionOrder.DirectCallsExact | include/brutils/br_object.h:411-417 | in every run the direct calls made are, in order, those of the emissions handled, each on its owner's thread |
| EmissionOrder.EmitInOrderIff | include/brutils/br_object.h:387-402 | an emission keeps the order of its signal if and only if it does not overtake a different value waiting |
| EmissionOrder.EmissionsInOrder | include/brutils/br_object.h:387-402 | in every run each emission of a signal was handled or waits, as often as it was made; in orderly runs, emissions handled followed by emissions waiting are the emissions made |
| EmissionOrder.OrderlyIff | include/brutils/br_object.h:387-402 | the order of a signal's emissions holds after every event of a run if and only if no emission in it overtakes a different value waiting |
| EmissionOrder.ForeignIsOrderly | include/brutils/br_object.h:395-400 | runs that emit a signal only from other threads are orderly for it |
| EmissionOrder.EndToEnd | include/brutils/br_object.h:387-425 | for a slot queued with one signal only, any number of times, in every run: values received, values queued for the slot and values queued at the owner are together the values emitted, each once per connection; in orderly runs, in order |
| EmissionOrder.EndToEndOnce | include/brutils/br_object.h:387-425 | over a single such connection each value emitted comes exactly once in every run; in orderly runs, in order |
| EmissionOrder.Drive | include/brutils/br_object.h:150-161 | objects driven by any legal events have the queues and calls of the run |
| Wiring.BuiltIsWired | include/brutils/br_object.h:272-447 | whatever was connected and destroyed, the signals and slots left meet what the results about emissions require |
| Wiring.CalledOnOwnThreadIff | include/brutils/br_object.h:387-417 | in every run of emissions and turns all slots with a thread are called on it, if and only if their direct connections are with signals of the same thread |
| Wiring.QueuedAtHome | include/brutils/br_object.h:258-265 | in every run a call from a queue is made on the thread of its slot, as line 34 of the repository's own README.md promises |
| Wiring.AutoStaysHome | include/brutils/br_object.h:328-338 | slots with threads that are connected automatically or queued to signals with threads, whatever is made and destroyed and wherever emissions come from, are called on their own thread, as line 36 of that file promises |
| Wiring.Overtakes | include/brutils/br_object.h:387-402 | a run from the start in which the second emission is handled and the first still waits |
| Wiring.PairThrowsIff | include/brutils/br_object.h:328-338 | for a signal with a thread and a slot below a plain root connected automatically: emissions throw, and end the program in a turn, if and only if `connect` was called on another thread |
| Wiring.DestroyedSlotReferredIff | include/brutils/br_object.h:258-265 | after any run a destroyed slot is still referred to if and only if fewer calls were made from its queue than the emissions handled are for |
| Wiring.DestroyedSignalReferredIff | include/brutils/br_object.h:387-402 | after any run a destroyed signal is still referred to if and only if fewer emissions of it were handled than made |
| ThreadPoolSpec.JobsInOrder | src/brutils/Thread/ThreadPool.cpp:33-52 | over every run, with new workers given their job, the jobs that workers are seen to be set to work on, followed by the waiting jobs, are the jobs submitted, in order |
| ThreadPoolSpec.PoolInvariant | src/brutils/Thread/ThreadPool.cpp:73-104 | over every run busy and idle threads are disjoint and at most the maximum; jobs wait only if all are busy; the idle threads are those with a timer; the timer maps are inverse; no internal error is reported |
| ThreadPoolSpec.QuietMeansAllStarted | src/brutils/Thread/ThreadPool.cpp:94-98 | when no worker runs and no notice is left, the jobs that workers were set to work on are all that were submitted |
| ThreadPoolSpec.AsWrittenNothingStarts | src/brutils/Thread/ThreadPool.cpp:45-47 | as the code stands no run sets a worker to work on any job, and none is lost if and only if none was submitted or no thread is allowed |
| ThreadPoolSpec.OneAtATime | src/brutils/Thread/ThreadPool.cpp:33-104 | each event sets one thread to work at most, and a thread at work keeps its job until it ends |
| ThreadPoolSpec.ThreadsReused | src/brutils/Thread/ThreadPool.cpp:33-72 | a thread is made only if none is idle and there is room, an idle one is used if there is one, and only the timeout of an idle one ends it |
| ThreadPoolSpec.BadNotice | src/brutils/Thread/ThreadPool.cpp:73-92 | a notice of an unknown thread or of one still at work changes nothing but the last error |
| ThreadPoolSpec.StaleTimeoutIsHarmless | src/brutils/Thread/ThreadPool.cpp:57-72 | the timeout of a thread that was given a job again, arriving after any further run, changes nothing but the last error if and only if its id is not back on record, and it is back only if it was given out again |
| ThreadPoolSpec.GoneStaysGone | src/brutils/Thread/ThreadPool.cpp:105-126 | over every run a timer off the record stays off it until its id is given out again |
| ThreadPoolSpec.TimeoutIsHarmlessIff | src/brutils/Thread/ThreadPool.cpp:57-72 | a timeout changes nothing but the last error if and only if its timer is not on record, and otherwise takes its idle thread away and reports nothing |
| ThreadPoolSpec.FreshTimerIff | src/brutils/Thread/ThreadPool.cpp:105-110 | starting a timer keeps the two maps inverse if and only if its id is not in use |
| ThreadPoolSpec.StepKeeps | src/brutils/Thread/ThreadPool.cpp:33-104 | each transition keeps the invariants over all five containers and the history |
| ThreadPool.ThreadPool.Execute | src/brutils/Thread/ThreadPool.cpp:33-52 | the whole state after a submission: idle worker, new worker or buffer |
| ThreadPool.ThreadPool.TimerTimeout | src/brutils/Thread/ThreadPool.cpp:57-72 | the idle thread and both timer entries leave, or the error is set |
| ThreadPool.ThreadPool.ExecutionFinished | src/brutils/Thread/ThreadPool.cpp:73-104 | next job, parking with a timer, or one of two errors |
| ThreadPool.ThreadPool.StartTimerByThreadId | src/brutils/Thread/ThreadPool.cpp:105-110 | both timer maps afterwards |
| ThreadPool.ThreadPool.StopTimerByThreadId | src/brutils/Thread/ThreadPool.cpp:111-126 | both timer maps afterwards, unchanged where an entry is missing |
| ThreadPool.Drive | src/brutils/Thread/ThreadPool.cpp:33-126 | the pool object driven by any legal events has the state of the run and keeps its invariants |
| CombinedTimerSpec.FiresAsAsked | src/brutils/timers/combined_timer.cpp:18-89 | over every run of up to 65536 timers, the timer given the n-th id waits and fires with the duration and period of the n-th call, dated first its duration after the call, then its duration after the clock was read behind its last firing, and never fires before the first date |
| CombinedTimerSpec.StoppedFiresNoMore | src/brutils/timers/combined_timer.cpp:37-49 | over every such run a timer stopped does not fire again |
| CombinedTimerSpec.CallsRunThread | src/brutils/timers/combined_timer.cpp:50-54 | adding a timer, or stopping one that waits, leaves the thread running |
| CombinedTimerSpec.DeadlineOrder | src/brutils/timers/combined_timer.cpp:63-89 | over every run of adding, stopping and firing, fired dates do not decrease, none fires before its date, and none waiting is earlier than one fired |
| CombinedTimerSpec.FiringsAreSpaced | src/brutils/timers/combined_timer.cpp:78-87 | up to 65536 timers, a timer that fires twice is periodic, and no firing comes before its duration has passed since the one before |
| CombinedTimerSpec.NoTimerVanishes | src/brutils/timers/combined_timer.cpp:18-49 | timers waiting, fired once, stopped and overwritten add up to the timers added |
| CombinedTimerSpec.IdsAreFresh | src/brutils/timers/combined_timer.cpp:18-32 | up to 65536 timers no id is given out while in use |
| CombinedTimerSpec.AddOverwritesIff | src/brutils/timers/combined_timer.cpp:18-32 | after every run, adding overwrites a waiting timer if and only if the number of timers added so far is, in 16 bits, the id of one waiting |
| CombinedTimerSpec.ReuseOverwritesIff | src/brutils/timers/combined_timer.cpp:18-32 | the timer after the 65536th overwrites one if and only if the very first still waits |
| CombinedTimerSpec.ThreadEndsIff | src/brutils/timers/combined_timer.cpp:66-70 | a turn ends the thread if and only if no timer waits, or timer -1 waits and its date is before those visited ahead of it and no later than those behind |
| CombinedTimerSpec.MinusOneNeverFires | src/brutils/timers/combined_timer.cpp:63-89 | over every run no timer with the id -1 fires |
| CombinedTimerSpec.MinusOneBlocks | src/brutils/timers/combined_timer.cpp:63-107 | over every run in which timer -1 is neither stopped nor overwritten it goes on waiting and no timer dated later fires |
| CombinedTimerSpec.NoneAbandoned | src/brutils/timers/combined_timer.cpp:63-89 | with fewer than 65536 timers added the thread never ends while one waits |
| CombinedTimerSpec.LastIdIsAbandoned | src/brutils/timers/combined_timer.cpp:66-70 | the next timer after 65535 gets the id -1; the thread ends with it waiting, and it fires in no run that follows |
| CombinedTimerSpec.ClosestIsEarliest | src/brutils/timers/combined_timer.cpp:90-107 | the minimum search ends with a timer whose date is least |
| CombinedTimer.CombinedTimer.AddTimer | src/brutils/timers/combined_timer.cpp:18-32 | id given out, entry written and counter wrapped |
| CombinedTimer.CombinedTimer.StopTimer | src/brutils/timers/combined_timer.cpp:37-49 | the entry leaves if there is one, and whether there was |
| CombinedTimer.CombinedTimer.GetClosestTimerId | src/brutils/timers/combined_timer.cpp:90-107 | the loop returns the first of the earliest timers visited, or -1 |
| CombinedTimer.CombinedTimer.RunOnce | src/brutils/timers/combined_timer.cpp:65-88 | the timer emitted, then erased or dated anew; or the thread ends |
| CombinedTimer.Drive | src/brutils/timers/combined_timer.cpp:63-89 | the timer object driven by any legal events emits exactly the timers the run fires, in order |
| TcpServerSpec.SlotTable | src/brutils/TcpServer/TcpServer.cpp:299-359 | from setup on, over every run: indices 1 to max-1 are partitioned into free ones and those of the injective descriptor map, entries agree, connections have the same domain, and the numbers add up |
| TcpServerSpec.AddKeepsIff | src/brutils/TcpServer/TcpServer.cpp:260-284 | adding keeps the tables valid if and only if the descriptor is not tracked |
| TcpServerSpec.PassRemovesHungUp | src/brutils/TcpServer/TcpServer.cpp:175-213 | a pass reaches its end, removes exactly the descriptors flagged POLLHUP, frees their indices and leaves every other as it was |
| TcpServerSpec.PassIsRun | src/brutils/TcpServer/TcpServer.cpp:175-213 | a pass is the run of the events reported, descriptor by descriptor |
| TcpServerSpec.ProcessKeeps | src/brutils/TcpServer/TcpServer.cpp:160-214 | a whole call keeps the tables valid; it succeeds if and only if nothing happened at the listening socket or there was room and `accept` ended well; it then drops exactly the old descriptors that hung up, and otherwise none |
| TcpServerSpec.FullTableStays | src/brutils/TcpServer/TcpServer.cpp:160-174 | a full server at which a connection waits keeps all its tables however often it turns, whatever the clients report |
| TcpServerSpec.NewcomersStay | src/brutils/TcpServer/TcpServer.cpp:215-242 | a connection accepted in a turn survives the pass of that turn |
| TcpServerSpec.AcceptTakes | src/brutils/TcpServer/TcpServer.cpp:215-242 | the descriptors taken in are the first ones `accept` gave out, as many as there is room for |
| TcpServerSpec.AddTakes | src/brutils/TcpServer/TcpServer.cpp:260-284 | a new connection gets the lowest free index, an entry polled for input, and its own timer |
| TcpServerSpec.PassTimers | src/brutils/TcpServer/TcpServer.cpp:175-213 | a pass restarts the timer of each descriptor with data and no hang-up, and of no other |
| TcpServerSpec.FlagsAre | src/brutils/TcpServer/TcpServer.cpp:192-204 | POLLIN and POLLHUP by their place in the bits of `revents` |
| TcpServerSpec.TimersMapBack | src/brutils/TcpServer/TcpServer.cpp:361-383 | over every run each connection has a timer on record whose timeout leads back to it |
| TcpServerSpec.TimerMapsInverse | src/brutils/TcpServer/TcpServer.cpp:361-383 | from setup on, with new ids and as long as no timer fires, the two timer maps are exact inverses with one entry per connection, and exactly the timers on record are pending |
| TcpServerSpec.PromptMapsInverse | src/brutils/TcpServer/TcpServer.cpp:361-383 | also with timers that fire, if every stop finds its timer pending |
| TcpServerSpec.PendingIff | src/brutils/TcpServer/TcpServer.cpp:361-383 | after an event a timer is pending if and only if the event started it, or it was pending and the event neither fired it nor was data or a hang-up on its descriptor |
| TcpServerSpec.TimerRuns | src/brutils/TcpServer/TcpServer.cpp:260-298 | a timer started by a connection or by data stays pending, and leads back to its connection, over every run until it fires or there is data or a hang-up on its descriptor |
| TcpServerSpec.StartMapsBackIff | src/brutils/TcpServer/TcpServer.cpp:361-367 | starting a timer keeps timers mapping back if and only if no other descriptor has its id on record |
| TcpServerSpec.DataKeepsInverseIff | src/brutils/TcpServer/TcpServer.cpp:285-298 | data keeps the maps inverse if and only if the timer it stops had not fired |
| TcpServerSpec.StaleTimeoutClosesIff | src/brutils/TcpServer/TcpServer.cpp:243-298 | after data and any further run that does not start its id again, the former timer's timeout disconnects whoever has the descriptor if and only if that timer had fired before the data, and else does nothing |
| TcpServerSpec.FiredTimeoutCloses | src/brutils/TcpServer/TcpServer.cpp:243-259 | from any reachable tables, the timeout of a timer that fired finds the holder of its descriptor, whatever happens in between, until its id is started again |
| TcpServerSpec.RecordStays | src/brutils/TcpServer/TcpServer.cpp:361-383 | in such runs a timer that fired stays on record for its descriptor and one off the record stays off |
| TcpServerSpec.NewcomerTimedOut | src/brutils/TcpServer/TcpServer.cpp:243-306 | when a client hangs up after its timer fired, the timeout disconnects the next client with its descriptor |
| TcpServer.TcpServer.constructor | src/brutils/TcpServer/TcpServer.cpp:132-142 | the setup loop marks every index but the first free |
| TcpServer.TcpServer.ProcessSockets | src/brutils/TcpServer/TcpServer.cpp:160-214 | tables and result of the whole call |
| TcpServer.TcpServer.AcceptNewConnections | src/brutils/TcpServer/TcpServer.cpp:215-242 | the loop over what `accept` gives out |
| TcpServer.TcpServer.ProcessClients | src/brutils/TcpServer/TcpServer.cpp:175-213 | the loop over the clients the map held at its start |
| TcpServer.TcpServer.TimeoutOnSocket | src/brutils/TcpServer/TcpServer.cpp:243-259 | which connection is disconnected, if any |
| TcpServer.TcpServer.AddNewConnection | src/brutils/TcpServer/TcpServer.cpp:260-284 | all tables and the result, also when refused half way |
| TcpServer.TcpServer.NewIncomingData | src/brutils/TcpServer/TcpServer.cpp:285-298 | the timer is replaced and no slot touched |
| TcpServer.TcpServer.ConnectionClosed | src/brutils/TcpServer/TcpServer.cpp:299-306 | the descriptor leaves all tables |
| TcpServer.TcpServer.AddToSocketList | src/brutils/TcpServer/TcpServer.cpp:307-320 | the lowest free index is taken, its entry written in the array |
| TcpServer.TcpServer.RemoveFromSocketList | src/brutils/TcpServer/TcpServer.cpp:321-332 | the index is freed and its entry marked -1 |
| TcpServer.TcpServer.StartTimeoutTimer | src/brutils/TcpServer/TcpServer.cpp:361-367 | both timer maps afterwards |
| TcpServer.TcpServer.StopTimeoutTimer | src/brutils/TcpServer/TcpServer.cpp:368-383 | both timer maps afterwards; nothing changes if the timer had fired |
| TcpServer.Drive | src/brutils/TcpServer/TcpServer.cpp:243-383 | the server object driven by any legal events has the tables of the run and keeps its invariants |
| TimeKeeper.FirstFreeIs | src/brutils/timers/TimeKeeper.cpp:56-60 | the id found is the next free one counting up, around the end of the 16 bits |
| TimeKeeper.AtNext | src/brutils/timers/TimeKeeper.cpp:56-60 | the id one step on is one more, and 0 behind 65535 |
| TimeKeeper.ProbeEndsIff | src/brutils/timers/TimeKeeper.cpp:56-60 | the probe ends within one lookup more than there are records if and only if not all 65536 ids are in use |
| TimeKeeper.Pigeonhole | src/brutils/timers/TimeKeeper.cpp:56-60 | ids tried in vain are no more than there are records |
| TimeKeeper.TimeKeeper.Probe | src/brutils/timers/TimeKeeper.cpp:56-60 | the loop finds the first free id around the 16 bits, and how many lookups it took |
| TimeKeeper.TimeKeeper.AddRecord | src/brutils/timers/TimeKeeper.cpp:35-68 | when each error is reported, nothing changed then; else the first free id from the counter, one record more, all others unchanged, counter one on |
| TimeKeeper.TimeKeeper.CancelRecord | src/brutils/timers/TimeKeeper.cpp:74-84 | the record leaves if there is one, all others stay under their ids |
| TimeKeeper.AddThenCancel | src/brutils/timers/TimeKeeper.cpp:35-84 | cancelling what was just added gives the book back |
| TimeKeeper.Serve | src/brutils/timers/TimeKeeper.cpp:35-84 | over every run of requests records stay under their own ids and number those added less those cancelled |
| RequestRoundTrip.RequestLineRoundTripIff | src/brutils/HttpServer/RequestParser.cpp:100-141 | a printed request line (section 3.1.1 of RFC 7230) is accepted if and only if it has a path and a non-empty query not ending in &; then all four parts come back and the cursor is past the CRLF |
| RequestRoundTrip.RequestLineSound | src/brutils/HttpServer/RequestParser.cpp:100-141 | any line accepted is a printed request line of the parts recovered |
| RequestRoundTrip.KnownWords | src/brutils/HttpServer/RequestParser.cpp:189-248 | the nine methods and two versions by their words |
| FieldsRoundTrip.BlockRead | src/brutils/HttpServer/RequestParser.cpp:142-175 | good fields in front of any text whatever are taken in one by one, and the text goes on being read from there |
| FieldsRoundTrip.HeaderRoundTrip | src/brutils/HttpServer/RequestParser.cpp:142-175 | any printed header block (section 3.2 of RFC 7230) is read to just behind the blank line, into the lower-cased map in which the first field of a name wins |
| FieldsRoundTrip.HeadersByName | src/brutils/HttpServer/HttpRequest.cpp:88-91 | the map read has no upper-case letter; in whatever case names were written, the first field of a name is found under it in lower case, and there is no other key |
| FieldsRoundTrip.LoweredAlikeIff | src/brutils/HttpServer/HttpRequest.cpp:88-91 | two names are lowered to the same if and only if they differ at most in the case of letters |
| FieldsRoundTrip.LetterLowered | src/brutils/HttpServer/HttpRequest.cpp:88-91 | each letter from A to Z becomes the one at its place from a to z, and nothing else changes |
| FieldsRoundTrip.NoColonRefused | src/brutils/HttpServer/RequestParser.cpp:156-160 | behind any good fields, a line without a colon ends the parse at its start |
| FieldsRoundTrip.LoneBreak | src/brutils/HttpServer/RequestParser.cpp:166-172 | behind a field, a break of one character takes the next one along, whatever it is |
| FieldsRoundTrip.HeaderCutOffIff | src/brutils/HttpServer/RequestParser.cpp:142-175 | data that ends in an unfinished line behind any good fields is read past its end if and only if that line has a colon, and accepted, all fields read and the cursor one past the end, if and only if it is the blank line cut short |
| FieldsRoundTrip.HeaderCutOff | src/brutils/HttpServer/RequestParser.cpp:166-172 | a block cut off inside the line break behind any field is read past its end |
| FieldsRoundTrip.QueryRoundTrip | src/brutils/HttpServer/RequestParser.cpp:260-279 | any map whose keys lack & and = and whose values lack & comes back from its printed query (section 3.4 of RFC 3986), whatever the order |
| FieldsRoundTrip.QueryItemsRead | src/brutils/HttpServer/RequestParser.cpp:260-279 | a query of any items, with or without =: each key is there once, with the value of its first item, empty without =; a final & changes nothing |
| FieldsRoundTrip.SplitJoined | src/brutils/HttpServer/RequestParser.cpp:263-276 | splitting at & undoes joining with & |
| FieldsRoundTrip.FirstKeyWins | src/brutils/HttpServer/HttpRequest.cpp:88-91 | of pairs with equal keys the first decides the value |
| RequestParser.RequestParser.ParseRequestLine | src/brutils/HttpServer/RequestParser.cpp:100-141 | result, request and cursor, also when a part fails |
| RequestParser.RequestParser.ParseMethod | src/brutils/HttpServer/RequestParser.cpp:189-210 | one of nine methods up to the first space |
| RequestParser.RequestParser.ParsePathAndQuery | src/brutils/HttpServer/RequestParser.cpp:211-230 | path and query, and where the cursor is left |
| RequestParser.RequestParser.ParsePath | src/brutils/HttpServer/RequestParser.cpp:249-259 | the path, if not empty |
| RequestParser.RequestParser.ParseQuery | src/brutils/HttpServer/RequestParser.cpp:260-279 | the loop splits at &, drops a final empty piece, splits each piece at its first = and keeps the first of equal keys; the cursor ends one past the query unless it is empty or ends in & |
| RequestParser.RequestParser.ParsePair | src/brutils/HttpServer/RequestParser.cpp:265-274 | one pair of the query, up to the next & |
| RequestParser.RequestParser.ParseVersion | src/brutils/HttpServer/RequestParser.cpp:231-248 | one of two versions, from the whole rest of the line |
| RequestParser.RequestParser.ParseHeader | src/brutils/HttpServer/RequestParser.cpp:142-175 | result, headers and cursor after the loop over lines, and whether the data was overrun |
| RequestParser.RequestParser.ParseField | src/brutils/HttpServer/RequestParser.cpp:156-171 | one header line: key, blanks skipped, value, lower-cased, first one kept |

## Left out

- JsonNumbers.NumberReadsRightIff: is about exact real arithmetic; rounding to `float`, its 24-bit mantissa and overflow are not modelled.
- JsonExact.RoundTripIff: supposes that the stream writes each float inside the value as a number of section 6 of RFC 8259 with exactly its value, in whatever spelling; the stream's rounding, locale and non-finite floats are not modelled; ints are unbounded and come back as floats, as the code stores them.
- JsonParserFacts.ParseTerminates: goes one way; texts with an escaped quote that the parser gives up on before it gets there also end.
- JsonGenerator.GenValue: the message the code writes to the console for an empty value is not modelled.
- SignalSlot.Slot.Destroy: as every method here on the live objects, takes the sets of live signals and slots as ghost parameters; what a queued task does when its slot or signal is gone is not modelled.
- EmissionOrder.EndToEnd: is about fixed connections among slots with a function set, whose functions do not emit themselves; arguments are captured by value. An emission that throws is part of a run, as whoever emits may catch that; thrown in a turn of a loop it ends the program, so that no run goes on behind it.
- ThreadPoolSpec.JobsInOrder: takes the job from the buffer before it is removed, while the code reads it through a reference to the element it has just removed; supposes that the pool's slots are connected to the workers' and the timer's signals, which the code does not do, and treats a job given to a worker as started.
- CombinedTimerSpec.DeadlineOrder: adding, stopping and firing are atomic steps, as adding and stopping join the timer's thread first; calling them from a timeout's own handler is not modelled.
- TcpServerSpec.PassRemovesHungUp: the pass visits the descriptors the map held when it began; the code erases from the map it is visiting.
- TcpServerSpec.StaleTimeoutClosesIff: is about the handler; the code never connects it to the timer's signal.
- TcpServerSpec.TimersMapBack: timer ids are unbounded integers; the code keeps the same 16 bits as signed and as unsigned.
- RequestParser.RequestParser.ParseRequestLine: a cursor moved past the end of the data is a number past the end; what an iterator does there is not modelled.
- RequestParser.RequestParser.ParseField: copies and lower-cases characters as the code means to; the code writes past the end of empty strings.
- The request parser's driver, `parseBody`, `HttpResponse`, `HttpConnection`: used bytes are never removed and the writer does not pair with the parser.
- `TimeKeeper::run`, `getClosestRecord` and `AddRecord` with a duration: the search overwrites entries and the overload locks its own mutex twice; the combined timer covers the idea.
- `TcpServer::listen`, `stop` and `run` beyond the setup loop, `TcpSocket`, and the second `stopTimeoutTimer`, which nothing calls.
- Wake-ups, mutexes, condition variables and data races; events still queued when a threaded object stops.
- `string_utils`, `time_utils`, `singleton_crtp`, `queue_pc`, `timer.h`: they would add only easy members.
