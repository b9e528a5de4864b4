# poolfrontend: option scanning, replies, routing and indexes, in Dafny

The main part models the GNU `getopt` scanner that the project carries for Windows and its client, the
node RPC tool; the rest models the HTTP side (chunk framing, routing, fee plans) and the sorted name
indexes and algorithm registry of the pool frontend.

`dafny verify dfyconfig.toml` checks everything.

| file | contents |
|---|---|
| `Rotation.dfy` | the block rotation behind `exchange`, and its exact number of swaps |
| `OptionTable.dfy` | option characters, long-option tables, abbreviation |
| `ScanSpec.dfy` | what a scan of a whole argument vector means: a recursive, left-to-right definition with no indices, permutation or resumption |
| `ScanLaws.dfy` | laws of that definition: partition, comparison of the three orderings, interleaving, rescanning |
| `ScanState.dfy` | the scanner's state as a value, and the outcome of the scan it stands for |
| `Getopt.dfy` | the scanner itself: a class working in place on the argument array, one event per call |
| `WholeRun.dfy` | calling it some of the way, until it is done, and any number of times after that |
| `Spellings.dfy` | what each way of writing an option scans to, and what a call then hands back |
| `CommandLine.dfy` | what the client makes of a command line, with the option names written out |
| `CommaList.dfy`, `NodeRpc.dfy` | the client: option loop, comma lists, operand window, key pairing |
| `ChunkFraming.dfy`, `FunctionTable.dfy`, `Routing.dfy`, `FeePlan.dfy` | the HTTP side |
| `NameIndex.dfy`, `Registry.dfy` | sorted lookups, and the set-up of backends, statistics servers and instances |

How the scanner is tied to its meaning. `ScanAll` gives, for the arguments alone, the events, the consumed
elements and the operands. A scanner state stands for an `Outcome`: what it holds below, inside and above its
window of skipped operands, put together with `ScanAll` of what is unread. Every call of `Next` that reports an
event takes exactly that event off the front of the outcome and changes nothing else in it; every call that
reports the end leaves the array arranged as the outcome says. Between calls, the elements read and the operands in
the window are a shuffle of the original arguments up to that point. Whole runs follow, and the laws are proved
about `ScanAll`. What the words of the definitions mean is stated once more without them: options by how they are
spelled, the client's settings by the options' names, handlers by the names clients use, start-up by the node types.

Where a promise does not hold as stated, the exact condition is proved, and lemmas give inputs that fail:

- Calls after the end, however many, change nothing exactly when the operands left are ones the mode leaves alone.
  In PERMUTE mode that fails only after a `--` with something option-like behind it, as in `-- -a` (`TerminatorLeavesOption`).
- The arranged vector scans to the same events again, except exactly when the last option lacked its argument and
  there is an operand for it to take, as in `op -a` when `-a` needs an argument (`LackingOptionTakesOperand`).
- No reordering of a long-option table changes the answer for a name, exactly when its options of that name are
  alike; otherwise one that does is constructed.
- A framed body is recovered exactly when its length fits 32 bits; a reader is then left with one NUL byte, which
  `sizeof` of the terminating string counts in, unless the body is empty.
- `doc/httpApi.md` promises an error for an argument of the wrong type. The fee plan parser keeps that promise except
  exactly for requests that are in order but for a `coinSpecificFee` that is not an array: it is ignored
  (`AcceptedButUndocumented`).

Every fee plan the API accepted comes back equal when it is written and read again. A NUL in a string, which would
be cut off with what follows, matters only for records that came from elsewhere: no accepted plan contains one.

## Model

| member | source | states |
|---|---|---|
| Rotation.BottomIsShort | src/msvc/getopt.c:234-250 | swapping a shorter bottom block with the far end of the top block leaves the same rotation on a smaller range |
| Rotation.TopIsShort | src/msvc/getopt.c:251-267 | swapping a top block that is no longer with the near end of the bottom block leaves the same rotation on a smaller range |
| Rotation.WhereBlocksAre | src/msvc/getopt.c:188-195 | after the exchange both blocks are next to each other in their old order, swapped, and everything outside is untouched |
| Rotation.WorkIsSumMinusGcd | src/msvc/getopt.c:232-268 | exchanging non-empty blocks of lengths a and b takes exactly a + b - gcd(a, b) element swaps |
| Rotation.GcdExists | src/msvc/getopt.c:232-268 | the greatest common divisor in that count exists for all positive lengths |
| OptionTable.FirstDeclarationCounts | src/msvc/getopt.c:360-369 | a character's first occurrence declares it; one colon after it asks for an argument, two make it optional |
| OptionTable.OthersAreInvalid | src/msvc/getopt.c:841 | corollary of the definition: exactly the characters not listed, and ':' and ';', are invalid |
| OptionTable.Lookup | src/msvc/getopt.c:547-581 | an exact name wins wherever it stands; otherwise two unlike prefix matches are ambiguous; otherwise the first prefix match; otherwise unrecognized |
| OptionTable.AmbiguousIff | src/msvc/getopt.c:551-584 | a name is ambiguous if and only if it is no option's full name and two options it abbreviates differ in has_arg, flag or val |
| OptionTable.FoundIff | src/msvc/getopt.c:551-581 | it stands for an option if and only if that is the first of the name, or there is none of the name, it is the first abbreviated, and all abbreviated have the same has_arg, flag and val |
| OptionTable.UnrecognizedIff | src/msvc/getopt.c:770-829 | it is unrecognized if and only if it abbreviates no option |
| OptionTable.AnswerIsUnique | src/msvc/getopt.c:547-581 | those conditions determine the answer |
| OptionTable.FindLong | src/msvc/getopt.c:551-581 | the one-pass search with early exit gives that answer for every table and key |
| OptionTable.OrderIrrelevant | src/msvc/getopt.c:551-581 | two tables with the same entries give the same kind of answer and the same (has_arg, flag, val), if options sharing the key's name are alike |
| OptionTable.ClashIsExposed | src/msvc/getopt.c:556-563 | whenever two options of the key's name differ, anywhere in any table, some reordering of that table gives another answer |
| OptionTable.OrderIrrelevantIffAgreed | src/msvc/getopt.c:551-581 | for every table and key: all reorderings of the table answer alike if and only if the options of the key's name are alike |
| ScanLaws.ScanPartitions | src/msvc/getopt.c:91-103 | consumed elements and operands are together the arguments, each in original order; without permuting, one simply follows the other |
| ScanLaws.ShuffleIff | src/msvc/getopt.c:91-103 | being merged in order means that each element can be assigned to one of the two lists, which then are exactly the elements assigned to them |
| ScanLaws.EventsWellFormed | src/msvc/getopt.c:365-382 | every event names a table entry and has an argument exactly as that entry asks |
| ScanLaws.ModesAgree | src/msvc/include/getopt_int.h:63-84 | PERMUTE's events are RETURN_IN_ORDER's without the operands, and PERMUTE's operands are those it reported followed by what it left |
| ScanLaws.RequireOrderIsPrefix | src/msvc/getopt.c:499-505 | a REQUIRE_ORDER scan is the PERMUTE scan cut off at the first operand or "--"; PERMUTE goes on from there |
| ScanLaws.QuietIffNothingScanned | src/msvc/getopt.c:457-494 | nothing is reported or consumed exactly when the mode leaves all the operands alone |
| ScanLaws.UnterminatedIsQuiet | src/msvc/getopt.c:457-462 | a PERMUTE scan that no "--" ended leaves only operands without option syntax |
| ScanLaws.OnlyTerminatorStops | src/msvc/include/getopt_int.h:82-84 | under RETURN_IN_ORDER only "--" can end the scan before the last argument |
| ScanLaws.TerminatorLeavesOption | src/msvc/getopt.c:441-494 | an input at which a call after the end has an effect: with "a:", the arguments `-- -a` leave `-a`, which scanning on would report as an error |
| ScanLaws.ElementIsLocal | src/msvc/getopt.c:833-876 | an option element's events depend on it and the argument it takes, not on what follows |
| ScanLaws.ElementMissingOnlyAtEnd | src/msvc/getopt.c:1122-1160 | an argument can only be missing at the very end of the vector |
| ScanLaws.ScanOfItems | src/msvc/getopt.c:342-363 | a PERMUTE scan sees options (with their separate arguments) and operands separately, wherever the operands stand |
| ScanLaws.InterleavingIrrelevant | src/msvc/getopt.c:91-97 | the same options and operands, each in the same order, scan alike however they are mixed |
| ScanLaws.InPieces | src/msvc/getopt.c:342-363 | every command line is options, operands, and at most a leftover "--" part or a last option lacking its argument |
| ScanLaws.RescanIffNothingMissing | src/msvc/getopt.c:355-358 | scanning the arranged vector again gives the same result if and only if no operands are left or no argument was missing |
| ScanLaws.LackingOptionTakesOperand | src/msvc/getopt.c:1122-1160 | an input at which the arranged vector scans differently: with "a:", `op -a` lacks an argument and is arranged as `-a op`, which does not |
| Spellings.LongWithValue | src/msvc/getopt.c:653-718 | `--name=value` reports the option with what stands behind the '=', or an error if it takes no argument |
| Spellings.LongThenValue | src/msvc/getopt.c:720-723 | `--name value` reports an option that needs an argument with the next element, and consumes both |
| Spellings.LongAlone | src/msvc/getopt.c:720-768 | `--name` reports the option without argument, or that a needed argument is missing at the end |
| Spellings.LongUnfound | src/msvc/getopt.c:583-645 | a name that stands for no one option is reported as ambiguous or unknown, with a value or without |
| Spellings.CharThenMore | src/msvc/getopt.c:833-876 | a character without argument, or an unknown one, is reported and the rest read as if it stood behind the dash itself |
| Spellings.CharAlone | src/msvc/getopt.c:833-876 | `-c` alone reports the option without argument, an unknown character, or a missing argument at the end |
| Spellings.CharWithValue | src/msvc/getopt.c:1098-1121 | `-cvalue` reports the option with the rest of the element, for a required or an optional argument |
| Spellings.CharThenValue | src/msvc/getopt.c:1156-1161 | `-c value` reports an option that needs an argument with the next element |
| Spellings.OtherElements | src/msvc/getopt.c:465-505 | "--" ends the scan; an element that does not start with '-', or is "-", is an operand and goes where the ordering says |
| Spellings.FitsItsEntry | src/msvc/getopt.c:365-382 | what is reported is in the tables, with an argument exactly as its entry asks |
| Spellings.AfterLongOption | src/msvc/getopt.c:759-768 | a long option found returns its `val`, or 0 with `val` in its flag cell, and sets `*longind` to its index |
| Spellings.AfterCharOrOperand | src/msvc/getopt.c:365-375 | an option character returns itself and an operand 1, and both leave `optopt`, the flag cells and `*longind` alone |
| Spellings.AfterError | src/msvc/getopt.c:643-875 | an error returns '?', or ':' for a missing argument if the option characters start with ':', and sets `optopt` to the character, the option's `val`, or 0 |
| ScanState.ClampKeepsOutcome | src/msvc/getopt.c:439-444 | giving stale bounds rational values does not change what the state stands for |
| ScanState.MovedKeepsOutcome | src/msvc/getopt.c:448-455 | moving just-read options below the skipped operands keeps the outcome and the unread part |
| ScanState.SkipKeepsOutcome | src/msvc/getopt.c:457-462 | skipping one operand keeps the outcome and lessens the unread part |
| ScanState.TerminatorOutcome | src/msvc/getopt.c:465-482 | at "--" the outcome has no more events and the array, after the move, is consumed elements then operands |
| ScanState.ExhaustedOutcome | src/msvc/getopt.c:484-494 | with nothing unread the array is already arranged and operands start where the call backs up to |
| ScanState.OperandStops | src/msvc/getopt.c:499-502 | REQUIRE_ORDER ends before a first operand with the array as it was |
| ScanState.OperandReported | src/msvc/getopt.c:503-504 | RETURN_IN_ORDER reports an operand and passes it by |
| ScanState.ResumeSteps | src/msvc/getopt.c:834-839 | going one character further in a cluster takes exactly one event off the outcome |
| ScanState.ConsumeSteps | src/msvc/getopt.c:649-767 | ending an element, with or without a separate argument, takes exactly one event off the outcome |
| ScanState.MovedKeepsOrigin | src/msvc/getopt.c:446-455 | moving just-read options below the skipped operands keeps both lists as they were |
| ScanState.SkipKeepsOrigin | src/msvc/getopt.c:457-462 | a skipped operand joins the skipped ones in the order of the original arguments |
| ScanState.ReadKeepsOrigin | src/msvc/getopt.c:833-876 | elements that are read join the read ones in the order of the original arguments |
| Getopt.SignPicksOrdering | src/msvc/getopt.c:292-307 | '-' and '+' pick the ordering over the environment and are stripped; otherwise the environment decides between REQUIRE_ORDER and PERMUTE |
| Getopt.SwapBlocks | src/msvc/getopt.c:240-248 | the inner loops swap two disjoint blocks in place, one element swap per position |
| Getopt.Rotate | src/msvc/getopt.c:232-268 | the loop exchanges the two adjacent blocks in place and terminates, in the counted number of swaps |
| Getopt.Scanner.Exchange | src/msvc/getopt.c:197-274 | the array is rotated, in the counted number of swaps, and the relocated bounds delimit exactly the moved operands |
| Getopt.Scanner.constructor | src/msvc/include/getopt_int.h:110-112 | a new scanner is valid, starts at element 1 and is not yet set up |
| Getopt.Scanner.Initialize | src/msvc/getopt.c:286-307 | the first call picks the ordering from the sign or the environment and empties the window at `optind` |
| Getopt.Scanner.MoveDown | src/msvc/getopt.c:448-455 | options read since the window go below it by rotation, or an empty window moves up to `optind` |
| Getopt.Scanner.PermuteBlock | src/msvc/getopt.c:446-463 | keeps the outcome, the origin of every element and the unread suffix, and stops at an element with option syntax or the end |
| Getopt.Scanner.Prepare | src/msvc/getopt.c:437-463 | clamping and permuting keep the outcome; other modes leave the array as it is |
| Getopt.Scanner.Terminate | src/msvc/getopt.c:470-482 | "--" goes below the skipped operands and everything after it becomes operand |
| Getopt.Scanner.Finish | src/msvc/getopt.c:465-494 | the scan ends with the array arranged and `optind` at the first operand |
| Getopt.Scanner.PassOperand | src/msvc/getopt.c:499-505 | without permuting, an operand ends the scan or is reported |
| Getopt.Scanner.Advance | src/msvc/getopt.c:435-512 | an advance ends the scan, reports an operand, or enters an option element, keeping the outcome |
| Getopt.Scanner.ReadLong | src/msvc/getopt.c:529-829 | a long option gives the event, argument, `optopt`, flag cell and index its table entry calls for |
| Getopt.Scanner.ReadShort | src/msvc/getopt.c:833-876 | a character gives its event and argument and leaves the rest of the cluster for the next call |
| Getopt.Scanner.ReadElement | src/msvc/getopt.c:514-531 | decoding the current element takes exactly one event off the outcome |
| Getopt.Scanner.Next | src/msvc/getopt.c:398-1166 | one call: the first event of the outcome and the rest kept, or no event and the array arranged; bounds in order, the unread suffix untouched, and the elements read and the operands in the window are a shuffle of the original arguments before it; unread characters plus elements strictly decrease; only PERMUTE changes the array |
| WholeRun.ScanToEnd | src/msvc/getopt.c:345-363 | calling until done terminates, reports exactly the outcome's events and leaves the array arranged |
| WholeRun.FirstCallGoal | src/msvc/getopt.c:410-417 | a first call scans from `optind`, and from element 1 if `optind` has been set to 0 |
| WholeRun.CallFromStart | src/msvc/getopt.c:91-103 | after any number of calls from the start: the events so far, the elements read and the operands in the window are the first of those the whole scan gives; read and skipped ones are together the original arguments below `optind`, each in original order, and what is above is untouched |
| WholeRun.RunFromStart | src/msvc/getopt.c:355-358 | from the start: the events of the left-to-right definition; the array is element 0, consumed elements, operands, each in original order; `optind` is at the first operand |
| WholeRun.StableIffQuiet | src/msvc/getopt.c:441-494 | a call leaves everything as it is exactly when the operands are quiet |
| WholeRun.AgainAfterDone | src/msvc/getopt.c:441-494 | a call after the end returns the end and changes neither array nor `optind`, if and only if the operands left are quiet; every call that returns the end leaves the scanner ready for that again |
| WholeRun.CallAgain | src/msvc/getopt.c:441-494 | any positive number of calls after the end: all of them return the end and leave everything as it was, if and only if the operands left are quiet |
| WholeRun.RunThenCallAgain | src/msvc/getopt.c:441-494 | in terms of the arguments: after a PERMUTE run that no "--" ended, any number of further calls have no effect; after any run, exactly when its operands are quiet |
| CommaList.AppendPieces | src/noderpc.cpp:321-326 | the pointer loop appends exactly the pieces between commas |
| CommaList.SplitAtComma | src/noderpc.cpp:321-326 | a piece ends at the first comma, and splitting goes on behind it |
| CommaList.SplitIsFaithful | src/noderpc.cpp:321-326 | pieces hold no comma, are one more than the commas, and join back to the text |
| CommaList.SplitInvertsJoin | src/noderpc.cpp:321-326 | every non-empty list of comma-free pieces is recovered from its joined form |
| NodeRpc.CodesAreDistinct | src/noderpc.cpp:12-37 | 1 is always --help and never an operand, '?' always an error, ':' never occurs, and every setting comes with an argument |
| NodeRpc.ReadOptions | src/noderpc.cpp:294-346 | the option loop terminates, reads the scan's events as the switch says and, unless stopped, leaves the array arranged |
| NodeRpc.TakeIn | src/noderpc.cpp:299-337 | the switch sets one setting, or appends all pieces of a list |
| NodeRpc.ReadFromStart | src/noderpc.cpp:294-346 | the loop from the start reads exactly the events of the arguments, and the operands begin where it says |
| NodeRpc.ParseCommandLine | src/noderpc.cpp:294-362 | the outcome of the whole command line is a function of the arguments, and the operand window is exactly the operands |
| NodeRpc.PairKeys | src/noderpc.cpp:385-386 | after the size check every key access is in range, and address i goes with key i or with none |
| NodeRpc.FirstStopDecides | src/noderpc.cpp:295-342 | the first --help or error decides how the loop ends |
| NodeRpc.LastWinsAndListsGrow | src/noderpc.cpp:299-337 | single-valued options are last-wins; list options accumulate the pieces of all occurrences in order |
| NodeRpc.OperandPlacementIrrelevant | src/noderpc.cpp:361-362 | command lines that differ only in where operands stand give the same settings and operand window |
| CommandLine.SettingsAsGiven | src/noderpc.cpp:26-353 | for any settings in any order, spelled in full or abbreviated, with '=' or as two words: each named option's last value, or all pieces of a list option, ends up in its own setting, and the tool goes on exactly if node, coin and method are not empty, an address is given, and private keys are none or as many as mining addresses |
| CommandLine.NineOptions | src/noderpc.cpp:26-353 | with all nine options given once, each value is in its own place and the operands are what is left |
| CommandLine.FourAreNeeded | src/noderpc.cpp:345-348 | without --node, --coin, --address or --method the command line is refused |
| CommandLine.HelpIsShown | src/noderpc.cpp:296-298 | --help, or an abbreviation of it, shows help whatever follows |
| CommandLine.UnfoundIsRefused | src/noderpc.cpp:338-339 | a name that abbreviates no option, or several ("p" and "m" do), is refused whatever follows |
| CommandLine.HelpTakesNoValue | src/noderpc.cpp:27 | --help with a value is refused |
| CommandLine.CharIsRefused | src/noderpc.cpp:294 | any option character is refused |
| CommandLine.LackingIsRefused | src/noderpc.cpp:28-36 | a setting at the end without its value is refused |
| ChunkFraming.HexRoundTrip | src/http.cpp:368 | fixed-width digits read back to the number |
| ChunkFraming.DigitsAreLowerCase | src/http.cpp:368 | the digits are 0-9 and a-f, the last one for the number modulo 16 |
| ChunkFraming.FrameLayout | src/http.cpp:357-371 | a frame is eight digits of the length, CR LF, the body, CR LF 0 CR LF CR LF and a NUL |
| ChunkFraming.DecodeFramed | src/http.cpp:357-371 | a reader of a framed body sees a chunk of the body's length modulo 2^32, followed by the body |
| ChunkFraming.FrameRoundTrip | src/http.cpp:357-371 | a chunked-coding reader recovers exactly the body if and only if its length is below 2^32, and leaves one NUL byte if and only if it also is not empty |
| ChunkFraming.Stream.StartChunk | src/http.cpp:357-362 | leaves ten placeholder bytes and returns where |
| ChunkFraming.Stream.FinishChunk | src/http.cpp:364-371 | patches only the eight length bytes and appends the terminator with its NUL |
| ChunkFraming.Stream.Reply | src/http.cpp:2054-2067 | header then one framed body, which a reader recovers for every length from 1 to 2^32 - 1 |
| Routing.Connection.OnParse | src/http.cpp:206-290 | each component moves the path and body on, or answers; the callback cancels exactly when it answers not-found |
| Routing.Connection.OnRequest | src/http.cpp:206-290 | all that is sent for a request is a function of its method, path and whole body |
| FunctionTable.FunctionNamedFrom | src/http.cpp:219-220 | the table is searched by name: what is found is an entry of that name, and nothing is found only if there is none |
| FunctionTable.NamedIff | src/http.cpp:11-54 | a name stands for a method and a function if and only if the method is POST and it is what clients call that function |
| FunctionTable.NamedFunctionIsHandled | src/http.cpp:11-54 | every function the table names has a case in the dispatcher's switch |
| Routing.HandlerRunsIff | src/http.cpp:214-286 | at most one reply; a handler runs exactly for a complete POST request whose path is "api" and the name clients use for that handler's function, and whose whole body is a JSON object |
| Routing.NotFoundIff | src/http.cpp:214-286 | "not found" exactly for a path that leads nowhere, and for an object sent to no function |
| Routing.InvalidJsonIff | src/http.cpp:241-246 | "invalid JSON" exactly for a complete request with a fitting path whose body is no JSON object |
| Routing.NothingSentIff | src/http.cpp:214-239 | nothing exactly while a request with a fitting path is incomplete |
| Routing.WhatIsParsed | src/http.cpp:242 | "{}" is parsed for an empty body, otherwise what stands before the first NUL |
| Routing.PostByName | src/http.cpp:206-290 | POST to "api" and a function's name with a body in any fragments: that function handles the whole body, or it is invalid JSON |
| Routing.FragmentationIrrelevant | src/http.cpp:232-238 | cutting any body fragment in two, the last included, changes no reply |
| FeePlan.WriteConfig | src/http.cpp:169-178 | the loop writes one object per pair, in order |
| FeePlan.WritePlan | src/http.cpp:180-199 | the loops write the plan's tree, one object per coin, in order |
| FeePlan.ParseString | src/http.cpp:61-66 | accepts exactly a string member and yields it as a C string |
| FeePlan.ParseConfig | src/http.cpp:829-846 | accepts exactly an array of pair objects and yields the pairs in order |
| FeePlan.ParsePlan | src/http.cpp:823-868 | accepts exactly the documents of the schema, in which a non-array `coinSpecificFee` is ignored, and so all that are documented; returns what they say |
| FeePlan.SpelledRequest | src/http.cpp:823-868 | in a request written out, every member goes where it belongs |
| FeePlan.FirstMemberCounts | src/http.cpp:61-66 | of several members of a name the first one counts |
| FeePlan.CutAtNul | src/http.cpp:61-66 | a string ends at its first NUL |
| FeePlan.AgreesIffNotMistyped | doc/httpApi.md:537-544 | every documented request is accepted; acceptance and documentation agree except exactly when all else is in order and there is a `coinSpecificFee` that is not an array |
| FeePlan.MistypedIsIgnored | src/http.cpp:851 | to every accepted request without a `coinSpecificFee` one of any wrong type can be added: it is still accepted and means the same, but is not documented |
| FeePlan.AcceptedButUndocumented | doc/httpApi.md:43 | an input at which the promised error is not given: a `coinSpecificFee` that is null |
| FeePlan.ConfigRoundTrip | src/http.cpp:169-178 | written pairs are accepted, and equal if and only if no user id contains a NUL |
| FeePlan.CoinRoundTrip | src/http.cpp:189-197 | a written per-coin config is accepted, and equal under the same condition |
| FeePlan.PlanRoundTrip | src/http.cpp:180-199 | a written plan with a session id put in anywhere is accepted, and equal if and only if no string in it contains a NUL |
| FeePlan.AcceptedIsNulFree | src/http.cpp:61-66 | no string of a plan that was accepted contains a NUL |
| FeePlan.AcceptedComesBack | src/http.cpp:180-199 | every accepted plan, written back with any session id put in anywhere, is accepted again and comes back equal |
| NameIndex.SortByName | src/http.cpp:1990-1991 | sorting gives a sorted rearrangement |
| NameIndex.LessIff | src/http.cpp:1990-1991 | one name sorts before another exactly if it ends where they first differ or has the smaller character there |
| NameIndex.LowerBound | src/http.h:164 | bisection finds the first position whose name is not below the key |
| NameIndex.Find | src/http.h:163-177 | the lookup fails exactly when no entry has the name, and otherwise yields the first of that name |
| NameIndex.FindInSorted | src/http.cpp:1982-1991 | a lookup in the sorted index succeeds exactly when the unsorted list has the name, duplicates included |
| NameIndex.Server.constructor | src/http.cpp:1981-1992 | the two indexes are sorted and hold exactly the backends, and their databases plus the algorithm databases |
| NameIndex.Server.Backend | src/http.h:163-169 | the lookup answers as a linear search of the backends handed in: one of that name, or none if there is none |
| NameIndex.Server.StatisticDb | src/http.h:171-177 | likewise over the backends' databases and the algorithm databases |
| Registry.CheckConfig | src/main.cpp:237-306 | a configuration passes exactly if its amounts, confirmations, every mining address and every node type are in order; otherwise the first thing wrong is reported |
| Registry.AcceptsIff | src/main.cpp:209-325 | a configuration is accepted if and only if the coin and its algorithm are known, both amounts parse, confirmations suffice, every mining address fits, and every node type is "bitcoinrpc" or "ethereumrpc" |
| Registry.RefusedFor | src/main.cpp:209-325 | the reason reported is that of the first check that fails, in the order of the source |
| Registry.OneReason | src/main.cpp:237-306 | the first thing wrong is determined by the configuration, and none of an accepted one is |
| Registry.LookUpCoins | src/main.cpp:209-218 | the look-up goes up to the first coin the library does not know |
| Registry.MakeBackends | src/main.cpp:225-335 | fails at the first configuration not in order or with an unknown algorithm, and says why; otherwise each backend points to its own algorithm's server, servers are for distinct algorithms, and each server's algorithm is in use |
| Registry.SetUp | src/main.cpp:208-335 | fails at the first unknown coin, else at the first configuration with something wrong; it completes if and only if every coin and algorithm is known, amounts, confirmations and addresses fit and every node type is "bitcoinrpc" or "ethereumrpc", and is then wired as MakeBackends says |
| Registry.OneServerPerAlgorithm | src/main.cpp:318-334 | corollary of SetUp's contract: exactly one server per algorithm in use |
| Registry.ServersFit | src/main.cpp:152-158 | there are no more servers than coins |
| Registry.ThreadsSuffice | src/main.cpp:152-158 | backends and servers never exceed the two threads reserved per coin |
| Registry.AllThreadsUsedIff | src/main.cpp:152-158 | all reserved threads are used if and only if no two coins share an algorithm |
| Registry.Lookup | src/main.cpp:353-359 | the search of the sorted backends finds one of that name, or none if there is none |
| Registry.LinkInstance | src/main.cpp:351-383 | an instance is refused for a coin that is not there or for mixed algorithms, and otherwise links the backend of each name in order and is given the last one's statistics server |
| Registry.CheckAlgorithms | src/main.cpp:371-383 | the loop accepts exactly the lists in which no two algorithms differ unless the earlier is empty, and leaves the last backend's statistics server set |
| Registry.AcceptedIffSame | src/main.cpp:371-383 | for every list: it has one algorithm if and only if the loop accepts it and it does not mix empty with non-empty ones |
| Registry.SameServerIffSameAlgorithm | src/main.cpp:318-334 | backends of a completed set-up share a statistics server if and only if they share an algorithm |
| Registry.LinkedShareOneServer | src/main.cpp:371-383 | after a completed set-up every accepted instance links only backends of one non-empty algorithm, and they and the instance have the same statistics server |
| Registry.Start | src/main.cpp:208-386 | from configurations and instance lists: set-up fails exactly if some configuration is not accepted; an instance is refused only for a name no coin has or for backends of its names with different algorithms; if start-up completes, it is wired, every instance has a backend of each name it lists, and all of them share one server of one non-empty algorithm with it |

## Left out

- The `-W foo` spelling of long options (src/msvc/getopt.c:878-1097): excluded by a precondition of the scanner's constructor; no caller here uses it.
- `long_only` scanning, the libc-only blocks and the test mains of getopt.c.
- Getopt.Scanner.Next: does not model option names or keys of 2^32 characters or more, whose lengths the source truncates, nor integer overflow of `int` indices; results are datatype values, so an option character whose `char` value is -1 cannot be mistaken for the end as it could in C.
- Getopt.Scanner.Initialize: the environment variable and the `posixly_correct` argument are one input.
- Messages on standard error; the copying between the global variables and the internal state (`_getopt_internal`), after which the globals equal the modelled fields. Before the first call they do not all: the global `optopt` is '?' while the field is 0.
- Changes to `optind`, the arguments or the tables by the caller in the middle of a scan, except setting `optind` to 0 to start again.
- Argument strings contain no NUL in C; the model does not need to exclude it.
- NodeRpc.ParseCommandLine: whatever `loguru::init` may do to the arguments first is not modelled, nor the coin lookup and the client construction after the checks.
- ChunkFraming.Stream: xmstream is not part of this model beyond a buffer written at its end; the reader accepts no chunk extensions or trailer fields.
- Routing.Connection.OnParse: the HTTP tokenizer and the JSON parser are inputs; what a handler does with its document is not modelled; reuse of a connection for several requests is not modelled.
- Sockets, reference counts, and the bodies of the individual API handlers.
- FeePlan.PlanRoundTrip: the writer appends to a text stream, the model builds a JSON tree; number formatting, and percentages that are not finite, are not modelled; the check that each coin exists and the update itself are left out.
- NameIndex.SortByName: stands in for `std::sort`; only that the result is a sorted rearrangement is used, since the order of equal names is unspecified.
- Registry.SetUp: backends are values rather than objects with a settable pointer; the coin library and the parsers of amounts and addresses are inputs, and creating the clients and databases themselves is not modelled.
- Registry.LinkInstance: the creation of the instance itself, which can fail, is not modelled.
- Registry.Start: the coin library is not part of this model; that it knows no algorithm with an empty name is the condition under which the algorithm of an accepted instance is shown to be one and non-empty.
- Configuration loading, start and stop of services, e-mail, logging, password hashing and the Python clients.
