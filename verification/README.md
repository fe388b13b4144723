# A verified model of hkp-python's runtime

hkp-python hosts *runtimes*: ordered lists of *services* through which a value
is passed, on behalf of a board somebody deployed. These Dafny files model the
parts of it where a mistake would be quiet: the expression language of its
templates, splitting and gathering of lists, reports on what passes through a
runtime, the asset cache, the binary wire format, passes that call back into
the runtime they are in, pipelines inside services and the addresses of what
they hold, the registries of mounts and of links to coordinators, and the Map
service's sensing of templates.

Each part has a specification (datatypes and functions), the source's own
in-place form as classes and loops proved against it where the source works in
place, and lemmas that state what the part is for over every input, every run
or every interleaving.

| part | files |
|---|---|
| expression language | `ExpressionTree`, `ExpressionGrammar`, `ExpressionParser`, `ExpressionForms`, `ExpressionRoundTrip`, `ExpressionSoundness`, `ExpressionPrinting`, `ExpressionEvaluation`, `ExpressionMachine`, `ExpressionPaths` |
| Spread and Gather | `Gather`, `GatherRuns`, `GatherTimeouts`, `SpreadGather` |
| call reports | `CallReport`, `CallReportText`, `Json` |
| assets | `Base64`, `Assets`, `AssetStore`, `AssetRuns` |
| wire format | `Yas`, `YasLayout` |
| runs and their contexts | `Runs`, `RunOrder`, `RunLineage`, `Runtimes` |
| scopes, addresses, reports | `Addresses`, `Reports`, `ReportRuns`, `SubServices` |
| mounts | `Mounts` |
| links to coordinators | `Links`, `LinkRuns`, `CoordinatorLinks` |
| Map and sensing | `MapTrees`, `MapRebuild`, `MapOrder`, `Mapping`, `MapModes`, `MapSensing`, `MapService` |
| shared | `Strings`, `OrderedDict`, `Values` |

`dafny verify dfyconfig.toml` checks the whole project.

## What the code does not keep

Some of what the source or its documentation suggests is not so. Each of these
is stated exactly, with an input that shows it:

- "A part sent twice counts once" (`src/hkp/services/gather.py:19-20`) holds of
  every part but the one that completes its group: sent again, that part starts
  the group anew (`GatherRuns.SentTwiceCountsOnce`, `GatherRuns.SentTwicePassedOnTwice`).
- A ring buffer survives the wire exactly when it holds whole samples
  (`Yas.RingBufferRoundTrip`).
- A reported read parses back to its links exactly when its string keys are
  printable ASCII, newlines, tabs and returns: other control characters, and everything beyond
  ASCII, are written as escapes the parser does not know
  (`ExpressionPaths.PathParsesBack`, `ExpressionPaths.ControlKeyIsMisread`).
- A service whose name has a dot in it, inside a scope, can be entered under
  the address its reports carry, and not found under it
  (`Addresses.DottedNameIsEnteredNotFound`, `Addresses.ADottedName`).
- Introductions that overlap leave a link connected that nobody registers: a
  run keeps every live link registered if and only if in none of its steps an
  introduction takes the place of a link that is not disposed of
  (`LinkRuns.LiveUnlessDisplaced`, `LinkRuns.LiveUnlessOverlapping`, and the
  input in `LinkRuns.OverlappingIntroductionsLeaveOne`).
- A removal takes the runtime of a link that is registered if and only if an
  introduction for its key registered one while it waited
  (`LinkRuns.TakesARegisteredRuntimeExactly`, `LinkRuns.RuntimesTakenInARun`, and
  the input in `LinkRuns.RemovalTakesTheSuccessorsRuntime`).
- The empty list is sensed like the empty object (`MapSensing.AllButTheEmptyList`).
- `parse_asset_ref` lets one newline after the id through, as `$` matches before
  it, and nothing else that is no reference (`Assets.ReferencesRead`,
  `Assets.ALineFeedIsLetThrough`).

## Model

| member | source | states |
|---|---|---|
| `ExpressionRoundTrip.ParseUndoesWriting` | src/hkp/services/expression.py:281-492 | every written form of a tree, with any redundant parentheses, any spelling its tokens have (either quote and any escapes in a string, any of the names of `true`, `false` and `null`, `not` or `!`, any numeral), any operands that bind tightly enough by the precedence table, and any white space before each token, none where two tokens do not run together, parses to that tree with nothing left over |
| `ExpressionSoundness.ParsesExactly` | src/hkp/services/expression.py:281-492 | parsing gives a tree if and only if the text lays out a written form that stands for that tree; layouts and forms are defined without the parser |
| `ExpressionSoundness.AcceptsExactly` | src/hkp/services/expression.py:301-307 | so a text is refused if and only if it lays out no form of the language: an unclosed parenthesis, a missing operand, a stray character |
| `ExpressionSoundness.TextsAreUnambiguous` | src/hkp/services/expression.py:281-492 | no text lays out forms of two different trees |
| `ExpressionPrinting.ParseUndoesPrinting` | src/hkp/services/expression.py:281-492 | every tree the language can express, printed with parentheses around all parts or only around those the precedence table requires, in either quotes and with either negation, parses back to that tree |
| `ExpressionPrinting.ParsedPrintsBack` | src/hkp/services/expression.py:301-307 | whatever text parses, its tree printed in any such way parses to the same tree, so printing loses nothing the parser can produce |
| `ExpressionPrinting.ExpressedExactly` | src/hkp/services/expression.py:281-492 | and the trees some text parses to are exactly the ones that can be printed |
| `ExpressionPrinting.TighterTakesTheMiddle` | src/hkp/services/expression.py:281-338 | for every two operators and plain operands `a`, `b`, `c`: the operator further down the table takes `b`, and of two of one level the first |
| `ExpressionPrinting.TableOfOperators` | src/hkp/services/expression.py:281-288 | the table itself, from loosest to tightest: the two spellings of or, those of and, equality, comparison, sums, products |
| `ExpressionPrinting.PrefixTakesItsOperand` | src/hkp/services/expression.py:353-361 | a prefix operator takes what it stands before, with its member reads, before any infix operator does |
| `ExpressionPrinting.ConditionalTakesTheRest` | src/hkp/services/expression.py:314-324 | a conditional takes any infix chain for its test and everything behind the colon, another conditional included |
| `ExpressionPrinting.CompactSum` | src/hkp/services/expression.py:365-381 | with no white space wanted, a sum with a member read is written `a.b+c` |
| `ExpressionPrinting.CompactWords` | src/hkp/services/expression.py:340-351 | and a conjunction by a word `a and b`, the two spaces being needed |
| `ExpressionRoundTrip.ReadsInfix` | src/hkp/services/expression.py:326-338 | an infix form of a level is read as its operator over its two operands, the left one binding at least as tightly and the right one more tightly, and the chain of that level goes on from there |
| `ExpressionRoundTrip.OperatorReads` | src/hkp/services/expression.py:340-351 | an operator of a level that the text behind it does not prolong, a word into an identifier or a symbol by `=`, is read as that very operator, never as a longer or shorter one of its level |
| `ExpressionRoundTrip.AfterEnds` | src/hkp/services/expression.py:448-483 | a token and the gap laid out behind it never run on into the text that follows, however small the gap, and skipping white space gets to that text |
| `ExpressionParser.Parser.Parse` | src/hkp/services/expression.py:301-307 | the parser, moving its position through the text, ends for every input and answers exactly as the grammar, whose accepted texts and trees `ExpressionSoundness.ParsesExactly` gives; it accepts only with the whole input consumed |
| `ExpressionParser.Parser.ParseExpression` | src/hkp/services/expression.py:311-324 | a conditional is read as the grammar reads it and leaves unread exactly what the grammar leaves |
| `ExpressionParser.Parser.ParseBinary` | src/hkp/services/expression.py:326-338 | one precedence level is read as the grammar reads it |
| `ExpressionParser.Parser.ParseChain` | src/hkp/services/expression.py:330-338 | the loop over operators of a level builds the tree from the left as the grammar does |
| `ExpressionParser.Parser.MatchOperator` | src/hkp/services/expression.py:340-351 | takes the first operator of the list that stands here, a word operator only when no identifier goes on, and nothing otherwise |
| `ExpressionParser.Parser.ParseUnary` | src/hkp/services/expression.py:353-361 | prefix operators are read as the grammar reads them, `!=` not being one |
| `ExpressionParser.Parser.ParsePostfix` | src/hkp/services/expression.py:363-381 | a primary and the chain of reads and calls after it are read as the grammar reads them |
| `ExpressionParser.Parser.ParseReads` | src/hkp/services/expression.py:365-381 | the loop of member reads, index reads and calls is that of the grammar, whatever was read before |
| `ExpressionParser.Parser.ParseOnePostfix` | src/hkp/services/expression.py:367-380 | one member read, index read or call is read, or refused with the grammar's error at its place |
| `ExpressionParser.Parser.ParseArguments` | src/hkp/services/expression.py:383-397 | a closed list of expressions, refused where neither a comma nor the closing character stands |
| `ExpressionParser.Parser.ParsePrimary` | src/hkp/services/expression.py:399-430 | parentheses, which have to be closed, arrays, strings, numbers and names, told apart by their first characters |
| `ExpressionParser.Parser.ParseString` | src/hkp/services/expression.py:432-446 | a string literal's text with its escapes undone, or unterminated |
| `ExpressionParser.Parser.ParseNumber` | src/hkp/services/expression.py:448-464 | the longest run of number characters, accepted when it is a float |
| `ExpressionParser.Parser.ParseIdentifier` | src/hkp/services/expression.py:466-478 | the longest identifier that stands here |
| `ExpressionParser.Parser.SkipBlank` | src/hkp/services/expression.py:481-483 | white space skipped, and nothing else |
| `ExpressionEvaluation.MissingReadsAreNamedOnce` | src/hkp/services/expression.py:514-574 | a chain of names and literal keys over any base evaluates to what following its links from the left gives; it reports nothing of its own when every link is there, else exactly one read, the chain up to the first link that is not, after what the base reported (what bases evaluate to is `ExpressionMachine.CompiledRunsAsEvaluated`) |
| `ExpressionEvaluation.WalkLast` | src/hkp/services/expression.py:555-574 | following links from the left ends where the recursion from the right ends: at the first link that is not there |
| `ExpressionMachine.CompiledRunsAsEvaluated` | src/hkp/services/expression.py:640-697 | evaluation agrees, for every tree, with code of its own: jumps for and, or and `?:`, and a stack for the rest; run, it halts with the same value, or crashes where evaluation fails, after the same reports in the same order |
| `ExpressionMachine.FalsyTakesTheAlternate` | src/hkp/services/expression.py:690-695 | `false`, null, 0 and the empty text take the alternate of a conditional and all else the consequent, the other branch not being evaluated |
| `ExpressionMachine.TrueTakesTheConsequent` | src/hkp/services/expression.py:690-695 | `true ? 1 : 2` is 1 |
| `ExpressionMachine.ConditionalIsLogical` | src/hkp/services/expression.py:57-66 | a conditional is what stands first in its test and a list of its consequent, or a list of its alternate, in value, reports and failure |
| `ExpressionMachine.NegatesConjunction` | src/hkp/services/expression.py:640-697 | negating a conjunction is the disjunction of the negations, the second operand evaluated for both or neither |
| `ExpressionMachine.WordsAreSymbols` | src/hkp/services/expression.py:592-640 | the word operators evaluate as the symbols do |
| `ExpressionMachine.MembersAreThere` | src/hkp/services/expression.py:535-552 | a member read gives the item at an index in range, the value under a key that is there, or a length, and nothing else is there |
| `ExpressionMachine.NumbersOfOthers` | src/hkp/services/expression.py:69-82 | where an index is meant, a truth value is 1 or 0 and null is 0 |
| `ExpressionMachine.CalleesAreChains` | src/hkp/services/expression.py:495-507 | what is called by name is exactly a chain of names, and the name their join with dots |
| `ExpressionMachine.CallsByName` | src/hkp/services/expression.py:660-667 | such a call evaluates its arguments in order and gives what that builtin makes of them, or fails with the first that fails |
| `ExpressionPaths.PathIsReadAs` | src/hkp/services/expression.py:514-527 | the text a read is reported under, its keys any literals the parser makes, parses to the same links with every string key as its escapes are read back and every number as it is dumped |
| `ExpressionPaths.PathParsesBack` | src/hkp/services/expression.py:514-527 | the reported text parses back to the very links, kind by kind and key by key, if and only if every string key is made of printable ASCII, newlines, tabs and returns; and to the same tree, spellings included, if and only if each number was spelled as it is dumped, besides |
| `ExpressionPaths.ReportsNameTheFirstMissing` | src/hkp/services/expression.py:555-574 | with such keys, evaluating a chain from a variable reports nothing if all of it is there, else one text that parses to the links of the chain up to its first missing one |
| `ExpressionPaths.ControlKeyIsMisread` | src/hkp/services/expression.py:524-525 | a backspace in a key is one the reported text does not give back |
| `Gather.ProcessKeepsBounds` | src/hkp/services/gather.py:163-227 | whatever arrives: at most `maxGroups` groups pend, each holding and lacking at least one part and weighing what its parts weigh, at most `maxBytes`; none is refused; at most 1024 refusals in order of time; after a part nothing held or refused is older than `timeoutMs` milliseconds |
| `Gather.LetGoBounded` | src/hkp/services/gather.py:247-266 | letting go of what is stale keeps those bounds |
| `Gather.TakeBounded` | src/hkp/services/gather.py:177-227 | taking a part, or refusing its group, keeps those bounds |
| `Gather.PartsExactly` | src/hkp/services/gather.py:74-95 | a value is a part if and only if it is a dictionary with the four fields, a group name of 1 to 256 characters, and an index below a total that are whole numbers, stored as either kind |
| `Gather.SizesWeigh` | src/hkp/services/gather.py:98-109 | an item weighs the bytes of its text in UTF-8 or of its binary, nothing if it is None, else the length of its JSON |
| `GatherRuns.GatherRebuilds` | src/hkp/services/gather.py:163-227 | among any other traffic, in any order and with any repeats, with the group neither refused nor timed out, the call that brings the last missing part returns exactly the original list (or what the pipeline makes of it), every earlier call for the group returned None, and the group is no longer held |
| `GatherRuns.RunHolds` | src/hkp/services/gather.py:177-216 | until then, what is held of the group is the list at exactly the places seen |
| `GatherRuns.RunIsQuiet` | src/hkp/services/gather.py:193-215 | and every call for it answers None |
| `GatherRuns.RunKeepsBounds` | src/hkp/services/gather.py:163-266 | over any run, whatever arrives and however it interleaves, with a clock that never goes back, those bounds, the order of time and the timeouts in milliseconds hold after every call |
| `GatherRuns.SentTwiceCountsOnce` | src/hkp/services/gather.py:193-195 | the same part sent again at once changes nothing and returns None if and only if the first did not complete its group |
| `GatherRuns.SentTwicePassedOnTwice` | src/hkp/services/gather.py:177-216 | a group of one part, sent twice, is passed on twice |
| `GatherTimeouts.OtherGroupsTimeOut` | src/hkp/services/gather.py:247-266 | across the call of a part every other group is held as it was if and only if it began at most `timeoutMs` milliseconds before, and not at all otherwise |
| `GatherTimeouts.LateGroupBeginsAnew` | src/hkp/services/gather.py:163-186 | a part of a group older than that begins the group anew, with that part alone |
| `GatherTimeouts.OtherRefusalsTimeOut` | src/hkp/services/gather.py:236-266 | every other refusal stays if and only if it is at most `timeoutMs` milliseconds old and is not the oldest of 1024 that a new one pushes out |
| `GatherTimeouts.RefusalsTimeOut` | src/hkp/services/gather.py:236-266 | the refusals after the call are those that lasted, in order, and the one made now, the first of 1025 forgotten |
| `GatherTimeouts.ToldOnce` | src/hkp/services/gather.py:247-266 | of any group, the part's own included, exactly one timeout is told if it was held and older than `timeoutMs` milliseconds, none otherwise |
| `GatherTimeouts.TimeoutsAreTold` | src/hkp/services/gather.py:247-266 | those notices come first, in the order of the groups, each with what the group had and how many are then left; at most one notice of another kind follows |
| `SpreadGather.SendStep` | src/hkp/services/gather.py:163-227 | the next part Spread sends, in order and in time, is gathered, completes the list, or is turned away with its group, as room and weight decide |
| `SpreadGather.ItemsSent` | src/hkp/services/spread.py:110-114 | what the path leads to is sent: a list item by item, nothing of None or where it leads nowhere, anything else as one item |
| `Values.ValueAtReaches` | src/hkp/services/iterator.py:58-65 | a dotted path comes to a value if and only if its names lead to it one within another, or, for None, nowhere |
| `SpreadGather.GatherService.Process` | src/hkp/services/gather.py:163-227 | one call changes the service's dictionaries and answers exactly as specified, and keeps the bounds; what it does to other groups, refusals and notices is `GatherTimeouts` |
| `SpreadGather.GatherService.RefuseGroup` | src/hkp/services/gather.py:236-245 | the group is dropped, remembered as refused, and the oldest refusals forgotten beyond the limit |
| `SpreadGather.GatherService.LetGoOfStale` | src/hkp/services/gather.py:247-266 | the loop over the groups there were lets go of exactly those older than the timeout, telling each with how many are left |
| `SpreadGather.Runtime.Process` | src/hkp/services/spread.py:84-108 | a list put into Spread comes out of Gather exactly once, through the calls Spread makes back into the runtime, if there is room and it weighs little enough, and not at all otherwise; the pass itself returns None and leaves nothing held |
| `SpreadGather.Runtime.SpreadItems` | src/hkp/services/spread.py:84-108 | Spread's own loop emits what the services after it make of each item, in order, and records how many it sent |
| `SpreadGather.Runtime.ProcessFromIndex` | src/hkp/runtime.py:873-954 | in a runtime of Spread then Gather, the pass runs the services from an index on and stops at None, re-entered at 1 by Spread |
| `CallReport.SizeUpTo` | src/hkp/call_report.py:113-148 | the measured size exceeds the budget exactly when the full recursive size does, equals it otherwise, and at most budget + 1 values are visited |
| `CallReport.SizeOfDict` | src/hkp/call_report.py:139-145 | a dictionary's keys are counted and its entries put aside until the budget is passed, losing none before it |
| `CallReport.Utf8LengthUpTo` | src/hkp/call_report.py:104-110 | the UTF-8 length where it fits the budget, and past the budget exactly when it is |
| `CallReport.Preview` | src/hkp/call_report.py:156-201 | the whole compact JSON of a value while shorter than 1024 characters, otherwise exactly its first 1024 characters and an ellipsis |
| `CallReport.Writer.Write` | src/hkp/call_report.py:169-197 | goes on exactly while the preview is not full; what is written then is the whole item, and otherwise begins as it would |
| `CallReport.Writer.WriteText` | src/hkp/call_report.py:174-175 | a string cut before it is escaped still begins as the whole escaped string does |
| `CallReport.CutQuoted` | src/hkp/call_report.py:174-175 | cutting a string to the characters left, then escaping it, fills the preview with the beginning of the whole |
| `CallReport.ReportedValue` | src/hkp/call_report.py:77-101 | a value within the limit is reported as itself, a larger one by its size, exact for text and bytes, and how it begins |
| `CallReportText.TextReadsBack` | src/hkp/call_report.py:156-197 | the whole text of a value, read by the grammar of RFC 8259, is that value, entry by entry and in order, anything that is no data as its description |
| `CallReportText.SizeIsTextLength` | src/hkp/call_report.py:113-148 | the full size of data is the length of its JSON in UTF-8, less what escaping adds, plus one for each dictionary that holds anything |
| `Json.UnquoteUndoesQuoted` | src/hkp/call_report.py:174-175 | a string literal as `json.dumps` writes it, ASCII only or not, is read back as that string (section 7 of RFC 8259), so no two strings are written alike |
| `Base64.DecodeUndoesEncode` | src/hkp/assets.py:221-239 | the section 4 of RFC 4648 encoding of any bytes decodes to them, padding kept or dropped, ASCII white space anywhere |
| `Base64.AcceptedExactly` | src/hkp/assets.py:221-239 | text is taken if and only if, without white space, it is letters of the alphabet of a length other than one modulo four, then nothing or exactly the padding that length calls for |
| `Base64.DecodesExactly` | src/hkp/assets.py:221-239 | a text decodes to exactly the bytes it spells: its letters are those of the encoding, the unused bits of the last one aside, with all of the padding or none |
| `Base64.EncodesByTable` | src/hkp/assets.py:221-239 | the encoding it is compared with is that of section 4 of RFC 4648: each letter is the one the alphabet of its table 1 has for six bits of a group of 24 |
| `Assets.ReferencesRead` | src/hkp/assets.py:88-97 | an id is read off a text if and only if the text is the scheme and that id, with at most one line feed behind it |
| `Assets.ALineFeedIsLetThrough` | src/hkp/assets.py:88-97 | `hkp-asset://logo` followed by a line feed is such a text |
| `Assets.AnswerIsOwed` | src/hkp/assets.py:361-411 | loading answers as the descriptor promises: a text with the bytes that decode to it in UTF-8, base64 with the bytes it spells, each if they are within the limit and of the pinned digest in either case, else with which of the two is wrong, or that it is no base64; a URL with what was fetched, so judged, with the content of before where that was not modified, or with why there is none |
| `Assets.CarriedIsOne` | src/hkp/assets.py:361-369 | what a descriptor that carries its content owes is one answer |
| `Strings.OnlyUtf8` | src/hkp/assets.py:362-364 | the only bytes that decode to a text are its UTF-8 |
| `Assets.MakesRoom` | src/hkp/assets.py:416-418 | the eviction loop ends; what it removed is an oldest part of the cache, and one entry fewer would not have made room |
| `Assets.RememberEvictsShortest` | src/hkp/assets.py:411-420 | an insertion puts the entry last, behind the others in their order, less the shortest least recently used part that makes room; counter and limit hold |
| `Assets.RememberAccounted` | src/hkp/assets.py:411-420 | after it the counter is the sum of what is cached, within the limit |
| `Assets.ForgetAccounted` | src/hkp/assets.py:422-425 | forgetting takes an entry's bytes off the counter and touches no other entry |
| `AssetStore.AssetStore.ResolveReference` | src/hkp/assets.py:318-357 | a resolve changes the store and answers exactly as specified, and the answer is the one owed: refused where the text is no reference or the id unknown; content a descriptor carries judged by limit and digest; content fetched before for this version of a pinned URL; else what is fetched now, so judged |
| `AssetStore.AssetStore.ReplaceAll` | src/hkp/assets.py:264-272 | the descriptors are the given ones, and exactly the ids whose version changed lose their cached content |
| `AssetStore.AssetStore.MergeAll` | src/hkp/assets.py:274-288 | entries are set or removed one by one, each changed one losing its cached content |
| `AssetStore.AssetStore.RememberEntry` | src/hkp/assets.py:411-420 | the insertion in place, with its eviction loop |
| `AssetStore.AssetStore.EvictFor` | src/hkp/assets.py:416-418 | the eviction loop in place |
| `AssetRuns.CacheIsTransparent` | src/hkp/assets.py:318-368 | after any run of replace, merge and resolve, whatever was evicted, the next call answers, content and refusal alike, as a store with no cache would; only an asset with a URL may be answered with content fetched before, which is within the limit, of the digest the descriptor is pinned to and of its media type; and every resolve answers what `AssetRuns.ResolveAnswers` says is owed |
| `AssetRuns.DoesAsUncached` | src/hkp/assets.py:318-368 | one call on a sound store answers as uncached, or with content that honours a URL descriptor, answers a resolve what is owed, and leaves the store sound |
| `AssetRuns.ResolveAnswers` | src/hkp/assets.py:318-357 | a resolve refuses what is no reference and an unknown id; content a descriptor carries is judged by limit and digest, a pinned URL answered with what was fetched for this version of it, any other URL with what is fetched now |
| `AssetRuns.LoadedIsCached` | src/hkp/assets.py:353-357 | what was loaded and fits the cache is cached for this version of the descriptor, with the entity tag that came with it, or the one before where it was not modified |
| `AssetRuns.CacheIsInUseOrder` | src/hkp/assets.py:335-338 | after any run the cache is in order of last use and the counter is its total, within the limit |
| `AssetRuns.StepInv` | src/hkp/assets.py:264-288 | every locked section of every thread keeps: a stale entry has a pending edit that will forget it, and loads in flight are of the descriptor they read |
| `AssetRuns.StaleOnlyWhileForgetting` | src/hkp/assets.py:427-435 | over any interleaving with loads in flight, content of an older version is cached only while an edit to that id has its forget pending, and not at all once all edits are done |
| `AssetRuns.AnswersAreRight` | src/hkp/assets.py:318-357 | over any interleaving a hit answers content within the limit, with the pinned digest and the media type of the descriptor read in the same step, and what was loaded in flight the same of the descriptor its first section read; where the descriptor carries its content, that is the very content; and a refusal is the one that descriptor owes |
| `Yas.DeserializeUndoesSerialize` | src/hkp/yas.py:77-128 | a message decodes to its purpose, sender and value (str as text data, None as null) if and only if it is no ring buffer with part of a sample |
| `Yas.RingBufferRoundTrip` | src/hkp/yas.py:158-181 | a ring buffer written with either width of type id decodes to itself exactly when its samples are whole |
| `Yas.NeverTheOtherDialect` | src/hkp/yas.py:161-179 | what one dialect wrote never fits the other: the lengths they ask for differ by two, samples by four |
| `Yas.ReadsOwnDialect` | src/hkp/yas.py:161-179 | what a dialect wrote fits it and gives the buffer back |
| `Yas.UnpackUndoesPack` | src/hkp/yas.py:81-85 | fields of any width read back as written |
| `Yas.DeserializeMessage` | src/hkp/yas.py:114-128 | the reader with its moving offset answers as specified, errors included |
| `Yas.DeserializePayload` | src/hkp/yas.py:131-144 | each type id is read by its own reader, any other refused |
| `Yas.DeserializeRingBuffer` | src/hkp/yas.py:158-181 | the loop over the two dialects takes the first that fits, exactly |
| `Yas.DeserializeSizedText` | src/hkp/yas.py:147-155 | a header, a length and that much UTF-8, or the error for what is missing |
| `YasLayout.MessageLayout` | src/hkp/yas.py:77-86 | where everything stands in a written message: `yas0017`, purpose and type number in two bytes, the length of the sender in eight, least significant byte first, the sender, the payload |
| `YasLayout.PayloadLayout` | src/hkp/yas.py:89-111 | and in a payload: text and JSON as header, length in eight bytes and UTF-8; a ring buffer with its number of samples, samples, id in four bytes and time in eight; binary as it is; nothing as one zero |
| `YasLayout.LittleEndian` | src/hkp/yas.py:81-85 | byte k of a field is the number divided by 256 to the k, modulo 256 |
| `YasLayout.OnlyTheLettersCount` | src/hkp/yas.py:184-187 | bytes without `yas` in front are refused, and whatever version stands behind it changes nothing |
| `YasLayout.SenderIsRead` | src/hkp/yas.py:114-128 | the sender is as long as its field says, byte by byte, a byte beyond ASCII as the replacement character |
| `Runtimes.Runtimes.Make` | src/hkp/runtime.py:451-568 | a call into a runtime, by any of its entries, leaves every runtime's current run as it was, returning or raising, and starts and reports exactly what passing the run down would |
| `Runtimes.Runtimes.WithContext` | src/hkp/runtime.py:850-871 | the run is current for the block, and the one before is back after it |
| `Runtimes.Runtimes.ProcessFromIndex` | src/hkp/runtime.py:873-954 | each service of the pass starts, and is reported, in the pass's run, though services call back into the runtime meanwhile |
| `Runtimes.Runtimes.VisitService` | src/hkp/runtime.py:881-952 | one service: not started past the deadline, skipped when gone, its calls made and its outcome heeded |
| `Runtimes.Runtimes.ChildRun` | src/hkp/runtime.py:208-223 | a run inside another has a number of its own, its parent's actor, and names its parent |
| `RunLineage.RunsInheritTheirActor` | src/hkp/runtime.py:208-231 | for a call on an idle thread, its run given or begun by it, and whatever is executed under it, calls into nested pipelines, onward in a runtime in a pass, or under any run it has led to, such as one a service hands back: everything happens in the root's run or in a child with a number of its own of a run seen before, with the root's actor, and no service starts at any depth once that actor's deadline has passed |
| `RunLineage.MakeInherits` | src/hkp/runtime.py:208-223 | the same, lineage included, for a call made inside any pass of the tree |
| `RunLineage.OwnRunIsHeld` | src/hkp/services/spread.py:84-108 | the run a service is in is one it may hand back at any later time, at any depth, as Spread does |
| `Runs.MakeFollows` | src/hkp/runtime.py:226-231 | whatever services call, time and run numbers only grow and no service starts in a run past its deadline |
| `RunOrder.QuietCall` | src/hkp/runtime.py:451-568 | a call starts and reports exactly the services it is for, in order, until the deadline of its run: all of them, those from the service it is at on, or those after the service it is from, none where that is gone |
| `RunOrder.NotThereRaises` | src/hkp/runtime.py:479-495 | entering at a service that is not there raises and does nothing |
| `RunOrder.ServeRaises` | src/hkp/runtime.py:873-954 | a service ends by raising if and only if one of the calls it makes raises and it does not catch it; otherwise it makes all of them |
| `RunOrder.VisitRaises` | src/hkp/runtime.py:873-954 | a pass ends by raising at a service if and only if that raises or a call of its does, and such a service is not reported; any other is reported, and ends the pass only if it stops it |
| `Addresses.GetServiceFindsExactly` | src/hkp/runtime.py:363-378 | the address of a nested service finds that very service if and only if every name on the way is non-empty and dot-free and no service of the outer runtime is named by the whole address |
| `Addresses.GetServiceFindsFlat` | src/hkp/runtime.py:371-373 | a runtime's own service is found by its name, dots or not |
| `Addresses.EnterAtFindsExactly` | src/hkp/runtime.py:479-495 | `process_at` enters at the service an address is of if and only if the address is read as its path: segments for owners, no empty part in what remains, no service on the way named by it |
| `Addresses.AddressesAreDialable` | src/hkp/address.py:29-56 | where names are non-empty and dot-free, every address finds its service and enters at it, at any depth |
| `Addresses.DescendIsLocate` | src/hkp/address.py:44-56 | walking the segments down is following the path through the pipelines |
| `Addresses.SplitUndoesAddress` | src/hkp/address.py:29-36 | an address of segments splits into those segments |
| `Addresses.DottedNameIsEnteredNotFound` | src/hkp/services/sub_service.py:160-180 | a dotted name inside scopes is never found by its address though it can be entered by it |
| `Addresses.ADottedName` | src/hkp/services/sub_service.py:160-180 | `a.b` inside `read` is such a name |
| `Reports.StepInv` | src/hkp/services/sub_service.py:272-327 | creating, attaching, rebuilding and destroying scopes, in any order, keeps each live pipeline registered with once, by its own scope, and every replaced one with no one |
| `ReportRuns.ReportsArriveOnce` | src/hkp/runtime.py:956-965 | after any such run, what a service at any depth reports reaches each listener of its board exactly once, and nobody else, under the address of its path |
| `ReportRuns.ReportsDialBack` | src/hkp/services/sub_service.py:160-180 | the address a report arrives under is one from which the service is found and entered at, with both exact conditions |
| `ReportRuns.ReplacedPipelineIsSilent` | src/hkp/services/sub_service.py:321-327 | what a replaced or destroyed pipeline still reports reaches nobody |
| `ReportRuns.CarriedOn` | src/hkp/services/nested_pipeline.py:164-201 | a pipeline with something in it carries each report, by its one registration, to the runtime its owner is in, once, under the owner's name and the service's |
| `ReportRuns.CarriedOut` | src/hkp/services/sub_service.py:297-306 | a report passes each boundary once, taking the owner's name in front |
| `SubServices.Host.BeginRebuild` | src/hkp/services/sub_service.py:272-285 | a rebuild first gives up its registration and destroys the pipeline there was; registrations stay valid |
| `SubServices.Host.FinishRebuild` | src/hkp/services/sub_service.py:297-306 | and then registers with the new one, once; registrations stay valid |
| `SubServices.Host.ReleaseNotifications` | src/hkp/services/sub_service.py:321-327 | a release takes away exactly the scope's own target |
| `SubServices.Host.Lookup` | src/hkp/runtime.py:363-378 | the lookup as the runtime does it is the one specified |
| `SubServices.Host.Descend` | src/hkp/address.py:44-56 | the loop over segments is the walk specified |
| `SubServices.Host.ProcessAt` | src/hkp/runtime.py:479-495 | entering as the runtime does it is as specified, raising where no service is meant |
| `SubServices.Host.Emit` | src/hkp/runtime.py:956-965 | the loop over targets delivers what is specified, outward through every scope |
| `SubServices.Host.AddService` | src/hkp/runtime.py:380-388 | a name already there is refused and nothing changes; registrations stay valid |
| `Mounts.AnsweringIs` | src/hkp/mounts.py:164-176 | someone answers wherever anyone claims: the newest claim made in a space that is not its owner's if there is one, else the newest |
| `Mounts.LiveExactly` | src/hkp/mounts.py:127-204 | a claim is live at an address if and only if it was registered there and nothing since released it, its runtime in its space, or its space |
| `Mounts.ReleaseChangesAnswerExactly` | src/hkp/mounts.py:178-204 | a release changes who answers at an address if and only if it is about the claim that answers there |
| `Mounts.ReleasingTwiceIsOnce` | src/hkp/mounts.py:158-160 | releasing again changes nothing at any address |
| `Mounts.AtKept` | src/hkp/mounts.py:178-204 | dropping claims address by address is dropping them from the one log |
| `Mounts.MountRegistry.Register` | src/hkp/mounts.py:127-162 | a claim is made last in the log and at its address, or nothing is when the server has no URL |
| `Mounts.MountRegistry.Release` | src/hkp/mounts.py:158-160 | releases exactly the claim handed out |
| `Mounts.MountRegistry.ReleaseRuntime` | src/hkp/mounts.py:188-198 | releases exactly the runtime's claims, everywhere |
| `Mounts.MountRegistry.ReleaseOwner` | src/hkp/mounts.py:200-204 | releases exactly the owner's claims, everywhere |
| `Mounts.MountRegistry.AnsweringAt` | src/hkp/mounts.py:164-176 | the claim that answers, read from the address's own list |
| `Links.StepInv` | src/hkp/coordinator_links.py:532-594 | every stretch between awaits keeps one link per runtime, registered under its own record, no saved record twice, and the saved records those of the registered links once nothing is in flight |
| `Links.StepWired` | src/hkp/coordinator_links.py:532-594 | all of that but what concerns the saved records is kept whatever was saved before |
| `LinkRuns.SavedLinksAgreeAtRest` | src/hkp/coordinator_links.py:532-594 | over any interleaving of introductions, rejections, removals and an initial restore, at rest the saved records are exactly those of the registered links, one per key, and a restart registers them again |
| `LinkRuns.StartAgrees` | src/hkp/coordinator_links.py:586-594 | a restore registers exactly the saved records, in order, if and only if no two are for one runtime |
| `LinkRuns.ReplacedLinkIsHarmless` | src/hkp/coordinator_links.py:646-658 | a link that lost its place never has one again, and nothing that happens to it after any later run unregisters a link or removes a runtime |
| `LinkRuns.UnregisteredOnlySo` | src/hkp/coordinator_links.py:532-594 | a link loses its registration if and only if it was rejected, its introduction failed, its runtime was removed, or an introduction for its runtime took its place |
| `LinkRuns.StraysExactly` | src/hkp/coordinator_links.py:532-594 | a link that is not disposed of is unregistered after a step if and only if it was before, or that step registered another link at its key |
| `LinkRuns.LiveUnlessDisplaced` | src/hkp/coordinator_links.py:563-569 | where every live link is registered a step leaves it so if and only if it does not end the wait of an introduction while a live link has its key |
| `LinkRuns.LiveUnlessOverlapping` | src/hkp/coordinator_links.py:563-569 | all through a run every live link is registered if and only if no step of it does that |
| `LinkRuns.OverlappingIntroductionsLeaveOne` | src/hkp/coordinator_links.py:563-569 | two overlapping introductions leave a link connected that is not registered |
| `LinkRuns.TakesARegisteredRuntimeExactly` | src/hkp/coordinator_links.py:617-625 | a step removes at most one runtime, and it is that of a link still registered if and only if the step ends a removal whose key has a link |
| `LinkRuns.RuntimesTakenInARun` | src/hkp/coordinator_links.py:617-625 | at any point of any run, the same |
| `LinkRuns.RemovalTakesTheSuccessorsRuntime` | src/hkp/coordinator_links.py:619-625 | a removal overtaken by an introduction removes the runtime of the link now registered and connected |
| `LinkRuns.LinksWaitRight` | src/hkp/coordinator_links.py:266-284 | in every run a waiting link waits the first delay, or twice the wait before for each further attempt it counts, never more than the longest |
| `LinkRuns.DelaysDouble` | src/hkp/coordinator_links.py:266-284 | after a welcome the n-th connection in a row that ends unwelcomed is followed by the first delay doubled n times, capped |
| `CoordinatorLinks.CoordinatorLinks.Introduce` | src/hkp/coordinator_links.py:532-569 | an introduction up to its await, and whether it was refused, unneeded or begun; the links stay valid |
| `CoordinatorLinks.CoordinatorLinks.FinishReplacing` | src/hkp/coordinator_links.py:564-569 | the link disposed of, a new one takes the place, whoever has it by then; the links stay valid |
| `CoordinatorLinks.CoordinatorLinks.Settle` | src/hkp/coordinator_links.py:571-584 | a welcomed introduction is saved, any other disposes of its link; the links stay valid |
| `CoordinatorLinks.CoordinatorLinks.FinishFailing` | src/hkp/coordinator_links.py:578-583 | a failed introduction unregisters its own link only, and what is left is saved; the links stay valid |
| `CoordinatorLinks.CoordinatorLinks.Remove` | src/hkp/coordinator_links.py:617-621 | a removal up to its await; the links stay valid |
| `CoordinatorLinks.CoordinatorLinks.FinishRemoving` | src/hkp/coordinator_links.py:622-625 | the runtime removed and what is left saved; the links stay valid |
| `CoordinatorLinks.CoordinatorLinks.ConnectionEnded` | src/hkp/coordinator_links.py:266-284 | the reconnect loop after a connection: ended when disposed or rejected, else a wait; the links stay valid |
| `CoordinatorLinks.CoordinatorLinks.Rejected` | src/hkp/coordinator_links.py:646-658 | a rejection counts only for the very link registered |
| `CoordinatorLinks.CoordinatorLinks.Restore` | src/hkp/coordinator_links.py:586-594 | the loop over saved records registers the first of each key; the links stay valid |
| `CoordinatorLinks.CoordinatorLinks.Persist` | src/hkp/coordinator_links.py:660-662 | what is saved are the records of the registered links, in order |
| `MapRebuild.FlattenIsLeaves` | src/hkp/services/map_service.py:426-439 | a plain tree flattens to its leaves under their dotted paths, no path twice |
| `MapRebuild.LeavesAreApart` | src/hkp/services/map_service.py:426-439 | no leaf's path leads through another's |
| `MapRebuild.AssigningRebuilds` | src/hkp/services/map_service.py:302-308 | assigning what a plain tree flattens to, key by key, rebuilds that tree with an object for each list that holds something, its keys in order |
| `MapRebuild.MergeUnder` | src/hkp/services/map_service.py:442-452 | merging paths under one key merges them in what that key holds |
| `MapOrder.AnyOrderGivesTheSame` | src/hkp/services/map_service.py:442-452 | merges at paths none of which leads through another give one tree in any order |
| `MapOrder.AnyOrderRebuilds` | src/hkp/services/map_service.py:442-452 | the leaves of a plain tree, merged in any order, rebuild it |
| `MapOrder.MergesCommute` | src/hkp/services/map_service.py:442-452 | two such merges commute on any tree |
| `MapModes.FlatTemplate` | src/hkp/services/map_service.py:190-223 | key by key, for a flat template and any input: under a key without dots that no dotted key leads through, overwrite mode gives what the template makes and else what the input has, add mode what the input has and else what the template makes, replace mode what the template makes; and the order of all keys |
| `MapModes.FlatPass` | src/hkp/services/map_service.py:136-161 | the same of a whole pass, an empty template included |
| `MapModes.StructuredTemplate` | src/hkp/services/map_service.py:248-285 | the same of a structured template, what it makes under a key being what the last of its entries for that key makes |
| `MapModes.OneKeyInTwoModes` | src/hkp/services/map_service.py:190-223 | `{"a": 1}` over `{"a": 2}` makes 1 in overwrite mode and 2 in add mode |
| `MapModes.FlatTemplateAnyKey` | src/hkp/services/map_service.py:190-223 | the same of any key without dots, also one that dotted keys lead through: first whose value it is by the mode, the template's as its own keys make it, then the terms for that first name in order, a dotted one merged into what is held |
| `MapModes.StructuredTemplateAnyKey` | src/hkp/services/map_service.py:248-285 | and of a structured template: whose value it is by the mode, the template's as its entries for that first name make it in order |
| `MapModes.KeptAsAuthored` | src/hkp/services/map_service.py:393-400 | a template is structured, and kept as authored, if and only if it is a list or has a list or an object directly in it |
| `MapModes.ListsMakeLists` | src/hkp/services/map_service.py:258-285 | a list makes the list of what its items make, and fails if and only if one of them does |
| `MapModes.LoneTermStandsForItsValue` | src/hkp/services/map_service.py:356-361 | an object of a lone `=` stands for the value of its term, anywhere in a template |
| `MapModes.LoneTermOfMany` | src/hkp/services/map_service.py:190-198 | and so does a flat template whose only term that is |
| `MapModes.OnlyReferencesChange` | src/hkp/services/map_service.py:168-188 | naming a mount changes the texts that begin with `hkp-mount://`, at any depth, to its address, and nothing else |
| `MapModes.PassNames` | src/hkp/services/map_service.py:168-188 | what a pass made is so changed if its mount has an address, and left as it is otherwise |
| `MapSensing.SensingRebuilds` | src/hkp/services/map_service.py:136-161 | after sensing a plain tree, every pass in replace mode without a mount makes that tree, its lists as objects, of whatever is no list, and as many of it as a list has items |
| `MapSensing.AllButTheEmptyList` | src/hkp/services/map_service.py:137-142 | that is the sensed tree, lists as objects, for every tree but the empty list |
| `MapSensing.ListFreeIsKept` | src/hkp/services/map_service.py:137-142 | a tree without lists is made as it was |
| `MapSensing.SensingAScalar` | src/hkp/services/map_service.py:137-142 | anything else is sensed as an object holding it |
| `MapSensing.SensedRunsNothing` | src/hkp/services/map_service.py:347-353 | whatever is sensed, whatever its keys, the template holds no term and no expression |
| `MapSensing.InertMapsTo` | src/hkp/services/map_service.py:190-223 | a template that runs nothing makes the same of every input, whether it is kept flat or structured |
| `MapService.MapService.Process` | src/hkp/services/map_service.py:136-161 | a pass senses or maps, per element or as a whole, exactly as specified, which `MapModes` says key by key |
| `MapService.MapService.UpdateTemplate` | src/hkp/services/map_service.py:287-308 | a template is kept as authored where it is structured, else flat, its terms and properties told apart by their keys |
| `MapService.MapService.Mapper` | src/hkp/services/map_service.py:190-223 | terms are evaluated and assigned in order over what the mode starts from, with the outcome of `MapModes.FlatTemplate` |
| `MapService.MapService.Flatten` | src/hkp/services/map_service.py:426-439 | the recursion over containers fills the target as specified |

## Left out

What the model leaves out of the code it covers:

- Expression language: builtins, dates, random values and arithmetic, which are parameters of `Evaluate`. A number that is no whole number below 2^53 is known by its spelling, so its rounding is not modelled; that it is dumped as a numeral of its value is `SpellsNumbers`, a law of the library; digits and spaces are those of ASCII and of the space characters listed. Python's recursion limit.
- `find` and `filter` parse predicates taken from data, so evaluating through them need not end.
- Gather: what a configuration may set (the limits are fixed within a run), the wording of `last_error`, the host's log. One notice stands for a notification and its log entry. A Gather's own pipeline is a function of group and list; its wait for real time is the clock passed in.
- SpreadGather.Runtime.ProcessFromIndex: the services are Spread and Gather and always there; deadlines, services that go missing and early returns of a pass are those of `Runs` and `Runtimes`.
- SpreadGather.Runtime.Process: a runtime of exactly Spread then Gather, as run contexts are modelled on their own in `Runs`, and clock readings and the group's name are drawn beforehand.
- Call reports: `outgoing_payload` and capture mode; values that hold themselves; a number is known by its spellings.
- Asset store: listeners, the reading of descriptors and payloads, and the network: what a URL answers is a parameter, and transparency is claimed only of assets that carry their content. The version of a descriptor is the descriptor, as its JSON tells any two apart. A hit is one step; in the code an entry forgotten between a hit's two locked sections raises (`src/hkp/assets.py:335-337`). SHA-256 is a parameter.
- Wire format: JSON itself is a codec with an inverse law on the value sent; floats are their four bytes.
- Run contexts: values that flow are left to the scripts of what services do; `_current_service`, which is cleared and not restored when a pass stops, log entries, and the bracket reports `process_from` makes before its context is set. Each thread has contexts of its own, and one thread is modelled. Run ids are numbers.
- Addresses: a service holds at most one pipeline; Tracks and endpoints, which hold several `NestedPipeline`s under one name and carry their reports outward by the same join, have lookups of their own, and `set_pipeline` is a rebuild or nothing. Lists with repeats from `rearrange_services`. A pipeline's construction and the destruction of what it held are steps of their own, in any order, rather than one recursion.
- Targets are told in the order they registered; Python's sets have none.
- Mounts: the server behind them. Deriving an address and its public URL are parameters.
- Links: the WebSocket and its messages, the requests a coordinator makes over it (its `remove` among them), secrets, `stop`, cancellation and saves that fail. What a link hears is a step.
- Map: expressions are a parameter; warnings and errors a pass reports about itself, and injected commands. Numbers are whole. Values are not shared, so `_merge_at_path` is a function of the dictionary it fills, and copies made to avoid sharing are not modelled.
- Mapping.Process: a pass that fails and one that makes None both pass Null.

What it does not cover at all: HTTP and WebSocket handling, authentication, the
command line, speech and text generation, audio encoding, timers, monitors,
stoppers, joins and holds, tickets, secrets and origins.
