# AgentGuard FastPath: a verified model of the analytical engine

`agfast` reads a stream of process events, keeps small probabilistic summaries of it, builds a graph of
processes, raises alerts under a policy and scores every process. This project models that engine in Dafny
and proves what its summaries, its incremental state and its ad-hoc text formats promise about the exact
stream behind them. `dafny verify dfyconfig.toml` checks everything.

| Module | What it models |
|---|---|
| `Base`, `Bits`, `Sorting`, `Text` | bounded C strings and string lists, bit arrays, `qsort` orders, `strtol`/`strstr`/printing of numbers |
| `BloomFilter`, `CuckooFilter`, `CountMin`, `SpaceSaving`, `HyperLogLog` | the sketches of `sketches.c`, as values and as classes over arrays |
| `OddSketch` | odd sketches, their distance and the exact overlap of two nodes |
| `Telemetry` | the sketches of every event field, fed with one stream |
| `GuardSketch`, `GuardRanking` | the bounded per-process sketch with its window, drops, risks and top lists |
| `JsonText`, `CsvText`, `Events`, `JsonLines`, `CsvRows`, `Files`, `Readers` | the two line formats, their readers, the generator's writers, and the files they write |
| `Policy` | policy lists behind Bloom filters, policy parsing, blocked destinations |
| `Graph`, `Risk`, `Windows` | the incremental process graph, risk scores, tumbling windows |
| `Analyze`, `Alerts`, `Commands`, `Tail` | the loops of analyze, tail and graph loading, against definitions over the event log |

How the pieces are built: what a component does to its state is a function on values; the class or method
with the source's own loops is proved equal to it; the promises are lemmas about that function over every
stream, log or input. Hashes are arbitrary functions with the source's ranges, so every theorem holds for
every choice of hash. Only the exclusive or of the Cuckoo filter, the bits of the packed arrays and the
rank of HyperLogLog are worked out as arithmetic. The one statement about the worst case over all hashes,
`CuckooFilter.SafeLengthIff`, says so.

Where the code and the documentation disagree, the model follows the code:

- Estimates. The documents say that Count-Min does not underestimate. A cell at its greatest value is read
  as zero, so it can. `CountMin.NeverUnderestimatesIff` and `GuardSketch.NeverUnderestimatesIff` give the
  exact totals and windows for which the promise holds, for each table shape and for each choice of hashes.
- Order. "Network after file" and the critical correlation are conjunctions of flags; no order of events is
  checked. `Risk.OrderIrrelevant` states the consequence.
- Failed Cuckoo insertions store the new value and lose another one; `cuckoo_load_from_list` ignores this.
  A list is sure to be found whole if no bucket is the first choice of more than four entries
  (`CuckooFilter.UncrowdedLoadKeepsAll`), and sure not to be if some buckets are the only ones of more
  classes than they have slots (`CuckooFilter.CrowdedLoadMisses`).
- The name of a process is fixed by its first event, because an empty name is stored as "-".
- The JSON reader does not decode numbered escapes that the writer emits, and finds keys inside values.
- The two branches of `hll_rank` agree on words below 2^50, the only ones that occur, and beyond those only
  on words of at least 2^51 whose low fifty bits are zero.
- The CSV writer escapes neither quotes nor newlines, so not every event it writes is read back.

## Model

| member | source | states |
|---|---|---|
| BloomFilter.Shape.BitsOfValues | src/agfast_parts/sketches.c:24-41 | a bit is set exactly when some value added so far probes it |
| BloomFilter.Shape.NoFalseNegatives | src/agfast_parts/sketches.c:32-52 | every added non-empty value is reported, whatever was added later |
| BloomFilter.Shape.ReportedIff | src/agfast_parts/sketches.c:43-52 | a value is reported exactly when all its probes were set by added values |
| BloomFilter.Shape.ProbesAdvance | src/agfast_parts/sketches.c:32-41 | each probe lies the second hash and the next odd number beyond the one before, in 64 bits |
| BloomFilter.Bloom.Add | src/agfast_parts/sketches.c:32-41 | the loop over the bytes sets the probes of the value and nothing else, and counts it |
| BloomFilter.Bloom.MightContain | src/agfast_parts/sketches.c:43-52 | the early-exit loop decides whether all probes are set |
| CuckooFilter.AltIndexInvolutive | src/agfast_parts/sketches.c:74-76 | the partner of a bucket's partner is the bucket, whatever the fingerprint hash |
| CuckooFilter.AltIndexDigits | src/agfast_parts/sketches.c:74-76 | a bucket and its partner differ in exactly the binary digits of the fingerprint's mask |
| CuckooFilter.ReportsIffClassStored | src/agfast_parts/sketches.c:98-104 | membership holds iff the class (fingerprint and pair of buckets) is stored at least once |
| CuckooFilter.KickChainConserves | src/agfast_parts/sketches.c:113-121 | an eviction chain of any length up to 64 kicks keeps every class's multiplicity, up to the one instance it gives up |
| CuckooFilter.InsertSucceedsIff | src/agfast_parts/sketches.c:106-122 | along the trail of buckets and slots: an insertion succeeds iff one of the value's buckets, or the partner bucket of one of the first 64 evictions, has room; otherwise the 64th evicted fingerprint is lost |
| CuckooFilter.InsertConserves | src/agfast_parts/sketches.c:106-122 | success adds one to the value's class and touches no other; failure adds the value and loses exactly one instance |
| CuckooFilter.DeleteRemovesOne | src/agfast_parts/sketches.c:124-140 | deleting a reported value removes one instance of its class; otherwise nothing changes; `count` stays the number of occupied slots |
| CuckooFilter.RunTally | src/agfast_parts/sketches.c:106-140 | over any run of successful insertions and deletions of live values the filter is the exact multiset of live classes |
| CuckooFilter.ReportsExactlyLiveClasses | src/agfast_parts/sketches.c:98-140 | such a run reports exactly the values that share a class with a live one, so no live value is missed |
| CuckooFilter.LoadConserves | src/agfast_parts/sketches.c:142-146 | after a load that ignores failures, stored and lost instances together make up the list |
| CuckooFilter.UncrowdedLoadKeepsAll | src/agfast_parts/sketches.c:142-146 | if no bucket is the first choice of more than four entries, a load stores every class as often as it is listed and every listed value is found |
| CuckooFilter.FewCandidatesKeepAll | src/agfast_parts/sketches.c:142-146 | so it does if no bucket is a candidate of more than four entries, and for every list of at most four |
| CuckooFilter.CrowdedLoadMisses | src/agfast_parts/sketches.c:142-146 | for any hashes: more listed classes confined to some buckets than these have slots, in any order, and some listed value is missed |
| CuckooFilter.OverfullLoadMisses | src/agfast_parts/sketches.c:142-146 | a list of more than 16384 classes is never fully found |
| CuckooFilter.SafeLengthIff | src/agfast_parts/sketches.c:142-146 | in the worst case over hashes, all lists up to some length are kept iff that length is at most four; five colliding values are the failing input |
| CuckooFilter.Cuckoo.Insert | src/agfast_parts/sketches.c:87-122 | the in-place buckets and kick loop reach the outcome of the chain, flag and count included |
| CuckooFilter.Cuckoo.Contains | src/agfast_parts/sketches.c:82-104 | the two bucket scans decide membership |
| CuckooFilter.Cuckoo.Delete | src/agfast_parts/sketches.c:124-140 | the scan of the first and then the second bucket clears one matching slot |
| CuckooFilter.Cuckoo.LoadFromList | src/agfast_parts/sketches.c:142-146 | the loop inserts every entry and drops the results |
| CountMin.RowConservesTotal | src/agfast_parts/sketches.c:162-170 | the additions collected by the cells of a row, counted without wrap-around, sum to the total of all additions |
| CountMin.StoredRowConservesTotal | src/agfast_parts/sketches.c:162-170 | while the total fits 64 bits, the stored cells of every row sum to it |
| CountMin.EstimateBounds | src/agfast_parts/sketches.c:172-183 | below 2^64 - 1 an estimate lies between the true weight and the total |
| CountMin.EstimateIsLeastCell | src/agfast_parts/sketches.c:172-183 | below 2^64 - 1 the estimate is at most what the key's cell collected in every row, and exactly that in some row |
| CountMin.AloneIsExact | src/agfast_parts/sketches.c:172-183 | a key that shares its cell with no other key in at least one row is estimated exactly |
| CountMin.FiveColumns | src/agfast_parts/sketches.c:162-170 | the columns of the five rows are multiples of the second hash plus a constant that wraps in 32 bits |
| CountMin.NeverUnderestimatesIff | src/agfast_parts/sketches.c:172-183 | streams of some total are never underestimated iff that total is below 2^64 - 1 |
| CountMin.CandidatesAreFirstDistinct | src/agfast_parts/sketches.c:250-264 | the candidate list is the distinct keys in order of first appearance, cut at its cap |
| CountMin.TopDominates | src/agfast_parts/sketches.c:278-297 | the i-th reported estimate is at least the i-th greatest true weight, for every i |
| CountMin.ReportDominates | src/agfast_parts/sketches.c:250-297 | with at most as many keys as the cap the report lists exactly the keys of the stream, each once, and rank by rank is at least the true weights and at most the total |
| Sorting.RankedInOrder | src/agfast_parts/sketches.c:278-284 | a top list is in descending order of weight, and among equals in order of name |
| Sorting.StrLeMeans | src/agfast_parts/sketches.c:278-284 | that order of names is the one of their first difference |
| CountMin.Sketch.AddTo | src/agfast_parts/sketches.c:162-170 | the loop over the rows leaves every 64-bit cell equal to its share of the whole history |
| CountMin.Sketch.EstimateOf | src/agfast_parts/sketches.c:172-183 | the minimum scan returns the estimate of the history, zero when saturated |
| CountMin.Sketch.BuildTopItems | src/agfast_parts/sketches.c:286-297 | the list built from the candidates is a sort of their estimates |
| CountMin.AddCandidate | src/agfast_parts/sketches.c:250-264 | the scan adds a new non-empty key below the cap and nothing else |
| SpaceSaving.RunSummarises | src/agfast_parts/sketches.c:347-368 | over any stream: counters sum to its length, keys are distinct, count - error <= frequency <= count with error < count, errors and unmonitored frequencies at most the smallest counter |
| SpaceSaving.SmallestCounterBound | src/agfast_parts/sketches.c:347-368 | an unmonitored key is no more frequent than the smallest counter, which is at most a sixteenth of the stream |
| SpaceSaving.HeavyKeysMonitored | src/agfast_parts/sketches.c:347-368 | every key more frequent than a sixteenth of the stream is monitored |
| SpaceSaving.ErrorFreeIsExact | src/agfast_parts/sketches.c:384-396 | a counter without error, and its printed lower bound, are the true frequency |
| SpaceSaving.FewKeysAreExact | src/agfast_parts/sketches.c:347-368 | a stream of at most sixteen different keys is counted exactly |
| SpaceSaving.GuaranteedTop | src/agfast_parts/sketches.c:370-396 | if the lower bounds of the first n entries reach the next upper bound, those n keys are a true top n |
| SpaceSaving.LongKeyMonitoredTwice | src/agfast_parts/sketches.c:347-368 | a key that fills its buffer is cut and monitored twice, so the bound on key length is needed |
| SpaceSaving.Summary.Update | src/agfast_parts/sketches.c:347-368 | the slots in place: hit, free slot or replaced minimum, as on values |
| SpaceSaving.Summary.SortedCopy | src/agfast_parts/sketches.c:378-382 | the copy is a sort of the used slots |
| HyperLogLog.RankLoop | src/agfast_parts/sketches.c:195-211 | the shifting-mask loop finds the first set bit among fifty |
| HyperLogLog.RanksAgreeIff | src/agfast_parts/sketches.c:195-211 | the leading-zeros branch and the mask branch return the same value iff the word is below 2^50, or at least 2^51 with its low fifty bits zero |
| HyperLogLog.RankRange | src/agfast_parts/sketches.c:195-220 | every rank that is stored lies between 1 and 51, by either branch |
| HyperLogLog.HashIsSplit | src/agfast_parts/sketches.c:213-220 | the low fourteen bits of a hash choose the register, the other fifty the rank |
| HyperLogLog.RegisterIsMaximum | src/agfast_parts/sketches.c:213-220 | a register is the greatest rank of the keys that hash to it, zero when there is none, never above 51 |
| HyperLogLog.SameKeysSameRegisters | src/agfast_parts/sketches.c:213-220 | registers depend on the set of keys only, not on order or repetition |
| HyperLogLog.Registers.Add | src/agfast_parts/sketches.c:213-220 | the in-place update keeps every register equal to its value over the whole history |
| OddSketch.BitsAreParities | src/agfast_parts/graph.c:92-96 | a bit of the sketch is the parity of the values that fall on it |
| OddSketch.PositionIs | src/agfast_parts/graph.c:92-96 | the low eleven bits of a hash choose the position |
| OddSketch.Sketch.AddAll | src/agfast_parts/graph.c:120-125 | the loop over a list flips the bits in place as the sketch of the longer list demands |
| OddSketch.FromNode | src/agfast_parts/graph.c:120-125 | the sketch of a node is that of its files followed by its destinations |
| OddSketch.PopCount | src/agfast_parts/graph.c:98-106 | the shifting loop counts the set bits of a byte |
| OddSketch.HammingDistance | src/agfast_parts/graph.c:108-112 | the byte loop computes the distance of the two sketches |
| OddSketch.DistanceCounts | src/agfast_parts/graph.c:108-112 | summing byte by byte counts the positions at which the two bit arrays differ |
| OddSketch.OverlapIsSetSizes | src/agfast_parts/commands.c:459-474 | the counted figures are the sizes of the intersection and union of the two nodes' relations, symmetric in the nodes |
| OddSketch.Overlap | src/agfast_parts/commands.c:459-474 | the four loops count what their lists share and lack |
| OddSketch.XorIsSketchOfDifferences | src/agfast_parts/graph.c:92-125 | the exclusive or of two nodes' sketches is the sketch of the relations that only one of them has |
| OddSketch.DistanceBound | src/agfast_parts/graph.c:108-125 | the distance is at most union minus intersection and of the same parity |
| OddSketch.GraphNodesClean | src/string_list.c:17-23 | the relation lists of every graph node are free of repetition and of empty strings, over any log |
| OddSketch.GraphNodesCompared | src/agfast_parts/commands.c:487-501 | for any two nodes of the graph of any log the counted figures are the set sizes and the distance is within their difference |
| OddSketch.ExactOverlap | src/agfast_parts/commands.c:459-474 | on the lists of a graph's nodes the loops return the two set sizes |
| OddSketch.Similarity | src/agfast_parts/commands.c:496-501 | the reported distance is that of the two nodes' sketches, within its bound |
| Telemetry.LowerBoundBelowEstimate | src/agfast_parts/telemetry.c:48-65 | for every monitored key: Space-Saving lower bound <= frequency <= min(counter, Count-Min estimate) |
| Telemetry.UnmonitoredBounds | src/agfast_parts/telemetry.c:48-65 | an unmonitored key is no more frequent than the smallest counter and than its estimate |
| Telemetry.SummariesOfLog | src/agfast_parts/telemetry.c:42-70 | these orders hold for every field over every parsed log, and keys in more than a sixteenth of the events are monitored |
| Telemetry.TopOfLog | src/agfast_parts/telemetry.c:42-70 | the top list of a field with at most 4096 values lists each of these once and no other, and dominates their true frequencies |
| Telemetry.OneKeyPerPid | src/agfast_parts/telemetry.c:42-47 | the pid registers receive as many different keys as there are different non-negative pids |
| Telemetry.Update | src/agfast_parts/telemetry.c:42-70 | one event feeds each field's sketches with that field's value, empty values and negative pids left out |
| Telemetry.Collect | src/agfast_parts/telemetry.c:42-70 | after a log every sketch has seen exactly its field's values of the log |
| GuardSketch.RecordedFaithful | src/agfast_parts/guardsketch.c:84-94 | recording keeps every cell equal to its load, the double count of EVENT included |
| GuardSketch.RunAgrees | src/agfast_parts/guardsketch.c:111-168 | for every log: one slot per process in order of first appearance with its exact counters, faithful cells and Bloom bits; every other sample is a counted drop |
| GuardSketch.NothingDroppedIff | src/agfast_parts/guardsketch.c:111-168 | no sample is dropped iff the log fits the window, 64 unless set, and has at most 128 processes |
| GuardSketch.ExactRiskOfLog | src/agfast_parts/guardsketch.c:170-186 | the exact risk of every tracked process is min(100, 25 sensitive + 35 blocked + 30 network + 10 for eight events), counted in its kept samples |
| GuardSketch.RowConservesEvents | src/agfast_parts/guardsketch.c:84-94 | the loads of a row of a slot sum to twice its exact events |
| GuardSketch.StoredRowConservesEvents | src/agfast_parts/guardsketch.c:84-168 | in every reachable state with a window below saturation each stored row sums to twice the exact events |
| GuardSketch.EstimateBounds | src/agfast_parts/guardsketch.c:96-109 | below saturation an estimate lies between what was counted and twice the events |
| GuardSketch.EstimateIsLeastLoad | src/agfast_parts/guardsketch.c:96-109 | below saturation an estimate is the least load among the signal's three cells |
| GuardSketch.ApproxRiskWhenApart | src/agfast_parts/guardsketch.c:188-208 | if every signal has a cell of its own in some row, the approximate risk is the exact formula, with plain events counted twice |
| GuardSketch.RiskNotUnderestimated | src/agfast_parts/guardsketch.c:170-208 | below saturation the exact risk is at most the approximate one, which is at most 100 |
| GuardSketch.SaturationHidesRisk | src/agfast_parts/guardsketch.c:96-109 | whatever the hashes, with a window of at least 2^31 as many plain events of one process bring its approximate risk to 0 while the exact one is 10 |
| GuardSketch.NeverUnderestimatesIff | src/agfast_parts/guardsketch.c:96-208 | for each choice of hashes: over all logs risk is never underestimated iff twice the window is below 2^32 - 1 |
| GuardSketch.Sketch.CmsAdd | src/agfast_parts/guardsketch.c:84-94 | the row loop counts a signal, saturating, in this slot only |
| GuardSketch.Sketch.FindSlot | src/agfast_parts/guardsketch.c:111-134 | the scans find the slot of a process, take the first free one, or drop |
| GuardSketch.Sketch.Record | src/agfast_parts/guardsketch.c:141-168 | one recorded sample is one step of the state machine: window, drop, slot and counters |
| GuardRanking.SelectionIsTop | src/agfast_parts/guardsketch.c:220-255 | for non-negative pids the selection returns min(k, used) slots in order of score and lower pid, and nothing left out ranks before them |
| GuardRanking.ExactTopIsByExactRisk | src/agfast_parts/guardsketch.c:220-255 | in every reachable state the exact ranking goes by exact risk, then by lower pid, and nothing left out is ahead of it |
| GuardRanking.ApproxTopIsByApproxRisk | src/agfast_parts/guardsketch.c:220-255 | the approximate ranking goes by approximate risk |
| GuardRanking.OverlapIsIntersection | src/agfast_parts/guardsketch.c:257-270 | of two top lists the overlap is the number of common pids |
| GuardRanking.RankingRightIff | src/agfast_parts/guardsketch.c:220-255 | all rankings are right iff no tracked pid is negative, because -1 marks "none" |
| GuardRanking.RunDistinctPids | src/agfast_parts/guardsketch.c:111-134 | no two slots of a reachable state track one process |
| GuardRanking.SeparatedTopsCoincide | src/agfast_parts/guardsketch.c:220-270 | if every exact top member beats the approximate score of every other process, both tops agree and the overlap is full |
| GuardRanking.TopPids | src/agfast_parts/guardsketch.c:220-255 | the rounds of scans with a selected mask compute the selection |
| GuardRanking.TopOverlap | src/agfast_parts/guardsketch.c:257-270 | the nested loops count the common entries |
| JsonText.WriteString | src/common.c:72-90 | the character loop writes the quoted and escaped string |
| JsonText.NothingUnescaped | src/common.c:72-90 | no control character is ever written as it is |
| JsonText.NumberedEscape | src/common.c:82-84 | a control character without an escape of its own is written by its number in hexadecimal |
| JsonText.ParseStringToken | src/agfast_parts/policy.c:60-82 | cursor and buffer after a token, after no token, and after an unclosed one |
| JsonText.TokenOfWritten | src/agfast_parts/policy.c:60-82 | reading a written string stops right after its closing quote, whatever it contains |
| JsonText.StringRoundTripIff | src/common.c:72-90 | reading inverts writing iff the string has no control character but newline, return and tab and fits the buffer (section 7 of RFC 8259) |
| Text.DecimalRoundTrip | src/agfast_parts/policy.c:95-109 | a printed `long` is read back, whatever non-digit follows |
| Text.PlainNumberIff | src/agfast_parts/policy.c:95-109 | a number without sign is read iff it fits 64 bits, and refused otherwise |
| Text.SignedNumberIff | src/agfast_parts/policy.c:95-109 | so is one with a sign, a minus allowing one more |
| CsvText.ParseField | src/agfast_parts/parser.c:43-66 | the character loop over one field decodes quotes and doubled quotes into a bounded buffer |
| CsvText.ParseFields | src/agfast_parts/parser.c:38-73 | the field loop yields the fields of the line; nothing after a final comma counts |
| CsvText.DoubledFieldReadsBack | src/agfast_parts/parser.c:43-66 | a field with doubled quotes reads back exactly (rule 7 of section 2 of RFC 4180) |
| CsvText.PlainFieldReadsBackIff | src/agfast_parts/commands.c:630-630 | a field quoted without doubling reads back iff it contains no quote |
| JsonLines.AfterKeyIsFound | src/agfast_parts/policy.c:84-109 | the search for a key ends at the member so named unless a value that can be taken for the key comes first |
| JsonLines.ClassifiedJsonLine | src/agfast_parts/parser.c:20-36 | what parsing the printed line of any event yields, field by field |
| Readers.JsonLineDestination | src/agfast_parts/parser.c:20-36 | for every JSON line that parses the destination is the first non-empty one of its `dst`, `ip` and `domain` strings, and every other field the string of its own key |
| Readers.CsvLineDestination | src/agfast_parts/parser.c:93-108 | for every CSV line that parses the destination is the first non-empty one of columns six, eight and seven |
| Readers.FullRowReadsBack | src/agfast_parts/parser.c:80-109 | a row with all eight columns, free of inner quotes, gives each column to its own field, the destination falling back to address and domain |
| Readers.JsonRejectedIff | src/agfast_parts/parser.c:35-35 | a JSON line is rejected iff it names no non-negative pid, no process and no event |
| Readers.CsvRejectedIff | src/agfast_parts/parser.c:80-109 | so is a CSV line that is no header |
| Readers.CommentsAreSkipped | src/agfast_parts/commands.c:37-38 | blank lines and comments count as nothing |
| JsonLines.JsonRoundTripIff | src/agfast_parts/commands.c:578-586 | a printed event parses to itself iff no field holds a numbered control character and no string that is a key, or ends with a quote and one, comes where it changes what the search for that key finds (`Readable`, clause by clause over the fields) |
| JsonLines.JsonRoundTrip | src/agfast_parts/commands.c:578-586 | so it does whenever no string is a searched key or ends with a quote and one |
| JsonLines.TimeHidesProcess | src/agfast_parts/policy.c:84-93 | a time in which the process key is seen hides every non-empty process name |
| CsvRows.TruncationHidesQuote | src/agfast_parts/parser.c:43-66 | a destination of 511 characters that ends with its only quote does read back, what the quote swallows being cut off |
| Files.HeaderIsHeader | src/agfast_parts/parser.c:75-78 | the first line of a generated CSV file is classified as a header |
| Files.JsonFileIff | src/agfast_parts/commands.c:578-586 | the log of a generated JSON file, read line by line, is the events written iff each of them survives its own round trip |
| Files.RowsReadBack | src/agfast_parts/commands.c:630-630 | rows whose fields hold neither quotes nor newlines read back as their events, commas included |
| Files.YieldIsLighter | src/agfast_parts/parser.c:111-116 | an event with a newline read from a line inside a row is lighter, in escapes and newlines, than the row's own |
| Files.NewlinesAreLost | src/agfast_parts/commands.c:630-630 | rows of events one of which holds a newline never read back as these events, even when a line inside a row is read as JSON |
| Files.CsvFileIff | src/agfast_parts/commands.c:607-632 | the log of a generated CSV file, header included, is the events written iff no field holds a quote or a newline |
| Files.FormatsAgree | src/agfast_parts/commands.c:607-632 | the CSV and the JSON file of the same events have the same log |
| Base.FilledIsCopy | src/common.c:34-41 | filling a buffer character by character is the same as a truncating copy |
| Base.AddUnique | src/string_list.c:17-23 | the scan appends a non-empty value that is not yet there, and nothing else |
| Base.ContainsExact | src/string_list.c:25-31 | the scan decides membership |
| Policy.PolicyList.ParseArray | src/agfast_parts/policy.c:120-141 | the array's strings become exact entries or patterns, and every exact entry is in the Bloom filter |
| Policy.PolicyList.MatchesExact | src/agfast_parts/policy.c:175-179 | the match behind the filter is membership of a non-empty value in the list |
| Policy.Engine.Load | src/agfast_parts/policy.c:164-173 | reading a policy text extends the four lists and replaces the weights it names, clamped |
| Policy.LoadedPolicyMeans | src/agfast_parts/policy.c:164-173 | afterwards an address, domain or process counts iff it did before or the text lists it under its key |
| Policy.LoadedFilesMean | src/agfast_parts/policy.c:120-141 | a file counts iff it did before, is listed, or matches a listed entry with a wildcard |
| Policy.LoadedWeightsMean | src/agfast_parts/policy.c:143-153 | every weight of the text reaches the weight of its name |
| Policy.LoadedWeightMeans | src/agfast_parts/policy.c:111-118 | a weight is the number given, at most a million either way, and stays if there is none |
| Policy.ArrayReadsBack | src/agfast_parts/policy.c:120-141 | an array as a JSON writer prints it gives back its strings in order |
| Policy.KeyedArrayReadsBack | src/agfast_parts/policy.c:120-141 | so does the array behind the first occurrence of its quoted key |
| Policy.Engine.IsSensitiveFile | src/agfast_parts/policy.c:181-184 | a file is sensitive iff it is listed or matches a pattern |
| Policy.Engine.CheckDestination | src/agfast_parts/risk_reports.c:46-62 | a destination counts iff it is listed, whatever it looks like; its looks only decide its kind when it is in both lists |
| Policy.Engine.FindBlocked | src/agfast_parts/risk_reports.c:38-67 | the first listed one of destination, address and domain is returned |
| Policy.BlockedDestinationIs | src/agfast_parts/risk_reports.c:38-67 | found is the first listed one of the three, as a domain iff it is listed as one only, or as both and has a dot and more than digits and dots |
| Graph.SawIff | src/agfast_parts/risk_reports.c:69-100 | a sign is seen iff some event of the process shows it |
| Graph.NodeStep | src/agfast_parts/risk_reports.c:69-100 | ingesting an event turns the node of some events into the node of one more: flags, first entries, distinct lists, timeline |
| Graph.GraphIsBatch | src/agfast_parts/graph.c:137-172 | after every log there is one node per process in order of first appearance, equal to the node defined from its own events |
| Graph.NodeName | src/agfast_parts/graph.c:137-156 | a node is named by the first event of its process, or by a dash |
| Graph.BlockedContacts | src/agfast_parts/risk_reports.c:91-98 | a process with a blocked contact is connected |
| Graph.ProcessGraph.GetOrAdd | src/agfast_parts/graph.c:137-156 | the lookup returns the first node of the process, appending one if there is none |
| Graph.ProcessGraph.Ingest | src/agfast_parts/risk_reports.c:69-100 | the in-place updates are the ingestion of the model, with the policy asked through its filters |
| Risk.ComputeRisk | src/agfast_parts/risk_reports.c:110-143 | the running sum with its cap gives score, level and reasons of the node |
| Risk.ScoreInClosedForm | src/agfast_parts/risk_reports.c:110-143 | the score of a process is min(100, the sum of the seven weights), each under a condition on the events of the log |
| Risk.DefaultScore | src/agfast_parts/policy.c:34-44 | the same with the default weights and thresholds as numbers |
| Risk.LevelBands | src/agfast_parts/risk_reports.c:102-108 | the five levels and their bands |
| Risk.ReasonsExplainScore | src/agfast_parts/risk_reports.c:110-143 | the weights of the listed reasons add up to the score, up to the cap |
| Risk.OrderIrrelevant | src/agfast_parts/risk_reports.c:69-143 | any permutation of the log leaves signs, events, destination count and score of every process unchanged |
| Risk.ScoreNeverDrops | src/agfast_parts/risk_reports.c:110-143 | with non-negative weights a further event of any process lowers no score |
| Risk.ScoreOfPrefix | src/agfast_parts/risk_reports.c:110-143 | scores only grow along a log |
| Risk.CorrelatedScore | src/agfast_parts/risk_reports.c:110-143 | a correlated process scores at least min(100, file + min(ip, domain) + network) |
| Risk.CorrelatedIsCritical | src/agfast_parts/policy.c:34-44 | under the default weights its level is "critical" |
| Risk.BuildSortedRiskNodes | src/agfast_parts/risk_reports.c:149-169 | the summary holds exactly the nodes with positive risk, sorted by risk, pid and name |
| Risk.SummaryIsRanked | src/agfast_parts/risk_reports.c:149-169 | the summary has every node of positive score as often as the graph and no other, by descending score and then pid |
| Windows.ChunksPartition | src/agfast_parts/commands.c:92-108 | the windows cut the events into consecutive chunks, all full except perhaps the last, none empty |
| Windows.RunFollowsSplit | src/agfast_parts/commands.c:92-103 | the five counters follow the chunks at every step |
| Windows.FinishedWindows | src/agfast_parts/commands.c:104-108 | the closed windows number events / size rounded up; max and last are the greatest and last chunk sum |
| Windows.MaxSumIsMaximum | src/agfast_parts/commands.c:97-97 | the reported maximum bounds every chunk sum and is reached |
| Analyze.TouchedIsNoOp | src/agfast_parts/commands.c:54-84 | the node updates repeated after ingestion change nothing |
| Analyze.EventStep | src/agfast_parts/commands.c:46-103 | one event extends graph, alerts, counters and window exactly as the definition over the log says |
| Analyze.AnalyzeIsBatch | src/agfast_parts/commands.c:35-103 | for every input the state after the loop is the definition over the events of the lines that parse |
| Alerts.AlertsAccounted | src/agfast_parts/commands.c:56-91 | after every prefix the four counters add up to the alerts, and each substantial line is one event or one malformed line |
| Alerts.CriticalOnce | src/agfast_parts/commands.c:85-91 | a process gets one critical alert if its events touch a sensitive file and contact a blocked destination in either order, else none |
| Alerts.AlertsHaveEvidence | src/agfast_parts/graph.c:26-44 | every alert repeats an event of its process and names its evidence: the sensitive file, the listed destination, or for a critical one a sensitive file and a destination of the process |
| Alerts.MarkedIffAlerted | src/agfast_parts/commands.c:85-91 | a node is marked iff it is touched and blocked, and iff its process has its one critical alert |
| Alerts.AlertedIsCritical | src/agfast_parts/commands.c:85-118 | a process with a critical alert ends with at least the correlation's weight, and level "critical" by default |
| Alerts.WindowsAccounted | src/agfast_parts/commands.c:92-108 | the windows partition the events of the run and their alert counts sum to all alerts; other lines are not counted |
| Alerts.WithoutPolicy | src/agfast_parts/commands.c:50-53 | without a policy there are no alerts and the graph shows what the log alone shows |
| Commands.RecordEvent | src/agfast_parts/commands.c:54-91 | the in-place update of node, alerts and counters for one event |
| Commands.AnalyzeLines | src/agfast_parts/commands.c:35-103 | the loop over lines computes the run of the model |
| Commands.ProcessEvents | src/agfast_parts/commands.c:35-118 | the command ends with the run's counters, closed windows, rescored nodes and updated alerts |
| Commands.LoadGraph | src/agfast_parts/commands.c:258-275 | the graph commands load the graph of the events that parse, with risks if there is a policy |
| Commands.ComputeRiskAll | src/agfast_parts/risk_reports.c:145-147 | every node gets its risk, nothing else changes |
| Commands.UpdateAlertRisks | src/agfast_parts/risk_reports.c:228-233 | every alert takes the score of the node found for its pid |
| Commands.FinalScore | src/agfast_parts/commands.c:115-118 | the score found for a logged process is that of the definition over its events |
| Commands.FinalScoreIsWorth | src/agfast_parts/commands.c:115-118 | the final score of a logged process is the closed form over the events of the run |
| Commands.AlertsCarryFinalScores | src/agfast_parts/risk_reports.c:228-233 | after a run every alert carries the final score of its process and is otherwise unchanged |
| Commands.SameGraphAsLoaded | src/agfast_parts/commands.c:50-91 | analyze ends with the graph that the graph commands load, but for the marks of critical alerts |
| Tail.TailIsBatch | src/agfast_parts/commands.c:540-569 | after every prefix the printed lines and stored risks are those of the definition: each critical line shows the batch score of its prefix |
| Tail.LastCriticalIsFinal | src/agfast_parts/commands.c:564-568 | the last critical line of a process shows its final score, and there is one iff the process is correlated |
| Tail.TailAgreesWithAnalyze | src/agfast_parts/commands.c:540-569 | tail prints a critical line for exactly the processes with a critical alert in analyze |
| Tail.TailShowsTheAlerts | src/agfast_parts/commands.c:561-563 | but for the critical ones tail prints one line for each alert of analyze, in the same order, with its process, file and destination |
| Tail.PrintedScoresBounded | src/agfast_parts/commands.c:564-568 | with non-negative weights no printed score exceeds the final one |
| Tail.TailLines | src/agfast_parts/commands.c:540-569 | the loop prints and stores what the model does |

## Left out

- Floating point: `hll_estimate`, similarity as a quotient, false-positive rates, memory ratios, timing. HyperLogLog is modelled at its registers.
- Hash functions (`fnv1a64`, `mix64`, `guardSketchHash64`): arbitrary functions of the right range, so nothing about their quality is claimed.
- `fnmatch`: an arbitrary predicate on pattern and value.
- `qsort`: any sorted permutation; the methods that need one use an insertion sort that is proved to sort.
- Allocation, growth of arrays by `realloc`, `die`, and files: lists grow as sequences; the loops take the sequence of lines that `getline` returns, and for generated files these are computed from the text (`Files.Lines`).
- Strings: C strings end at the first NUL, so no modelled string contains one; characters are not decoded.
- Report writers, console output other than the lines of tail, option parsing, `--follow` waiting, the choice of values in the generator's loop, the `agentguard` monitor, Python scripts and unit tests.
- Records: the fields of a graph node are grouped into signs, relations and risk, and a node is stored back as a whole; the telemetry record is passed as its members.
- SpaceSaving.RunSummarises: asks that keys fit the 512-byte key buffer (SpaceSaving.LongKeyMonitoredTwice shows why), which every event field does; counters are unbounded where the source has 64 bits, which matters only beyond 2^64 updates.
- GuardSketch.ExactRiskOfLog: asks that 35 times the window fits 64 bits, beyond which the source's sum can wrap around.
- Risk.ScoreInClosedForm: asks that thresholds are 32-bit integers, as in the source, and that the log has fewer than 2^62 events.
- Policy.KeyedArrayReadsBack: the place of the key is a premise; a quoted key inside an earlier value would be found first, as in the source.
- Analyze.AnalyzeIsBatch: the event counters are unbounded where the source has 64 bits.
- Files.CsvFileIff: asks for one byte of room in each buffer, because an event that fills a buffer to the last byte can hide a damaged field behind truncation (CsvRows.TruncationHidesQuote); Files.RowsReadBack and Files.NewlinesAreLost need no room.
- CuckooFilter.UncrowdedLoadKeepsAll: its guard and that of CuckooFilter.CrowdedLoadMisses leave lists in between, whose outcome depends on the pseudo-random victims of the 64 kicks.
- HyperLogLog.Registers.Add: registers are natural numbers, since RankRange keeps them below 52.
- Graph and alert loops: addresses of nodes are indices into the list, so an address kept across a growth of the array is not modelled; the source keeps none.
