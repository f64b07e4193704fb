# MolComSimAnalyzer data loading and run classification, in Dafny

MolComSimAnalyzer reads the output of a molecular-communication simulator
and plots statistics across many simulation runs. This project models its
core in two parts.

- `Analyzer/src/data.py` loads one run:
  - the `.dat` configuration file, parsed by `DatData`, whose values are the records `NanoMachine`, `IntermediateNode`, `MoleculeParams`, `MicrotubuleParams`, `FEC` and `Position`;
  - the mandatory result log (`ResultData`);
  - three optional logs: adjustment (`AdjustData`), collision (`CollisionData`) and retransmission (`RetransmitData`);
  - `AllData`, which ties these together and derives distance, duplication, the plot series and the two rates.
- `Analyzer/src/analyzer.py` holds the `Analyzer`. It classifies run files into groups by a chosen dimension (`classifyDataFile`) and builds the x values, label values and per-label y lists for one plot (`getLabelValues`).

The model follows the source's form:

- Parsing loops are Dafny methods on classes whose fields the source assigns. Each method is proved equal to a pure function of its input.
- The properties the source relies on are lemmas about those functions. They cover round trips of the `toString` methods, last-write-wins for configuration keys, file order of list-valued keys, the partition property of the classifier, histogram totals, and the behaviour of the retransmission parser on concrete lines.

Files:

- `wrappers.dfy` holds `Option`, `Result` and the error kinds. Each Python exception the source can raise is one constructor.
- `text.dfy` holds `str.split`, `re.split` followed by dropping empty tokens, `split(' ', 1)`, `int()` on a token and `strip()`.
- `seqs.dfy` holds sums, counts, `max`/`min`, `sorted`, first-seen de-duplication and flattening.
- `geometry.dfy`, `records.dfy` and `config.dfy` model the configuration file.
- `result.dfy`, `adjust.dfy`, `collision.dfy` and `retransmit.dfy` model the four logs.
- `alldata.dfy` models `AllData`.
- `analyzer.dfy` models `Analyzer`.

Modelling conventions:

- The file system is a map from path to the file's lines. A line is modelled without its trailing newline.
- A Python exception becomes a `Failure` carrying the matching `Error`. `print` followed by `sys.exit(1)` in `getValue` becomes `Failure(NotDefined)`.
- Float values are kept as their token text: the float-valued configuration keys, the FEC rate and the molecule size. `int(math.sqrt(n))` is the integer square root.
- An optional log whose file is absent leaves its object unloaded, because the source returns from `__init__` before assigning any attribute. Reading an attribute of an unloaded log is `Failure(AbsentLog)`.
- In the analyzer, each run is summarised by `RunValues`: its distance, its duplication (or none) and its mean. This is the `dataDict` entry as `getValue` sees it.

Behaviours of the code that the model keeps:

- **Retry count.** The retry count is `len(datas[1]) - 1`, the number of characters in the second field minus one. So `S,/0/3/7` gives 5 (`Retransmission.SuccessLineExample`), and `F,/0/1,/0/5/9,/0/2/4` gives 3.
- **First token of the tx and rx lists.** `split('/')[1:]` drops only the empty part before the first `/`. So the tx steps of `F,/0/1,/0/5/9,/0/2/4` are `["0", "5", "9"]` (`Retransmission.FailureLineExample`).
- **Duplication without INFO.** `getTxDuplication` returns `None` when no molecule is INFO (`RunData.TxDuplication`).
- **Absent optional log.** An absent optional log leaves its object without attributes (`AbsentLog` above).
- **Grouping labels.** `getLabelValues` groups files by the raw value that `getValue` returns.

## Model

| member | source | states |
|---|---|---|
| Text.Split | Analyzer/src/data.py:116 | `str.split(sep)` always yields at least one part |
| Text.SplitPartsFree | Analyzer/src/data.py:173-174 | no part produced by `split` contains a separator |
| Text.SplitJoin | Analyzer/src/data.py:116 | joining the parts of a split with the separator gives back the original string |
| Text.JoinSplit | Analyzer/src/data.py:116 | splitting a join of separator-free parts gives back the parts |
| Text.SplitAround | Analyzer/src/data.py:173 | splitting at a separator splits the left and right pieces independently |
| Text.SplitFree | Analyzer/src/data.py:118 | a string without separators splits into itself alone |
| Text.Tokenize | Analyzer/src/data.py:243 | `re.split("[,( )]")` minus empty strings yields only non-empty tokens free of the four delimiters |
| Text.TokenizeAppend | Analyzer/src/data.py:243 | tokenizing a concatenation at a delimiter boundary concatenates the token lists |
| Text.TokenizeAround | Analyzer/src/data.py:288 | a delimiter between two pieces makes their tokens independent |
| Text.TokenizeWord | Analyzer/src/data.py:298 | a delimiter-free non-empty word tokenizes to itself |
| Text.TokenizeOnlyDelims | Analyzer/src/data.py:252 | a string of delimiters has no tokens |
| Text.RemoveEmptyAppend | Analyzer/src/data.py:252 | dropping empty strings distributes over concatenation |
| Text.RemoveEmptyIn | Analyzer/src/data.py:252 | dropping empty strings keeps only strings of the input |
| Text.SplitOnceSpec | Analyzer/src/data.py:76 | `line.split(' ', 1)` fails exactly when the line has no space; otherwise the line is key, one space, value, and the key has no space |
| Text.IntRoundTrip | Analyzer/src/data.py:228-233 | `int()` of a printed integer gives back that integer |
| Text.NatToStringValue | Analyzer/src/data.py:233 | the decimal digits printed for a natural number denote that number |
| Text.IntToString | Analyzer/src/data.py:233 | a printed integer is non-empty and holds no delimiter and no `/` |
| Text.IntAt | Analyzer/src/data.py:228-230 | `int(args[k])` past the end of the list fails with IndexError (`MissingToken(k)`); a token that is not an integer fails with ValueError (`NotAnInteger`); otherwise the result is the token's value |
| Text.IntAtPrinted | Analyzer/src/data.py:228-230 | `int(args[k])` of a printed integer gives back that integer |
| Text.StripLeftSpec | Analyzer/src/data.py:142 | the left strip removes exactly the leading characters that `str.isspace()` accepts |
| Text.StripRightSpec | Analyzer/src/data.py:142 | the right strip removes exactly the trailing characters that `str.isspace()` accepts |
| Text.StripTrimmed | Analyzer/src/data.py:142 | `strip()` leaves a string without surrounding whitespace unchanged |
| Text.StripLeftPadding | Analyzer/src/data.py:142 | leading whitespace makes no difference to the left strip |
| Text.StripRightPadding | Analyzer/src/data.py:142 | trailing whitespace makes no difference to the right strip |
| Text.StripPadded | Analyzer/src/data.py:142 | `strip()` of a word padded with whitespace on both sides is the word |
| Text.JoinFree | Analyzer/src/data.py:116 | joining separator-free parts with another separator gives a string free of the first |
| Text.Slice | Analyzer/src/data.py:244-245 | Python slicing `args[lo:hi]` equals the Dafny slice when in range and is empty past the end |
| Seqs.CountIsMultiplicity | Analyzer/src/data.py:199 | `len([j for j in nums if i == j])` is the multiplicity of `i` |
| Seqs.SumAppend | Analyzer/src/data.py:61 | `sum` distributes over concatenation |
| Seqs.SumPermutation | Analyzer/src/data.py:195 | sorting does not change `sum`, since any permutation has the same sum |
| Seqs.Max | Analyzer/src/data.py:133 | `np.max` is an element of the array and bounds every element from above |
| Seqs.Min | Analyzer/src/data.py:132 | `np.min` is an element of the array and bounds every element from below |
| Seqs.Sort | Analyzer/src/data.py:158 | `sorted` yields a sorted permutation of its input |
| Seqs.Dedup | Analyzer/src/analyzer.py:56-59 | appending only unseen values yields a duplicate-free list holding exactly the input's values |
| Seqs.DedupFirstSeen | Analyzer/src/analyzer.py:52-59 | distinct values are kept in the order of their first occurrence |
| Seqs.DedupExample | Analyzer/src/analyzer.py:56-59 | `[10, 20, 10, 30]` yields `[10, 20, 30]` |
| Seqs.FlattenLength | Analyzer/src/data.py:155-156 | the flattened list is as long as the lists' lengths added up |
| Geometry.ParsePosition | Analyzer/src/data.py:227-230 | `Position(args)` succeeds exactly when the first three tokens are integers, and takes x, y and z from them |
| Geometry.PositionTokens | Analyzer/src/data.py:232-233 | `Position.toString` is parenthesised and tokenizes to the three printed coordinates |
| Geometry.PositionRoundTrip | Analyzer/src/data.py:227-233 | parsing the tokens of `toString` gives back the position |
| Geometry.ISqrt | Analyzer/src/data.py:239 | `int(math.sqrt(n))` is the largest `r` with `r*r <= n` |
| Geometry.ISqrtUnique | Analyzer/src/data.py:239 | that integer square root is unique |
| Geometry.CalcDistance | Analyzer/src/data.py:235-239 | the truncated distance is the integer square root of the squared Euclidean distance |
| Geometry.DistanceSymmetric | Analyzer/src/data.py:235-239 | distance from p to q equals distance from q to p |
| Geometry.DistanceToSelf | Analyzer/src/data.py:235-239 | a position is at distance 0 from itself |
| Geometry.DistanceAlongX | Analyzer/src/data.py:235-239 | positions differing only in x are the absolute difference of their x coordinates apart |
| Geometry.DistanceExample | Analyzer/src/data.py:235-239 | (10,20,30) and (40,20,30) are 30 apart |
| Records.MoleculeTypeLookup | Analyzer/src/data.py:303-306 | `MoleculeType[name]` finds a member exactly when `name` is that member's name |
| Records.MovementTypeLookup | Analyzer/src/data.py:308-310 | `MovementType[name]` finds a member exactly when `name` is that member's name |
| Records.ParseNanoMachine | Analyzer/src/data.py:287-291 | `NanoMachine(val)` succeeds exactly when the first seven tokens are integers; the size is token 3 |
| Records.NanoMachineRoundTrip | Analyzer/src/data.py:286-294 | parsing `NanoMachine.toString` gives back the machine |
| Records.ParseIntermediateNode | Analyzer/src/data.py:276-281 | `IntermediateNode(val)` succeeds exactly when the first ten tokens are integers; the size is token 3 |
| Records.IntermediateNodeRoundTrip | Analyzer/src/data.py:275-284 | parsing `IntermediateNode.toString` gives back the node |
| Records.ParseMicrotubuleParams | Analyzer/src/data.py:242-245 | `MicrotubuleParams(val)` succeeds exactly when the first six tokens are integers |
| Records.MicrotubuleParamsRoundTrip | Analyzer/src/data.py:241-248 | parsing `MicrotubuleParams.toString` gives back the parameters |
| Records.ParseMoleculeParams | Analyzer/src/data.py:251-267 | on success, duplication, kind, movement, adaptive count and size come from the space-split arguments in the positions the kind dictates, with size defaulting to 1; an unknown kind or movement name fails |
| Records.MoleculeParamsRoundTrip | Analyzer/src/data.py:250-273 | parsing `MoleculeParams.toString` gives back a well-formed record whose size token has no space |
| Records.ParseMoleculeFields | Analyzer/src/data.py:269-273 | the fields written by `toString` parse back to the record whenever they split back unchanged |
| Records.ParseFec | Analyzer/src/data.py:297-301 | `FEC(val)` succeeds exactly when there are three tokens and the second is an integer, and takes type, packet count and rate from them |
| Records.FecReadsWrittenFields | Analyzer/src/data.py:297-301 | a line `type n rate` parses to exactly those fields |
| Config.ParseEntry | Analyzer/src/data.py:77-94 | a parsed value is stored under the key it was read with, in the form its key calls for |
| Config.ParseLine | Analyzer/src/data.py:74-76 | lines starting with `*` and empty lines are skipped; any other line that parses carries the key before its first space |
| Config.LastEntry | Analyzer/src/data.py:77-94 | the last entry for a key is one of the entries and has that key |
| Config.WithoutSkipped | Analyzer/src/data.py:74-75 | the filtered lines hold no skipped line |
| Config.SkippedLinesIgnored | Analyzer/src/data.py:74-75 | comment and blank lines do not change the parsed configuration |
| Config.ConfigSnoc | Analyzer/src/data.py:73-94 | one more line either fails, is skipped, or applies its entry to the configuration so far |
| Config.FailureStops | Analyzer/src/data.py:72-94 | once a prefix of the file fails, the whole file fails with that error |
| Config.StepFails | Analyzer/src/data.py:76-94 | a failing line makes its parsing step fail |
| Config.PrefixFails | Analyzer/src/data.py:73-94 | a failing line makes the prefix it ends fail |
| Config.NoSpaceLineFails | Analyzer/src/data.py:76 | a non-skipped line without a space fails to unpack into key and value |
| Config.NoSpacePrefixFails | Analyzer/src/data.py:73-76 | a prefix ending in such a line fails |
| Config.LineWithoutSpaceFails | Analyzer/src/data.py:72-76 | a file with such a line anywhere fails to parse |
| Config.GetApplySingle | Analyzer/src/data.py:77-80 | storing a machine, node, output file or FEC entry sets its key and leaves other keys unchanged |
| Config.GetApplyMap | Analyzer/src/data.py:85-94 | storing a float or integer entry sets its key and leaves other keys unchanged |
| Config.GetApplyList | Analyzer/src/data.py:81-84 | appending to a list key leaves every scalar key unchanged |
| Config.GetApply | Analyzer/src/data.py:77-94 | any entry sets only its own key |
| Config.LastWriteWins | Analyzer/src/data.py:77-94 | for every scalar key, the configuration holds the last entry the file gives for it |
| Config.ConfigStep | Analyzer/src/data.py:73-94 | a successful parse is the parse of all lines but the last, with the last line's entry applied |
| Config.ApplyLists | Analyzer/src/data.py:81-84 | applying an entry appends to the molecule and microtubule lists only the entry itself |
| Config.MoleculesSnoc | Analyzer/src/data.py:81-82 | the molecule entries of a longer list extend those of the shorter one |
| Config.MicrotubulesSnoc | Analyzer/src/data.py:83-84 | the microtubule entries of a longer list extend those of the shorter one |
| Config.MoleculesInFileOrder | Analyzer/src/data.py:70-82 | `moleculeParams` lists every molecule line in file order |
| Config.MicrotubulesInFileOrder | Analyzer/src/data.py:71-84 | `microtubuleParams` lists every microtubule line in file order |
| Config.DatData.Store | Analyzer/src/data.py:77-94 | storing one key and value updates the configuration exactly as `Apply` says, or fails and leaves it as it was |
| Config.DatData.ParseFile | Analyzer/src/data.py:68-94 | the loop leaves `config` equal to the parse of the whole file, or reports the parse's error |
| Results.ReadStep | Analyzer/src/data.py:142-144 | a line whose stripped text is not an integer fails with that text (ValueError); otherwise the step is the value of the stripped text |
| Results.ParseSteps | Analyzer/src/data.py:138-144 | a successful read yields one step per line |
| Results.ParseStepsSucceeds | Analyzer/src/data.py:138-144 | the file reads exactly when every line reads |
| Results.StepEntry | Analyzer/src/data.py:138-144 | step k of a read file is line k's value |
| Results.ParseStepsLines | Analyzer/src/data.py:138-144 | the file reads exactly when every line reads, and step k is line k's value |
| Results.StepsRoundTrip | Analyzer/src/data.py:138-144 | writing steps one per line and reading them back gives the steps |
| Results.ReadNumber | Analyzer/src/data.py:142-144 | a printed integer line reads back to that integer |
| Results.ReadPadded | Analyzer/src/data.py:142-144 | a printed integer with whitespace on either side reads back to that integer |
| Results.FailureStops | Analyzer/src/data.py:141-144 | a failing prefix makes the whole file fail with its error |
| Results.ResultData.ParseFile | Analyzer/src/data.py:138-144 | the loop sets `steps` to the parse of the file or reports its error |
| Results.ResultData.Load | Analyzer/src/data.py:128-136 | a missing file or an unreadable line fails, an empty file fails in `np.min`, otherwise `min_` and `max_` are the minimum and maximum of the steps |
| Adjust.ParseGroup | Analyzer/src/data.py:118-121 | `step, tx, rx = data.split('/')` succeeds exactly when there are three integer parts |
| Adjust.ParseGroups | Analyzer/src/data.py:116-121 | a parsed line has one step, tx and rx per comma-separated group |
| Adjust.ParseLine | Analyzer/src/data.py:116-121 | a parsed line has one step per part of `line.split(',')` |
| Adjust.ParseGroupsSucceeds | Analyzer/src/data.py:117-121 | a line parses exactly when each of its groups parses |
| Adjust.GroupEntry | Analyzer/src/data.py:117-121 | element i of the step, tx and rx lists is the matching field of group i |
| Adjust.ParseGroupsContents | Analyzer/src/data.py:116-121 | a line parses exactly when each group does, and element i of each list is group i's field |
| Adjust.ParseLog | Analyzer/src/data.py:105-125 | a parsed file has one entry in each of the three lists per line |
| Adjust.ParseLogSnoc | Analyzer/src/data.py:110-125 | one more line either stops at an earlier error, fails, or appends that line's three lists |
| Adjust.ParseLogSucceeds | Analyzer/src/data.py:105-125 | the file parses exactly when every line does |
| Adjust.LogEntry | Analyzer/src/data.py:110-125 | entry k of the three lists is line k's steps, tx and rx |
| Adjust.ParseLogLines | Analyzer/src/data.py:105-125 | the file parses exactly when every line's groups do; entry k is line k's lists, with one step per comma-separated group of that line |
| Adjust.FormatGroups | Analyzer/src/data.py:116-121 | one formatted group per triple |
| Adjust.GroupRoundTrip | Analyzer/src/data.py:118-121 | a written `step/tx/rx` group parses back to its triple and holds no comma |
| Adjust.GroupsRoundTrip | Analyzer/src/data.py:116-121 | written groups parse back to their steps, tx and rx lists |
| Adjust.LineRoundTrip | Analyzer/src/data.py:116-121 | a written line of groups splits at commas and parses back to its triples |
| Adjust.BadGroupFails | Analyzer/src/data.py:118 | a group without exactly three `/`-parts makes the line fail |
| Adjust.GroupsStop | Analyzer/src/data.py:117-121 | a failing group ends the line with that group's error |
| Adjust.FailureStops | Analyzer/src/data.py:110-125 | a failing line ends the file with that line's error |
| Adjust.ReadGroups | Analyzer/src/data.py:116-121 | the inner loop computes the line's parse |
| Adjust.AdjustData.ParseFile | Analyzer/src/data.py:105-125 | the loop sets the three lists to the parse of the file or reports its error |
| Adjust.AdjustData.Load | Analyzer/src/data.py:98-102 | an absent file leaves the object untouched and is not an error; a present file is parsed |
| Collision.ParseLine | Analyzer/src/data.py:173-175 | a line without a second comma-separated field fails with IndexError; on success the second field has at least five `/`-parts and the steps joined with `/` give back the first field |
| Collision.NoCommaFails | Analyzer/src/data.py:173-175 | a line without a comma fails on `datas[1]` |
| Collision.LineRoundTrip | Analyzer/src/data.py:173-175 | a line written as steps, a comma and at least five sub-counts parses back to the steps |
| Collision.ParseLogSnoc | Analyzer/src/data.py:172-175 | one more line either stops at an earlier error, fails, or appends that line's step list |
| Collision.ParseLogLines | Analyzer/src/data.py:163-175 | the file parses exactly when every line does, and entry k is line k's step list |
| Collision.FailureStops | Analyzer/src/data.py:171-175 | a failing prefix makes the whole file fail with its error |
| Collision.NonzeroStepsParse | Analyzer/src/data.py:156 | the `int(j)` comprehension succeeds exactly when every token is an integer |
| Collision.NonzeroStepsMembers | Analyzer/src/data.py:156 | the kept values are exactly the non-zero integers of the tokens |
| Collision.AllStepsNonzero | Analyzer/src/data.py:155-156 | `collisionAllStep` holds no zero |
| Collision.AllStepsKeep | Analyzer/src/data.py:155-156 | every non-zero step of every line is in `collisionAllStep` |
| Collision.NonzeroStepsStop | Analyzer/src/data.py:156 | a failing token ends the comprehension with its error |
| Collision.AllStepsStop | Analyzer/src/data.py:155-156 | a failing line of steps ends the loop with its error |
| Collision.AllStepsFailure | Analyzer/src/data.py:155-156 | a failing prefix of lines makes the whole loop fail |
| Collision.CollectSteps | Analyzer/src/data.py:154-156 | the extend loop computes `collisionAllStep` |
| Collision.CollisionData.ParseFile | Analyzer/src/data.py:163-175 | the loop sets `collisionStep` to the parse of the file or reports its error |
| Collision.CollisionData.Load | Analyzer/src/data.py:148-161 | an absent file leaves the object untouched; otherwise steps, all-steps, sorted data and sum are derived from the parse |
| Retransmission.Histogram | Analyzer/src/data.py:198-200 | the histogram has one bucket per value below its bound |
| Retransmission.HistogramCounts | Analyzer/src/data.py:198-200 | bucket i counts the entries equal to i |
| Retransmission.SortedHistogram | Analyzer/src/data.py:195-200 | sorting the counts first does not change the histogram |
| Retransmission.HistogramSum | Analyzer/src/data.py:198-200 | with non-negative counts, the buckets up to the maximum add up to the number of lines |
| Retransmission.HistogramSumBelow | Analyzer/src/data.py:198-200 | the first n buckets add up to the number of entries below n |
| Retransmission.CountBelowStep | Analyzer/src/data.py:199 | the entries below n+1 are those below n plus those equal to n |
| Retransmission.CountBelowNone | Analyzer/src/data.py:199 | no entry is below 0 when counting from 0 |
| Retransmission.CountBelowAll | Analyzer/src/data.py:199 | when all entries lie in [0, n), all are below n |
| Retransmission.ParseLogSnoc | Analyzer/src/data.py:210-224 | one more line either stops at an earlier error, fails for lack of a second field, or adds that line's contribution |
| Retransmission.ParseLogSucceeds | Analyzer/src/data.py:209-224 | the file parses exactly when every line has a second field |
| Retransmission.FailureStops | Analyzer/src/data.py:209-224 | a failing prefix makes the whole file fail with its error |
| Retransmission.FailureCountIsFailedLines | Analyzer/src/data.py:213-214 | `retransmitFailureCount` is the number of lines whose first field is `F` |
| Retransmission.OneEntryPerLine | Analyzer/src/data.py:216-224 | each of the four lists has one entry per line |
| Retransmission.LogEntries | Analyzer/src/data.py:216-224 | entry k holds line k's steps after the first `/`, its character count minus one, and its tx and rx steps only when it has four fields |
| Retransmission.RetryCountBounds | Analyzer/src/data.py:217 | every retry count is at least -1 |
| Retransmission.OneLine | Analyzer/src/data.py:209-224 | a single-line file adds that line's contribution to the empty log |
| Retransmission.SuccessLineFields | Analyzer/src/data.py:211 | `S,/0/3/7` has the fields `S` and `/0/3/7` |
| Retransmission.SuccessLineSteps | Analyzer/src/data.py:216 | `/0/3/7` yields the steps `0`, `3`, `7` |
| Retransmission.SuccessLineExample | Analyzer/src/data.py:209-224 | `S,/0/3/7` is not a failure, has retry count 5 and empty tx and rx lists |
| Retransmission.FailureLineFields | Analyzer/src/data.py:211 | `F,/0/1,/0/5/9,/0/2/4` has four fields |
| Retransmission.FailureLineSteps | Analyzer/src/data.py:216-221 | its three slash lists yield `0 1`, `0 5 9` and `0 2 4` |
| Retransmission.FailureLineExample | Analyzer/src/data.py:209-224 | `F,/0/1,/0/5/9,/0/2/4` counts one failure, has retry count 3, and has tx steps `0 5 9` and rx steps `0 2 4` |
| Retransmission.SummariseCounts | Analyzer/src/data.py:192-200 | computes max, min, the sorted counts and the histogram of a non-empty count list |
| Retransmission.CountRetries | Analyzer/src/data.py:198-200 | the counting loop computes the histogram |
| Retransmission.RetransmitData.AppendLine | Analyzer/src/data.py:211-224 | appending one line extends the log by exactly that line's contribution |
| Retransmission.RetransmitData.ParseFile | Analyzer/src/data.py:202-224 | the loop sets the five attributes to the parse of the file or reports its error |
| Retransmission.RetransmitData.Summarise | Analyzer/src/data.py:192-200 | an empty count list fails in `np.max`; otherwise max, min, sorted counts and histogram are set |
| Retransmission.RetransmitData.SetDerived | Analyzer/src/data.py:192-200 | stores the derived values and leaves the parsed attributes unchanged |
| Retransmission.RetransmitData.Load | Analyzer/src/data.py:186-200 | an absent file leaves the object untouched; otherwise the sorted log and its histogram are stored, or the parse or `np.max` error is reported |
| RunData.Distance | Analyzer/src/data.py:15-18 | a missing transmitter or receiver fails with that key; otherwise the distance is the truncated square root of the squared distance between the centres |
| RunData.DistanceSwap | Analyzer/src/data.py:15-18 | swapping transmitter and receiver does not change the distance |
| RunData.TxDuplication | Analyzer/src/data.py:29-33 | the result is none exactly when no molecule is INFO; otherwise it is the duplication of the first INFO molecule |
| RunData.TxDuplicationFirstWins | Analyzer/src/data.py:31-33 | molecules after the first INFO one do not change the result |
| RunData.Ratio | Analyzer/src/data.py:57-61 | the division fails exactly on a zero divisor, and otherwise the quotient times the divisor is the dividend |
| RunData.RetransmissionRate | Analyzer/src/data.py:60-61 | `getRetransmissionNum` on the sorted counts is the sum of the parsed counts over the number of lines |
| RunData.RetransmissionPlot | Analyzer/src/data.py:35-39 | X is `0..len(Y)-1` and Y is the histogram |
| RunData.RetransmissionPlotCounts | Analyzer/src/data.py:35-39 | the plot has one point per retry count up to the maximum, and point i counts the lines with i retries |
| RunData.BucketCount | Analyzer/src/data.py:43-45 | `np.arange(0, yMax + 1000, 1000)` has the fewest points that reach past `yMax`, and none when `yMax + 1000 <= 0` |
| RunData.CountAbove | Analyzer/src/data.py:51 | counting entries above a bound counts at most all of them |
| RunData.CountInDifference | Analyzer/src/data.py:51 | entries in `(lo, hi]` are those above `lo` minus those above `hi` |
| RunData.NoneAbove | Analyzer/src/data.py:51 | nothing lies above an upper bound of all entries |
| RunData.Buckets | Analyzer/src/data.py:48-52 | the loop produces one count per interval |
| RunData.BucketsAt | Analyzer/src/data.py:48-52 | count i is the number of entries in `(1000 i, 1000 (i+1)]` |
| RunData.BucketsSum | Analyzer/src/data.py:48-52 | the counts add up to the entries in `(0, 1000 m]` |
| RunData.CollisionPlotShape | Analyzer/src/data.py:41-55 | X steps by 1000 and reaches the maximum; Y has one count per interval and ends with the appended 0 |
| RunData.CollisionPlotTotal | Analyzer/src/data.py:41-55 | the Y counts add up to the number of positive collision steps |
| RunData.CollisionPlot | Analyzer/src/data.py:41-55 | an empty list fails in `np.max`; otherwise the loop builds the plot |
| RunData.OpenResult | Analyzer/src/data.py:10 | opening the result log succeeds exactly when it loads, and then holds its parsed state |
| RunData.OpenAdjust | Analyzer/src/data.py:11 | the same for the adjustment log |
| RunData.OpenCollision | Analyzer/src/data.py:12 | the same for the collision log |
| RunData.OpenRetransmit | Analyzer/src/data.py:13 | the same for the retransmission log |
| RunData.OpenLogs | Analyzer/src/data.py:10-13 | all four logs open exactly when each loads, each in its parsed state |
| RunData.AllData.Open | Analyzer/src/data.py:6-13 | a run opens exactly when its configuration parses, names an output file, and its logs load; the object then holds the parsed configuration and logs |
| RunData.AllData.GetCollisionPlotData | Analyzer/src/data.py:41-55 | an absent log fails, an empty one fails in `np.max`, otherwise the result is the collision plot of `collisionNumData` |
| Analysis.GetValue | Analyzer/src/analyzer.py:25-34 | DISTANCE yields the distance, MEAN the mean, DUPLICATION the duplication or None, and ALL fails with "Not Define" |
| Analysis.Keys | Analyzer/src/analyzer.py:52-54 | one value per file, each that file's value |
| Analysis.Members | Analyzer/src/analyzer.py:63-68 | a group holds exactly the files whose value equals its label |
| Analysis.Groups | Analyzer/src/analyzer.py:61-68 | one group per label, each the members of that label |
| Analysis.FirstMissing | Analyzer/src/analyzer.py:53 | none exactly when every file is in `dataDict`; otherwise a file that is not |
| Analysis.FirstMissingAt | Analyzer/src/analyzer.py:52-53 | the first file missing from `dataDict` is the one the loop stops at |
| Analysis.KnownPrefix | Analyzer/src/analyzer.py:52-53 | a file found in `dataDict` extends the known prefix |
| Analysis.KnownPrefixes | Analyzer/src/analyzer.py:52-53 | every prefix of a known file list is known |
| Analysis.KnownDrop | Analyzer/src/analyzer.py:52-53 | a known list stays known without its last file |
| Analysis.KeysSnoc | Analyzer/src/analyzer.py:52-54 | the values of one more file extend the values of the prefix |
| Analysis.KeysAppendOne | Analyzer/src/analyzer.py:52-54 | the same, for a list extended by one file |
| Analysis.LabelsSnoc | Analyzer/src/analyzer.py:52-59 | one more file appends its value to the labels exactly when the value is new |
| Analysis.MembersSnoc | Analyzer/src/analyzer.py:63-68 | one more file joins exactly the group of its own value |
| Analysis.MembersAppend | Analyzer/src/analyzer.py:63-68 | the same, for a list extended by one file |
| Analysis.MembersStep | Analyzer/src/analyzer.py:63-68 | the same, for a prefix of the file list |
| Analysis.GroupsCons | Analyzer/src/analyzer.py:61-68 | the files of all groups are the first group's files followed by the rest |
| Analysis.GroupsGrow | Analyzer/src/analyzer.py:63-68 | one more file adds itself once to the groups when its value is a label, and nothing otherwise |
| Analysis.GroupsOfNothing | Analyzer/src/analyzer.py:61 | with no files every group is empty |
| Analysis.GroupsPartition | Analyzer/src/analyzer.py:61-68 | with distinct labels covering every file, the groups together hold each file exactly as often as the input |
| Analysis.KeysCovered | Analyzer/src/analyzer.py:52-59 | every file's value is among the labels |
| Analysis.GroupsNonEmpty | Analyzer/src/analyzer.py:61-68 | no group is empty |
| Analysis.ClassifyPartition | Analyzer/src/analyzer.py:45-70 | the groups are non-empty, partition the input files, and group i holds exactly the files whose value is label i |
| Analysis.ClassifyOrder | Analyzer/src/analyzer.py:49-59 | groups come in the order in which their values first occur in the file list |
| Analysis.GroupsEqual | Analyzer/src/analyzer.py:61-68 | a list of groups with the members of each label is the grouping |
| Analysis.YLists | Analyzer/src/analyzer.py:86-95 | one y list per label, each the y values of that label's files in file order |
| Analysis.YListSnoc | Analyzer/src/analyzer.py:87-95 | one more file appends its y value to exactly its label's list |
| Analysis.YListsEqual | Analyzer/src/analyzer.py:86-95 | a list of per-label y lists is the y lists |
| Analysis.YListsTotal | Analyzer/src/analyzer.py:86-95 | the y lists hold as many values as the groups hold files |
| Analysis.YListsOnePerFile | Analyzer/src/analyzer.py:86-95 | the y lists hold one value per file |
| Analysis.LabelValuesSeries | Analyzer/src/analyzer.py:72-96 | X and labels are duplicate-free, every file's x is in X, and there is one y list per label with one y per file in all |
| Analysis.Place | Analyzer/src/analyzer.py:66-68 | the inner loop appends the item to the list of every matching label and to no other list |
| Analysis.LabelStep | Analyzer/src/analyzer.py:52-59 | one turn of the label loop fails exactly on a file missing from `dataDict`, which is then the first missing file, and otherwise extends the labels |
| Analysis.CollectLabels | Analyzer/src/analyzer.py:49-59 | the label loop fails on the first missing file and otherwise yields the distinct values in first-seen order |
| Analysis.CollectGroups | Analyzer/src/analyzer.py:61-68 | the grouping loop computes the groups |
| Analysis.CollectSeries | Analyzer/src/analyzer.py:73-84 | the first loop of `getLabelValues` stops on the first missing file or undefined selector, and otherwise yields the distinct x values and labels |
| Analysis.AddY | Analyzer/src/analyzer.py:88-95 | one turn of the y loop extends each label's y list by this file's y exactly when the label matches |
| Analysis.CollectYLists | Analyzer/src/analyzer.py:86-95 | the y loop fails on an undefined y selector when there is a file, and otherwise yields the y lists |
| Analysis.Analyzer.ClassifyDataFile | Analyzer/src/analyzer.py:45-70 | ALL yields the whole file list as one group; otherwise it fails on the first missing file or returns the grouping |
| Analysis.Analyzer.GetLabelValues | Analyzer/src/analyzer.py:72-96 | fails with the first error the two loops meet, and otherwise returns X, the y lists and the labels |

## Left out

- Reading files is left out. The file system is a map from path to lines, and a line is modelled without its trailing newline. The source keeps the newline. That would add one to `len(datas[1]) - 1` on a two-field retransmission line, and would make a NOISE molecule line without a size fail `MoleculeType["NOISE\n"]`.
- Float values are not modelled. The float-valued keys, the FEC rate and the molecule size stay as token text. `math.sqrt` followed by `int()` is the exact integer square root, which ignores floating-point rounding for very large squared distances.
- Records.ParseFec, Records.ParseMoleculeParams and Config.ParseEntry: `float()` raises ValueError on a token that is not a number, such as `abc` in `RS 3 abc` (data.py:88, 262, 265, 301). The model keeps the token text and lets such lines parse.
- RunData.Ratio: the quotient is an exact real, where Python's `/` gives a rounded float.
- Text.ParseInt: Python's `int()` also accepts underscores between digits (`1_000`) and non-ASCII Unicode digits. The model accepts only ASCII digits with an optional sign, so such tokens fail in the model.
- Text.Strip: `IsSpace` is the set of characters `str.isspace()` accepts. Python's `int()` also strips whitespace around its argument, but the model's `ParseInt` does not. So a token such as `3\t`, which `int()` reads as 3, fails in the model when no `strip()` precedes it.
- `ResultData`'s mean, standard deviation and median (`np.mean`, `np.std`, `np.median`) and the `getMean`, `getMedian` and `getJitter` getters are left out. The analyzer receives the mean as an opaque real in `RunValues`.
- The collision sub-count attributes (`collisionAA` to `collisionIN`, set by `appendCollision`) are left out, because nothing reads them. The model only requires the five `/`-parts to exist, as the indexing does.
- `Analyzer.getLabel` and the drawing methods of `Analyzer` are left out. `getLabel` is never called by the modelled operations and refers to a non-existent `XValue.Duplication`. `main.py` is not part of this model.
- Printing is left out: `print(fileName)` in `getLabelValues` and the message before `sys.exit(1)`.
- Analysis.GetValue: Python compares `3 == 3.0` as equal, so a distance equal to a mean would share a label. The model's `IntValue(3)` and `MeanValue(3.0)` differ. This matters only when one selector mixes kinds, which the enumerations do not do.
- Analysis.RunValues: distance is an integer. The case where `getDistance` raises inside the analyzer (missing transmitter or receiver) is not modelled there. It is modelled in `RunData.Distance`.
- RunData.AllData.GetDistance, RunData.AllData.GetTxDuplication, RunData.AllData.GetRetransmissionPlotData, RunData.AllData.GetCollisionNum and RunData.AllData.GetRetransmissionNum have no contract of their own. Each returns `Failure(AbsentLog)` for an unloaded log and otherwise applies `Distance`, `TxDuplication`, `RetransmissionPlot` or `Ratio`, whose contracts are in the table.
- Integers are unbounded. NumPy's `dtype=int` overflow is not modelled.
