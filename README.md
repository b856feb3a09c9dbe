# kite-common stats engine, modelled in Dafny

This project models the WebRTC statistics engine of kite-common
(`util/statsUtils.js`). A test harness captures periodic `getStats()`
reports for each peer connection. The engine turns them into one small table of
session metrics per connection. The metrics are round-trip times, byte totals,
average bitrates, audio jitter and packet losses. The model follows the
engine's five layers.

- **Classification and indexing** (`classify.dfy`, `index.dfy`).
  `buildSingleStatObject` keeps the entries of one report that pass the
  allow-list and whose type tag is one of the ten known tags. It groups them by
  tag, then indexes each group by record id; a later record with the same id
  wins. The allow-list test is modelled as written: a SUBSTRING search in the
  JSON text of the list, not a membership test.
- **Selectors** (`selectors.dfy`). `getSuccessfulCandidate` picks the active
  candidate pair in two ordered passes. `getRTCStats` picks the first stream
  record of a media kind. A JavaScript object's key order is its insertion
  order, so every dictionary is a sequence of (key, value) pairs (`dicts.dfy`).
- **Projection** (`projection.dfy`). `getStatsJsonBuilder` copies a fixed
  list of fields from the selected record.
- **Aggregators** (`aggregators.dfy`, `bitrate.dfy`). These are
  `computeRoundTripTime`, `totalBytes`, `computeBitrate`, `computeAudioJitter`
  and `computePacketsLoss`. Each loop is a method proved against a recursive
  specification function, and the properties are proved about that function.
- **Pipeline** (`pipeline.dfy`). `extractJson` builds the per-snapshot
  projections and then the metric table. `extractStats` builds the
  `localPC` / `remotePC[i]` table over all peer connections.

A field value is `NA` (the "NA" sentinel), `Absent` (undefined or null) or
`Num(x)`. A key missing from a record's field map means the record has no
such property. A metric is `Undefined`, `Empty` (the empty string),
`Number(x)` or `NotANumber`. Arithmetic is on exact reals. `Math.round(x)` is the
integer `r` with `x - 1/2 < r <= x + 1/2`. Reading a property (`Values.Field`)
gives its value, or `Absent` when the record lacks it. `Values.ParseFloat` gives a
finite number for a numeric field and NaN otherwise. A record built from a raw
entry (`Classify.Build`) keeps the entry's id, state, mediaType and fields; the
class constructors are not part of this model.

The engine's quirks are modelled as the code has them:

- The round-trip-time guard admits only a sample equal to zero, so the average
  is always 0 or "" (`util/statsUtils.js:223`).
- The bitrate bounds use 0 as "not yet set", so a zero byte sample is replaced
  by the next one.
- The timestamp guard tests the byte value `s`, not `ts`.
- Equal first and last timestamps give 0, not "" (`util/statsUtils.js:258,291-296`).
- Fewer than two snapshots give an undefined bitrate: the early `return;`
  returns `undefined`, not "" (`util/statsUtils.js:261-264`).
- The rows compare the lower-cased direction, but the table compares the
  direction as given. So "IN" produces inbound rows but only the six base
  metrics.

`computeRoundTripTime` and `totalBytes` read `jsonObject["candidate-pair_" + i]`
without a check. When that entry is missing, the loop throws, the exception is
caught and the loop stops. The model stops at the first missing entry (`Halt`).
`PipelineReadsEverySnapshot` proves that this never happens for tables that
`extractJson` builds itself.

## Model

| member | source | states |
|---|---|---|
| Values.Round | util/statsUtils.js:294 | Math.round gives the integer within one half of its argument, halves rounded up |
| Values.Abs | util/statsUtils.js:293 | Math.abs is non-negative and equals the argument or its negation |
| Dicts.Keys | util/statsUtils.js:95-96 | Object.keys lists the keys position by position |
| Dicts.Get | util/statsUtils.js:85 | a lookup is undefined exactly when the key is not present |
| Dicts.PutGet | util/statsUtils.js:100 | after `o[k] = v`, reading k gives v and every other key is unchanged |
| Dicts.PutFresh | util/statsUtils.js:102 | assigning a new key appends it after the existing keys |
| Dicts.PutKeepsKeys | util/statsUtils.js:100 | assigning an existing key keeps the key order |
| Dicts.PutKeys | util/statsUtils.js:100 | the keys after an assignment: unchanged if present, else the new key last |
| Dicts.PutUnique | util/statsUtils.js:100 | assignment never creates a duplicate key |
| Dicts.GetAppend | util/statsUtils.js:102 | an appended entry is visible only for a key not already present |
| Dicts.PutPairs | util/statsUtils.js:100 | every entry after an assignment is the new one or was there before |
| Classify.ClassOf | util/statsUtils.js:50-83 | exactly the ten listed tags get a record class; "track" gets the codec class; inbound and outbound RTP are told apart |
| Classify.ContainsMiddle | util/statsUtils.js:48 | indexOf finds a string that sits between two others |
| Classify.RenderedNamesOccur | util/statsUtils.js:43 | every listed name occurs, quoted, in the JSON text of the list |
| Classify.ListedTagsPass | util/statsUtils.js:43-48 | a tag named in the allow-list passes, and with no list every tag passes |
| Classify.SubstringNotMembership | util/statsUtils.js:43-48 | a list naming only "codecs" lets "codec" entries through: the test is a substring search |
| Classify.EmptyListDropsAll | util/statsUtils.js:43-48 | an empty allow-list drops every entry of a known tag |
| Index.BuildSingleStatObject | util/statsUtils.js:40-106 | the two passes build the indexed snapshot of the report; a missing report gives the empty snapshot |
| Index.GroupEntries | util/statsUtils.js:44-93 | the first pass groups the kept entries' records by tag in entry order |
| Index.IndexEachGroup | util/statsUtils.js:94-104 | the second pass indexes each group by record id under its tag |
| Index.GroupedShape | util/statsUtils.js:84-89 | each tag's group holds that tag's kept records in entry order; no tag twice |
| Index.IndexGroupGet | util/statsUtils.js:98-101 | within a group, an id reads the last record with that id |
| Index.IndexGroupUnique | util/statsUtils.js:97-101 | no id occurs twice in a group |
| Index.IndexGroupsShape | util/statsUtils.js:95-103 | each tag maps to its indexed group; neither level repeats a key |
| Index.KeptRecords | util/statsUtils.js:44-101 | the last record with an id within a tag's group is the last kept entry with that tag and id |
| Index.IndexedRecords | util/statsUtils.js:40-106 | `snapshot[tag][id]` is the record of the last kept entry with that tag and id, else missing |
| Index.LaterEntryWins | util/statsUtils.js:98-101 | a kept entry at the end of the report replaces any earlier record with its tag and id |
| Index.DroppedEntryChangesNothing | util/statsUtils.js:46-90 | an entry that fails the allow-list or has an unknown tag leaves the snapshot unchanged |
| Selectors.FirstFromIsFirst | util/statsUtils.js:113-124 | the ordered scan returns the lowest-positioned match, and null exactly when nothing matches |
| Selectors.GetSuccessfulCandidate | util/statsUtils.js:108-126 | the two passes with early return compute the selected pair |
| Selectors.NoPairGroupGivesNull | util/statsUtils.js:109-112 | a snapshot without a candidate-pair group selects no pair |
| Selectors.CandidatePriority | util/statsUtils.js:108-126 | the first "succeeded" pair wins; failing that the first live "in-progress" pair; otherwise null |
| Selectors.SelectedPairState | util/statsUtils.js:115-123 | the selected pair is succeeded or live in-progress, and succeeded whenever any pair is |
| Selectors.SucceededAmongThree | util/statsUtils.js:113-118 | a succeeded pair wins over a live in-progress pair listed before it |
| Selectors.GetRTCStats | util/statsUtils.js:128-139 | the result is the first record of the group with the media kind; null exactly when there is none or no group |
| Projection.GetStatsJsonBuilder | util/statsUtils.js:362-384 | the keys are exactly the listed names the selected record has, with its values; no record gives the empty object |
| Pipeline.CountersAreProjected | util/statsUtils.js:207-215 | the counter each bitrate series reads ("Sent", "Received", "in", "out") is a field the rows keep for that series |
| Aggregators.ObjectNamesMatchRows | util/statsUtils.js:200-205 | the bitrate series names are the prefixes the rows are stored under |
| Aggregators.HaltFromBounds | util/statsUtils.js:220-230 | the loop stops at the first missing candidate-pair entry at or after `i`, or at noStats |
| Aggregators.HaltBounds | util/statsUtils.js:220-230 | the loop stops at the first missing candidate-pair entry, or at noStats |
| Aggregators.NoHaltWhenComplete | util/statsUtils.js:221-222 | with every entry present the loop reads all noStats snapshots |
| Aggregators.ComputeRoundTripTime | util/statsUtils.js:217-235 | the loop computes the mean of 1000 times each qualifying sample, or "" |
| Aggregators.RttSumIsZero | util/statsUtils.js:223-224 | only zero samples pass the guard, so the sum is 0 |
| Aggregators.RttCountZero | util/statsUtils.js:223-225 | no sample is counted exactly when no sample is zero |
| Aggregators.RoundTripTimeIsZeroOrEmpty | util/statsUtils.js:223-234 | the result is 0 or "", and "" exactly when no sample read is zero |
| Aggregators.AllNaRoundTripTime | util/statsUtils.js:221-234 | an all-"NA" series gives "" |
| Aggregators.TotalBytes | util/statsUtils.js:237-251 | the loop computes the maximum of 0 and the valid samples |
| Aggregators.MaxBytesIsMax | util/statsUtils.js:240-246 | the running maximum is non-negative, at least every valid sample, and 0 or one of them |
| Aggregators.TotalBytesIsMax | util/statsUtils.js:237-251 | the total is a number, non-negative, at least every valid sample, and 0 or one of the samples |
| Aggregators.ComputeAudioJitter | util/statsUtils.js:303-329 | the loop computes the jitter metric |
| Aggregators.JitterSumAbove | util/statsUtils.js:315-318 | a lower bound on every sample bounds the sum below by count times bound |
| Aggregators.JitterSumBelow | util/statsUtils.js:315-318 | an upper bound on every sample bounds the sum above by count times bound |
| Aggregators.JitterSumBounds | util/statsUtils.js:311-320 | the sum lies between count times 1000 times the least and the greatest sample bound |
| Aggregators.JitterCountZero | util/statsUtils.js:313-318 | no sample is counted exactly when no jitter sample is present and not "NA" |
| Aggregators.AudioJitterIsMean | util/statsUtils.js:303-329 | "" exactly below two snapshots or with no valid sample; otherwise a mean within 1000 times the sample bounds |
| Aggregators.ComputePacketsLoss | util/statsUtils.js:331-360 | the loss is "" or a number |
| Aggregators.PacketsLossEmpty | util/statsUtils.js:332-359 | "" exactly with no snapshot, no record, a missing or "NA" counter, or no packets |
| Aggregators.PacketsLossReadsLastOnly | util/statsUtils.js:337 | only snapshot noStats-1 is read |
| Aggregators.PacketsLossOfLastSnapshot | util/statsUtils.js:337-348 | with at least one packet in all, the loss is round(1000 * lost / total) / 1000, a negative lost counter included |
| Aggregators.PacketsLossIsFraction | util/statsUtils.js:341-348 | with non-negative counters the loss is a number between 0 and 1 |
| Aggregators.NegativeLossExample | util/statsUtils.js:341-348 | 100 received and -2 lost give -0.02 |
| Aggregators.PacketsLossExample | util/statsUtils.js:342-348 | 97 received and 3 lost give 0.03 |
| Bitrate.ComputeBitrate | util/statsUtils.js:253-301 | the loop computes the bitrate metric, undefined exactly below two snapshots |
| Bitrate.Iterate | util/statsUtils.js:268-289 | one iteration updates the byte bounds and the end timestamps as the loop body does |
| Bitrate.Average | util/statsUtils.js:291-296 | the tail gives 0 for equal timestamps, NaN for a NaN timestamp, else the rounded absolute rate |
| Bitrate.LowestIsLeast | util/statsUtils.js:272-274 | the least valid byte sample is at most every valid sample, is one of them, and is missing exactly when none is valid |
| Bitrate.HighestIsGreatest | util/statsUtils.js:272-275 | the greatest valid byte sample is at least every valid sample, is one of them, and is missing exactly when none is valid |
| Bitrate.BoundsNonZero | util/statsUtils.js:274-275 | without zero samples neither bound is zero |
| Bitrate.BytesStartIsLowest | util/statsUtils.js:274 | without zero samples bytesStart is the least valid sample, 0 when there is none |
| Bitrate.BytesEndIsHighest | util/statsUtils.js:275 | without zero samples bytesEnd is the greatest valid sample, 0 when there is none |
| Bitrate.TimestampBounds | util/statsUtils.js:277-289 | tsStart comes from index 0 and tsEnd from the last index, each only when taken |
| Bitrate.BitrateFormula | util/statsUtils.js:291-296 | the bitrate is round(abs(8000 * (max - min) / (tsLast - tsFirst))), or 0 for equal timestamps |
| Bitrate.BitrateExample | util/statsUtils.js:253-301 | bytes 1000, 2000, 4000 at 0, 1000, 2000 ms give 12000 bps |
| Bitrate.ZeroSampleIsOverwritten | util/statsUtils.js:274-275 | a leading zero sample is replaced by the next, so the rate ignores it |
| Bitrate.NaBytesHideLastTimestamp | util/statsUtils.js:281 | an "NA" byte value in the last snapshot leaves tsEnd at 0 |
| Pipeline.Lower | util/statsUtils.js:165 | toLowerCase maps each character, letter by letter |
| Pipeline.RowsOf | util/statsUtils.js:163-173 | the rows are one projection row per snapshot, in order |
| Pipeline.Assign | util/statsUtils.js:178 | assigning a new metric key appends it last |
| Pipeline.ProjectSnapshot | util/statsUtils.js:164-172 | one iteration stores the candidate-pair projection, plus the directional ones the lower-cased direction selects |
| Pipeline.ExtractJson | util/statsUtils.js:155-198 | the result is the metric table over the capture's snapshots, none when statsArray is missing |
| Pipeline.SectionKeysFresh | util/statsUtils.js:178-196 | every section's keys are new when the section is added |
| Pipeline.AddBaseMetrics | util/statsUtils.js:178-183 | the six base metrics come first, in source order |
| Pipeline.AddRoundTripTimes | util/statsUtils.js:178-179 | the current and total round-trip times, in that order |
| Pipeline.AddByteTotals | util/statsUtils.js:180-181 | the received and sent byte totals are appended |
| Pipeline.AddCandidatePairBitrates | util/statsUtils.js:182-183 | the sent and received bitrates are appended |
| Pipeline.AddInboundBitrates | util/statsUtils.js:184-187 | the inbound audio and video bitrates are appended |
| Pipeline.AddOutboundBitrates | util/statsUtils.js:188-191 | the outbound audio and video bitrates are appended |
| Pipeline.AddInboundQuality | util/statsUtils.js:192-196 | jitter and the two losses are appended |
| Pipeline.BuildMetrics | util/statsUtils.js:177-197 | the assignments build the metric table the direction selects |
| Pipeline.KeyListDistinct | util/statsUtils.js:178-195 | the thirteen metric names are pairwise distinct |
| Pipeline.SectionsKeys | util/statsUtils.js:177-197 | the key list of a table assembled from its sections, with no key twice |
| Pipeline.TableKeys | util/statsUtils.js:177-197 | the table's keys are the selected sections' names in order, none twice |
| Pipeline.KeyListSizes | util/statsUtils.js:178-196 | 13 names for both directions, 11 inbound without outbound bitrates, 8 outbound without jitter |
| Pipeline.DirectionSelectsSections | util/statsUtils.js:184-196 | "both" gives 13 metrics, "in" 11, "out" 8, anything else the 6 base metrics |
| Pipeline.UpperCaseDirection | util/statsUtils.js:165-192 | "IN" and "BOTH" select inbound rows, but the table holds only the base metrics |
| Pipeline.PipelineReadsEverySnapshot | util/statsUtils.js:163-164 | every row has its candidate-pair entry, so the aggregators read every snapshot |
| Pipeline.EmptyCapture | util/statsUtils.js:157-198 | no snapshots give "" round-trip times, 0 byte totals, undefined bitrates and "" jitter and losses |
| Pipeline.SentSampleOfActivePair | util/statsUtils.js:164 | the sent-bytes sample of a row is the selected pair's bytesSent |
| Pipeline.SentTotalCoversEverySnapshot | util/statsUtils.js:180-181 | the fourth metric is the sent total and is at least the selected pair's bytesSent in every snapshot |
| Extraction.NatToString | util/statsUtils.js:149 | decimal text of an index: one digit below 10, ending in the last digit |
| Extraction.NatToStringInjective | util/statsUtils.js:149 | different indices have different decimal texts |
| Extraction.RemoteKeysDistinct | util/statsUtils.js:144-149 | "remotePC[i]" keys differ from "localPC" and from each other |
| Extraction.NumberedKeyAt | util/statsUtils.js:144-149 | position k holds "localPC" or the k-th "remotePC[...]" key |
| Extraction.NumberedKeysDiffer | util/statsUtils.js:144-149 | two positions of the table hold different keys |
| Extraction.NumberedUnique | util/statsUtils.js:141-153 | no key occurs twice in the table |
| Extraction.PutNext | util/statsUtils.js:149 | assigning the next receiver appends its entry |
| Extraction.StatsTableShape | util/statsUtils.js:141-153 | the sender's "out" table under "localPC" if present, then receiver j's "in" table under "remotePC[j]", no key twice |
| Extraction.ExtractStats | util/statsUtils.js:141-153 | the loop builds that table |

## Left out

- `buildClientStatObject` (util/statsUtils.js:8-38) is not part of this model. It copies SDP offer and answer fields, and its try/catch turns any error into `{}`. Its per-report loop is a plain map of `buildSingleStatObject`.
- The `RTCstats` record constructors and `getJsonBuilder` are not part of this model. A record is its id, state, mediaType and an opaque field map that is copied unchanged.
- `console.log` calls are left out. So are try/catch blocks that cannot fire on the modelled inputs.
- Field values are parsed numbers, "NA" or missing. Text that parseFloat cannot read (other than "NA") is not modelled, and neither are IEEE floating point, overflow and rounding error: arithmetic is exact.
- Aggregators.RttQualifies: treats a zero value as the text "0". The source compares the raw string, so "0.0" would not pass there.
- A metric is kept as the number; its decimal text (`"" + x`) is not modelled.
- JavaScript puts integer-like keys (such as an id "1") before other keys whatever the insertion order. The model keeps insertion order only.
- The allow-list rendering does not escape quotes or backslashes in names, as `JSON.stringify` would. An undefined (rather than null) allow-list, for which `.length` throws, is not modelled.
- `extractJson` throws for an undefined or null capture (util/statsUtils.js:157), and so does `extractStats` for a null sender or an undefined receiver. The model takes an optional sender and a sequence of captures.
- Pipeline.Lower: only ASCII letters are lower-cased; other Unicode case mappings are not modelled.
- Aggregators.ComputePacketsLoss: its own contract says only "" or a number. When it is "" is stated by PacketsLossEmpty, its value otherwise by PacketsLossOfLastSnapshot, and that only the last snapshot is read by PacketsLossReadsLastOnly.
- The files util/TestStep.js, wdmgmt/WebDriverUtility.js and report/index.js (test steps, browser driver set-up and reporting) are not part of this model.
