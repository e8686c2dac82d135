# Quarterly deviation engine of the vessel emissions service

This project models the analytics core of the vessel-emissions backend: the
`EmissionsService` in `backend/src/services/emissions.service.ts`. For every
vessel that has "PP" (Poseidon Principles) reference lines for its vessel type,
the service does four things:

- it buckets the vessel's emission records by the calendar quarter of their
  `toUTC` instant, in a dictionary keyed by `${year}-Q${quarter}`;
- it reads each key back with `split('-Q')` and `parseInt`;
- it takes the last record of each bucket as the quarter's representative;
- it pushes one `QuarterlyDeviation` per quarter. The baseline is the minimum of
  the baseline curve for that year and the vessel's deadweight. The deviation is
  the guarded percentage `baseline > 0 ? (actual - baseline) / baseline * 100 : 0`.

All the pushed records are finally sorted by date with the stable
`Array.prototype.sort`.

The model follows the code's own shape:

- `groupEmissionsByQuarter` is an imperative loop that fills a dictionary. It
  becomes a method that builds a `map` plus the sequence of its keys in
  insertion order, which is the order `Object.entries` yields for such keys.
- The nested loops of `getQuarterlyDeviations` become methods that push onto a
  sequence.
- The quarter formula and the deviation expression are functions.

Each method is proved against a specification function: `Group`, `Entries`,
`PushVessel`, `Deviations` and `SortByDate`. The properties the code promises
are proved as lemmas about those functions.

Modules:

- `Wrappers`: `Option`.
- `KeyFormat`: decimal rendering, `split` and `parseInt`, and the key round trip.
- `EmissionTypes`: the records.
- `QuarterGrouping`: the quarter formula, the buckets and the grouping method.
- `DateSort`: the stable sort by date.
- `DeviationEngine`: the reference-line filter, the deviation formula and the
  vessel and quarter loops.

## Model

| member | source | states |
|---|---|---|
| QuarterGrouping.QuarterOf | backend/src/services/emissions.service.ts:103 | `ceil(month / 3)` lies in 1..4. It is the quarter `q` with `3(q-1) < month <= 3q`, so months 1-3, 4-6, 7-9 and 10-12 give quarters 1, 2, 3 and 4. |
| QuarterGrouping.KeyOf | backend/src/services/emissions.service.ts:100-103 | A record's quarter has the year of its `toUTC` instant, and its number `q`, in 1..4, is the one whose months `3(q-1)+1 .. 3q` include the record's month. |
| QuarterGrouping.KeyString | backend/src/services/emissions.service.ts:104 | A quarter's key `${year}-Q${quarter}` splits at `-Q` into exactly the year's and the quarter's decimal pieces. `KeyStringInjective` states that no two quarters share one. |
| QuarterGrouping.Bucket | backend/src/services/emissions.service.ts:106-109 | A quarter's bucket holds only input records of that quarter and is no longer than the input. |
| QuarterGrouping.QuarterKeys | backend/src/services/emissions.service.ts:55 | The quarters in the order `Object.entries` yields their keys: the order each is first seen. It has no contract of its own; `QuarterKeysComplete`, `QuarterKeysDistinct`, `QuarterKeysInRange` and `BucketNonEmpty` state what it lists, and `FirstSeenOrder` states its order. |
| QuarterGrouping.QuarterKeysComplete | backend/src/services/emissions.service.ts:99-110 | Every record's quarter is among the dictionary's quarters. |
| QuarterGrouping.QuarterKeysDistinct | backend/src/services/emissions.service.ts:106-108 | No quarter is listed twice. |
| QuarterGrouping.FirstSeenOrder | backend/src/services/emissions.service.ts:99-110 | Keys are listed in the order they are first inserted: for quarters `i < j` in the list, some record of quarter `i` comes before every record of quarter `j`. This is the order `Object.entries` yields at line 55. |
| QuarterGrouping.QuarterKeysInRange | backend/src/services/emissions.service.ts:103 | Every listed quarter number is in 1..4. |
| QuarterGrouping.BucketNonEmpty | backend/src/services/emissions.service.ts:106-109 | A quarter has a key exactly when its bucket is non-empty, so no bucket is empty. |
| QuarterGrouping.RecordInOwnBucket | backend/src/services/emissions.service.ts:99-110 | An input record is in the bucket of its own (year, quarter) and in no other. |
| QuarterGrouping.TotalSizeAppend | backend/src/services/emissions.service.ts:109 | One more record adds one to the total size of the listed buckets exactly when its quarter is listed. |
| QuarterGrouping.BucketSizesSum | backend/src/services/emissions.service.ts:99-110 | The bucket sizes add up to the number of input records: the buckets partition the input. |
| QuarterGrouping.BucketSorted | backend/src/services/emissions.service.ts:109 | Appending keeps input order, so time-ordered input gives time-ordered buckets. |
| QuarterGrouping.LastOfBucket | backend/src/services/emissions.service.ts:60 | The bucket's last element is the last input record of that quarter. |
| QuarterGrouping.RepresentativeIsLatest | backend/src/services/emissions.service.ts:60 | For input ordered by `toUTC`, the bucket's last element has the latest `toUTC` in its bucket. |
| QuarterGrouping.KeyStringInjective | backend/src/services/emissions.service.ts:104 | Different quarters get different key strings. |
| QuarterGrouping.KeyPresent | backend/src/services/emissions.service.ts:106 | A quarter's key is among the keys exactly when the quarter is among the quarters seen. |
| QuarterGrouping.FileRecord | backend/src/services/emissions.service.ts:106-109 | Creating the bucket on first sight and then pushing the record keeps the dictionary faithful to the records seen so far. |
| QuarterGrouping.FileIntoSeenQuarter | backend/src/services/emissions.service.ts:109 | The same, for a key that is already present. |
| QuarterGrouping.FileIntoNewQuarter | backend/src/services/emissions.service.ts:106-109 | The same, for a new key: it is appended to the key order with a one-record bucket. |
| QuarterGrouping.Group | backend/src/services/emissions.service.ts:96-113 | The dictionary after filing every record: it has at most one key per record, and its key list names exactly the keys the dictionary holds. `GroupRepresents` states what each key holds. |
| QuarterGrouping.GroupSnoc | backend/src/services/emissions.service.ts:106-109 | Grouping one more record is one creation-then-push step on the previous dictionary. |
| QuarterGrouping.GroupRepresents | backend/src/services/emissions.service.ts:96-113 | The dictionary's keys are `${year}-Q${quarter}` of the quarters in first-seen order, with no other keys. Each key holds exactly that quarter's records, in input order. |
| QuarterGrouping.GroupedAt | backend/src/services/emissions.service.ts:55 | Entry `n` of `Object.entries` is the key of the `n`-th quarter seen, paired with that quarter's bucket. |
| QuarterGrouping.GroupedEntry | backend/src/services/emissions.service.ts:55 | Entry `n` of a dictionary the grouping returned: its key is the key of the `n`-th quarter seen, is present, and holds that quarter's bucket. |
| QuarterGrouping.GroupSize | backend/src/services/emissions.service.ts:55 | The dictionary has one key per quarter seen. |
| QuarterGrouping.GroupEmissionsByQuarter | backend/src/services/emissions.service.ts:96-113 | The loop builds exactly the dictionary `Group` describes, keys in insertion order. `GroupRepresents` gives its meaning. |
| KeyFormat.LeadingDigits | backend/src/services/emissions.service.ts:57 | `parseInt` reads the longest digit prefix: all digits, and no digit follows it. |
| KeyFormat.Split | backend/src/services/emissions.service.ts:56 | `split('-Q')` yields at least one piece. Joining the pieces with the separator gives back the key, and no piece contains `-Q`: the key is cut at every occurrence. |
| KeyFormat.ParseInt | backend/src/services/emissions.service.ts:57 | `parseInt` yields `NaN` exactly when no digit follows the optional sign. A negative result comes only from a leading minus sign. |
| KeyFormat.FormatKey | backend/src/services/emissions.service.ts:104 | `${year}-Q${quarter}`: splitting the key at `-Q` gives back exactly the year's and the quarter's decimal pieces. |
| KeyFormat.NatToString | backend/src/services/emissions.service.ts:104 | `${n}` of a natural number is a non-empty digit string that denotes `n` again. |
| KeyFormat.IntToString | backend/src/services/emissions.service.ts:104 | `${year}` of any integer year: `parseInt` reads it back as exactly that year. |
| KeyFormat.QuarterLabel | backend/src/services/emissions.service.ts:82 | `Q${quarter}`: the quarter's piece behind a `Q`, which dropping the `Q` gives back. |
| KeyFormat.NatToStringDigits | backend/src/services/emissions.service.ts:104 | `${n}` of a natural number is a non-empty digit string without a leading zero. |
| KeyFormat.IntToStringShape | backend/src/services/emissions.service.ts:104 | `${year}` is digits, with a leading minus sign exactly for negative years. |
| KeyFormat.LeadingDigitsOfDigits | backend/src/services/emissions.service.ts:57 | On an all-digit string the digit prefix is the whole string. |
| KeyFormat.SplitWithoutQ | backend/src/services/emissions.service.ts:56 | A piece without `Q` is not split. |
| KeyFormat.SplitAfterPrefix | backend/src/services/emissions.service.ts:56 | A first piece without `Q` ends at the first `-Q`. |
| KeyFormat.KeyRoundTrip | backend/src/services/emissions.service.ts:56-57 | Splitting `${year}-Q${quarter}` at `-Q` gives exactly the two written pieces, and `parseInt` of the first gives the year back. This holds for every integer year. |
| KeyFormat.FormatKeyInjective | backend/src/services/emissions.service.ts:104 | Equal keys come from equal (year, quarter) pairs. |
| KeyFormat.ParseKey | backend/src/services/emissions.service.ts:55-57 | A key taken from the dictionary splits into two pieces: the year (via `parseInt`) and the quarter's digits. |
| DateSort.WithDate | backend/src/services/emissions.service.ts:93 | The records of one date, taken from a sequence: only records of the sequence with that date, and no more of them than the sequence has. |
| DateSort.SortByDate | backend/src/services/emissions.service.ts:93 | The sort by `getTime(date)`: the result is ordered by date and is a permutation of its input. |
| DateSort.WithDateSnoc | backend/src/services/emissions.service.ts:93 | The records of a date in `s + [x]` are those in `s`, followed by `x` when `x` has that date. |
| DateSort.InsertByDateMultiset | backend/src/services/emissions.service.ts:93 | One insertion step of the sort adds exactly the inserted record. |
| DateSort.InsertByDateSorted | backend/src/services/emissions.service.ts:93 | One insertion step keeps a date-ordered sequence ordered. |
| DateSort.InsertByDateStable | backend/src/services/emissions.service.ts:93 | The inserted record goes after every record of its own date. |
| DateSort.SortByDateStable | backend/src/services/emissions.service.ts:93 | The sort is stable: for every date, the records of that date keep their input order. |
| DateSort.DateKey | backend/src/services/emissions.service.ts:93 | The sort key `new Date(date).getTime()`: the millisecond count of the record's instant. It has no contract of its own; `SortByDate` and `SortByDateStable` state the order it induces. |
| DeviationEngine.FindFactors | backend/src/services/emissions.service.ts:40-45 | The reference-line query returns exactly the table rows of the vessel's type with category `PP`. |
| DeviationEngine.EffectiveDwt | backend/src/services/emissions.service.ts:65 | `dwt \|\| 50000`: the recorded deadweight when present and non-zero, else 50000. It is never zero. |
| DeviationEngine.Deviation | backend/src/services/emissions.service.ts:77 | A baseline that is not positive gives a deviation of exactly 0. |
| DeviationEngine.DeviationMeaning | backend/src/services/emissions.service.ts:77 | Against a positive baseline: `deviation * baseline == (actual - baseline) * 100`. The deviation is positive exactly when actual > baseline, zero exactly when they are equal, and above -100 exactly when actual > 0. |
| DeviationEngine.Entry | backend/src/services/emissions.service.ts:79-88 | The record pushed for a quarter from its last record. Its deviation is 0 against a baseline that is not positive, and is positive exactly when the baseline is positive and the actual emissions exceed it. |
| DeviationEngine.EntryFor | backend/src/services/emissions.service.ts:60-62 | What one dictionary entry contributes: at most one record, and one exactly when the vessel has records in that quarter. |
| DeviationEngine.Entries | backend/src/services/emissions.service.ts:55-89 | The records after the first `n` passes of the loop over one vessel's entries. It has no contract of its own; `EntriesAppend`, `EntriesCount` and `EntriesAt` state what it holds. |
| DeviationEngine.PushVessel | backend/src/services/emissions.service.ts:38-89 | One pass of the vessel loop only appends, and what it appends is exactly what the vessel contributes on its own. |
| DeviationEngine.VesselDeviations | backend/src/services/emissions.service.ts:47-89 | What one vessel contributes: every record carries that vessel's IMO number and name. `VesselDeviationsCount` gives how many. |
| DeviationEngine.EntriesNameVessel | backend/src/services/emissions.service.ts:79-81 | Every record pushed for a vessel carries its IMO number and name. |
| DeviationEngine.Deviations | backend/src/services/emissions.service.ts:38-90 | The records pushed for all vessels, before sorting: exactly one per quarter of every vessel that has `PP` reference lines, counted by the independent `QuarterCount`. |
| DeviationEngine.QuarterCount | backend/src/services/emissions.service.ts:38-90 | The reference count of records: the quarters of all vessels with `PP` reference lines. It is at least the quarter count of each such vessel. |
| DeviationEngine.DeviationsSnoc | backend/src/services/emissions.service.ts:38-90 | One more vessel is one more pass of the vessel loop over the records pushed so far. |
| DeviationEngine.EntriesAppend | backend/src/services/emissions.service.ts:79 | Pushing only appends: the earlier records stay in front, unchanged. |
| DeviationEngine.EntriesCount | backend/src/services/emissions.service.ts:55-89 | Quarters with non-empty buckets give one pushed record each. |
| DeviationEngine.EntriesAt | backend/src/services/emissions.service.ts:55-89 | Pushed record `k` is built from quarter `k` and that bucket's last record. |
| DeviationEngine.VesselDeviationsCount | backend/src/services/emissions.service.ts:47-50 | A vessel without `PP` reference lines contributes nothing. Any other vessel contributes exactly one record per quarter it has records in. |
| DeviationEngine.VesselRecordIsEntry | backend/src/services/emissions.service.ts:55-88 | Record `n` of a vessel is the record of its `n`-th quarter, built from that quarter's non-empty bucket's last record. |
| DeviationEngine.QuarterRecord | backend/src/services/emissions.service.ts:79-88 | Record `n` of a vessel carries: the vessel's IMO number and name; the quarter's year and label `"Q" + quarter` with quarter in 1..4; the last record's `totCO2` as actual emissions and its `toUTC` as date; the baseline range's `min` for (PP rows, year, `dwt \|\| 50000`); and the guarded deviation of those two. For time-ordered records the date is the latest in the quarter. |
| DeviationEngine.DeviationsConcat | backend/src/services/emissions.service.ts:38-90 | The pushed records are, vessel by vessel, the concatenation of what each vessel contributes. |
| DeviationEngine.PushQuarter | backend/src/services/emissions.service.ts:56-88 | One pass over a bucket: parses the key, then pushes that quarter's record, or nothing when the bucket has no last element. |
| DeviationEngine.PushEntry | backend/src/services/emissions.service.ts:55-89 | One pass of the loop over `Object.entries`: entry `n` of the grouped dictionary extends the records pushed for the first `n` quarters to those for the first `n + 1`. |
| DeviationEngine.PushQuarterlyDeviations | backend/src/services/emissions.service.ts:53-89 | Groups the vessel's records and pushes the records of all its quarters, in key order, after the ones already pushed. |
| DeviationEngine.GetQuarterlyDeviations | backend/src/services/emissions.service.ts:23-94 | Returns the records of all vessels with `PP` reference lines, sorted stably by date. The result is ordered by date and is a permutation of the pushed records. Records of one date keep push order: vessel order, then quarter first-seen order. |

## Left out

- The store queries (`findMany` on vessels with their emissions, on the reference
  lines, and `getVesselsWithEmissions`) are not modelled. Their results are inputs:
  - a sequence of vessels, whose records are in the order the query returns them;
  - a reference-line table, which `FindFactors` filters in table order.

  Whether the records are ordered by `toUTC` is a hypothesis of the lemmas that
  need it, not something the model enforces.
- `calculatePPSCCBaselines` (`backend/src/utils/calculate-pp-scc-baselines.util`) is
  not part of this model. It is a function-typed parameter, `BaselineCalculator`;
  only the `min` of its result is used.
- Decimal.js: the deadweight is passed as a real, and `toNumber()` is the identity.
- JavaScript `number` arithmetic is modelled with reals. IEEE-754 rounding and NaN
  are not modelled; with NaN, `baseline > 0` would be false and give 0.
- `Date` handling:
  - The field is named `toUTC`, but `getFullYear`/`getMonth` read the local-time
    calendar. The model takes a timestamp's year and month as given, whatever
    the timezone.
  - `date` is `toISOString()` of `toUTC`. The model keeps the timestamp itself.
  - The sort key `new Date(date).getTime()` is taken to be the timestamp's
    millisecond count.
- `parseInt` is modelled for the strings it sees here: an optional sign followed
  by decimal digits. Leading whitespace, radix prefixes and the radix argument are
  not modelled.
- The loop over vessels and the loop over buckets in `getQuarterlyDeviations` are one
  method in the source. The model splits them:
  - `GetQuarterlyDeviations` is the vessel loop;
  - `PushQuarterlyDeviations` is the loop over the dictionary's entries;
  - `PushEntry` is one pass of that loop, which looks up the entry;
  - `PushQuarter` handles the entry's bucket.

  The behaviour is the same; only the method boundaries differ.
- Logger calls, `async`/`await`, NestJS dependency injection, the controller, the data
  import service and the frontend are not modelled; they add no logic to the
  computation.
- DeviationEngine.Deviation: its own contract states only the non-positive-baseline
  case; the meaning of the value for a positive baseline is stated by
  `DeviationMeaning`.
