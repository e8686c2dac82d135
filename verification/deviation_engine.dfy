/**
 * `getQuarterlyDeviations`: for every vessel with "PP" reference lines, bucket its
 * emission records by quarter, take each bucket's last record as the quarter's
 * representative, compare its total CO2 with the baseline curve's minimum, and
 * finally sort all records by date.
 *
 * The store's queries become inputs: the vessels with their records (already
 * ordered by `toUTC`) and the reference-line table. The baseline curve
 * evaluation (`calculatePPSCCBaselines`) is a function parameter.
 */
module DeviationEngine {
  import opened Wrappers
  import opened EmissionTypes
  import opened KeyFormat
  import opened QuarterGrouping
  import opened DateSort

  /** The curve family the engine asks for. */
  const PPCategory: string := "PP"

  /** The deadweight used when a vessel has none (or zero) on record. */
  const DefaultDwt: real := 50000.0

  /** `calculatePPSCCBaselines({ factors, year, DWT })`: the curve range for a year and deadweight. */
  type BaselineCalculator = (seq<ReferenceLine>, int, real) -> BaselineRange

  /** The reference-line query `{ vesselTypeId: vesselType, category: 'PP' }`, in table order. */
  function FindFactors(table: seq<ReferenceLine>, vesselType: int): (rows: seq<ReferenceLine>)
    ensures |rows| <= |table|
    ensures forall row :: row in rows <==> row in table && row.vesselTypeId == vesselType && row.category == PPCategory
  {
    if table == [] then []
    else
      var init, last := table[..|table| - 1], table[|table| - 1];
      assert table == init + [last];
      if last.vesselTypeId == vesselType && last.category == PPCategory
      then FindFactors(init, vesselType) + [last]
      else FindFactors(init, vesselType)
  }

  /** `vessel.dwt || 50000`: a missing or zero deadweight falls back to the default. */
  function EffectiveDwt(dwt: Option<real>): (d: real)
    ensures d != 0.0
    ensures dwt.Some? && dwt.value != 0.0 ==> d == dwt.value
    ensures dwt.None? || dwt.value == 0.0 ==> d == DefaultDwt
  {
    if dwt.Some? && dwt.value != 0.0 then dwt.value else DefaultDwt
  }

  /**
   * The guarded percentage deviation: positive when the actual value exceeds a
   * positive baseline, zero when the baseline is not positive (never a division
   * by a non-positive baseline).
   */
  function Deviation(actual: real, baseline: real): (d: real)
    ensures baseline <= 0.0 ==> d == 0.0
  {
    if baseline > 0.0 then (actual - baseline) / baseline * 100.0 else 0.0
  }

  /**
   * Against a positive baseline the deviation is the percentage by which the
   * actual value exceeds it: `deviation * baseline == (actual - baseline) * 100`,
   * positive exactly when the actual value is above the baseline, zero exactly
   * when it equals it, and above -100 exactly when the actual value is positive.
   */
  lemma DeviationMeaning(actual: real, baseline: real)
    requires baseline > 0.0
    ensures Deviation(actual, baseline) * baseline == (actual - baseline) * 100.0
    ensures Deviation(actual, baseline) > 0.0 <==> actual > baseline
    ensures Deviation(actual, baseline) == 0.0 <==> actual == baseline
    ensures Deviation(actual, baseline) > -100.0 <==> actual > 0.0
  {
    var d, k := Deviation(actual, baseline), 100.0 / baseline;
    assert k > 0.0 && k * baseline == 100.0;
    assert d == (actual - baseline) * k;
    assert d + 100.0 == actual * k;
  }

  /**
   * The record pushed for quarter `id` of `vessel`, whose representative is `last`.
   * Its deviation is zero against a baseline that is not positive, and positive
   * exactly when the baseline is positive and the actual emissions exceed it.
   */
  function Entry(vessel: Vessel, factors: seq<ReferenceLine>, baselines: BaselineCalculator,
                 id: QuarterId, last: EmissionRecord): (d: QuarterlyDeviation)
    ensures d.baseline <= 0.0 ==> d.deviation == 0.0
    ensures d.actualEmissions > d.baseline > 0.0 ==> d.deviation > 0.0
    ensures d.deviation > 0.0 ==> d.actualEmissions > d.baseline
  {
    var baseline := baselines(factors, id.year, EffectiveDwt(vessel.dwt)).min;
    var d := QuarterlyDeviation(
      vessel.imoNo, vessel.name, QuarterLabel(NatToString(id.quarter)), id.year,
      last.totCO2, baseline, Deviation(last.totCO2, baseline), last.toUTC);
    if baseline > 0.0 then DeviationMeaning(last.totCO2, baseline); d else d
  }

  /**
   * What quarter `id` of `vessel` contributes: its record, or nothing when its
   * bucket has no last record. It is one record exactly for a quarter the
   * vessel's records occur in.
   */
  function EntryFor(vessel: Vessel, factors: seq<ReferenceLine>, baselines: BaselineCalculator,
                    id: QuarterId): (e: seq<QuarterlyDeviation>)
    ensures |e| <= 1
    ensures e != [] <==> id in QuarterKeys(vessel.emissions)
  {
    BucketNonEmpty(vessel.emissions, id);
    var bucket := Bucket(vessel.emissions, id);
    if bucket == [] then [] else [Entry(vessel, factors, baselines, id, bucket[|bucket| - 1])]
  }

  /**
   * `deviations` after pushing the records of the first `n` quarters of `ids`, in
   * order: the earlier records stay in front, and at most one record is added
   * per quarter.
   */
  function Entries(deviations: seq<QuarterlyDeviation>, vessel: Vessel, factors: seq<ReferenceLine>,
                   baselines: BaselineCalculator, ids: seq<QuarterId>, n: nat): (r: seq<QuarterlyDeviation>)
    requires n <= |ids|
  {
    if n == 0 then deviations
    else Entries(deviations, vessel, factors, baselines, ids, n - 1) + EntryFor(vessel, factors, baselines, ids[n - 1])
  }

  /**
   * `deviations` after one pass of the loop over vessels: unchanged without "PP"
   * reference lines, else extended by one record per quarter of the vessel. The
   * pass only appends, and what it appends is what the vessel contributes on its own.
   */
  function PushVessel(deviations: seq<QuarterlyDeviation>, vessel: Vessel, table: seq<ReferenceLine>,
                      baselines: BaselineCalculator): (r: seq<QuarterlyDeviation>)
    ensures r == deviations + VesselDeviations(vessel, table, baselines)
  {
    var factors := FindFactors(table, vessel.vesselType);
    var ids := QuarterKeys(vessel.emissions);
    if factors == [] then deviations
    else
      EntriesAppend(deviations, vessel, factors, baselines, ids, |ids|);
      Entries(deviations, vessel, factors, baselines, ids, |ids|)
  }

  /**
   * The records pushed for `vessels`, in push order (before sorting): exactly one
   * per quarter of every vessel that has "PP" reference lines.
   */
  function Deviations(vessels: seq<Vessel>, table: seq<ReferenceLine>, baselines: BaselineCalculator)
    : (r: seq<QuarterlyDeviation>)
    ensures |r| == QuarterCount(vessels, table)
  {
    if vessels == [] then []
    else
      var prev, vessel := Deviations(vessels[..|vessels| - 1], table, baselines), vessels[|vessels| - 1];
      var factors, ids := FindFactors(table, vessel.vesselType), QuarterKeys(vessel.emissions);
      VesselDeviationsCount(vessel, table, baselines);
      if factors == [] then prev else PushVessel(prev, vessel, table, baselines)
  }

  /** What one vessel contributes on its own: records that each name the vessel. */
  function VesselDeviations(vessel: Vessel, table: seq<ReferenceLine>, baselines: BaselineCalculator)
    : (r: seq<QuarterlyDeviation>)
    ensures forall d :: d in r ==> d.vesselId == vessel.imoNo && d.vesselName == vessel.name
  {
    var factors, ids := FindFactors(table, vessel.vesselType), QuarterKeys(vessel.emissions);
    EntriesNameVessel(vessel, factors, baselines, ids, |ids|);
    if factors == [] then [] else Entries([], vessel, factors, baselines, ids, |ids|)
  }

  /** Every record pushed for `vessel` carries its IMO number and name. */
  lemma {:induction false} EntriesNameVessel(vessel: Vessel, factors: seq<ReferenceLine>,
                                             baselines: BaselineCalculator, ids: seq<QuarterId>, n: nat)
    requires n <= |ids|
    ensures forall d :: d in Entries([], vessel, factors, baselines, ids, n) ==>
      d.vesselId == vessel.imoNo && d.vesselName == vessel.name
  {
    if n > 0 {
      EntriesNameVessel(vessel, factors, baselines, ids, n - 1);
    }
  }

  lemma DeviationsSnoc(vessels: seq<Vessel>, vessel: Vessel, table: seq<ReferenceLine>, baselines: BaselineCalculator)
    ensures Deviations(vessels + [vessel], table, baselines)
         == PushVessel(Deviations(vessels, table, baselines), vessel, table, baselines)
  {
    assert (vessels + [vessel])[..|vessels|] == vessels;
  }

  /** Pushing only ever appends: what was in `deviations` stays in front, untouched. */
  lemma {:induction false} EntriesAppend(deviations: seq<QuarterlyDeviation>, vessel: Vessel,
                                         factors: seq<ReferenceLine>, baselines: BaselineCalculator,
                                         ids: seq<QuarterId>, n: nat)
    requires n <= |ids|
    ensures Entries(deviations, vessel, factors, baselines, ids, n)
         == deviations + Entries([], vessel, factors, baselines, ids, n)
  {
    if n > 0 {
      EntriesAppend(deviations, vessel, factors, baselines, ids, n - 1);
      AppendAssoc(deviations, Entries([], vessel, factors, baselines, ids, n - 1),
                  EntryFor(vessel, factors, baselines, ids[n - 1]));
    }
  }

  lemma AppendAssoc<T>(a: seq<T>, b: seq<T>, c: seq<T>)
    ensures (a + b) + c == a + (b + c)
  {
  }

  /**
   * When every quarter in `ids` has a non-empty bucket, pushing the first `n` of
   * them yields one record per quarter.
   */
  lemma {:induction false} EntriesCount(vessel: Vessel, factors: seq<ReferenceLine>,
                                        baselines: BaselineCalculator, ids: seq<QuarterId>, n: nat)
    requires n <= |ids|
    requires forall k :: 0 <= k < n ==> Bucket(vessel.emissions, ids[k]) != []
    ensures |Entries([], vessel, factors, baselines, ids, n)| == n
  {
    if n > 0 {
      EntriesCount(vessel, factors, baselines, ids, n - 1);
      assert Bucket(vessel.emissions, ids[n - 1]) != [];
    }
  }

  /** ... and record `k` among them is built from quarter `k`'s last record. */
  lemma {:induction false} EntriesAt(vessel: Vessel, factors: seq<ReferenceLine>,
                                     baselines: BaselineCalculator, ids: seq<QuarterId>, n: nat, k: nat)
    requires k < n <= |ids|
    requires forall j :: 0 <= j < n ==> Bucket(vessel.emissions, ids[j]) != []
    ensures |Entries([], vessel, factors, baselines, ids, n)| == n
    ensures var b := Bucket(vessel.emissions, ids[k]);
      Entries([], vessel, factors, baselines, ids, n)[k] == Entry(vessel, factors, baselines, ids[k], b[|b| - 1])
  {
    EntriesCount(vessel, factors, baselines, ids, n);
    var prev := Entries([], vessel, factors, baselines, ids, n - 1);
    var b := Bucket(vessel.emissions, ids[n - 1]);
    assert EntryFor(vessel, factors, baselines, ids[n - 1]) == [Entry(vessel, factors, baselines, ids[n - 1], b[|b| - 1])];
    if k < n - 1 {
      EntriesAt(vessel, factors, baselines, ids, n - 1, k);
      assert Entries([], vessel, factors, baselines, ids, n)[k] == prev[k];
    }
  }

  /**
   * A vessel without "PP" reference lines contributes nothing; any other vessel
   * contributes exactly one record per quarter that occurs in its records.
   */
  lemma VesselDeviationsCount(vessel: Vessel, table: seq<ReferenceLine>, baselines: BaselineCalculator)
    ensures FindFactors(table, vessel.vesselType) == [] ==> VesselDeviations(vessel, table, baselines) == []
    ensures FindFactors(table, vessel.vesselType) != [] ==>
      |VesselDeviations(vessel, table, baselines)| == |QuarterKeys(vessel.emissions)|
  {
    var factors, ids := FindFactors(table, vessel.vesselType), QuarterKeys(vessel.emissions);
    if factors != [] {
      forall k | 0 <= k < |ids| ensures Bucket(vessel.emissions, ids[k]) != [] {
        BucketNonEmpty(vessel.emissions, ids[k]);
      }
      EntriesCount(vessel, factors, baselines, ids, |ids|);
    }
  }

  /** Record `n` of a vessel with "PP" reference lines is the record of its `n`-th quarter. */
  lemma VesselRecordIsEntry(vessel: Vessel, table: seq<ReferenceLine>, baselines: BaselineCalculator, n: nat)
    requires FindFactors(table, vessel.vesselType) != []
    requires n < |QuarterKeys(vessel.emissions)|
    ensures |VesselDeviations(vessel, table, baselines)| == |QuarterKeys(vessel.emissions)|
    ensures var id := QuarterKeys(vessel.emissions)[n];
      var b := Bucket(vessel.emissions, id);
      && b != []
      && VesselDeviations(vessel, table, baselines)[n]
         == Entry(vessel, FindFactors(table, vessel.vesselType), baselines, id, b[|b| - 1])
  {
    var factors, ids := FindFactors(table, vessel.vesselType), QuarterKeys(vessel.emissions);
    forall k | 0 <= k < |ids| ensures Bucket(vessel.emissions, ids[k]) != [] {
      BucketNonEmpty(vessel.emissions, ids[k]);
    }
    EntriesAt(vessel, factors, baselines, ids, |ids|, n);
  }

  /**
   * Record `n` of a vessel with "PP" reference lines describes its `n`-th quarter
   * (in first-seen order): the year, the label `"Q" + quarter` (quarter in
   * 1..4), the total CO2 and the instant of the quarter's last record, the
   * minimum of the baseline range for that year and the vessel's deadweight
   * (50000 when missing), and the guarded deviation of the two. For
   * time-ordered records, that instant is the latest one in the quarter.
   */
  lemma QuarterRecord(vessel: Vessel, table: seq<ReferenceLine>, baselines: BaselineCalculator, n: nat)
    requires FindFactors(table, vessel.vesselType) != []
    requires n < |QuarterKeys(vessel.emissions)|
    ensures |VesselDeviations(vessel, table, baselines)| == |QuarterKeys(vessel.emissions)|
    ensures var r, id := VesselDeviations(vessel, table, baselines)[n], QuarterKeys(vessel.emissions)[n];
      var b := Bucket(vessel.emissions, id);
      && b != []
      && r.vesselId == vessel.imoNo && r.vesselName == vessel.name
      && r.year == id.year
      && 1 <= id.quarter <= 4 && r.quarter == QuarterLabel(NatToString(id.quarter))
      && r.actualEmissions == b[|b| - 1].totCO2
      && r.date == b[|b| - 1].toUTC
      && r.baseline == baselines(FindFactors(table, vessel.vesselType), id.year, EffectiveDwt(vessel.dwt)).min
      && r.deviation == Deviation(r.actualEmissions, r.baseline)
      && (SortedByTime(vessel.emissions) ==> forall e :: e in b ==> e.toUTC.millis <= r.date.millis)
  {
    var factors, ids := FindFactors(table, vessel.vesselType), QuarterKeys(vessel.emissions);
    VesselRecordIsEntry(vessel, table, baselines, n);
    var id := ids[n];
    var b := Bucket(vessel.emissions, id);
    var r, last := VesselDeviations(vessel, table, baselines)[n], b[|b| - 1];
    assert r == Entry(vessel, factors, baselines, id, last);
    QuarterKeysInRange(vessel.emissions);
    if SortedByTime(vessel.emissions) {
      RepresentativeIsLatest(vessel.emissions, id);
    }
  }

  /** Vessel by vessel, the pushed records are the concatenation of what each vessel contributes. */
  lemma {:induction false} DeviationsConcat(vessels: seq<Vessel>, table: seq<ReferenceLine>, baselines: BaselineCalculator)
    ensures vessels != [] ==>
      Deviations(vessels, table, baselines)
      == Deviations(vessels[..|vessels| - 1], table, baselines) + VesselDeviations(vessels[|vessels| - 1], table, baselines)
  {
    if vessels != [] {
      var vessel := vessels[|vessels| - 1];
      var factors, ids := FindFactors(table, vessel.vesselType), QuarterKeys(vessel.emissions);
      if factors != [] {
        EntriesAppend(Deviations(vessels[..|vessels| - 1], table, baselines), vessel, factors, baselines, ids, |ids|);
      }
    }
  }

  /**
   * The number of quarters of the vessels that have "PP" reference lines: it is
   * at least the quarter count of each such vessel.
   */
  function QuarterCount(vessels: seq<Vessel>, table: seq<ReferenceLine>): (count: nat)
    ensures forall v :: v in vessels && FindFactors(table, v.vesselType) != [] ==> |QuarterKeys(v.emissions)| <= count
  {
    if vessels == [] then 0
    else
      var vessel := vessels[|vessels| - 1];
      assert vessels == vessels[..|vessels| - 1] + [vessel];
      QuarterCount(vessels[..|vessels| - 1], table)
        + if FindFactors(table, vessel.vesselType) == [] then 0 else |QuarterKeys(vessel.emissions)|
  }

  /**
   * One pass of the loop over a vessel's quarter buckets: splits the key at `-Q`,
   * parses the year, and pushes the record for the bucket's last entry onto
   * `deviations`, or skips the bucket when it has no last entry.
   */
  method PushQuarter(deviations: seq<QuarterlyDeviation>, vessel: Vessel, ppFactors: seq<ReferenceLine>,
                     baselines: BaselineCalculator, quarterKey: string, emissions: seq<EmissionRecord>,
                     ghost id: QuarterId)
    returns (pushed: seq<QuarterlyDeviation>)
    requires quarterKey == KeyString(id)
    requires emissions == Bucket(vessel.emissions, id)
    ensures pushed == deviations + EntryFor(vessel, ppFactors, baselines, id)
  {
    ParseKey(quarterKey, id.year, id.quarter);
    var parts := Split(quarterKey, Separator);
    var year, quarter := parts[0], parts[1];
    var yearNum := ParseInt(year).value;
    if |emissions| == 0 {
      return deviations;
    }
    var lastDayEmissions := emissions[|emissions| - 1];
    var dwt := EffectiveDwt(vessel.dwt);
    var range := baselines(ppFactors, yearNum, dwt);
    var actualEmissions := lastDayEmissions.totCO2;
    var baseline := range.min;
    var deviation := Deviation(actualEmissions, baseline);
    var record := QuarterlyDeviation(
      vessel.imoNo, vessel.name, QuarterLabel(quarter), yearNum,
      actualEmissions, baseline, deviation, lastDayEmissions.toUTC);
    pushed := deviations + [record];
  }

  /**
   * Pass `n` of the loop over one vessel's dictionary entries: takes entry `n`
   * (its key and its bucket) and pushes what that quarter contributes.
   */
  method PushEntry(pushed: seq<QuarterlyDeviation>, vessel: Vessel, ppFactors: seq<ReferenceLine>,
                   baselines: BaselineCalculator, keys: seq<string>,
                   quarterlyEmissions: map<string, seq<EmissionRecord>>, n: nat,
                   ghost deviations: seq<QuarterlyDeviation>)
    returns (next: seq<QuarterlyDeviation>)
    requires Grouping(keys, quarterlyEmissions) == Group(vessel.emissions)
    requires n < |keys| == |QuarterKeys(vessel.emissions)|
    requires pushed == Entries(deviations, vessel, ppFactors, baselines, QuarterKeys(vessel.emissions), n)
    ensures next == Entries(deviations, vessel, ppFactors, baselines, QuarterKeys(vessel.emissions), n + 1)
  {
    GroupedEntry(vessel.emissions, keys, quarterlyEmissions, n);
    var quarterKey := keys[n];
    next := PushQuarter(pushed, vessel, ppFactors, baselines, quarterKey, quarterlyEmissions[quarterKey],
                        QuarterKeys(vessel.emissions)[n]);
  }

  /**
   * The loop over one vessel's quarter buckets in `getQuarterlyDeviations`, in
   * insertion order of the keys.
   */
  method PushQuarterlyDeviations(deviations: seq<QuarterlyDeviation>, vessel: Vessel,
                                 ppFactors: seq<ReferenceLine>, baselines: BaselineCalculator)
    returns (pushed: seq<QuarterlyDeviation>)
    ensures var ids := QuarterKeys(vessel.emissions);
      pushed == Entries(deviations, vessel, ppFactors, baselines, ids, |ids|)
  {
    pushed := deviations;
    var keys, quarterlyEmissions := GroupEmissionsByQuarter(vessel.emissions);
    assert |keys| == |QuarterKeys(vessel.emissions)| by {
      GroupSize(vessel.emissions);
    }
    for n := 0 to |keys|
      invariant pushed == Entries(deviations, vessel, ppFactors, baselines, QuarterKeys(vessel.emissions), n)
    {
      pushed := PushEntry(pushed, vessel, ppFactors, baselines, keys, quarterlyEmissions, n, deviations);
    }
  }

  /**
   * `getQuarterlyDeviations`: skips a vessel without "PP" reference lines, pushes
   * one record per quarter bucket of every other vessel, then sorts by date.
   */
  method GetQuarterlyDeviations(vessels: seq<Vessel>, table: seq<ReferenceLine>, baselines: BaselineCalculator)
    returns (result: seq<QuarterlyDeviation>)
    ensures result == SortByDate(Deviations(vessels, table, baselines))
    ensures SortedByDate(result)
    ensures multiset(result) == multiset(Deviations(vessels, table, baselines))
    ensures forall t :: WithDate(result, t) == WithDate(Deviations(vessels, table, baselines), t)
  {
    var deviations: seq<QuarterlyDeviation> := [];
    for v := 0 to |vessels|
      invariant deviations == Deviations(vessels[..v], table, baselines)
    {
      var vessel := vessels[v];
      TakeOneMore(vessels, v);
      DeviationsSnoc(vessels[..v], vessel, table, baselines);
      var ppFactors := FindFactors(table, vessel.vesselType);
      if |ppFactors| == 0 {
        // No "PP" reference lines for this vessel type: skip the vessel.
        continue;
      }
      deviations := PushQuarterlyDeviations(deviations, vessel, ppFactors, baselines);
    }
    assert vessels[..|vessels|] == vessels;
    result := SortByDate(deviations);
    SortByDateStable(deviations);
  }
}
