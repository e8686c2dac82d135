/**
 * Bucketing of one vessel's emission records by calendar quarter of their `toUTC`
 * instant. The buckets live in a dictionary keyed by `${year}-Q${quarter}`; since such
 * keys are not array indices, the dictionary lists its keys in first-insertion order.
 */
module QuarterGrouping {
  import opened EmissionTypes
  import opened KeyFormat

  /** `Math.ceil(month / 3)`: the calendar quarter of a month. */
  function QuarterOf(month: Month): (q: nat)
    ensures 1 <= q <= 4
    ensures 3 * (q - 1) < month <= 3 * q
  {
    (month + 2) / 3
  }

  /** A calendar quarter of a given year: what a bucket key names. */
  datatype QuarterId = QuarterId(year: int, quarter: nat)

  /**
   * The quarter a record belongs to, read from its `toUTC` instant: the quarter
   * of the record's year whose three months include the record's month.
   */
  function KeyOf(r: EmissionRecord): (id: QuarterId)
    ensures id.year == r.toUTC.year
    ensures 1 <= id.quarter <= 4 && 3 * (id.quarter - 1) < r.toUTC.month <= 3 * id.quarter
  {
    QuarterId(r.toUTC.year, QuarterOf(r.toUTC.month))
  }

  /**
   * The dictionary key string of a quarter, `${year}-Q${quarter}`: it splits at
   * `-Q` into the year's and the quarter's decimal pieces.
   */
  function KeyString(id: QuarterId): (key: string)
    ensures Split(key, Separator) == [IntToString(id.year), NatToString(id.quarter)]
  {
    FormatKey(id.year, id.quarter)
  }

  predicate Distinct<T(==)>(ks: seq<T>) {
    forall i, j :: 0 <= i < j < |ks| ==> ks[i] != ks[j]
  }

  predicate SortedByTime(es: seq<EmissionRecord>) {
    forall i, j :: 0 <= i < j < |es| ==> es[i].toUTC.millis <= es[j].toUTC.millis
  }

  /** The records whose key is `key`, in input order: what the dictionary holds under `key`. */
  function Bucket(es: seq<EmissionRecord>, key: QuarterId): (b: seq<EmissionRecord>)
    ensures |b| <= |es|
    ensures forall r :: r in b ==> r in es && KeyOf(r) == key
  {
    if es == [] then []
    else
      var init, last := es[..|es| - 1], es[|es| - 1];
      if KeyOf(last) == key then Bucket(init, key) + [last] else Bucket(init, key)
  }

  /**
   * The distinct keys of the records, in the order each is first seen. What the
   * list holds is stated by `QuarterKeysComplete`, `QuarterKeysDistinct` and
   * `BucketNonEmpty`.
   */
  function QuarterKeys(es: seq<EmissionRecord>): (ks: seq<QuarterId>)
  {
    if es == [] then []
    else
      var init, last := es[..|es| - 1], es[|es| - 1];
      var ks := QuarterKeys(init);
      if KeyOf(last) in ks then ks else ks + [KeyOf(last)]
  }

  /** Every record's quarter is listed. */
  lemma {:induction false} QuarterKeysComplete(es: seq<EmissionRecord>)
    ensures forall r :: r in es ==> KeyOf(r) in QuarterKeys(es)
  {
    if es != [] {
      var init, last := es[..|es| - 1], es[|es| - 1];
      assert es == init + [last];
      QuarterKeysComplete(init);
    }
  }

  /** Every listed quarter is a quarter of the year, 1 to 4. */
  lemma {:induction false} QuarterKeysInRange(es: seq<EmissionRecord>)
    ensures forall k :: 0 <= k < |QuarterKeys(es)| ==> 1 <= QuarterKeys(es)[k].quarter <= 4
  {
    if es != [] {
      QuarterKeysInRange(es[..|es| - 1]);
    }
  }

  /** No quarter is listed twice. */
  lemma {:induction false} QuarterKeysDistinct(es: seq<EmissionRecord>)
    ensures Distinct(QuarterKeys(es))
  {
    if es != [] {
      QuarterKeysDistinct(es[..|es| - 1]);
    }
  }

  /**
   * The quarters are listed in the order they are first seen: for `i < j`, some
   * record of quarter `i` comes before every record of quarter `j`.
   */
  lemma {:induction false} FirstSeenOrder(es: seq<EmissionRecord>, i: nat, j: nat)
    requires i < j < |QuarterKeys(es)|
    ensures exists p :: (0 <= p < |es| && KeyOf(es[p]) == QuarterKeys(es)[i]
                         && forall q :: 0 <= q <= p ==> KeyOf(es[q]) != QuarterKeys(es)[j])
  {
    var init, last := es[..|es| - 1], es[|es| - 1];
    var ks := QuarterKeys(init);
    if KeyOf(last) in ks || j < |ks| {
      FirstSeenOrder(init, i, j);
      var p :| 0 <= p < |init| && KeyOf(init[p]) == ks[i] && (forall q :: 0 <= q <= p ==> KeyOf(init[q]) != ks[j]);
      assert es[p] == init[p];
      assert forall q :: 0 <= q <= p ==> es[q] == init[q];
    } else {
      QuarterKeysComplete(init);
      BucketNonEmpty(init, ks[i]);
      var b := Bucket(init, ks[i]);
      assert b[0] in b;
      var p :| 0 <= p < |init| && init[p] == b[0];
      forall q | 0 <= q <= p ensures KeyOf(es[q]) != KeyOf(last) {
        assert es[q] == init[q] && init[q] in init;
      }
      assert es[p] == init[p];
    }
  }

  /** The sizes of the buckets named by `ks`, added up. */
  function TotalSize(es: seq<EmissionRecord>, ks: seq<QuarterId>): (total: nat)
  {
    if ks == [] then 0 else TotalSize(es, ks[..|ks| - 1]) + |Bucket(es, ks[|ks| - 1])|
  }

  /** A key has a bucket exactly when that bucket is non-empty: no bucket is empty. */
  lemma {:induction false} BucketNonEmpty(es: seq<EmissionRecord>, key: QuarterId)
    ensures key in QuarterKeys(es) <==> Bucket(es, key) != []
  {
    if es != [] {
      var init := es[..|es| - 1];
      BucketNonEmpty(init, key);
    }
  }

  /** Every record lies in the bucket of its own key and in no other. */
  lemma {:induction false} RecordInOwnBucket(es: seq<EmissionRecord>, r: EmissionRecord, key: QuarterId)
    requires r in es
    ensures r in Bucket(es, key) <==> key == KeyOf(r)
  {
    var init, last := es[..|es| - 1], es[|es| - 1];
    assert es == init + [last];
    if r != last {
      RecordInOwnBucket(init, r, key);
    }
  }

  lemma {:induction false} TotalSizeAppend(es: seq<EmissionRecord>, r: EmissionRecord, ks: seq<QuarterId>)
    requires Distinct(ks)
    ensures TotalSize(es + [r], ks) == TotalSize(es, ks) + (if KeyOf(r) in ks then 1 else 0)
  {
    var es' := es + [r];
    assert es'[..|es'| - 1] == es;
    if ks != [] {
      var init := ks[..|ks| - 1];
      TotalSizeAppend(es, r, init);
      assert ks == init + [ks[|ks| - 1]];
    }
  }

  /** The bucket sizes add up to the number of records: nothing is lost or duplicated. */
  lemma {:induction false} BucketSizesSum(es: seq<EmissionRecord>)
    ensures TotalSize(es, QuarterKeys(es)) == |es|
  {
    if es != [] {
      var init, last := es[..|es| - 1], es[|es| - 1];
      assert es == init + [last];
      var ks := QuarterKeys(init);
      BucketSizesSum(init);
      QuarterKeysDistinct(init);
      TotalSizeAppend(init, last, ks);
      if KeyOf(last) !in ks {
        BucketNonEmpty(init, KeyOf(last));
        assert (ks + [KeyOf(last)])[..|ks|] == ks;
      }
    }
  }

  /** Appending keeps input order: a bucket of time-ordered records is time-ordered. */
  lemma {:induction false} BucketSorted(es: seq<EmissionRecord>, key: QuarterId)
    requires SortedByTime(es)
    ensures SortedByTime(Bucket(es, key))
  {
    if es != [] {
      var init, last := es[..|es| - 1], es[|es| - 1];
      BucketSorted(init, key);
      var b := Bucket(init, key);
      forall r | r in b ensures r.toUTC.millis <= last.toUTC.millis {
        var i :| 0 <= i < |init| && init[i] == r;
      }
    }
  }

  /**
   * The bucket's last element is the last record of the input with that key: the
   * record at position `j` when no later record shares its key.
   */
  lemma {:induction false} LastOfBucket(es: seq<EmissionRecord>, key: QuarterId, j: nat)
    requires j < |es| && KeyOf(es[j]) == key
    requires forall i :: j < i < |es| ==> KeyOf(es[i]) != key
    ensures Bucket(es, key) != [] && Bucket(es, key)[|Bucket(es, key)| - 1] == es[j]
  {
    var init, last := es[..|es| - 1], es[|es| - 1];
    assert es == init + [last];
    if j < |es| - 1 {
      assert KeyOf(last) != key;
      assert Bucket(es, key) == Bucket(init, key);
      forall i | j < i < |init| ensures KeyOf(init[i]) != key {
        assert init[i] == es[i];
      }
      LastOfBucket(init, key, j);
    } else {
      assert Bucket(es, key) == Bucket(init, key) + [last];
    }
  }

  /** For time-ordered input the bucket's last element has the latest `toUTC` in it. */
  lemma RepresentativeIsLatest(es: seq<EmissionRecord>, key: QuarterId)
    requires SortedByTime(es) && Bucket(es, key) != []
    ensures forall r :: r in Bucket(es, key) ==>
      r.toUTC.millis <= Bucket(es, key)[|Bucket(es, key)| - 1].toUTC.millis
  {
    var b := Bucket(es, key);
    BucketSorted(es, key);
    forall r | r in b ensures r.toUTC.millis <= b[|b| - 1].toUTC.millis {
      var i :| 0 <= i < |b| && b[i] == r;
    }
  }

  lemma TakeOneMore<T>(s: seq<T>, i: nat)
    requires i < |s|
    ensures s[..i + 1] == s[..i] + [s[i]]
  {
  }

  lemma BucketSnoc(es: seq<EmissionRecord>, r: EmissionRecord, key: QuarterId)
    ensures Bucket(es + [r], key) == if KeyOf(r) == key then Bucket(es, key) + [r] else Bucket(es, key)
  {
    assert (es + [r])[..|es|] == es;
  }

  lemma QuarterKeysSnoc(es: seq<EmissionRecord>, r: EmissionRecord)
    ensures QuarterKeys(es + [r])
        == if KeyOf(r) in QuarterKeys(es) then QuarterKeys(es) else QuarterKeys(es) + [KeyOf(r)]
  {
    assert (es + [r])[..|es|] == es;
  }

  /*
   * The dictionary lemmas below take the key format as a parameter `format` and
   * rely only on its injectivity; `KeyString` is the one instance. This keeps the
   * solver from unfolding the decimal rendering and `split` while it reasons
   * about the dictionary.
   */

  /** Different quarters get different key strings under `format`. */
  ghost predicate Injective(format: QuarterId -> string) {
    forall a, b :: format(a) == format(b) ==> a == b
  }

  /** `${year}-Q${quarter}` names each quarter by a key string of its own. */
  lemma KeyStringInjective()
    ensures Injective(KeyString)
  {
    forall a, b | KeyString(a) == KeyString(b) ensures a == b {
      FormatKeyInjective(a.year, a.quarter, b.year, b.quarter);
    }
  }

  /**
   * The dictionary is faithful to the records: its keys are the key strings of
   * their quarters in first-seen order, and each key holds that quarter's bucket.
   */
  ghost predicate Represents(format: QuarterId -> string, keys: seq<string>,
                             quarters: map<string, seq<EmissionRecord>>, es: seq<EmissionRecord>)
  {
    var ids := QuarterKeys(es);
    && |keys| == |ids|
    && (forall n :: 0 <= n < |keys| ==> keys[n] == format(ids[n]))
    && (forall k :: k in quarters <==> k in keys)
    && (forall n :: 0 <= n < |keys| ==> quarters[keys[n]] == Bucket(es, ids[n]))
  }

  /** A key string is in the dictionary exactly when its quarter has been seen. */
  lemma KeyPresent(format: QuarterId -> string, keys: seq<string>, ids: seq<QuarterId>, id: QuarterId)
    requires Injective(format)
    requires |keys| == |ids|
    requires forall n :: 0 <= n < |keys| ==> keys[n] == format(ids[n])
    ensures format(id) in keys <==> id in ids
  {
    if format(id) in keys {
      var n :| 0 <= n < |keys| && keys[n] == format(id);
    }
  }

  /** One step of the loop: filing record `r` keeps the dictionary faithful. */
  lemma FileRecord(format: QuarterId -> string, keys: seq<string>,
                   quarters: map<string, seq<EmissionRecord>>, es: seq<EmissionRecord>, r: EmissionRecord)
    requires Injective(format) && Represents(format, keys, quarters, es)
    ensures var key := format(KeyOf(r));
      var keys' := if key in quarters then keys else keys + [key];
      var created := if key in quarters then quarters else quarters[key := []];
      Represents(format, keys', created[key := created[key] + [r]], es + [r])
  {
    var ids, id, key := QuarterKeys(es), KeyOf(r), format(KeyOf(r));
    KeyPresent(format, keys, ids, id);
    QuarterKeysSnoc(es, r);
    if key in quarters {
      FileIntoSeenQuarter(format, keys, quarters, es, r);
    } else {
      FileIntoNewQuarter(format, keys, quarters, es, r);
    }
  }

  lemma FileIntoSeenQuarter(format: QuarterId -> string, keys: seq<string>,
                            quarters: map<string, seq<EmissionRecord>>, es: seq<EmissionRecord>, r: EmissionRecord)
    requires Injective(format) && Represents(format, keys, quarters, es) && format(KeyOf(r)) in quarters
    ensures var key := format(KeyOf(r));
      Represents(format, keys, quarters[key := quarters[key] + [r]], es + [r])
  {
    var ids, id, key := QuarterKeys(es), KeyOf(r), format(KeyOf(r));
    KeyPresent(format, keys, ids, id);
    QuarterKeysSnoc(es, r);
    assert QuarterKeys(es + [r]) == ids;
    var quarters' := quarters[key := quarters[key] + [r]];
    forall n | 0 <= n < |keys|
      ensures quarters'[keys[n]] == Bucket(es + [r], ids[n])
    {
      BucketSnoc(es, r, ids[n]);
    }
    assert forall k :: k in quarters' <==> k in keys;
    assert Represents(format, keys, quarters', es + [r]);
  }

  lemma FileIntoNewQuarter(format: QuarterId -> string, keys: seq<string>,
                           quarters: map<string, seq<EmissionRecord>>, es: seq<EmissionRecord>, r: EmissionRecord)
    requires Injective(format) && Represents(format, keys, quarters, es) && format(KeyOf(r)) !in quarters
    ensures var key := format(KeyOf(r));
      var created := quarters[key := []];
      Represents(format, keys + [key], created[key := created[key] + [r]], es + [r])
  {
    var ids, id, key := QuarterKeys(es), KeyOf(r), format(KeyOf(r));
    KeyPresent(format, keys, ids, id);
    QuarterKeysSnoc(es, r);
    var ids', keys' := ids + [id], keys + [key];
    assert QuarterKeys(es + [r]) == ids';
    var created := quarters[key := []];
    var quarters' := created[key := created[key] + [r]];
    assert quarters'[key] == [r];
    forall n | 0 <= n < |keys'|
      ensures keys'[n] == format(ids'[n])
      ensures quarters'[keys'[n]] == Bucket(es + [r], ids'[n])
    {
      BucketSnoc(es, r, ids'[n]);
      if n == |keys| {
        BucketNonEmpty(es, id);
      } else {
        assert keys'[n] == keys[n] != key;
      }
    }
    forall k ensures k in quarters' <==> k in keys' {
      assert k in keys' <==> k in keys || k == key;
    }
    assert Represents(format, keys', quarters', es + [r]);
  }

  /** The dictionary `groupEmissionsByQuarter` builds, with its keys in insertion order. */
  datatype Grouping = Grouping(keys: seq<string>, quarters: map<string, seq<EmissionRecord>>)

  /**
   * The dictionary after filing each record in turn: a key's bucket is created
   * on first sight and every record is appended to its own bucket.
   */
  function Group(es: seq<EmissionRecord>): (g: Grouping)
    ensures |g.keys| <= |es|
    ensures forall key :: key in g.keys <==> key in g.quarters
  {
    if es == [] then Grouping([], map[])
    else
      var g, r := Group(es[..|es| - 1]), es[|es| - 1];
      var key := KeyString(KeyOf(r));
      var keys := if key in g.quarters then g.keys else g.keys + [key];
      var created := if key in g.quarters then g.quarters else g.quarters[key := []];
      Grouping(keys, created[key := created[key] + [r]])
  }

  lemma GroupSnoc(es: seq<EmissionRecord>, r: EmissionRecord)
    ensures var g, key := Group(es), KeyString(KeyOf(r));
      var created := if key in g.quarters then g.quarters else g.quarters[key := []];
      Group(es + [r])
      == Grouping(if key in g.quarters then g.keys else g.keys + [key], created[key := created[key] + [r]])
  {
    assert (es + [r])[..|es|] == es;
  }

  /**
   * The dictionary is faithful to the records: its keys are the key strings of
   * the quarters in first-seen order, it has no other keys, and each key holds
   * exactly that quarter's records in input order.
   */
  lemma {:induction false} GroupRepresents(es: seq<EmissionRecord>)
    ensures Represents(KeyString, Group(es).keys, Group(es).quarters, es)
  {
    if es != [] {
      var init, last := es[..|es| - 1], es[|es| - 1];
      assert es == init + [last];
      GroupRepresents(init);
      KeyStringInjective();
      FileRecord(KeyString, Group(init).keys, Group(init).quarters, init, last);
      GroupSnoc(init, last);
    }
  }

  /** What the bucket loop needs about key number `n`, one key at a time. */
  lemma GroupedAt(es: seq<EmissionRecord>, n: nat)
    requires n < |QuarterKeys(es)|
    ensures |Group(es).keys| == |QuarterKeys(es)|
    ensures Group(es).keys[n] == KeyString(QuarterKeys(es)[n])
    ensures Group(es).keys[n] in Group(es).quarters
    ensures Group(es).quarters[Group(es).keys[n]] == Bucket(es, QuarterKeys(es)[n])
  {
    GroupRepresents(es);
  }

  /**
   * Entry `n` of the dictionary `groupEmissionsByQuarter` returns, as
   * `Object.entries` yields it: the key of the `n`-th quarter seen, present in the
   * dictionary and holding that quarter's bucket.
   */
  lemma GroupedEntry(es: seq<EmissionRecord>, keys: seq<string>, quarters: map<string, seq<EmissionRecord>>, n: nat)
    requires Grouping(keys, quarters) == Group(es)
    requires n < |keys|
    ensures |keys| == |QuarterKeys(es)|
    ensures keys[n] == KeyString(QuarterKeys(es)[n]) && keys[n] in quarters
    ensures quarters[keys[n]] == Bucket(es, QuarterKeys(es)[n])
  {
    GroupSize(es);
    GroupedAt(es, n);
  }

  /** The dictionary has one key per quarter seen. */
  lemma GroupSize(es: seq<EmissionRecord>)
    ensures |Group(es).keys| == |QuarterKeys(es)|
  {
    GroupRepresents(es);
  }

  /**
   * `groupEmissionsByQuarter`: walks the records, creates a key's bucket on first
   * sight and appends every record to its bucket. `keys` is the dictionary's key
   * order (the order in which keys were inserted).
   */
  method GroupEmissionsByQuarter(emissions: seq<EmissionRecord>)
    returns (keys: seq<string>, quarters: map<string, seq<EmissionRecord>>)
    ensures Grouping(keys, quarters) == Group(emissions)
  {
    keys, quarters := [], map[];
    var i := 0;
    while i < |emissions|
      invariant 0 <= i <= |emissions|
      invariant Grouping(keys, quarters) == Group(emissions[..i])
    {
      var emission := emissions[i];
      TakeOneMore(emissions, i);
      GroupSnoc(emissions[..i], emission);
      var date := emission.toUTC;
      var year := date.year;
      var month := date.month;
      var quarter := QuarterOf(month);
      var key := KeyString(QuarterId(year, quarter));
      if key !in quarters {
        quarters := quarters[key := []];
        keys := keys + [key];
      }
      quarters := quarters[key := quarters[key] + [emission]];
      i := i + 1;
    }
    assert emissions[..i] == emissions;
  }
}
