/** The cumulative statistics writer: hour-start normalisation and the construction of the
    hourly usage and cost series handed to Home Assistant's recorder.

    Times are integers counting microseconds since the Unix epoch. Quantities are exact reals.
    The recorder is outside the model: the last stored rows are an input, the rows to store are
    the output. */
module Statistics {
  import opened Wrappers
  import StableSort

  const Domain := "utilityapi"
  const MicrosPerHour := 3_600_000_000
  const MicrosPerDay := 86_400_000_000
  const DefaultCurrency := "USD"

  /** What Python's `float(v or 0)` makes of a field: `Missing` when the field is absent or
      `None`, `Num(r)` when the conversion gives `r` (a falsy value gives 0), `Unparseable` when
      the conversion raises. */
  datatype Quantity = Missing | Num(value: real) | Unparseable

  /** What a quantity adds to a running total: a failed conversion adds nothing. */
  function Amount(q: Quantity): real {
    if q.Num? then q.value else 0.0
  }

  /** An hour's start as given: a date-time (its wall-clock time in microseconds and its UTC
      offset, `None` for a naive one), or a bare date (days since the epoch). */
  datatype StartValue = DateTime(wall: int, utcOffset: Option<int>) | Date(day: int)

  /** The offset from UTC of Home Assistant's default time zone at a given wall-clock time;
      `dt_util.as_utc` reads a naive date-time in this zone. */
  type Zone = int -> int

  datatype Hour = Hour(start: StartValue, usage: Quantity, cost: Quantity)

  /** `as_utc` of a date-time. */
  function Utc(wall: int, utcOffset: Option<int>, zone: Zone): int {
    wall - (match utcOffset case Some(o) => o case None => zone(wall))
  }

  /** `_parse_hour_start` as written: a bare date becomes `as_utc` of a naive midnight, which is
      local midnight of the default zone, not midnight UTC. */
  function HourStartAsWritten(v: StartValue, zone: Zone): (t: int)
    ensures v.DateTime? ==> t % MicrosPerHour == 0 && t <= Utc(v.wall, v.utcOffset, zone) < t + MicrosPerHour
    ensures v.Date? ==> t == v.day * MicrosPerDay - zone(v.day * MicrosPerDay)
  {
    match v
    case DateTime(wall, utcOffset) =>
      var t := Utc(wall, utcOffset, zone);
      t - t % MicrosPerHour
    case Date(day) => Utc(day * MicrosPerDay, None, zone)
  }

  /** With the default zone at UTC+05:30, the date 1970-01-01 maps to 18:30 UTC of the day
      before: neither midnight UTC nor the start of an hour. */
  lemma DateStartAsWrittenOffHour()
    ensures HourStartAsWritten(Date(0), (wall: int) => 19_800_000_000) == -19_800_000_000
    ensures HourStartAsWritten(Date(0), (wall: int) => 19_800_000_000) % MicrosPerHour != 0
  {
  }

  /** `_parse_hour_start` as intended: the start of the UTC hour containing a date-time, and
      midnight UTC for a bare date. */
  function HourStart(v: StartValue, zone: Zone): (t: int)
    ensures t % MicrosPerHour == 0
    ensures v.DateTime? ==> t <= Utc(v.wall, v.utcOffset, zone) < t + MicrosPerHour
    ensures v.Date? ==> t == v.day * MicrosPerDay
  {
    match v
    case DateTime(wall, utcOffset) =>
      var u := Utc(wall, utcOffset, zone);
      u - u % MicrosPerHour
    case Date(day) =>
      assert day * MicrosPerDay == (day * 24) * MicrosPerHour;
      day * MicrosPerDay
  }

  /** The two readings of `_parse_hour_start` agree on date-times, and on dates whenever the
      default zone is at UTC at midnight. */
  lemma HourStartAgreement(v: StartValue, zone: Zone)
    ensures v.DateTime? ==> HourStartAsWritten(v, zone) == HourStart(v, zone)
    ensures v.Date? && zone(v.day * MicrosPerDay) == 0 ==> HourStartAsWritten(v, zone) == HourStart(v, zone)
  {
  }

  /** Normalising an already normalised start (as a UTC date-time) changes nothing. */
  lemma HourStartIdempotent(v: StartValue, zone: Zone, zone': Zone)
    ensures HourStart(DateTime(HourStart(v, zone), Some(0)), zone') == HourStart(v, zone)
  {
    var t := HourStart(v, zone);
    assert Utc(t, Some(0), zone') == t;
  }

  /** A reading of `_parse_hour_start`: `AsWritten` is the function as it stands, `Corrected`
      the intended one. The writer is modelled for either. */
  type Normaliser = StartValue -> int

  function AsWritten(zone: Zone): Normaliser {
    (v: StartValue) => HourStartAsWritten(v, zone)
  }

  function Corrected(zone: Zone): Normaliser {
    (v: StartValue) => HourStart(v, zone)
  }

  /** The key of `sorted(hours, key=...)`: the normalised start of an hour. */
  function KeyOf(norm: Normaliser): Hour -> int {
    (h: Hour) => norm(h.start)
  }

  /** `sorted(hours, key=start)`. */
  function Ordered(hours: seq<Hour>, norm: Normaliser): seq<Hour> {
    StableSort.SortBy(hours, KeyOf(norm))
  }

  datatype Series = Usage | Cost

  function Reading(h: Hour, s: Series): Quantity {
    match s
    case Usage => h.usage
    case Cost => h.cost
  }

  /** The sum of the amounts of one series over `hs`. */
  function Total(hs: seq<Hour>, s: Series): real {
    if hs == [] then 0.0 else Total(hs[..|hs| - 1], s) + Amount(Reading(hs[|hs| - 1], s))
  }

  /** One recorder row: an hour start and the cumulative sum up to and including that hour. */
  datatype Row = Row(start: int, sum: real)

  /** The usage series: one row per hour, row `i` holding the prior sum plus the usage of hours
      `0..i`. */
  function UsageRows(hs: seq<Hour>, base: real, norm: Normaliser): seq<Row> {
    seq(|hs|, i requires 0 <= i < |hs| => Row(norm(hs[i].start), base + Total(hs[..i + 1], Usage)))
  }

  /** The cost series: a row only for hours whose cost is not `None`, holding the prior sum plus
      the cost of every hour so far. */
  function CostRows(hs: seq<Hour>, base: real, norm: Normaliser): seq<Row> {
    if hs == [] then []
    else
      CostRows(hs[..|hs| - 1], base, norm)
      + (if hs[|hs| - 1].cost.Missing? then []
         else [Row(norm(hs[|hs| - 1].start), base + Total(hs, Cost))])
  }

  /** The last statistics the recorder holds: per statistic id, its stored rows, newest first,
      each given by its `sum` field. */
  type LastStatistics = map<string, seq<Quantity>>

  /** The sum a series continues from. */
  function LastSum(last: LastStatistics, statisticId: string): (r: real)
    ensures statisticId !in last || last[statisticId] == [] ==> r == 0.0
    ensures statisticId in last && last[statisticId] != [] && !last[statisticId][0].Num? ==> r == 0.0
    ensures statisticId in last && last[statisticId] != [] && last[statisticId][0].Num? ==>
      r == last[statisticId][0].value
  {
    if statisticId in last && |last[statisticId]| > 0 then Amount(last[statisticId][0]) else 0.0
  }

  function StatisticId(meterId: string, s: Series): string {
    Domain + ":" + meterId + (match s case Usage => "_usage" case Cost => "_cost")
  }

  /** Distinct meters and distinct series never share a statistic id. */
  lemma StatisticIdInjective(m: string, s: Series, m': string, s': Series)
    requires StatisticId(m, s) == StatisticId(m', s')
    ensures m == m' && s == s'
  {
    var a, b := StatisticId(m, s), StatisticId(m', s');
    assert a[|a| - 1] == (if s == Usage then 'e' else 't');
    assert b[|b| - 1] == (if s' == Usage then 'e' else 't');
    var n := |Domain + ":"|;
    var tail := if s == Usage then "_usage" else "_cost";
    assert a[n..|a| - |tail|] == m;
    assert b[n..|b| - |tail|] == m';
  }

  datatype Metadata = Metadata(statisticId: string, unitOfMeasurement: string, hasMean: bool, hasSum: bool, name: string)

  datatype StatWrite = StatWrite(metadata: Metadata, rows: seq<Row>)

  function SeriesMetadata(meterId: string, s: Series, unit: Option<string>, currency: Option<string>): (m: Metadata)
    ensures m.statisticId == StatisticId(meterId, s)
    ensures s == Usage ==> m.unitOfMeasurement == (if unit.Some? && unit.value != "" then unit.value else "")
    ensures s == Cost ==> m.unitOfMeasurement == (if currency.Some? && currency.value != "" then currency.value else DefaultCurrency)
    ensures !m.hasMean && m.hasSum
  {
    match s
    case Usage =>
      Metadata(StatisticId(meterId, Usage), match unit case Some(u) => (if u != "" then u else "") case None => "",
               false, true, "UtilityAPI " + meterId + " Usage")
    case Cost =>
      Metadata(StatisticId(meterId, Cost), match currency case Some(c) => (if c != "" then c else DefaultCurrency) case None => DefaultCurrency,
               false, true, "UtilityAPI " + meterId + " Cost")
  }

  function WriteIfAny(meta: Metadata, rows: seq<Row>): seq<StatWrite> {
    if rows == [] then [] else [StatWrite(meta, rows)]
  }

  /** What `async_write_hourly_usage_cost` hands to the recorder, in call order. */
  function HourlyStatistics(recorderAvailable: bool, last: LastStatistics, meterId: string,
                            unit: Option<string>, currency: Option<string>, hours: seq<Hour>, norm: Normaliser): seq<StatWrite> {
    if !recorderAvailable then []
    else
      var ordered := Ordered(hours, norm);
      WriteIfAny(SeriesMetadata(meterId, Usage, unit, currency),
                 UsageRows(ordered, LastSum(last, StatisticId(meterId, Usage)), norm))
      + WriteIfAny(SeriesMetadata(meterId, Cost, unit, currency),
                   CostRows(ordered, LastSum(last, StatisticId(meterId, Cost)), norm))
  }

  lemma HourlyStatisticsAvailable(last: LastStatistics, meterId: string, unit: Option<string>,
                                  currency: Option<string>, hours: seq<Hour>, norm: Normaliser)
    ensures var ordered := Ordered(hours, norm);
      HourlyStatistics(true, last, meterId, unit, currency, hours, norm)
      == WriteIfAny(SeriesMetadata(meterId, Usage, unit, currency),
                    UsageRows(ordered, LastSum(last, StatisticId(meterId, Usage)), norm))
       + WriteIfAny(SeriesMetadata(meterId, Cost, unit, currency),
                    CostRows(ordered, LastSum(last, StatisticId(meterId, Cost)), norm))
  {
  }

  lemma TotalSnoc(hs: seq<Hour>, h: Hour, s: Series)
    ensures Total(hs + [h], s) == Total(hs, s) + Amount(Reading(h, s))
  {
    assert (hs + [h])[..|hs|] == hs;
  }

  lemma CostRowsSnoc(hs: seq<Hour>, h: Hour, base: real, norm: Normaliser)
    ensures CostRows(hs + [h], base, norm)
         == CostRows(hs, base, norm)
            + (if h.cost.Missing? then [] else [Row(norm(h.start), base + Total(hs + [h], Cost))])
  {
    assert (hs + [h])[..|hs|] == hs;
  }

  lemma UsageRowsSnoc(hs: seq<Hour>, h: Hour, base: real, norm: Normaliser)
    ensures UsageRows(hs + [h], base, norm)
         == UsageRows(hs, base, norm) + [Row(norm(h.start), base + Total(hs + [h], Usage))]
  {
    var a, b := UsageRows(hs + [h], base, norm), UsageRows(hs, base, norm);
    forall i | 0 <= i < |hs|
      ensures a[i] == b[i]
    {
      assert (hs + [h])[..i + 1] == hs[..i + 1];
    }
    assert (hs + [h])[..|hs| + 1] == hs + [h];
  }

  /** What one more hour adds to the running totals and to the two series. */
  lemma WriterStep(hs: seq<Hour>, i: nat, usageBase: real, costBase: real, norm: Normaliser)
    requires i < |hs|
    ensures Total(hs[..i + 1], Usage) == Total(hs[..i], Usage) + Amount(hs[i].usage)
    ensures Total(hs[..i + 1], Cost) == Total(hs[..i], Cost) + Amount(hs[i].cost)
    ensures UsageRows(hs[..i + 1], usageBase, norm)
         == UsageRows(hs[..i], usageBase, norm)
            + [Row(norm(hs[i].start), usageBase + Total(hs[..i + 1], Usage))]
    ensures CostRows(hs[..i + 1], costBase, norm)
         == CostRows(hs[..i], costBase, norm)
            + (if hs[i].cost.Missing? then [] else [Row(norm(hs[i].start), costBase + Total(hs[..i + 1], Cost))])
  {
    assert hs[..i + 1] == hs[..i] + [hs[i]];
    TotalSnoc(hs[..i], hs[i], Usage);
    TotalSnoc(hs[..i], hs[i], Cost);
    UsageRowsSnoc(hs[..i], hs[i], usageBase, norm);
    CostRowsSnoc(hs[..i], hs[i], costBase, norm);
  }

  /** The loop of `async_write_hourly_usage_cost`: one pass over the ordered hours keeping two
      running totals, appending a usage row for every hour and a cost row for every hour whose
      cost is not `None`. */
  method BuildRows(ordered: seq<Hour>, lastUsageSum: real, lastCostSum: real, norm: Normaliser)
    returns (usageRows: seq<Row>, costRows: seq<Row>)
    ensures usageRows == UsageRows(ordered, lastUsageSum, norm)
    ensures costRows == CostRows(ordered, lastCostSum, norm)
  {
    usageRows, costRows := [], [];
    var runningUsage, runningCost := lastUsageSum, lastCostSum;
    for i := 0 to |ordered|
      invariant runningUsage == lastUsageSum + Total(ordered[..i], Usage)
      invariant runningCost == lastCostSum + Total(ordered[..i], Cost)
      invariant usageRows == UsageRows(ordered[..i], lastUsageSum, norm)
      invariant costRows == CostRows(ordered[..i], lastCostSum, norm)
    {
      var h := ordered[i];
      WriterStep(ordered, i, lastUsageSum, lastCostSum, norm);
      var start := norm(h.start);
      runningUsage := runningUsage + Amount(h.usage);
      runningCost := runningCost + Amount(h.cost);
      usageRows := usageRows + [Row(start, runningUsage)];
      if h.cost != Missing {
        costRows := costRows + [Row(start, runningCost)];
      }
    }
    assert ordered[..|ordered|] == ordered;
  }

  /** `async_write_hourly_usage_cost`: the sums to continue from, the rows of the ordered hours,
      and one write per series that has rows. */
  method WriteHourlyUsageCost(recorderAvailable: bool, last: LastStatistics, meterId: string,
                              unit: Option<string>, currency: Option<string>, hours: seq<Hour>, norm: Normaliser)
    returns (writes: seq<StatWrite>)
    ensures writes == HourlyStatistics(recorderAvailable, last, meterId, unit, currency, hours, norm)
  {
    if !recorderAvailable {
      return [];
    }
    var usageId, costId := StatisticId(meterId, Usage), StatisticId(meterId, Cost);
    var lastUsageSum, lastCostSum := LastSum(last, usageId), LastSum(last, costId);
    var ordered := Ordered(hours, norm);
    var usageMeta := SeriesMetadata(meterId, Usage, unit, currency);
    var costMeta := SeriesMetadata(meterId, Cost, unit, currency);
    var usageRows, costRows := BuildRows(ordered, lastUsageSum, lastCostSum, norm);
    HourlyStatisticsAvailable(last, meterId, unit, currency, hours, norm);
    writes := [];
    if usageRows != [] {
      writes := writes + [StatWrite(usageMeta, usageRows)];
    }
    if costRows != [] {
      writes := writes + [StatWrite(costMeta, costRows)];
    }
  }
}

/** Properties of the statistics the writer produces. */
module StatisticsProperties {
  import opened Wrappers
  import opened Statistics
  import StableSort

  predicate NonNegative(hs: seq<Hour>, s: Series) {
    forall i :: 0 <= i < |hs| ==> Amount(Reading(hs[i], s)) >= 0.0
  }

  lemma {:induction false} TotalPrefixMonotone(hs: seq<Hour>, s: Series, i: nat, j: nat)
    requires i <= j <= |hs| && NonNegative(hs, s)
    ensures Total(hs[..i], s) <= Total(hs[..j], s)
  {
    if i < j {
      TotalPrefixMonotone(hs, s, i, j - 1);
      assert hs[..j][..j - 1] == hs[..j - 1];
    }
  }

  /** With non-negative usage the usage sums never decrease and never drop below the sum they
      continue from. */
  lemma UsageRowsMonotone(hs: seq<Hour>, base: real, norm: Normaliser)
    requires NonNegative(hs, Usage)
    ensures var rows := UsageRows(hs, base, norm);
      (forall i :: 0 <= i < |rows| ==> base <= rows[i].sum)
      && forall i, j :: 0 <= i < j < |rows| ==> rows[i].sum <= rows[j].sum
  {
    var rows := UsageRows(hs, base, norm);
    forall i | 0 <= i < |rows|
      ensures base <= rows[i].sum
    {
      TotalPrefixMonotone(hs, Usage, 0, i + 1);
      assert hs[..0] == [];
    }
    forall i, j | 0 <= i < j < |rows|
      ensures rows[i].sum <= rows[j].sum
    {
      TotalPrefixMonotone(hs, Usage, i + 1, j + 1);
    }
  }

  /** The cost row that hour `i` of `hs` contributes when its cost is not `None`. */
  function CostRowOf(hs: seq<Hour>, base: real, norm: Normaliser, i: nat): Row
    requires i < |hs|
  {
    Row(norm(hs[i].start), base + Total(hs[..i + 1], Cost))
  }

  predicate IsCostRowOf(hs: seq<Hour>, base: real, norm: Normaliser, i: nat, r: Row) {
    i < |hs| && !hs[i].cost.Missing? && r == CostRowOf(hs, base, norm, i)
  }

  function KnownCosts(hs: seq<Hour>): nat {
    if hs == [] then 0 else KnownCosts(hs[..|hs| - 1]) + (if hs[|hs| - 1].cost.Missing? then 0 else 1)
  }

  lemma {:induction false} KnownCostsBounds(hs: seq<Hour>)
    ensures KnownCosts(hs) <= |hs|
    ensures KnownCosts(hs) == 0 <==> forall i :: 0 <= i < |hs| ==> hs[i].cost.Missing?
  {
    if hs != [] {
      var n := |hs| - 1;
      KnownCostsBounds(hs[..n]);
      assert forall i :: 0 <= i < n ==> hs[..n][i] == hs[i];
    }
  }

  lemma {:induction false} CostRowsCount(hs: seq<Hour>, base: real, norm: Normaliser)
    ensures |CostRows(hs, base, norm)| == KnownCosts(hs)
  {
    if hs != [] {
      CostRowsCount(hs[..|hs| - 1], base, norm);
    }
  }

  lemma {:induction false} CostRowsSound(hs: seq<Hour>, base: real, norm: Normaliser)
    ensures forall r :: r in CostRows(hs, base, norm) ==> exists i: nat :: IsCostRowOf(hs, base, norm, i, r)
  {
    if hs != [] {
      var n := |hs| - 1;
      var init := hs[..n];
      CostRowsSound(init, base, norm);
      assert hs == init + [hs[n]];
      CostRowsSnoc(init, hs[n], base, norm);
      forall r | r in CostRows(hs, base, norm)
        ensures exists i: nat :: IsCostRowOf(hs, base, norm, i, r)
      {
        if r in CostRows(init, base, norm) {
          var i: nat :| IsCostRowOf(init, base, norm, i, r);
          assert hs[..i + 1] == init[..i + 1];
          assert IsCostRowOf(hs, base, norm, i, r);
        } else {
          assert hs[..n + 1] == hs;
          assert IsCostRowOf(hs, base, norm, n, r);
        }
      }
    }
  }

  lemma {:induction false} CostRowsComplete(hs: seq<Hour>, base: real, norm: Normaliser)
    ensures forall i: nat :: i < |hs| && !hs[i].cost.Missing? ==> CostRowOf(hs, base, norm, i) in CostRows(hs, base, norm)
  {
    if hs != [] {
      var n := |hs| - 1;
      var init := hs[..n];
      CostRowsComplete(init, base, norm);
      assert hs == init + [hs[n]];
      CostRowsSnoc(init, hs[n], base, norm);
      forall i: nat | i < |hs| && !hs[i].cost.Missing?
        ensures CostRowOf(hs, base, norm, i) in CostRows(hs, base, norm)
      {
        if i < n {
          assert hs[..i + 1] == init[..i + 1];
          assert CostRowOf(hs, base, norm, i) == CostRowOf(init, base, norm, i);
        } else {
          assert hs[..n + 1] == hs;
        }
      }
    }
  }

  /** The cost rows are exactly the rows of the hours whose cost is not `None`: one each, so at
      most one per hour, and none at all when every cost is `None`. */
  lemma CostRowsExactly(hs: seq<Hour>, base: real, norm: Normaliser)
    ensures var rows := CostRows(hs, base, norm);
      && |rows| == KnownCosts(hs) <= |hs|
      && (rows == [] <==> forall i :: 0 <= i < |hs| ==> hs[i].cost.Missing?)
      && (forall r :: r in rows ==> exists i: nat :: IsCostRowOf(hs, base, norm, i, r))
      && (forall i: nat :: i < |hs| && !hs[i].cost.Missing? ==> CostRowOf(hs, base, norm, i) in rows)
  {
    KnownCostsBounds(hs);
    CostRowsCount(hs, base, norm);
    CostRowsSound(hs, base, norm);
    CostRowsComplete(hs, base, norm);
  }

  /** The last cost row carries the whole cost total: the `None`-cost hours after it add
      nothing. */
  lemma {:induction false} CostRowsLast(hs: seq<Hour>, base: real, norm: Normaliser)
    requires CostRows(hs, base, norm) != []
    ensures var rows := CostRows(hs, base, norm); rows[|rows| - 1].sum == base + Total(hs, Cost)
  {
    var n := |hs| - 1;
    var init := hs[..n];
    assert hs == init + [hs[n]];
    CostRowsSnoc(init, hs[n], base, norm);
    TotalSnoc(init, hs[n], Cost);
    if hs[n].cost.Missing? {
      CostRowsLast(init, base, norm);
    }
  }

  /** With non-negative costs the cost sums never decrease and stay between the sum they continue
      from and that sum plus the whole cost total. */
  lemma {:induction false} CostRowsMonotone(hs: seq<Hour>, base: real, norm: Normaliser)
    requires NonNegative(hs, Cost)
    ensures var rows := CostRows(hs, base, norm);
      && (forall r :: r in rows ==> base <= r.sum <= base + Total(hs, Cost))
      && (forall i, j :: 0 <= i < j < |rows| ==> rows[i].sum <= rows[j].sum)
  {
    if hs != [] {
      var n := |hs| - 1;
      var init := hs[..n];
      assert hs == init + [hs[n]];
      assert NonNegative(init, Cost);
      CostRowsMonotone(init, base, norm);
      CostRowsSnoc(init, hs[n], base, norm);
      TotalSnoc(init, hs[n], Cost);
      TotalPrefixMonotone(hs, Cost, 0, |hs|);
      assert hs[..0] == [] && hs[..|hs|] == hs;
      var rows, before := CostRows(hs, base, norm), CostRows(init, base, norm);
      forall i, j | 0 <= i < j < |rows|
        ensures rows[i].sum <= rows[j].sum
      {
        if j >= |before| {
          assert rows[i] in before;
        }
      }
    }
  }

  /** When the hours are ordered by start, so are the cost rows. */
  lemma {:induction false} CostRowsOrdered(hs: seq<Hour>, base: real, norm: Normaliser)
    requires StableSort.SortedBy(hs, KeyOf(norm))
    ensures var rows := CostRows(hs, base, norm);
      forall i, j :: 0 <= i < j < |rows| ==> rows[i].start <= rows[j].start
  {
    if hs != [] {
      var n := |hs| - 1;
      var init := hs[..n];
      assert hs == init + [hs[n]];
      assert StableSort.SortedBy(init, KeyOf(norm));
      CostRowsOrdered(init, base, norm);
      CostRowsSnoc(init, hs[n], base, norm);
      CostRowsExactly(init, base, norm);
      var rows, before := CostRows(hs, base, norm), CostRows(init, base, norm);
      forall i, j | 0 <= i < j < |rows|
        ensures rows[i].start <= rows[j].start
      {
        if j >= |before| {
          assert rows[i] in before;
          var k: nat :| IsCostRowOf(init, base, norm, k, rows[i]);
          assert KeyOf(norm)(hs[k]) <= KeyOf(norm)(hs[n]);
        }
      }
    }
  }

  lemma {:induction false} TotalAppend(a: seq<Hour>, b: seq<Hour>, s: Series)
    ensures Total(a + b, s) == Total(a, s) + Total(b, s)
  {
    if b != [] {
      var n := |b| - 1;
      TotalAppend(a, b[..n], s);
      assert a + b == (a + b[..n]) + [b[n]];
      assert b == b[..n] + [b[n]];
      TotalSnoc(a + b[..n], b[n], s);
      TotalSnoc(b[..n], b[n], s);
    } else {
      assert a + b == a;
    }
  }

  /** A total does not depend on the order of the hours. */
  lemma {:induction false} TotalPermutation(a: seq<Hour>, b: seq<Hour>, s: Series)
    requires multiset(a) == multiset(b)
    ensures Total(a, s) == Total(b, s)
  {
    if a == [] {
      assert |b| == |multiset(b)| == 0;
    } else {
      var n := |a| - 1;
      var x := a[n];
      assert a == a[..n] + [x];
      assert x in multiset(b);
      var k :| 0 <= k < |b| && b[k] == x;
      var b' := b[..k] + b[k + 1..];
      assert b == b[..k] + [x] + b[k + 1..];
      assert multiset(b) == multiset(b[..k]) + multiset{x} + multiset(b[k + 1..]);
      assert multiset(a) == multiset(a[..n]) + multiset{x};
      assert multiset(b') == multiset(b[..k]) + multiset(b[k + 1..]);
      assert multiset(b') == multiset(b) - multiset{x};
      assert multiset(a[..n]) == multiset(a) - multiset{x};
      TotalPermutation(a[..n], b', s);
      TotalSnoc(a[..n], x, s);
      TotalAppend(b[..k] + [x], b[k + 1..], s);
      TotalSnoc(b[..k], x, s);
      TotalAppend(b[..k], b[k + 1..], s);
    }
  }

  lemma OrderedIsPermutation(hours: seq<Hour>, norm: Normaliser)
    ensures multiset(Ordered(hours, norm)) == multiset(hours)
    ensures |Ordered(hours, norm)| == |hours|
    ensures StableSort.SortedBy(Ordered(hours, norm), KeyOf(norm))
    ensures forall h :: h in Ordered(hours, norm) <==> h in hours
  {
    StableSort.SortByCorrect(hours, KeyOf(norm));
    var o := Ordered(hours, norm);
    forall h
      ensures h in o <==> h in hours
    {
      assert h in o <==> h in multiset(o);
      assert h in hours <==> h in multiset(hours);
    }
  }

  /** Without the recorder nothing is written. */
  lemma NoRecorderNoWrites(last: LastStatistics, meterId: string, unit: Option<string>,
                           currency: Option<string>, hours: seq<Hour>, norm: Normaliser)
    ensures HourlyStatistics(false, last, meterId, unit, currency, hours, norm) == []
  {
  }

  /** The shape of two conditional writes with distinct metadata. */
  lemma WritesShape(um: Metadata, ur: seq<Row>, cm: Metadata, cr: seq<Row>)
    requires um != cm
    ensures var w := WriteIfAny(um, ur) + WriteIfAny(cm, cr);
      && |w| <= 2
      && (forall x :: x in w ==> x.rows != [] && (x.rows == ur || x.rows == cr))
      && (ur != [] <==> (w != [] && w[0].metadata == um))
      && (cr != [] <==> (w != [] && w[|w| - 1].metadata == cm))
      && (ur != [] ==> w[0].rows == ur)
      && (cr != [] ==> w[|w| - 1].rows == cr)
  {
  }

  lemma KnownCostPermuted(a: seq<Hour>, b: seq<Hour>)
    requires forall h :: h in a <==> h in b
    ensures (exists i :: 0 <= i < |a| && !a[i].cost.Missing?) <==> (exists j :: 0 <= j < |b| && !b[j].cost.Missing?)
  {
    if exists i :: 0 <= i < |a| && !a[i].cost.Missing? {
      var i :| 0 <= i < |a| && !a[i].cost.Missing?;
      assert a[i] in b;
    }
    if exists j :: 0 <= j < |b| && !b[j].cost.Missing? {
      var j :| 0 <= j < |b| && !b[j].cost.Missing?;
      assert b[j] in a;
    }
  }

  /** Which series are written: usage exactly when there are hours, cost exactly when some hour
      has a cost that is not `None`; usage first. */
  lemma SeriesWritten(last: LastStatistics, meterId: string, unit: Option<string>,
                      currency: Option<string>, hours: seq<Hour>, norm: Normaliser)
    ensures var w := HourlyStatistics(true, last, meterId, unit, currency, hours, norm);
      && |w| <= 2
      && (forall x :: x in w ==> x.rows != [] && |x.rows| <= |hours|)
      && (hours != [] <==> (w != [] && w[0].metadata == SeriesMetadata(meterId, Usage, unit, currency)))
      && ((exists i :: 0 <= i < |hours| && !hours[i].cost.Missing?) <==>
            (w != [] && w[|w| - 1].metadata == SeriesMetadata(meterId, Cost, unit, currency)))
  {
    var o := Ordered(hours, norm);
    OrderedIsPermutation(hours, norm);
    KnownCostPermuted(hours, o);
    var u0, c0 := LastSum(last, StatisticId(meterId, Usage)), LastSum(last, StatisticId(meterId, Cost));
    CostRowsExactly(o, c0, norm);
    HourlyStatisticsAvailable(last, meterId, unit, currency, hours, norm);
    var um, cm := SeriesMetadata(meterId, Usage, unit, currency), SeriesMetadata(meterId, Cost, unit, currency);
    assert um != cm by {
      if um == cm {
        StatisticIdInjective(meterId, Usage, meterId, Cost);
      }
    }
    var ur, cr := UsageRows(o, u0, norm), CostRows(o, c0, norm);
    assert |ur| == |hours|;
    WritesShape(um, ur, cm, cr);
  }

  /** The usage rows of the ordered hours: one per hour, following the order, ending at the
      base plus the usage of all hours, and never decreasing when usage is non-negative. */
  lemma UsageRowsFacts(hours: seq<Hour>, base: real, norm: Normaliser)
    requires hours != []
    ensures var o := Ordered(hours, norm); var rows := UsageRows(o, base, norm);
      && |rows| == |hours|
      && (forall i :: 0 <= i < |rows| ==> rows[i] == Row(norm(o[i].start), base + Total(o[..i + 1], Usage)))
      && (forall i, j :: 0 <= i < j < |rows| ==> rows[i].start <= rows[j].start)
      && rows[|rows| - 1].sum == base + Total(hours, Usage)
      && (NonNegative(hours, Usage) ==>
            (forall i :: 0 <= i < |rows| ==> base <= rows[i].sum) &&
            forall i, j :: 0 <= i < j < |rows| ==> rows[i].sum <= rows[j].sum)
  {
    var o := Ordered(hours, norm);
    OrderedIsPermutation(hours, norm);
    UsageRowsOrdered(o, base, norm);
    UsageRowsLast(o, base, norm);
    TotalPermutation(o, hours, Usage);
    if NonNegative(hours, Usage) {
      forall i | 0 <= i < |o|
        ensures Amount(Reading(o[i], Usage)) >= 0.0
      {
        assert o[i] in hours;
      }
      UsageRowsMonotone(o, base, norm);
    }
  }

  /** When the hours are ordered by start, so are the usage rows. */
  lemma UsageRowsOrdered(hs: seq<Hour>, base: real, norm: Normaliser)
    requires StableSort.SortedBy(hs, KeyOf(norm))
    ensures var rows := UsageRows(hs, base, norm);
      forall i, j :: 0 <= i < j < |rows| ==> rows[i].start <= rows[j].start
  {
    var rows := UsageRows(hs, base, norm);
    forall i, j | 0 <= i < j < |rows|
      ensures rows[i].start <= rows[j].start
    {
      assert rows[i].start == KeyOf(norm)(hs[i]) && rows[j].start == KeyOf(norm)(hs[j]);
    }
  }

  /** The last usage row carries the whole usage total. */
  lemma UsageRowsLast(hs: seq<Hour>, base: real, norm: Normaliser)
    requires hs != []
    ensures var rows := UsageRows(hs, base, norm); rows[|rows| - 1].sum == base + Total(hs, Usage)
  {
    assert hs[..|hs|] == hs;
  }

  /** The usage series: one row per hour, ordered by start, ending at the stored sum plus the
      usage of all hours whatever their input order, and never decreasing when usage is
      non-negative. */
  lemma UsageSeries(last: LastStatistics, meterId: string, unit: Option<string>,
                    currency: Option<string>, hours: seq<Hour>, norm: Normaliser)
    requires hours != []
    ensures var w := HourlyStatistics(true, last, meterId, unit, currency, hours, norm);
      var base := LastSum(last, StatisticId(meterId, Usage));
      var rows := w[0].rows;
      var o := Ordered(hours, norm);
      && |rows| == |hours|
      && (forall i :: 0 <= i < |rows| ==> rows[i] == Row(norm(o[i].start), base + Total(o[..i + 1], Usage)))
      && (forall i, j :: 0 <= i < j < |rows| ==> rows[i].start <= rows[j].start)
      && rows[|rows| - 1].sum == base + Total(hours, Usage)
      && (NonNegative(hours, Usage) ==>
            (forall i :: 0 <= i < |rows| ==> base <= rows[i].sum) &&
            forall i, j :: 0 <= i < j < |rows| ==> rows[i].sum <= rows[j].sum)
  {
    var base := LastSum(last, StatisticId(meterId, Usage));
    var w := HourlyStatistics(true, last, meterId, unit, currency, hours, norm);
    UsageRowsFacts(hours, base, norm);
    UsageRowsInWrites(last, meterId, unit, currency, hours, norm);
  }

  lemma UsageRowsInWrites(last: LastStatistics, meterId: string, unit: Option<string>,
                          currency: Option<string>, hours: seq<Hour>, norm: Normaliser)
    requires hours != []
    ensures var w := HourlyStatistics(true, last, meterId, unit, currency, hours, norm);
      w != [] && w[0].rows == UsageRows(Ordered(hours, norm), LastSum(last, StatisticId(meterId, Usage)), norm)
  {
    var o := Ordered(hours, norm);
    OrderedIsPermutation(hours, norm);
    HourlyStatisticsAvailable(last, meterId, unit, currency, hours, norm);
    var ur := UsageRows(o, LastSum(last, StatisticId(meterId, Usage)), norm);
    assert |ur| == |hours|;
  }

  /** The cost rows of the ordered hours: at most one per hour, following the order, ending at
      the base plus the cost of all hours, and never decreasing when costs are non-negative. */
  lemma CostRowsFacts(hours: seq<Hour>, base: real, norm: Normaliser)
    requires exists i :: 0 <= i < |hours| && !hours[i].cost.Missing?
    ensures var rows := CostRows(Ordered(hours, norm), base, norm);
      && rows != []
      && |rows| <= |hours|
      && (forall i, j :: 0 <= i < j < |rows| ==> rows[i].start <= rows[j].start)
      && rows[|rows| - 1].sum == base + Total(hours, Cost)
      && (NonNegative(hours, Cost) ==>
            (forall r :: r in rows ==> base <= r.sum) &&
            forall i, j :: 0 <= i < j < |rows| ==> rows[i].sum <= rows[j].sum)
  {
    var o := Ordered(hours, norm);
    OrderedIsPermutation(hours, norm);
    KnownCostPermuted(hours, o);
    KnownCostsBounds(o);
    CostRowsCount(o, base, norm);
    var rows := CostRows(o, base, norm);
    assert rows != [];
    CostRowsLast(o, base, norm);
    CostRowsOrdered(o, base, norm);
    TotalPermutation(o, hours, Cost);
    if NonNegative(hours, Cost) {
      forall i | 0 <= i < |o|
        ensures Amount(Reading(o[i], Cost)) >= 0.0
      {
        assert o[i] in hours;
      }
      CostRowsMonotone(o, base, norm);
    }
  }

  lemma CostRowsInWrites(last: LastStatistics, meterId: string, unit: Option<string>,
                         currency: Option<string>, hours: seq<Hour>, norm: Normaliser)
    requires CostRows(Ordered(hours, norm), LastSum(last, StatisticId(meterId, Cost)), norm) != []
    ensures var w := HourlyStatistics(true, last, meterId, unit, currency, hours, norm);
      w != [] && w[|w| - 1].rows == CostRows(Ordered(hours, norm), LastSum(last, StatisticId(meterId, Cost)), norm)
  {
    HourlyStatisticsAvailable(last, meterId, unit, currency, hours, norm);
  }

  /** The cost series: at most one row per hour, ordered by start, ending at the stored sum plus
      the cost of all hours, and never decreasing when costs are non-negative. */
  lemma CostSeries(last: LastStatistics, meterId: string, unit: Option<string>,
                   currency: Option<string>, hours: seq<Hour>, norm: Normaliser)
    requires exists i :: 0 <= i < |hours| && !hours[i].cost.Missing?
    ensures var w := HourlyStatistics(true, last, meterId, unit, currency, hours, norm);
      var base := LastSum(last, StatisticId(meterId, Cost));
      var rows := w[|w| - 1].rows;
      && |rows| <= |hours|
      && (forall i, j :: 0 <= i < j < |rows| ==> rows[i].start <= rows[j].start)
      && rows[|rows| - 1].sum == base + Total(hours, Cost)
      && (NonNegative(hours, Cost) ==>
            (forall r :: r in rows ==> base <= r.sum) &&
            forall i, j :: 0 <= i < j < |rows| ==> rows[i].sum <= rows[j].sum)
  {
    var base := LastSum(last, StatisticId(meterId, Cost));
    CostRowsFacts(hours, base, norm);
    CostRowsInWrites(last, meterId, unit, currency, hours, norm);
  }

  /** Every usage row starts at the normalised start of one of the hours. */
  lemma UsageRowStarts(hs: seq<Hour>, base: real, norm: Normaliser)
    ensures forall r :: r in UsageRows(hs, base, norm) ==> exists h :: h in hs && r.start == norm(h.start)
  {
    var rows := UsageRows(hs, base, norm);
    forall r | r in rows
      ensures exists h :: h in hs && r.start == norm(h.start)
    {
      var i :| 0 <= i < |rows| && rows[i] == r;
      assert hs[i] in hs;
    }
  }

  /** Every cost row starts at the normalised start of one of the hours. */
  lemma CostRowStarts(hs: seq<Hour>, base: real, norm: Normaliser)
    ensures forall r :: r in CostRows(hs, base, norm) ==> exists h :: h in hs && r.start == norm(h.start)
  {
    CostRowsSound(hs, base, norm);
    forall r | r in CostRows(hs, base, norm)
      ensures exists h :: h in hs && r.start == norm(h.start)
    {
      var i: nat :| IsCostRowOf(hs, base, norm, i, r);
      assert hs[i] in hs;
    }
  }

  /** Every written row starts at the normalised start of one of the input hours. */
  lemma RowStartsFromHours(last: LastStatistics, meterId: string, unit: Option<string>,
                           currency: Option<string>, hours: seq<Hour>, norm: Normaliser)
    ensures forall x, r :: x in HourlyStatistics(true, last, meterId, unit, currency, hours, norm) && r in x.rows ==>
      exists h :: h in hours && r.start == norm(h.start)
  {
    var o := Ordered(hours, norm);
    OrderedIsPermutation(hours, norm);
    HourlyStatisticsAvailable(last, meterId, unit, currency, hours, norm);
    var ur := UsageRows(o, LastSum(last, StatisticId(meterId, Usage)), norm);
    var cr := CostRows(o, LastSum(last, StatisticId(meterId, Cost)), norm);
    UsageRowStarts(o, LastSum(last, StatisticId(meterId, Usage)), norm);
    CostRowStarts(o, LastSum(last, StatisticId(meterId, Cost)), norm);
    var w := HourlyStatistics(true, last, meterId, unit, currency, hours, norm);
    forall x, r | x in w && r in x.rows
      ensures exists h :: h in hours && r.start == norm(h.start)
    {
      assert x.rows == ur || x.rows == cr;
      var h :| h in o && r.start == norm(h.start);
      assert h in hours;
    }
  }

  /** With the intended normalisation every written row starts at the top of a UTC hour. */
  lemma CorrectedRowsOnHour(last: LastStatistics, meterId: string, unit: Option<string>,
                            currency: Option<string>, hours: seq<Hour>, zone: Zone)
    ensures forall x, r :: x in HourlyStatistics(true, last, meterId, unit, currency, hours, Corrected(zone)) && r in x.rows ==>
      r.start % MicrosPerHour == 0
  {
    RowStartsFromHours(last, meterId, unit, currency, hours, Corrected(zone));
    forall x, r | x in HourlyStatistics(true, last, meterId, unit, currency, hours, Corrected(zone)) && r in x.rows
      ensures r.start % MicrosPerHour == 0
    {
      var h :| h in hours && r.start == Corrected(zone)(h.start);
      assert r.start == HourStart(h.start, zone);
    }
  }

  /** The writer as it stands, on one hour given by the date 1970-01-01 with the default zone at
      UTC+05:30: its usage row starts at 18:30 UTC of the day before, off the hour. */
  lemma AsWrittenDateRow()
    ensures var zone := (wall: int) => 19_800_000_000;
      var w := HourlyStatistics(true, map[], "m", None, None, [Hour(Date(0), Num(1.0), Missing)], AsWritten(zone));
      && |w| == 1
      && w[0].rows == [Row(-19_800_000_000, 1.0)]
      && w[0].rows[0].start % MicrosPerHour != 0
  {
    var zone := (wall: int) => 19_800_000_000;
    var hs := [Hour(Date(0), Num(1.0), Missing)];
    var norm := AsWritten(zone);
    assert Ordered(hs, norm) == hs;
    assert hs[..1] == hs;
    assert Total(hs, Usage) == 1.0 by {
      assert hs[..0] == [];
    }
    assert CostRows(hs, 0.0, norm) == [] by {
      assert hs[..0] == [];
    }
    assert UsageRows(hs, 0.0, norm) == [Row(-19_800_000_000, 1.0)];
    HourlyStatisticsAvailable(map[], "m", None, None, hs, norm);
  }
}
