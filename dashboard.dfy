/** The dashboard charts (src/pages/Dashboard.tsx): clients counted by age
    category, cases counted by type, and cases received per month of the
    year up to the current month. */
module Dashboard {
  import opened Common

  const UnknownCategory := "Tidak Diketahui"
  const OtherType := "Lainnya"

  /** `value || fallback` on a nullable text column. */
  function LabelOf(value: Option<string>, fallback: string): (l: string)
    ensures value.Some? && value.value != "" ==> l == value.value
    ensures value.None? || value.value == "" ==> l == fallback
  {
    if value.Some? && value.value != "" then value.value else fallback
  }

  /** The key each row is counted under. */
  function Labels(values: seq<Option<string>>, fallback: string): (ls: seq<string>)
    ensures |ls| == |values|
    ensures forall i :: 0 <= i < |values| ==> ls[i] == LabelOf(values[i], fallback)
  {
    seq(|values|, i requires 0 <= i < |values| => LabelOf(values[i], fallback))
  }

  /** The object the `reduce` builds: `acc[key] = (acc[key] || 0) + 1` for
      each label in turn. */
  function CountsOf(labels: seq<string>): map<string, nat> {
    if labels == [] then map[]
    else
      var acc, key := CountsOf(labels[..|labels| - 1]), labels[|labels| - 1];
      acc[key := (if key in acc then acc[key] else 0) + 1]
  }

  /** The object has a key for each label, holding its number of
      occurrences, and no other key. */
  lemma {:induction false} CountsOfExact(labels: seq<string>, k: string)
    ensures k in CountsOf(labels) <==> k in labels
    ensures k in CountsOf(labels) ==> CountsOf(labels)[k] == Count(labels, k)
  {
    if labels != [] {
      var init, key := labels[..|labels| - 1], labels[|labels| - 1];
      CountsOfExact(init, k);
      assert labels == init + [key];
      CountAppend(init, key, k);
      if k !in init {
        assert Count(init, k) == 0;
      }
    }
  }

  /** The `reduce` that counts rows per key into an object: `keys` is the
      order in which keys were first added. */
  method CountBy(labels: seq<string>) returns (keys: seq<string>, counts: map<string, nat>)
    ensures keys == FirstOccurrences(labels)
    ensures forall k :: k in counts ==> k in labels && counts[k] == Count(labels, k)
    ensures forall k :: k in labels ==> k in counts
  {
    keys := [];
    counts := map[];
    var i := 0;
    while i < |labels|
      invariant 0 <= i <= |labels|
      invariant keys == FirstOccurrences(labels[..i])
      invariant counts == CountsOf(labels[..i])
    {
      var key := labels[i];
      assert labels[..i + 1][..i] == labels[..i];
      CountsOfExact(labels[..i], key);
      if key !in counts {
        keys := keys + [key];
      }
      counts := counts[key := (if key in counts then counts[key] else 0) + 1];
      i := i + 1;
    }
    assert labels[..i] == labels;
    forall k ensures (k in counts <==> k in labels) && (k in counts ==> counts[k] == Count(labels, k)) {
      CountsOfExact(labels, k);
    }
  }

  datatype ChartEntry = ChartEntry(name: string, value: nat)

  /** `Object.keys(counts).map(key => ({ name: key, value: counts[key] }))`. */
  function ChartOf(keys: seq<string>, counts: map<string, nat>): (chart: seq<ChartEntry>)
    requires forall k :: k in keys ==> k in counts
    ensures |chart| == |keys|
    ensures forall i :: 0 <= i < |chart| ==> chart[i] == ChartEntry(keys[i], counts[keys[i]])
  {
    seq(|keys|, i requires 0 <= i < |keys| => ChartEntry(keys[i], counts[keys[i]]))
  }

  function ValueOf(e: ChartEntry): int {
    e.value
  }

  lemma {:induction false} ChartSum(keys: seq<string>, counts: map<string, nat>, labels: seq<string>)
    requires forall k :: k in keys ==> k in counts && counts[k] == Count(labels, k)
    ensures SumOf(ChartOf(keys, counts), ValueOf) == SumCounts(keys, labels)
  {
    if keys != [] {
      ChartSum(keys[1..], counts, labels);
      assert ChartOf(keys, counts)[1..] == ChartOf(keys[1..], counts);
    }
  }

  /** The chart a count promises: one entry per distinct label, in order of
      first appearance, valued with that label's number of occurrences. */
  function ExpectedChart(labels: seq<string>): seq<ChartEntry> {
    var keys := FirstOccurrences(labels);
    seq(|keys|, i requires 0 <= i < |keys| => ChartEntry(keys[i], Count(labels, keys[i])))
  }

  /** One pie chart (`chartDataKlien` or `chartDataJenis`): one entry per
      distinct key, in order of first appearance, valued with that key's
      count; a row without a value is counted under `fallback`; the values
      add up to the number of rows. */
  method CountChart(values: seq<Option<string>>, fallback: string) returns (chart: seq<ChartEntry>)
    ensures chart == ExpectedChart(Labels(values, fallback))
    ensures forall i, j :: 0 <= i < j < |chart| ==> chart[i].name != chart[j].name
    ensures forall i :: 0 <= i < |values| ==> exists j :: 0 <= j < |chart| && chart[j].name == LabelOf(values[i], fallback)
    ensures SumOf(chart, ValueOf) == |values|
  {
    var labels := Labels(values, fallback);
    var keys, counts := CountBy(labels);
    chart := ChartOf(keys, counts);
    assert forall i :: 0 <= i < |chart| ==> chart[i].name == keys[i];
    assert chart == ExpectedChart(labels);
    forall i | 0 <= i < |values|
      ensures exists j :: 0 <= j < |chart| && chart[j].name == LabelOf(values[i], fallback)
    {
      assert labels[i] in keys;
    }
    ChartSum(keys, counts, labels);
    SumCountsCovers(keys, labels);
  }

  /** The client chart: categories, missing ones as "Tidak Diketahui". */
  method ClientChart(kategoriUsia: seq<Option<string>>) returns (chart: seq<ChartEntry>)
    ensures chart == ExpectedChart(Labels(kategoriUsia, UnknownCategory))
    ensures SumOf(chart, ValueOf) == |kategoriUsia|
    ensures forall i :: 0 <= i < |kategoriUsia| && (kategoriUsia[i].None? || kategoriUsia[i] == Some("")) ==>
      exists j :: 0 <= j < |chart| && chart[j].name == UnknownCategory
  {
    chart := CountChart(kategoriUsia, UnknownCategory);
  }

  /** The case-type chart: types, missing ones as "Lainnya". */
  method TypeChart(jenisLitmas: seq<Option<string>>) returns (chart: seq<ChartEntry>)
    ensures chart == ExpectedChart(Labels(jenisLitmas, OtherType))
    ensures SumOf(chart, ValueOf) == |jenisLitmas|
    ensures forall i :: 0 <= i < |jenisLitmas| && (jenisLitmas[i].None? || jenisLitmas[i] == Some("")) ==>
      exists j :: 0 <= j < |chart| && chart[j].name == OtherType
  {
    chart := CountChart(jenisLitmas, OtherType);
  }

  /** A month as `getMonth` returns it. */
  type MonthIndex = m: int | 0 <= m < 12

  const MonthNames := ["Jan", "Feb", "Mar", "Apr", "Mei", "Jun", "Jul", "Agu", "Sep", "Okt", "Nov", "Des"]

  /** The number of dated rows received in month `m`; `received` holds each
      row's month, None when the row has no date. */
  function ReceivedIn(received: seq<Option<MonthIndex>>, m: MonthIndex): nat {
    Count(received, Some(m))
  }

  /** The trend loop: twelve zeroed buckets, and each dated row adds one
      to the bucket of its month. */
  method MonthlyTrend(received: seq<Option<MonthIndex>>) returns (masuk: array<nat>)
    ensures fresh(masuk) && masuk.Length == 12
    ensures forall m: MonthIndex :: masuk[m] == ReceivedIn(received, m)
    ensures masuk[..] == Buckets(received)
  {
    masuk := new nat[12](_ => 0);
    var i := 0;
    while i < |received|
      invariant 0 <= i <= |received|
      invariant forall m: MonthIndex :: masuk[m] == ReceivedIn(received[..i], m)
    {
      assert received[..i + 1] == received[..i] + [received[i]];
      forall m: MonthIndex ensures ReceivedIn(received[..i + 1], m) == ReceivedIn(received[..i], m) + (if received[i] == Some(m) then 1 else 0) {
        CountAppend(received[..i], received[i], Some(m));
      }
      if received[i].Some? {
        var monthIdx := received[i].value;
        masuk[monthIdx] := masuk[monthIdx] + 1;
      }
      i := i + 1;
    }
    assert received[..i] == received;
    assert masuk[..] == Buckets(received);
  }

  /** The twelve months as keys, in calendar order. */
  function AllMonths(): (ms: seq<Option<MonthIndex>>)
    ensures |ms| == 12 && Distinct(ms)
    ensures forall m: MonthIndex :: Some(m) in ms
  {
    var ms := seq(12, i requires 0 <= i < 12 => Some(i as MonthIndex));
    assert forall m: MonthIndex :: ms[m] == Some(m);
    ms
  }

  /** Whether a row has a date. */
  predicate Dated(r: Option<MonthIndex>) {
    r.Some?
  }

  /** The twelve bucket values in month order. */
  function Buckets(received: seq<Option<MonthIndex>>): (b: seq<nat>)
    ensures |b| == 12
    ensures forall m: MonthIndex :: b[m] == ReceivedIn(received, m)
  {
    seq(12, i requires 0 <= i < 12 => ReceivedIn(received, i as MonthIndex))
  }

  function NatValue(n: nat): int {
    n
  }

  /** Adding up values that are per-key counts gives the sum of the counts. */
  lemma {:induction false} SumOfCounts(b: seq<nat>, keys: seq<Option<MonthIndex>>, xs: seq<Option<MonthIndex>>)
    requires |b| == |keys|
    requires forall i :: 0 <= i < |b| ==> b[i] == Count(xs, keys[i])
    ensures SumOf(b, NatValue) == SumCounts(keys, xs)
  {
    if b != [] {
      SumOfCounts(b[1..], keys[1..], xs);
    }
  }

  /** The twelve buckets together hold every dated row exactly once;
      undated rows are in none. */
  lemma TrendTotal(received: seq<Option<MonthIndex>>)
    ensures SumOf(Buckets(received), NatValue) == |Filter(received, Dated)|
  {
    var months, dated := AllMonths(), Filter(received, Dated);
    forall i | 0 <= i < 12 ensures Buckets(received)[i] == Count(received, months[i]) {
      assert months[i] == Some(i as MonthIndex);
    }
    SumOfCounts(Buckets(received), months, received);
    forall k | k in months ensures Count(received, k) == Count(dated, k) {
      CountFilterKept(received, Dated, k);
    }
    SumCountsSame(months, received, dated);
    SumCountsCovers(months, dated);
  }

  /** `trendMap.slice(0, currentMonth + 1)`: the months up to and including
      the current one. */
  function TrendToShow(masuk: seq<nat>, currentMonth: MonthIndex): (shown: seq<nat>)
    requires |masuk| == 12
    ensures |shown| == currentMonth + 1
    ensures forall m :: 0 <= m <= currentMonth ==> shown[m] == masuk[m]
  {
    masuk[..currentMonth + 1]
  }
}
