/** The section head's dashboard (src/pages/test/KasieTest.tsx): per-officer
    workload statistics tallied over all cases, the completion rate, the
    ordering of officers by workload, the global counters, and the status
    update sent when a report is approved or returned for revision. */
module Kasie {
  import opened Common

  /** An officer (`petugas_pk`) row. */
  datatype Officer = Officer(id: string, nama: string, nip: string)

  /** A case as this dashboard reads it: its status (None for null) and the
      officer joined through `nama_pk` (None when unassigned). */
  datatype Case = Case(idLitmas: int, status: Option<string>, petugas: Option<Officer>, catatanRevisi: Option<string>)

  datatype OfficerStats = OfficerStats(
    id: string,
    nama: string,
    nip: string,
    totalAssigned: nat,
    completed: nat,
    inProgress: nat,
    revision: nat,
    performanceRate: int)

  const StatusApproved := "Disetujui"
  const StatusRevision := "Revisi"
  const StatusWaiting := "Menunggu Verifikasi"
  const StatusInProcess := "Proses"

  /** Each counted case falls into exactly one of these. */
  datatype Kind = Completed | Revised | InProgress

  function KindOf(c: Case): Kind {
    if c.status == Some(StatusApproved) then Completed
    else if c.status == Some(StatusRevision) then Revised
    else InProgress
  }

  /** The officer a case counts for: `item.petugas?.id` when it is truthy. */
  function CountedId(c: Case): Option<string> {
    if c.petugas.Some? && c.petugas.value.id != "" then Some(c.petugas.value.id) else None
  }

  /** The officer ids of the counted cases (of one kind, or of any kind when
      `kind` is None), one entry per case, in case order. */
  function IdsWith(cases: seq<Case>, kind: Option<Kind>): seq<string> {
    if cases == [] then []
    else
      var c := cases[|cases| - 1];
      IdsWith(cases[..|cases| - 1], kind)
      + (if CountedId(c).Some? && (kind.None? || KindOf(c) == kind.value) then [CountedId(c).value] else [])
  }

  function OfficerIds(officers: seq<Officer>): seq<string> {
    if officers == [] then [] else OfficerIds(officers[..|officers| - 1]) + [officers[|officers| - 1].id]
  }

  /** Whether case `c` counts for officer `k` under `kind` (any kind when
      `kind` is None). */
  predicate CountsFor(c: Case, kind: Option<Kind>, k: string) {
    CountedId(c) == Some(k) && (kind.None? || KindOf(c) == kind.value)
  }

  /** The number of cases that count for officer `k` under `kind`. */
  function CountOf(cases: seq<Case>, kind: Option<Kind>, k: string): nat {
    if cases == [] then 0
    else CountOf(cases[..|cases| - 1], kind, k) + (if CountsFor(cases[|cases| - 1], kind, k) then 1 else 0)
  }

  /** The last listed officer with id `k`: a later `set` on the same key
      overwrites the entry. */
  function LastOfficer(officers: seq<Officer>, k: string): Option<Officer> {
    if officers == [] then None
    else if officers[|officers| - 1].id == k then Some(officers[|officers| - 1])
    else LastOfficer(officers[..|officers| - 1], k)
  }

  /** The officer joined to the first counted case for `k`. */
  function FirstOfficer(cases: seq<Case>, k: string): Option<Officer> {
    if cases == [] then None
    else
      var first := FirstOfficer(cases[..|cases| - 1], k);
      var c := cases[|cases| - 1];
      if first.Some? then first
      else if CountedId(c) == Some(k) then c.petugas
      else None
  }

  /** Where the name and NIP of an entry come from: the officer list when
      the officer is listed there, otherwise the first case naming them. */
  function EntryOfficer(officers: seq<Officer>, cases: seq<Case>, k: string): Option<Officer> {
    if LastOfficer(officers, k).Some? then LastOfficer(officers, k) else FirstOfficer(cases, k)
  }

  /** The entry the tally must hold for officer `k`, before the rate is
      filled in. */
  function ExpectedStats(officers: seq<Officer>, cases: seq<Case>, k: string): OfficerStats
    requires EntryOfficer(officers, cases, k).Some?
  {
    var o := EntryOfficer(officers, cases, k).value;
    OfficerStats(k, o.nama, o.nip,
      CountOf(cases, None, k),
      CountOf(cases, Some(Completed), k),
      CountOf(cases, Some(InProgress), k),
      CountOf(cases, Some(Revised), k),
      0)
  }

  lemma {:induction false} LastOfficerFound(officers: seq<Officer>, k: string)
    ensures LastOfficer(officers, k).Some? <==> k in OfficerIds(officers)
    ensures LastOfficer(officers, k).Some? ==> LastOfficer(officers, k).value.id == k
  {
    if officers != [] {
      LastOfficerFound(officers[..|officers| - 1], k);
    }
  }

  lemma {:induction false} FirstOfficerFound(cases: seq<Case>, k: string)
    ensures FirstOfficer(cases, k).Some? <==> k in IdsWith(cases, None)
    ensures FirstOfficer(cases, k).Some? ==> FirstOfficer(cases, k).value.id == k
  {
    if cases != [] {
      FirstOfficerFound(cases[..|cases| - 1], k);
    }
  }

  /** An officer has an entry exactly when they are listed or some counted
      case names them. */
  lemma EntryOfficerFound(officers: seq<Officer>, cases: seq<Case>, k: string)
    ensures EntryOfficer(officers, cases, k).Some? <==> k in OfficerIds(officers) + IdsWith(cases, None)
    ensures EntryOfficer(officers, cases, k).Some? ==> EntryOfficer(officers, cases, k).value.id == k
  {
    LastOfficerFound(officers, k);
    FirstOfficerFound(cases, k);
  }

  /** The counters are the occurrence counts of the officer in `IdsWith`. */
  lemma {:induction false} CountOfIds(cases: seq<Case>, kind: Option<Kind>, k: string)
    ensures CountOf(cases, kind, k) == Count(IdsWith(cases, kind), k)
  {
    if cases != [] {
      var c := cases[|cases| - 1];
      CountOfIds(cases[..|cases| - 1], kind, k);
      if CountsFor(c, kind, k) {
        CountAppend(IdsWith(cases[..|cases| - 1], kind), k, k);
      } else if CountedId(c).Some? && (kind.None? || KindOf(c) == kind.value) {
        CountAppend(IdsWith(cases[..|cases| - 1], kind), CountedId(c).value, k);
      } else {
        assert IdsWith(cases, kind) == IdsWith(cases[..|cases| - 1], kind);
      }
    }
  }

  /** Every counted case adds to exactly one of the three counters. */
  lemma {:induction false} KindsPartition(cases: seq<Case>, k: string)
    ensures CountOf(cases, None, k)
      == CountOf(cases, Some(Completed), k) + CountOf(cases, Some(Revised), k) + CountOf(cases, Some(InProgress), k)
  {
    if cases != [] {
      KindsPartition(cases[..|cases| - 1], k);
    }
  }

  /** An officer no counted case names has every counter at zero. */
  lemma {:induction false} ZeroCounts(cases: seq<Case>, kind: Option<Kind>, k: string)
    requires FirstOfficer(cases, k).None?
    ensures CountOf(cases, kind, k) == 0
  {
    if cases != [] {
      ZeroCounts(cases[..|cases| - 1], kind, k);
    }
  }

  function FreshEntry(o: Officer): OfficerStats {
    OfficerStats(o.id, o.nama, o.nip, 0, 0, 0, 0, 0)
  }

  /** Adds one case of kind `kind` to an entry: the total and the counter
      of that kind go up by one. */
  function Tally(s: OfficerStats, kind: Kind): OfficerStats {
    s.(totalAssigned := s.totalAssigned + 1,
       completed := s.completed + (if kind == Completed then 1 else 0),
       revision := s.revision + (if kind == Revised then 1 else 0),
       inProgress := s.inProgress + (if kind == InProgress then 1 else 0))
  }

  /** The statistics map together with the order in which its keys were
      first set. */
  datatype StatsMap = StatsMap(order: seq<string>, stats: map<string, OfficerStats>)

  /** `statsMap.set(p.id, ...)` for one listed officer. */
  function Seed(m: StatsMap, o: Officer): StatsMap {
    StatsMap(if o.id in m.stats then m.order else m.order + [o.id], m.stats[o.id := FreshEntry(o)])
  }

  /** One step of the pass over the cases. */
  function AddCase(m: StatsMap, c: Case): StatsMap {
    if CountedId(c).None? then m
    else
      var k0 := CountedId(c).value;
      var s0 := if k0 in m.stats then m.stats[k0] else FreshEntry(c.petugas.value);
      StatsMap(if k0 in m.stats then m.order else m.order + [k0], m.stats[k0 := Tally(s0, KindOf(c))])
  }

  /** The map after seeding the listed officers in order. */
  function Seeded(officers: seq<Officer>): StatsMap {
    if officers == [] then StatsMap([], map[])
    else Seed(Seeded(officers[..|officers| - 1]), officers[|officers| - 1])
  }

  /** The map after seeding and then passing over the cases in order. */
  function TallyAll(officers: seq<Officer>, cases: seq<Case>): StatsMap {
    if cases == [] then Seeded(officers)
    else AddCase(TallyAll(officers, cases[..|cases| - 1]), cases[|cases| - 1])
  }

  /** After seeding, the keys are the listed ids, each with a zeroed entry
      for the last officer listed under it. */
  lemma {:induction false} SeededEntries(officers: seq<Officer>, k: string)
    ensures k in Seeded(officers).stats <==> k in OfficerIds(officers)
    ensures k in Seeded(officers).stats ==>
      LastOfficer(officers, k).Some? && Seeded(officers).stats[k] == FreshEntry(LastOfficer(officers, k).value)
  {
    if officers != [] {
      SeededEntries(officers[..|officers| - 1], k);
      LastOfficerFound(officers[..|officers| - 1], k);
    }
  }

  /** After seeding, the keys are in order of first listing. */
  lemma {:induction false} SeededOrder(officers: seq<Officer>)
    ensures Seeded(officers).order == FirstOccurrences(OfficerIds(officers))
  {
    if officers != [] {
      var prefix, o := officers[..|officers| - 1], officers[|officers| - 1];
      SeededOrder(prefix);
      SeededEntries(prefix, o.id);
      OrderStep(Seeded(prefix).order, OfficerIds(prefix), o.id);
    }
  }

  /** Appending to the seen list extends the key order only with a key not
      seen before. */
  lemma OrderStep(order: seq<string>, seen: seq<string>, x: string)
    requires order == FirstOccurrences(seen)
    ensures FirstOccurrences(seen + [x]) == if x in order then order else order + [x]
  {
    assert (seen + [x])[..|seen|] == seen;
  }

  /** A case that does not count for `k` leaves `k`'s expected entry as it
      was. */
  lemma UncountedExpected(officers: seq<Officer>, cases: seq<Case>, k: string)
    requires cases != [] && !CountsFor(cases[|cases| - 1], None, k)
    requires EntryOfficer(officers, cases, k).Some?
    ensures EntryOfficer(officers, cases[..|cases| - 1], k).Some?
    ensures ExpectedStats(officers, cases, k) == ExpectedStats(officers, cases[..|cases| - 1], k)
  {
  }

  /** A case that counts for `k` tallies `k`'s expected entry, starting from
      a zeroed entry for its officer when `k` had none. */
  lemma CountedExpected(officers: seq<Officer>, cases: seq<Case>, k: string)
    requires cases != [] && CountsFor(cases[|cases| - 1], None, k)
    ensures EntryOfficer(officers, cases, k).Some?
    ensures var prefix, c := cases[..|cases| - 1], cases[|cases| - 1];
      ExpectedStats(officers, cases, k)
      == Tally(if EntryOfficer(officers, prefix, k).Some? then ExpectedStats(officers, prefix, k)
               else FreshEntry(c.petugas.value), KindOf(c))
  {
    var prefix := cases[..|cases| - 1];
    if EntryOfficer(officers, prefix, k).None? {
      ZeroCounts(prefix, None, k);
      ZeroCounts(prefix, Some(Completed), k);
      ZeroCounts(prefix, Some(Revised), k);
      ZeroCounts(prefix, Some(InProgress), k);
    }
  }

  /** The pass over the cases leaves exactly the expected entries: one per
      officer with an entry officer, each as `ExpectedStats` says. */
  lemma {:induction false} TallyEntries(officers: seq<Officer>, cases: seq<Case>, k: string)
    ensures k in TallyAll(officers, cases).stats <==> EntryOfficer(officers, cases, k).Some?
    ensures k in TallyAll(officers, cases).stats ==>
      EntryOfficer(officers, cases, k).Some? && TallyAll(officers, cases).stats[k] == ExpectedStats(officers, cases, k)
  {
    if cases == [] {
      SeededEntries(officers, k);
      LastOfficerFound(officers, k);
    } else {
      var prefix, c := cases[..|cases| - 1], cases[|cases| - 1];
      TallyEntries(officers, prefix, k);
      if CountsFor(c, None, k) {
        CountedExpected(officers, cases, k);
      } else if EntryOfficer(officers, cases, k).Some? {
        UncountedExpected(officers, cases, k);
      }
    }
  }

  /** The pass over the cases keeps the keys in order of first appearance,
      listed officers first. */
  lemma {:induction false} TallyOrder(officers: seq<Officer>, cases: seq<Case>)
    ensures TallyAll(officers, cases).order == FirstOccurrences(OfficerIds(officers) + IdsWith(cases, None))
  {
    if cases == [] {
      SeededOrder(officers);
      assert OfficerIds(officers) + IdsWith(cases, None) == OfficerIds(officers);
    } else {
      var prefix, c := cases[..|cases| - 1], cases[|cases| - 1];
      TallyOrder(officers, prefix);
      if CountedId(c).Some? {
        OrderCaseStep(officers, cases);
      } else {
        assert IdsWith(cases, None) == IdsWith(prefix, None);
      }
    }
  }

  /** A counted case appends its officer to the key order when the map has
      no entry for them yet. */
  lemma OrderCaseStep(officers: seq<Officer>, cases: seq<Case>)
    requires cases != [] && CountedId(cases[|cases| - 1]).Some?
    requires TallyAll(officers, cases[..|cases| - 1]).order
      == FirstOccurrences(OfficerIds(officers) + IdsWith(cases[..|cases| - 1], None))
    ensures TallyAll(officers, cases).order == FirstOccurrences(OfficerIds(officers) + IdsWith(cases, None))
  {
    var prefix, c := cases[..|cases| - 1], cases[|cases| - 1];
    var k0 := CountedId(c).value;
    var m := TallyAll(officers, prefix);
    assert k0 in m.stats <==> k0 in m.order by {
      TallyEntries(officers, prefix, k0);
      EntryOfficerFound(officers, prefix, k0);
    }
    assert IdsWith(cases, None) == IdsWith(prefix, None) + [k0];
    JoinedOrderStep(m.order, OfficerIds(officers), IdsWith(prefix, None), k0);
  }

  /** `OrderStep` for keys drawn from two lists in turn. */
  lemma JoinedOrderStep(order: seq<string>, a: seq<string>, b: seq<string>, x: string)
    requires order == FirstOccurrences(a + b)
    ensures FirstOccurrences(a + (b + [x])) == if x in order then order else order + [x]
  {
    assert a + (b + [x]) == (a + b) + [x];
    OrderStep(order, a + b, x);
  }

  /** The statistics part of `fetchData`: a map seeded with every listed
      officer at zero, then one pass over the cases that creates missing
      entries and bumps the total and one status counter. `order` is the
      map's insertion order. */
  method AggregateStats(officers: seq<Officer>, cases: seq<Case>)
    returns (order: seq<string>, stats: map<string, OfficerStats>)
    ensures Distinct(order)
    ensures order == FirstOccurrences(OfficerIds(officers) + IdsWith(cases, None))
    ensures forall k :: k in stats <==> k in order
    ensures forall k :: k in stats ==>
      EntryOfficer(officers, cases, k).Some? && stats[k] == ExpectedStats(officers, cases, k)
  {
    order := [];
    stats := map[];
    var i := 0;
    while i < |officers|
      invariant 0 <= i <= |officers|
      invariant StatsMap(order, stats) == Seeded(officers[..i])
    {
      var o := officers[i];
      assert officers[..i + 1][..i] == officers[..i];
      if o.id !in stats {
        order := order + [o.id];
      }
      stats := stats[o.id := FreshEntry(o)];
      i := i + 1;
    }
    assert officers[..i] == officers;

    var j := 0;
    while j < |cases|
      invariant 0 <= j <= |cases|
      invariant StatsMap(order, stats) == TallyAll(officers, cases[..j])
    {
      var c := cases[j];
      assert cases[..j + 1][..j] == cases[..j];
      var pkId := CountedId(c);
      if pkId.Some? {
        if pkId.value !in stats {
          order := order + [pkId.value];
          stats := stats[pkId.value := FreshEntry(c.petugas.value)];
        }
        stats := stats[pkId.value := Tally(stats[pkId.value], KindOf(c))];
      }
      j := j + 1;
    }
    assert cases[..j] == cases;

    TallyOrder(officers, cases);
    forall k
      ensures k in stats <==> k in order
      ensures k in stats ==> EntryOfficer(officers, cases, k).Some? && stats[k] == ExpectedStats(officers, cases, k)
    {
      TallyEntries(officers, cases, k);
      EntryOfficerFound(officers, cases, k);
    }
  }

  /** `Math.round((completed / total) * 100)`, or 0 for an officer with no
      case: the percentage of completed cases, rounded to the nearest
      integer with halves rounded up. */
  function PerformanceRate(completed: nat, total: nat): (r: int)
    ensures total == 0 ==> r == 0
    ensures total > 0 ==> -(total as int) < 2 * (r * total - 100 * completed) <= total
    ensures completed <= total ==> 0 <= r <= 100
  {
    if total > 0 then
      RoundingBounds(completed, total);
      (200 * completed + total) / (2 * total)
    else 0
  }

  /** A product with a positive factor has the sign of the other factor. */
  lemma SignOfFactor(x: int, d: int)
    requires d > 0
    ensures x * d > 0 <==> x > 0
  {
  }

  lemma RoundingBounds(completed: nat, total: nat)
    requires total > 0
    ensures var r := (200 * completed + total) / (2 * total);
      -(total as int) < 2 * (r * total - 100 * completed) <= total
      && (completed <= total ==> 0 <= r <= 100)
  {
    var n, d := 200 * completed + total, 2 * total;
    var q, m := n / d, n % d;
    assert n == d * q + m && 0 <= m < d;
    assert d * q == 2 * (q * total);
    assert 2 * (q * total - 100 * completed) == total - m;
    SignOfFactor(q + 1, d);
    if completed <= total {
      assert (q - 101) * d == n - m - 101 * d;
      SignOfFactor(101 - q, d);
    }
  }

  function WithRate(s: OfficerStats): OfficerStats {
    s.(performanceRate := PerformanceRate(s.completed, s.totalAssigned))
  }

  /** `Array.from(statsMap.values()).map(...)`: the entries in key order,
      each with its rate filled in. */
  function Rated(order: seq<string>, stats: map<string, OfficerStats>): (r: seq<OfficerStats>)
    requires forall k :: k in order ==> k in stats
    ensures |r| == |order|
    ensures forall i :: 0 <= i < |r| ==> r[i] == WithRate(stats[order[i]])
  {
    if order == [] then [] else [WithRate(stats[order[0]])] + Rated(order[1..], stats)
  }

  function TotalAssigned(s: OfficerStats): int {
    s.totalAssigned
  }

  /** The totals of the rated entries add up to the per-key case counts. */
  lemma {:induction false} RatedTotal(order: seq<string>, stats: map<string, OfficerStats>, xs: seq<string>)
    requires forall k :: k in order ==> k in stats && stats[k].totalAssigned == Count(xs, k)
    ensures SumOf(Rated(order, stats), TotalAssigned) == SumCounts(order, xs)
  {
    if order != [] {
      RatedTotal(order[1..], stats, xs);
      assert Rated(order, stats)[1..] == Rated(order[1..], stats);
    }
  }

  /** Every rated entry is the expected entry of its officer, rated. */
  lemma RatedEntries(officers: seq<Officer>, cases: seq<Case>, order: seq<string>, stats: map<string, OfficerStats>)
    requires forall k :: k in order ==> k in stats
    requires forall k :: k in stats ==>
      EntryOfficer(officers, cases, k).Some? && stats[k] == ExpectedStats(officers, cases, k)
    ensures forall s :: s in Rated(order, stats) ==>
      EntryOfficer(officers, cases, s.id).Some? && s == WithRate(ExpectedStats(officers, cases, s.id))
  {
    var rated := Rated(order, stats);
    forall s | s in rated
      ensures EntryOfficer(officers, cases, s.id).Some? && s == WithRate(ExpectedStats(officers, cases, s.id))
    {
      var i :| 0 <= i < |rated| && rated[i] == s;
      assert s == WithRate(stats[order[i]]);
    }
  }

  /** The rated entries carry the keys in order, so they cover every key
      and no two of them are equal. */
  lemma RatedKeys(order: seq<string>, stats: map<string, OfficerStats>)
    requires forall k :: k in order ==> k in stats && stats[k].id == k
    requires Distinct(order)
    ensures forall k :: k in order ==> exists s :: s in Rated(order, stats) && s.id == k
    ensures Distinct(Rated(order, stats))
  {
    var rated := Rated(order, stats);
    forall k | k in order ensures exists s :: s in rated && s.id == k {
      var i :| 0 <= i < |order| && order[i] == k;
      assert rated[i] in rated && rated[i].id == k;
    }
    forall i, j | 0 <= i < j < |rated| ensures rated[i] != rated[j] {
      assert rated[i].id == order[i] && rated[j].id == order[j];
    }
  }

  /** The officer statistics `fetchData` stores: the tally, rated, then
      sorted by workload, busiest first. */
  method FetchStats(officers: seq<Officer>, cases: seq<Case>) returns (result: seq<OfficerStats>)
    ensures SortedDesc(result, TotalAssigned)
    ensures forall s :: s in result ==>
      EntryOfficer(officers, cases, s.id).Some? && s == WithRate(ExpectedStats(officers, cases, s.id))
    ensures forall k :: k in OfficerIds(officers) + IdsWith(cases, None) ==> exists s :: s in result && s.id == k
    ensures forall i, j :: 0 <= i < j < |result| ==> result[i].id != result[j].id
    ensures SumOf(result, TotalAssigned) == |IdsWith(cases, None)|
  {
    var order, stats := AggregateStats(officers, cases);
    var rated := Rated(order, stats);
    result := SortDesc(rated, TotalAssigned);
    TableRows(officers, cases, order, stats, result);
    TableKeys(officers, cases, order, stats, result);
    assert SumOf(result, TotalAssigned) == |IdsWith(cases, None)| by {
      TallySum(officers, cases, order, stats);
      SortDescSum(rated, TotalAssigned, TotalAssigned);
    }
  }

  /** A reordering of the rated entries holds only expected entries. */
  lemma TableRows(officers: seq<Officer>, cases: seq<Case>, order: seq<string>, stats: map<string, OfficerStats>,
                  result: seq<OfficerStats>)
    requires forall k :: k in order ==> k in stats
    requires forall k :: k in stats ==>
      EntryOfficer(officers, cases, k).Some? && stats[k] == ExpectedStats(officers, cases, k)
    requires multiset(result) == multiset(Rated(order, stats))
    ensures forall s :: s in result ==>
      EntryOfficer(officers, cases, s.id).Some? && s == WithRate(ExpectedStats(officers, cases, s.id))
  {
    SamePermutationMembers(Rated(order, stats), result);
    RatedEntries(officers, cases, order, stats);
  }

  /** A reordering of the rated entries has one entry per key and no two
      entries with the same id. */
  lemma TableKeys(officers: seq<Officer>, cases: seq<Case>, order: seq<string>, stats: map<string, OfficerStats>,
                  result: seq<OfficerStats>)
    requires Distinct(order)
    requires order == FirstOccurrences(OfficerIds(officers) + IdsWith(cases, None))
    requires forall k :: k in order ==> k in stats
    requires forall k :: k in stats ==>
      EntryOfficer(officers, cases, k).Some? && stats[k] == ExpectedStats(officers, cases, k)
    requires multiset(result) == multiset(Rated(order, stats))
    ensures forall k :: k in OfficerIds(officers) + IdsWith(cases, None) ==> exists s :: s in result && s.id == k
    ensures forall i, j :: 0 <= i < j < |result| ==> result[i].id != result[j].id
  {
    var rated := Rated(order, stats);
    assert forall k :: k in order ==> stats[k].id == k;
    RatedKeys(order, stats);
    SamePermutationMembers(rated, result);
    PermutationKeepsDistinct(rated, result);
    TableRows(officers, cases, order, stats, result);
    DistinctIds(officers, cases, result);
  }

  /** The tally's totals add up to the number of counted cases. */
  lemma TallySum(officers: seq<Officer>, cases: seq<Case>, order: seq<string>, stats: map<string, OfficerStats>)
    requires Distinct(order)
    requires order == FirstOccurrences(OfficerIds(officers) + IdsWith(cases, None))
    requires forall k :: k in order ==> k in stats
    requires forall k :: k in stats ==>
      EntryOfficer(officers, cases, k).Some? && stats[k] == ExpectedStats(officers, cases, k)
    ensures SumOf(Rated(order, stats), TotalAssigned) == |IdsWith(cases, None)|
  {
    var xs := IdsWith(cases, None);
    forall k | k in order ensures stats[k].totalAssigned == Count(xs, k) {
      CountOfIds(cases, None, k);
    }
    RatedTotal(order, stats, xs);
    assert forall x :: x in xs ==> x in OfficerIds(officers) + xs;
    SumCountsCovers(order, xs);
  }

  /** Entries determined by their id are distinct exactly when their ids
      are. */
  lemma DistinctIds(officers: seq<Officer>, cases: seq<Case>, result: seq<OfficerStats>)
    requires Distinct(result)
    requires forall s :: s in result ==>
      EntryOfficer(officers, cases, s.id).Some? && s == WithRate(ExpectedStats(officers, cases, s.id))
    ensures forall i, j :: 0 <= i < j < |result| ==> result[i].id != result[j].id
  {
    forall i, j | 0 <= i < j < |result| ensures result[i].id != result[j].id {
      assert result[i] in result && result[j] in result;
    }
  }

  /** Each counted case is approved, returned for revision or still in
      progress, so every officer's three counters add up to their total,
      and the stored rate lies between 0 and 100. */
  lemma StatsConsistent(officers: seq<Officer>, cases: seq<Case>, k: string)
    requires EntryOfficer(officers, cases, k).Some?
    ensures var s := WithRate(ExpectedStats(officers, cases, k));
      s.totalAssigned == s.completed + s.revision + s.inProgress
      && 0 <= s.performanceRate <= 100
  {
    KindsPartition(cases, k);
  }

  /** Status of a case as the summary cards group it. */
  predicate Waiting(c: Case) {
    c.status == Some(StatusWaiting) || c.status.None? || c.status == Some("")
  }

  predicate InProcess(c: Case) {
    c.status == Some(StatusInProcess)
  }

  predicate Approved(c: Case) {
    c.status == Some(StatusApproved)
  }

  datatype GlobalStats = GlobalStats(waiting: nat, process: nat, completed: nat, activePk: nat)

  /** `globalStats`: three status counters over every case, and the number
      of officers in the statistics table. */
  function GlobalStatsOf(cases: seq<Case>, officerStats: seq<OfficerStats>): (g: GlobalStats)
    ensures g.waiting == |Filter(cases, Waiting)|
    ensures g.process == |Filter(cases, InProcess)|
    ensures g.completed == |Filter(cases, Approved)|
    ensures g.activePk == |officerStats|
  {
    GlobalStats(|Filter(cases, Waiting)|, |Filter(cases, InProcess)|, |Filter(cases, Approved)|, |officerStats|)
  }

  /** The three status groups are disjoint, so together they count no
      case twice. */
  lemma {:induction false} GlobalCountsBounded(cases: seq<Case>)
    ensures |Filter(cases, Waiting)| + |Filter(cases, InProcess)| + |Filter(cases, Approved)| <= |cases|
  {
    if cases != [] {
      GlobalCountsBounded(cases[1..]);
    }
  }

  /** The data written by `updateStatus`: the new status, and the note or
      null when the note is missing or empty (`note || null`). */
  datatype StatusUpdate = StatusUpdate(idLitmas: int, status: string, catatanRevisi: Option<string>)

  /** `updateStatus`: nothing is sent without a selected case. */
  function UpdateStatus(selected: Option<Case>, newStatus: string, note: Option<string>): (u: Option<StatusUpdate>)
    ensures u.Some? <==> selected.Some?
    ensures u.Some? ==> u.value.idLitmas == selected.value.idLitmas && u.value.status == newStatus
    ensures u.Some? ==> (u.value.catatanRevisi.None? <==> note.None? || note == Some(""))
    ensures u.Some? && u.value.catatanRevisi.Some? ==> u.value.catatanRevisi == note
  {
    match selected
    case None => None
    case Some(c) =>
      Some(StatusUpdate(c.idLitmas, newStatus, if note.None? || note.value == "" then None else note))
  }

  /** The "Kembalikan (Revisi)" button sends the note typed in the dialog. */
  function ReturnForRevision(selected: Option<Case>, catatanRevisi: string): Option<StatusUpdate> {
    UpdateStatus(selected, StatusRevision, Some(catatanRevisi))
  }

  /** The "Setujui" button sends no note. */
  function Approve(selected: Option<Case>): Option<StatusUpdate> {
    UpdateStatus(selected, StatusApproved, None)
  }

  /** The row after the update is written. */
  function Apply(c: Case, u: StatusUpdate): Case
    requires u.idLitmas == c.idLitmas
  {
    c.(status := Some(u.status), catatanRevisi := u.catatanRevisi)
  }

  /** `handleOpenDetail`: the note field shows the stored note, or the
      empty string when there is none. */
  function OpenDetailNote(c: Case): string {
    c.catatanRevisi.GetOr("")
  }

  /** Returning a case with a note and reopening it shows the same note,
      including an empty one; the case then counts as a revision. */
  lemma RevisionNoteRoundTrip(c: Case, note: string)
    ensures var u := ReturnForRevision(Some(c), note);
      u.Some? && OpenDetailNote(Apply(c, u.value)) == note && KindOf(Apply(c, u.value)) == Revised
  {
  }

  /** Approving a case erases any earlier revision note, and the case then
      counts as completed. */
  lemma ApproveClearsNote(c: Case)
    ensures var u := Approve(Some(c));
      u.Some? && Apply(c, u.value).catatanRevisi.None? && KindOf(Apply(c, u.value)) == Completed
      && OpenDetailNote(Apply(c, u.value)) == ""
  {
  }
}
