/** The five chart builders of script.js without the Chart.js calls: each
    one turns `filteredData` into the labels and data it would hand to the
    chart (script.js:91-202). */
module Charts {
  import opened Seqs
  import opened StringOrder
  import opened Rows
  import opened Filters
  import opened Grouping

  datatype Option<T> = None | Some(value: T)

  /** A bar, pie or single-line chart: `labels` and one dataset's `data`. */
  datatype Chart = Chart(labels: seq<string>, values: seq<int>)

  /** One member's line in the progress chart: its `label` and `data`. */
  datatype Series = Series(name: string, data: seq<int>)

  /** The progress chart: x-axis labels (raw date values) and one line per member. */
  datatype Progress = Progress(labels: seq<Cell>, series: seq<Series>)

  /** `{ date, points }` as pushed into `grouped[name]`. */
  datatype Entry = Entry(date: Cell, points: int)

  /** What one rebuild hands to the five charts. The progress chart gets
      `None` when its builder returns early and leaves the chart as it was. */
  datatype ChartSet = ChartSet(leaderboard: Chart, progress: Option<Progress>, meetingSummary: Chart,
                               roleBreakdown: Chart, clubProgress: Chart)

  // -------------------------------------------------------- specification

  /** A chart with one bar or slice per group, in first-seen order. */
  function GroupChart(rows: seq<Row>, key: Row -> string): Chart
  {
    var ks := GroupKeys(rows, key);
    Chart(ks, Totals(ks, rows, key))
  }

  function LeaderboardOf(rows: seq<Row>): Chart
  {
    GroupChart(rows, MemberKey)
  }

  function RoleBreakdownOf(rows: seq<Row>): Chart
  {
    GroupChart(rows, RoleKey)
  }

  /** `Object.keys(pointsByMeeting).sort()` */
  function MeetingDates(rows: seq<Row>): seq<string>
  {
    Sort(GroupKeys(rows, DateKey), LexLe)
  }

  function MeetingSummaryOf(rows: seq<Row>): Chart
  {
    var ds := MeetingDates(rows);
    Chart(ds, Totals(ds, rows, DateKey))
  }

  /** Entry `i` is the sum of the first `i + 1` numbers. */
  function RunningTotals(s: seq<int>): seq<int>
  {
    seq(|s|, i requires 0 <= i < |s| => Sum(s[..i + 1]))
  }

  function ClubProgressOf(rows: seq<Row>): Chart
  {
    var ds := MeetingDates(rows);
    Chart(ds, RunningTotals(Totals(ds, rows, DateKey)))
  }

  function ToEntry(r: Row): Entry
  {
    Entry(DateOf(r), r.points)
  }

  function EntryPoints(e: Entry): int
  {
    e.points
  }

  function OfMember(name: string): Row -> bool
  {
    r => MemberKey(r) == name
  }

  /** `grouped[name]`: the member's rows as entries, in input order. */
  function EntriesOf(rows: seq<Row>, name: string): seq<Entry>
  {
    Map(Filter(rows, OfMember(name)), ToEntry)
  }

  /** The comparison `new Date(a.date) - new Date(b.date)`, as "a is not after b". */
  function ByInstant(instant: Instant): (Entry, Entry) -> bool
  {
    (a: Entry, b: Entry) => instant(a.date) <= instant(b.date)
  }

  /** `grouped[name].sort(...)` */
  function Timeline(rows: seq<Row>, name: string, instant: Instant): seq<Entry>
  {
    Sort(EntriesOf(rows, name), ByInstant(instant))
  }

  /** `[...new Set(dates)].sort()`: the distinct raw date values, sorted as
      the default sort does, `undefined` last. */
  function ProgressLabels(rows: seq<Row>): seq<Cell>
  {
    Sort(Distinct(Map(rows, DateOf)), CellLe)
  }

  function ProgressOf(rows: seq<Row>, instant: Instant): Progress
  {
    var names := GroupKeys(rows, MemberKey);
    Progress(ProgressLabels(rows),
             seq(|names|, i requires 0 <= i < |names| =>
                   Series(names[i], Map(Timeline(rows, names[i], instant), EntryPoints))))
  }

  /** What `rebuildCharts` computes from `filteredData`. */
  function ChartsOf(rows: seq<Row>, instant: Instant): ChartSet
  {
    ChartSet(LeaderboardOf(rows),
             if rows == [] then None else Some(ProgressOf(rows, instant)),
             MeetingSummaryOf(rows),
             RoleBreakdownOf(rows),
             ClubProgressOf(rows))
  }

  // ------------------------------------------------------------- builders

  /** `labels.map(l => acc[l])`; also `Object.values(acc)` when `labels`
      are the keys of `acc` in insertion order. */
  function ValuesOf(labels: seq<string>, acc: map<string, int>): seq<int>
    requires forall l :: l in labels ==> l in acc
  {
    seq(|labels|, i requires 0 <= i < |labels| => acc[labels[i]])
  }

  lemma ValuesAreTotals(labels: seq<string>, acc: map<string, int>, rows: seq<Row>, key: Row -> string)
    requires forall l :: l in labels ==> l in acc
    requires forall k :: k in acc ==> acc[k] == GroupTotal(rows, key, k)
    ensures ValuesOf(labels, acc) == Totals(labels, rows, key)
  {
    var v, t := ValuesOf(labels, acc), Totals(labels, rows, key);
    assert |v| == |t|;
    forall i | 0 <= i < |v|
      ensures v[i] == t[i]
    {
      assert labels[i] in labels;
    }
  }

  /** `buildLeaderboard` */
  method BuildLeaderboard(rows: seq<Row>) returns (chart: Chart)
    ensures chart == LeaderboardOf(rows)
  {
    var keys, acc := GroupSums(rows, MemberKey);
    chart := Chart(keys, ValuesOf(keys, acc));
    ValuesAreTotals(keys, acc, rows, MemberKey);
  }

  /** `buildRoleBreakdown` */
  method BuildRoleBreakdown(rows: seq<Row>) returns (chart: Chart)
    ensures chart == RoleBreakdownOf(rows)
  {
    var keys, acc := GroupSums(rows, RoleKey);
    chart := Chart(keys, ValuesOf(keys, acc));
    ValuesAreTotals(keys, acc, rows, RoleKey);
  }

  /** `buildMeetingSummary` */
  method BuildMeetingSummary(rows: seq<Row>) returns (chart: Chart)
    ensures chart == MeetingSummaryOf(rows)
  {
    var keys, acc := GroupSums(rows, DateKey);
    var labels := Sort(keys, LexLe);
    SortMembers(keys, LexLe);
    chart := Chart(labels, ValuesOf(labels, acc));
    ValuesAreTotals(labels, acc, rows, DateKey);
  }

  /** The `labels.forEach` of `buildClubProgress`: a running `cumulative`
      of the accumulator's values, pushed onto `values` label by label. */
  method Accumulate(labels: seq<string>, acc: map<string, int>) returns (values: seq<int>)
    requires forall l :: l in labels ==> l in acc
    ensures values == RunningTotals(ValuesOf(labels, acc))
  {
    ghost var totals := ValuesOf(labels, acc);
    values := [];
    var cumulative := 0;
    for i := 0 to |labels|
      invariant |values| == i
      invariant cumulative == Sum(totals[..i])
      invariant forall j :: 0 <= j < i ==> values[j] == Sum(totals[..j + 1])
    {
      assert labels[i] in labels;
      assert totals[..i + 1] == totals[..i] + [totals[i]];
      SumAppendOne(totals[..i], totals[i]);
      cumulative := cumulative + acc[labels[i]];
      values := values + [cumulative];
    }
  }

  /** `buildClubProgress`: the per-date totals, sorted by date, then their
      running totals. */
  method BuildClubProgress(rows: seq<Row>) returns (chart: Chart)
    ensures chart == ClubProgressOf(rows)
  {
    var keys, acc := GroupSums(rows, DateKey);
    var labels := Sort(keys, LexLe);
    SortMembers(keys, LexLe);
    var values := Accumulate(labels, acc);
    ValuesAreTotals(labels, acc, rows, DateKey);
    chart := Chart(labels, values);
  }

  lemma EntriesAppendOne(rows: seq<Row>, r: Row, name: string)
    ensures EntriesOf(rows + [r], name) ==
            EntriesOf(rows, name) + (if MemberKey(r) == name then [ToEntry(r)] else [])
  {
    FilterAppend(rows, [r], OfMember(name));
    if MemberKey(r) == name {
      MapAppendOne(Filter(rows, OfMember(name)), r, ToEntry);
    } else {
      assert Filter(rows + [r], OfMember(name)) == Filter(rows, OfMember(name));
    }
  }

  lemma EntriesOfAbsentMember(rows: seq<Row>, name: string)
    requires name !in GroupKeys(rows, MemberKey)
    ensures EntriesOf(rows, name) == []
  {
    GroupKeysElements(rows, MemberKey);
    FilterDropsAll(rows, OfMember(name));
  }

  /** `names` and `grouped` hold what the grouping loop has gathered from
      `rows`: the members met, in order, and each one's entries. */
  ghost predicate Gathered(rows: seq<Row>, names: seq<string>, grouped: map<string, seq<Entry>>)
  {
    && names == GroupKeys(rows, MemberKey)
    && (forall k :: k in grouped <==> k in names)
    && (forall k :: k in grouped ==> grouped[k] == EntriesOf(rows, k))
  }

  /** One step of the grouping loop: a fresh list for a member not met
      yet, then the row's entry pushed onto its member's list. */
  lemma GatherOne(rows: seq<Row>, r: Row, names: seq<string>, grouped: map<string, seq<Entry>>,
                  names': seq<string>, grouped': map<string, seq<Entry>>)
    requires Gathered(rows, names, grouped)
    requires var name := MemberKey(r);
      && names' == (if name in grouped then names else names + [name])
      && grouped' == (if name in grouped then grouped else grouped[name := []])[name :=
                       (if name in grouped then grouped[name] else []) + [ToEntry(r)]]
    ensures Gathered(rows + [r], names', grouped')
  {
    var name := MemberKey(r);
    GroupKeysAppendOne(rows, r, MemberKey);
    assert names' == GroupKeys(rows + [r], MemberKey);
    assert forall k :: k in grouped' <==> k in names';
    forall k | k in grouped'
      ensures grouped'[k] == EntriesOf(rows + [r], k)
    {
      EntriesAppendOne(rows, r, k);
      if k == name && name !in grouped {
        EntriesOfAbsentMember(rows, name);
      }
    }
  }

  /** The `forEach` of `buildProgressChart`: `grouped[name]` gets a fresh
      list the first time a member is met, then each of the member's rows as
      an entry. */
  method GroupEntries(rows: seq<Row>) returns (names: seq<string>, grouped: map<string, seq<Entry>>)
    ensures names == GroupKeys(rows, MemberKey)
    ensures forall k :: k in grouped <==> k in names
    ensures forall k :: k in grouped ==> grouped[k] == EntriesOf(rows, k)
  {
    names, grouped := [], map[];
    ghost var done: seq<Row> := [];
    for i := 0 to |rows|
      invariant done == rows[..i]
      invariant Gathered(done, names, grouped)
    {
      ghost var names0, grouped0 := names, grouped;
      var name := MemberKey(rows[i]);
      if name !in grouped {
        names := names + [name];
        grouped := grouped[name := []];
      }
      grouped := grouped[name := grouped[name] + [ToEntry(rows[i])]];
      GatherOne(done, rows[i], names0, grouped0, names, grouped);
      done := done + [rows[i]];
    }
    assert rows[..|rows|] == rows;
  }

  /** `buildProgressChart`: nothing for no rows; otherwise one line per
      member, its entries sorted by date. */
  method BuildProgressChart(rows: seq<Row>, instant: Instant) returns (p: Option<Progress>)
    ensures p == if rows == [] then None else Some(ProgressOf(rows, instant))
  {
    if rows == [] {
      return None;
    }
    var names, grouped := GroupEntries(rows);
    forall j | 0 <= j < |names|
      ensures names[j] in grouped
    {
      assert names[j] in names;
    }
    var series := seq(|names|, j requires 0 <= j < |names| =>
                        Series(names[j], Map(Sort(grouped[names[j]], ByInstant(instant)), EntryPoints)));
    ghost var spec := ProgressOf(rows, instant).series;
    assert |series| == |spec|;
    forall j | 0 <= j < |names|
      ensures series[j] == spec[j]
    {
      assert grouped[names[j]] == EntriesOf(rows, names[j]);
    }
    assert series == spec;
    p := Some(Progress(ProgressLabels(rows), series));
  }

  // ------------------------------------------------------------ properties

  /** A group chart: each key present once, in first-seen order; each value
      the total of that key's rows; the values add up to all the points. */
  lemma GroupChartProperties(rows: seq<Row>, key: Row -> string)
    ensures var c := GroupChart(rows, key);
      && NoDup(c.labels)
      && InFirstSeenOrder(c.labels, Map(rows, key))
      && (forall k :: k in c.labels ==> exists r :: r in rows && key(r) == k)
      && (forall r :: r in rows ==> key(r) in c.labels)
      && |c.values| == |c.labels|
      && (forall i :: 0 <= i < |c.labels| ==> c.values[i] == GroupTotal(rows, key, c.labels[i]))
      && Sum(c.values) == Total(rows)
  {
    GroupKeysElements(rows, key);
    DistinctFirstSeenOrder(Map(rows, key));
    GroupTotalsConserve(rows, key);
  }

  /** The leaderboard has one bar per member present, the member's total
      points, and the bars add up to all the points. */
  lemma LeaderboardProperties(rows: seq<Row>)
    ensures var c := LeaderboardOf(rows);
      && NoDup(c.labels)
      && InFirstSeenOrder(c.labels, Map(rows, MemberKey))
      && (forall m :: m in c.labels ==> exists r :: r in rows && MemberKey(r) == m)
      && (forall r :: r in rows ==> MemberKey(r) in c.labels)
      && |c.values| == |c.labels|
      && (forall i :: 0 <= i < |c.labels| ==> c.values[i] == GroupTotal(rows, MemberKey, c.labels[i]))
      && Sum(c.values) == Total(rows)
  {
    GroupChartProperties(rows, MemberKey);
  }

  /** The role breakdown likewise, and a row without a Role counts towards
      the slice "Unknown". */
  lemma RoleBreakdownProperties(rows: seq<Row>)
    ensures var c := RoleBreakdownOf(rows);
      && NoDup(c.labels)
      && InFirstSeenOrder(c.labels, Map(rows, RoleKey))
      && (forall x :: x in c.labels ==> exists r :: r in rows && RoleOf(r) == x)
      && (forall r :: r in rows ==> RoleOf(r) in c.labels)
      && |c.values| == |c.labels|
      && (forall i :: 0 <= i < |c.labels| ==> c.values[i] == GroupTotal(rows, RoleKey, c.labels[i]))
      && Sum(c.values) == Total(rows)
      && ((exists r :: r in rows && !Truthy(r.role)) ==> "Unknown" in c.labels)
  {
    GroupChartProperties(rows, RoleKey);
  }

  /** Meeting dates are the distinct date keys, strictly ascending as
      strings. */
  lemma MeetingDatesProperties(rows: seq<Row>)
    ensures var ds := MeetingDates(rows);
      && NoDup(ds)
      && (forall i, j :: 0 <= i < j < |ds| ==> LexLe(ds[i], ds[j]) && ds[i] != ds[j])
      && (forall d :: d in ds ==> exists r :: r in rows && DateKey(r) == d)
      && (forall r :: r in rows ==> DateKey(r) in ds)
  {
    var ks := GroupKeys(rows, DateKey);
    GroupKeysElements(rows, DateKey);
    LexLeIsTotalOrder();
    SortStrictlyAscending(ks, LexLe);
    SortMembers(ks, LexLe);
  }

  /** The meeting summary: one bar per date in ascending order, each the
      points on that date, together all the points. */
  lemma MeetingSummaryProperties(rows: seq<Row>)
    ensures var c := MeetingSummaryOf(rows);
      && (forall i, j :: 0 <= i < j < |c.labels| ==> LexLe(c.labels[i], c.labels[j]) && c.labels[i] != c.labels[j])
      && (forall d :: d in c.labels ==> exists r :: r in rows && DateKey(r) == d)
      && (forall r :: r in rows ==> DateKey(r) in c.labels)
      && |c.values| == |c.labels|
      && (forall i :: 0 <= i < |c.labels| ==> c.values[i] == GroupTotal(rows, DateKey, c.labels[i]))
      && Sum(c.values) == Total(rows)
  {
    MeetingDatesProperties(rows);
    SumTotalsSorted(GroupKeys(rows, DateKey), LexLe, rows, DateKey);
    GroupTotalsConserve(rows, DateKey);
  }

  /** Running totals: the first is the first number, each next one adds
      the next number, the last is the sum of all. */
  lemma RunningTotalsProperties(s: seq<int>)
    ensures var c := RunningTotals(s);
      && |c| == |s|
      && (|c| > 0 ==> c[0] == s[0])
      && (forall i :: 0 < i < |c| ==> c[i] == c[i - 1] + s[i])
      && (|c| > 0 ==> c[|c| - 1] == Sum(s))
  {
    var c := RunningTotals(s);
    if |s| > 0 {
      SumPrefixStep(s, 0);
      assert s[..0] == [];
      assert s[..|s|] == s;
    }
    forall i | 0 < i < |c|
      ensures c[i] == c[i - 1] + s[i]
    {
      SumPrefixStep(s, i);
    }
  }

  /** Club progress: the meeting summary's dates; the first value is the
      first date's total, each next one adds that date's total, and the last
      is all the points. */
  lemma ClubProgressProperties(rows: seq<Row>)
    ensures var c, m := ClubProgressOf(rows), MeetingSummaryOf(rows);
      && c.labels == m.labels
      && |c.values| == |c.labels|
      && (|c.values| > 0 ==> c.values[0] == m.values[0])
      && (forall i :: 0 < i < |c.values| ==> c.values[i] == c.values[i - 1] + m.values[i])
      && (|c.values| > 0 ==> c.values[|c.values| - 1] == Total(rows))
  {
    RunningTotalsProperties(MeetingSummaryOf(rows).values);
    SumTotalsSorted(GroupKeys(rows, DateKey), LexLe, rows, DateKey);
    GroupTotalsConserve(rows, DateKey);
  }

  /** A sequence that rises at every step rises between any two places. */
  lemma {:induction false} StepwiseIncreasing(v: seq<int>)
    requires forall i :: 0 < i < |v| ==> v[i - 1] < v[i]
    ensures forall i, j :: 0 <= i < j < |v| ==> v[i] < v[j]
  {
    forall i, j | 0 <= i < j < |v|
      ensures v[i] < v[j]
    {
      var k := i + 1;
      while k < j
        invariant i < k <= j
        invariant v[i] < v[k]
      {
        k := k + 1;
      }
    }
  }

  /** With only positive points (as after `applyFilters`), club progress
      rises strictly from date to date. */
  lemma ClubProgressIncreasing(rows: seq<Row>)
    requires forall r :: r in rows ==> r.points > 0
    ensures var c := ClubProgressOf(rows);
      forall i, j :: 0 <= i < j < |c.values| ==> c.values[i] < c.values[j]
  {
    var c, m := ClubProgressOf(rows), MeetingSummaryOf(rows);
    ClubProgressProperties(rows);
    SortMembers(GroupKeys(rows, DateKey), LexLe);
    forall i | 0 < i < |c.values|
      ensures c.values[i - 1] < c.values[i]
    {
      assert m.labels[i] in m.labels;
      GroupTotalPositive(rows, DateKey, m.labels[i]);
    }
    StepwiseIncreasing(c.values);
  }

  /** Each member's line: as many points as the member has rows, their
      entries ordered by date, and rows on the same date in input order. */
  lemma TimelineProperties(rows: seq<Row>, name: string, instant: Instant)
    ensures var tl := Timeline(rows, name, instant);
      && |tl| == |Filter(rows, OfMember(name))|
      && multiset(tl) == multiset(EntriesOf(rows, name))
      && Sorted(tl, ByInstant(instant))
      && (forall e :: Filter(tl, Tied(ByInstant(instant), e)) == Filter(EntriesOf(rows, name), Tied(ByInstant(instant), e)))
      && (forall e :: e in tl ==> exists r :: r in rows && MemberKey(r) == name && ToEntry(r) == e)
  {
    var le := ByInstant(instant);
    var es := EntriesOf(rows, name);
    assert TotalPreorder(le);
    SortMultiset(es, le);
    SortSorted(es, le);
    forall e
      ensures Filter(Sort(es, le), Tied(le, e)) == Filter(es, Tied(le, e))
    {
      SortStable(es, le, e);
    }
    SortMembers(es, le);
    var mine := Filter(rows, OfMember(name));
    FilterMembers(rows, OfMember(name));
    forall e | e in Sort(es, le)
      ensures exists r :: r in rows && MemberKey(r) == name && ToEntry(r) == e
    {
      var i :| 0 <= i < |es| && es[i] == e;
      assert mine[i] in mine;
    }
  }

  /** The progress chart's lines: one per member present, in first-seen
      order. */
  lemma ProgressSeriesNames(rows: seq<Row>, instant: Instant)
    ensures var p := ProgressOf(rows, instant);
      && Map(p.series, (s: Series) => s.name) == GroupKeys(rows, MemberKey)
      && NoDup(Map(p.series, (s: Series) => s.name))
      && (forall r :: r in rows ==> exists i :: 0 <= i < |p.series| && p.series[i].name == MemberKey(r))
  {
    var p := ProgressOf(rows, instant);
    var names := GroupKeys(rows, MemberKey);
    GroupKeysElements(rows, MemberKey);
    assert Map(p.series, (s: Series) => s.name) == names;
    forall r | r in rows
      ensures exists i :: 0 <= i < |p.series| && p.series[i].name == MemberKey(r)
    {
      var i :| 0 <= i < |names| && names[i] == MemberKey(r);
      assert p.series[i].name == MemberKey(r);
    }
  }

  /** Each member's line has as many points as the member has rows. */
  lemma ProgressSeriesLengths(rows: seq<Row>, instant: Instant)
    ensures var p := ProgressOf(rows, instant);
      forall i :: 0 <= i < |p.series| ==>
        |p.series[i].data| == |Filter(rows, OfMember(p.series[i].name))|
  {
    var p := ProgressOf(rows, instant);
    var names := GroupKeys(rows, MemberKey);
    forall i | 0 <= i < |p.series|
      ensures |p.series[i].data| == |Filter(rows, OfMember(p.series[i].name))|
    {
      assert p.series[i] == Series(names[i], Map(Timeline(rows, names[i], instant), EntryPoints));
      assert |Timeline(rows, names[i], instant)| == |EntriesOf(rows, names[i])|;
    }
  }

  /** The progress chart's x-axis: the distinct date values, strictly
      ascending, `undefined` (if present) last. */
  lemma ProgressLabelsProperties(rows: seq<Row>)
    ensures var ls := ProgressLabels(rows);
      && NoDup(ls)
      && (forall i, j :: 0 <= i < j < |ls| ==> CellLe(ls[i], ls[j]) && ls[i] != ls[j])
      && (forall c :: c in ls ==> exists r :: r in rows && DateOf(r) == c)
      && (forall r :: r in rows ==> DateOf(r) in ls)
      && (forall i :: 0 <= i < |ls| - 1 ==> ls[i] != Absent)
  {
    var ls := ProgressLabels(rows);
    var col := Map(rows, DateOf);
    var dates := Distinct(col);
    DistinctElements(col);
    CellLeIsTotalOrder();
    SortStrictlyAscending(dates, CellLe);
    SortMembers(dates, CellLe);
    forall c | c in ls
      ensures exists r :: r in rows && DateOf(r) == c
    {
      var i :| 0 <= i < |rows| && col[i] == c;
      assert rows[i] in rows;
    }
    forall r | r in rows
      ensures DateOf(r) in ls
    {
      var i :| 0 <= i < |rows| && rows[i] == r;
      assert col[i] == DateOf(r);
    }
    forall i | 0 <= i < |ls| - 1
      ensures ls[i] != Absent
    {
      assert CellLe(ls[i], ls[i + 1]) && ls[i] != ls[i + 1];
    }
  }

  /** Conservation across charts: leaderboard, meeting summary and role
      breakdown each add up to the total points of the rows. */
  lemma ChartsConserve(rows: seq<Row>, instant: Instant)
    ensures var cs := ChartsOf(rows, instant);
      && Sum(cs.leaderboard.values) == Total(rows)
      && Sum(cs.meetingSummary.values) == Total(rows)
      && Sum(cs.roleBreakdown.values) == Total(rows)
      && (|cs.clubProgress.values| > 0 ==> cs.clubProgress.values[|cs.clubProgress.values| - 1] == Total(rows))
  {
    LeaderboardProperties(rows);
    MeetingSummaryProperties(rows);
    RoleBreakdownProperties(rows);
    ClubProgressProperties(rows);
  }

  /** No rows: every chart but the progress chart gets empty labels and
      data, and the progress chart is left alone. */
  lemma EmptyRowsEmptyCharts(instant: Instant)
    ensures var cs := ChartsOf([], instant);
      && cs.progress == None
      && cs.leaderboard == Chart([], [])
      && cs.meetingSummary == Chart([], [])
      && cs.roleBreakdown == Chart([], [])
      && cs.clubProgress == Chart([], [])
  {
    assert Map([], MemberKey) == [];
    assert Map([], RoleKey) == [];
    assert Map([], DateKey) == [];
  }
}
