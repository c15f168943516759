/** The dashboard's page state: the loaded rows `rawData`, the rows on show
    `filteredData`, and the handlers that change them (script.js:5-6, 12-16,
    20-44, 46-89). The DOM controls are read into a `Controls` value; what
    the charts are given is returned as a `ChartSet` value. */
module DashboardState {
  import opened Seqs
  import opened Rows
  import opened Filters
  import opened Grouping
  import opened Charts

  class Dashboard {
    var rawData: seq<Row>
    var filteredData: seq<Row>

    /** Every loaded row names a member, and the rows on show are loaded
        rows, in load order. */
    ghost predicate Valid()
      reads this
    {
      && (forall r :: r in rawData ==> HasMember(r))
      && IsSubsequence(filteredData, rawData)
    }

    /** Both lists start empty. */
    constructor ()
      ensures rawData == [] && filteredData == []
      ensures Valid()
    {
      rawData, filteredData := [], [];
    }

    /** The parser's `complete` callback: keep the rows that name a member,
        fill the dropdowns, then apply the controls as they stand. */
    method Complete(parsed: seq<Row>, controls: Controls, instant: Instant)
      returns (members: seq<string>, roles: seq<string>, charts: ChartSet)
      modifies this
      ensures rawData == Ingest(parsed)
      ensures members == MemberChoices(rawData) && roles == RoleChoices(rawData)
      ensures filteredData == FilterRows(rawData, controls, instant)
      ensures charts == ChartsOf(filteredData, instant)
      ensures Valid()
    {
      rawData := Filter(parsed, HasMember);
      FilterMembers(parsed, HasMember);
      // Not in the callback: clears rows that may not be loaded rows any more, so `Valid()` holds for `InitFilters`.
      filteredData := [];
      members, roles := InitFilters();
      charts := ApplyFilters(controls, instant);
    }

    /** `initFilters`: the member and role options, each value once in the
        order first met. */
    method InitFilters() returns (members: seq<string>, roles: seq<string>)
      requires Valid()
      ensures members == MemberChoices(rawData)
      ensures roles == RoleChoices(rawData)
      ensures NoDup(members) && NoDup(roles)
      ensures forall r :: r in rawData ==> MemberKey(r) in members && RoleOf(r) in roles
      ensures "" !in members
    {
      members := Distinct(Map(rawData, MemberKey));
      roles := Distinct(Map(rawData, RoleKey));
      MemberChoicesDistinct(rawData);
      RoleChoicesDistinct(rawData);
    }

    /** `applyFilters`: show the loaded rows the controls admit, then
        rebuild the charts. */
    method ApplyFilters(controls: Controls, instant: Instant) returns (charts: ChartSet)
      requires Valid()
      modifies this
      ensures rawData == old(rawData)
      ensures filteredData == FilterRows(rawData, controls, instant)
      ensures charts == ChartsOf(filteredData, instant)
      ensures Valid()
    {
      filteredData := Filter(rawData, r => Admits(controls, instant, r));
      FilterRowsExact(rawData, controls, instant);
      charts := RebuildCharts(instant);
    }

    /** `resetFilters`: clear the controls and show every loaded row, the
        ones without positive points included. */
    method ResetFilters(instant: Instant) returns (controls: Controls, charts: ChartSet)
      requires Valid()
      modifies this
      ensures controls == Unset
      ensures rawData == old(rawData)
      ensures filteredData == rawData
      ensures charts == ChartsOf(filteredData, instant)
      ensures Valid()
    {
      controls := Unset;
      filteredData := rawData;
      SubsequenceReflexive(rawData);
      charts := RebuildCharts(instant);
    }

    /** `rebuildCharts`: the five builders, each over `filteredData`. */
    method RebuildCharts(instant: Instant) returns (charts: ChartSet)
      ensures charts == ChartsOf(filteredData, instant)
      ensures Sum(charts.leaderboard.values) == Total(filteredData)
      ensures Sum(charts.meetingSummary.values) == Total(filteredData)
      ensures Sum(charts.roleBreakdown.values) == Total(filteredData)
      ensures charts.progress.None? <==> filteredData == []
    {
      var leaderboard := BuildLeaderboard(filteredData);
      var progress := BuildProgressChart(filteredData, instant);
      var meetingSummary := BuildMeetingSummary(filteredData);
      var roleBreakdown := BuildRoleBreakdown(filteredData);
      var clubProgress := BuildClubProgress(filteredData);
      charts := ChartSet(leaderboard, progress, meetingSummary, roleBreakdown, clubProgress);
      ChartsConserve(filteredData, instant);
    }
  }

  /** After `applyFilters` every row on show has positive points, so the
      club progress line rises at every date. */
  lemma FilteredClubProgressIncreases(rows: seq<Row>, c: Controls, instant: Instant)
    ensures var v := ClubProgressOf(FilterRows(rows, c, instant)).values;
      forall i, j :: 0 <= i < j < |v| ==> v[i] < v[j]
  {
    FilterRowsExact(rows, c, instant);
    ClubProgressIncreasing(FilterRows(rows, c, instant));
  }

  /** A reset can show what no setting of the controls shows: a zero-point
      row yields a meeting-summary bar after a reset, and none after
      applying any controls at all. */
  lemma ResetShowsZeroPointRows(instant: Instant)
    ensures MeetingSummaryOf([ZeroPointRow]).labels == ["2024-01-01"]
    ensures forall c :: MeetingSummaryOf(FilterRows([ZeroPointRow], c, instant)).labels == []
  {
    assert Map([ZeroPointRow], DateKey) == ["2024-01-01"];
    assert Distinct(["2024-01-01"]) == ["2024-01-01"];
    forall c
      ensures MeetingSummaryOf(FilterRows([ZeroPointRow], c, instant)).labels == []
    {
      assert FilterRows([ZeroPointRow], c, instant) == [];
      assert Map([], DateKey) == [];
    }
  }
}
