/** Row selection: the load-time filter, the dropdown choice lists and the
    user filter of `applyFilters` (script.js:13, 25, 34, 46-72). */
module Filters {
  import opened Seqs
  import opened Rows

  /** The four filter controls' `.value`s; "" is an unset control. */
  datatype Controls = Controls(member: string, role: string, startDate: string, endDate: string)

  /** Every control cleared. */
  const Unset := Controls("", "", "", "")

  /** `new Date(...)` stands for the instant it denotes, compared as a
      number; `instant` gives that instant for a date value. */
  type Instant = Cell -> int

  /** The predicate `applyFilters` passes to `rawData.filter`. */
  predicate Admits(c: Controls, instant: Instant, r: Row)
    ensures Admits(c, instant, r) ==> r.points > 0
    ensures c == Unset ==> (Admits(c, instant, r) <==> r.points > 0)
  {
    var dateOk := (c.startDate == "" || instant(DateOf(r)) >= instant(Text(c.startDate)))
               && (c.endDate == "" || instant(DateOf(r)) <= instant(Text(c.endDate)));
    var memberOk := c.member == "" || NameOf(r) == Text(c.member);
    var roleOk := c.role == "" || RoleOf(r) == c.role;
    dateOk && memberOk && roleOk && r.points > 0
  }

  /** `filteredData` after `applyFilters` with controls `c`. */
  function FilterRows(rows: seq<Row>, c: Controls, instant: Instant): seq<Row>
  {
    Filter(rows, r => Admits(c, instant, r))
  }

  /** `rawData`: the parsed rows that name a member. */
  function Ingest(parsed: seq<Row>): (rawData: seq<Row>)
    ensures |rawData| <= |parsed|
    ensures forall r :: r in rawData ==> r in parsed && HasMember(r)
  {
    FilterMembers(parsed, HasMember);
    Filter(parsed, HasMember)
  }

  /** The member dropdown's options. */
  function MemberChoices(rawData: seq<Row>): seq<string>
  {
    Distinct(Map(rawData, MemberKey))
  }

  /** The role dropdown's options. */
  function RoleChoices(rawData: seq<Row>): seq<string>
  {
    Distinct(Map(rawData, RoleKey))
  }

  /** Loading keeps exactly the rows with a non-empty Member or Name, every
      copy of each, in their original order. */
  lemma IngestKeepsNamedRows(parsed: seq<Row>)
    ensures IsSubsequence(Ingest(parsed), parsed)
    ensures forall r :: r in Ingest(parsed) <==> r in parsed && (Truthy(r.member) || Truthy(r.name))
    ensures forall r :: multiset(Ingest(parsed))[r] == if HasMember(r) then multiset(parsed)[r] else 0
  {
    FilterIsSubsequence(parsed, HasMember);
    FilterMembers(parsed, HasMember);
    FilterCount(parsed, HasMember);
  }

  /** The filter yields an order-preserving subsequence of the rows, and a
      row is in it, as many times as in the rows, exactly when it has
      positive points and meets every control that is set; an unset control
      constrains nothing. */
  lemma FilterRowsExact(rows: seq<Row>, c: Controls, instant: Instant)
    ensures IsSubsequence(FilterRows(rows, c, instant), rows)
    ensures forall r :: r in FilterRows(rows, c, instant) <==>
              && r in rows
              && r.points > 0
              && (c.member == "" || NameOf(r) == Text(c.member))
              && (c.role == "" || RoleOf(r) == c.role)
              && (c.startDate == "" || instant(DateOf(r)) >= instant(Text(c.startDate)))
              && (c.endDate == "" || instant(DateOf(r)) <= instant(Text(c.endDate)))
    ensures forall r :: multiset(FilterRows(rows, c, instant))[r] ==
              if Admits(c, instant, r) then multiset(rows)[r] else 0
  {
    FilterIsSubsequence(rows, r => Admits(c, instant, r));
    FilterMembers(rows, r => Admits(c, instant, r));
    FilterCount(rows, r => Admits(c, instant, r));
  }

  /** With every control cleared the filter still drops the rows without
      positive points, whatever the dates are. */
  lemma UnsetKeepsPositiveRows(rows: seq<Row>, instant: Instant)
    ensures IsSubsequence(FilterRows(rows, Unset, instant), rows)
    ensures forall r :: r in FilterRows(rows, Unset, instant) <==> r in rows && r.points > 0
    ensures forall r :: multiset(FilterRows(rows, Unset, instant))[r] ==
              if r.points > 0 then multiset(rows)[r] else 0
    ensures (forall r :: r in rows ==> r.points > 0) ==> FilterRows(rows, Unset, instant) == rows
  {
    FilterIsSubsequence(rows, r => Admits(Unset, instant, r));
    FilterMembers(rows, r => Admits(Unset, instant, r));
    FilterCount(rows, r => Admits(Unset, instant, r));
    if forall r :: r in rows ==> r.points > 0 {
      FilterKeepsAll(rows, r => Admits(Unset, instant, r));
    }
  }

  /** Filtering distributes over concatenation: each row is judged alone. */
  lemma FilterRowsAppend(a: seq<Row>, b: seq<Row>, c: Controls, instant: Instant)
    ensures FilterRows(a + b, c, instant) == FilterRows(a, c, instant) + FilterRows(b, c, instant)
  {
    FilterAppend(a, b, r => Admits(c, instant, r));
  }

  /** A row without a Role is the role "Unknown" to the filter: choosing
      "Unknown" admits it whenever the other controls do. */
  lemma UnknownRoleAdmitsRoleless(c: Controls, instant: Instant, r: Row)
    requires !Truthy(r.role)
    ensures Admits(c.(role := "Unknown"), instant, r) <==> Admits(c.(role := ""), instant, r)
  {
  }

  /** A row with zero points: kept by a reset, dropped by the cleared filter. */
  const ZeroPointRow := Row(Text("A"), Absent, Absent, Text("2024-01-01"), Absent, 0)

  /** Clearing every control does not give back all rows. */
  lemma UnsetFilterIsNotAllRows(instant: Instant)
    ensures FilterRows([ZeroPointRow], Unset, instant) == []
  {
  }

  /** The member options: each member once, in first-seen order, and none of
      them empty once every row names a member. */
  lemma MemberChoicesDistinct(rawData: seq<Row>)
    ensures NoDup(MemberChoices(rawData))
    ensures forall m :: m in MemberChoices(rawData) <==> exists r :: r in rawData && MemberKey(r) == m
    ensures InFirstSeenOrder(MemberChoices(rawData), Map(rawData, MemberKey))
    ensures (forall r :: r in rawData ==> HasMember(r)) ==> "" !in MemberChoices(rawData)
  {
    var col := Map(rawData, MemberKey);
    DistinctElements(col);
    DistinctFirstSeenOrder(col);
    forall m
      ensures m in col <==> exists r :: r in rawData && MemberKey(r) == m
    {
      if m in col {
        var i :| 0 <= i < |col| && col[i] == m;
        assert rawData[i] in rawData;
      }
    }
  }

  /** The role options: each role once, in first-seen order, a missing role
      listed as "Unknown". */
  lemma RoleChoicesDistinct(rawData: seq<Row>)
    ensures NoDup(RoleChoices(rawData))
    ensures forall x :: x in RoleChoices(rawData) <==> exists r :: r in rawData && RoleOf(r) == x
    ensures InFirstSeenOrder(RoleChoices(rawData), Map(rawData, RoleKey))
    ensures (exists r :: r in rawData && !Truthy(r.role)) ==> "Unknown" in RoleChoices(rawData)
  {
    var col := Map(rawData, RoleKey);
    DistinctElements(col);
    DistinctFirstSeenOrder(col);
    forall x
      ensures x in col <==> exists r :: r in rawData && RoleOf(r) == x
    {
      if x in col {
        var i :| 0 <= i < |col| && col[i] == x;
        assert rawData[i] in rawData;
      }
    }
  }
}
