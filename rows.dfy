/** One attendance row as the CSV parser delivers it (column name to text),
    and the way script.js reads its fields with `||` fallbacks. */
module Rows {
  import opened Seqs
  import opened StringOrder

  /** What a parsed row holds under one column name: nothing (`undefined`,
      the column is missing) or the cell's text, possibly empty. */
  datatype Cell = Absent | Text(s: string)

  /** JavaScript truthiness of a cell: `undefined` and `""` are falsy. */
  predicate Truthy(c: Cell)
  {
    c.Text? && c.s != ""
  }

  /** `a || b` on two cells: the first truthy one, else the second. */
  function Or(a: Cell, b: Cell): (r: Cell)
    ensures Truthy(r) <==> Truthy(a) || Truthy(b)
    ensures Truthy(a) ==> r == a
    ensures !Truthy(a) ==> r == b
  {
    if Truthy(a) then a else b
  }

  /** The property name a cell becomes when it indexes an object:
      `undefined` turns into the string "undefined", so it shares a key
      with that text and with nothing else. */
  function PropertyKey(c: Cell): (k: string)
    ensures c.Text? ==> k == c.s
    ensures c.Absent? ==> k == "undefined"
    ensures k == "undefined" <==> c == Absent || c == Text("undefined")
  {
    match c
    case Absent => "undefined"
    case Text(s) => s
  }

  /** A row: the columns the dashboard reads, and the points as a number. */
  datatype Row = Row(member: Cell, name: Cell, role: Cell, meetingDate: Cell, date: Cell, points: int)

  /** `r["Member"] || r["Name"]` */
  function NameOf(r: Row): (c: Cell)
    ensures Truthy(c) <==> Truthy(r.member) || Truthy(r.name)
    ensures Truthy(r.member) ==> c == r.member
    ensures !Truthy(r.member) ==> c == r.name
  {
    Or(r.member, r.name)
  }

  /** `r["Role"] || "Unknown"` */
  function RoleOf(r: Row): (s: string)
    ensures s != ""
    ensures Truthy(r.role) ==> s == r.role.s
    ensures !Truthy(r.role) ==> s == "Unknown"
  {
    if Truthy(r.role) then r.role.s else "Unknown"
  }

  /** `r["Meeting Date"] || r["Date"]` */
  function DateOf(r: Row): (c: Cell)
    ensures Truthy(c) <==> Truthy(r.meetingDate) || Truthy(r.date)
    ensures Truthy(r.meetingDate) ==> c == r.meetingDate
    ensures !Truthy(r.meetingDate) ==> c == r.date
  {
    Or(r.meetingDate, r.date)
  }

  /** The load filter's test: the row names a member. */
  predicate HasMember(r: Row)
  {
    Truthy(NameOf(r))
  }

  /** Grouping keys, as the object properties the aggregations index by. */
  function MemberKey(r: Row): string
  {
    PropertyKey(NameOf(r))
  }

  /** The role key is `RoleOf` itself: the role already falls back to a
      string, so no `undefined` key can arise. The name exists so the three
      aggregations read alike, next to `MemberKey` and `DateKey`. */
  function RoleKey(r: Row): string
  {
    RoleOf(r)
  }

  function DateKey(r: Row): string
  {
    PropertyKey(DateOf(r))
  }

  /** The default sort on raw date values: `undefined` goes after every
      string, strings compare as strings: of two different values exactly
      one sorts first. */
  predicate CellLe(a: Cell, b: Cell)
    ensures b.Absent? ==> CellLe(a, b)
    ensures a.Absent? ==> (CellLe(a, b) <==> b.Absent?)
    ensures a.Text? && b.Text? && a != b ==> (CellLe(a, b) <==> !LexLe(b.s, a.s))
  {
    match (a, b)
    case (Absent, Absent) => true
    case (Text(_), Absent) => true
    case (Absent, Text(_)) => false
    case (Text(x), Text(y)) => LexLeStrict(x, y); LexLe(x, y)
  }

  /** As an object key, a missing cell and the text "undefined" are the
      same key, and no two other cells share one. */
  lemma PropertyKeyMerges(a: Cell, b: Cell)
    ensures PropertyKey(a) == PropertyKey(b) <==>
              a == b || (a in {Absent, Text("undefined")} && b in {Absent, Text("undefined")})
  {
  }

  lemma CellLeIsTotalOrder()
    ensures TotalPreorder(CellLe) && Antisymmetric(CellLe)
    ensures forall c :: CellLe(c, Absent)
  {
    LexLeIsTotalOrder();
    forall a, b
      ensures CellLe(a, b) || CellLe(b, a)
    {
      if a.Text? && b.Text? {
        assert LexLe(a.s, b.s) || LexLe(b.s, a.s);
      }
    }
    forall a, b, c | CellLe(a, b) && CellLe(b, c)
      ensures CellLe(a, c)
    {
      if a.Text? && b.Text? && c.Text? {
        assert LexLe(a.s, b.s) && LexLe(b.s, c.s);
      }
    }
    forall a, b | CellLe(a, b) && CellLe(b, a)
      ensures a == b
    {
      if a.Text? && b.Text? {
        assert LexLe(a.s, b.s) && LexLe(b.s, a.s);
      }
    }
  }
}
