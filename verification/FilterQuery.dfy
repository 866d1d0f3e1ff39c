/** The model list query: conditions and placeholders added one by one, values bound in the same order. */
module FilterQuery {
  import opened Models

  /** A model joined with its upstream. */
  datatype Row = Row(id: int, upstreamId: int, upstreamName: string, cname: string, isActive: bool)

  datatype Filter = Filter(
    upstreamId: Option<int>,
    upstreamName: Option<string>,
    name: Option<string>,
    isActive: Option<bool>)

  datatype Column = UpstreamId | UpstreamName | Cname | IsActive

  datatype Value = IntValue(i: int) | TextValue(s: string) | BoolValue(b: bool)

  /** `column = $placeholder`. */
  datatype Condition = Condition(column: Column, placeholder: nat)

  /** The built statement; a list also has placeholders for LIMIT and OFFSET. */
  datatype Statement =
    | CountRows(conditions: seq<Condition>)
    | ListRows(conditions: seq<Condition>, limitAt: nat, offsetAt: nat)

  // ---------------------------------------------------------------- what the database answers

  function ValueIn(row: Row, column: Column): Value {
    match column
    case UpstreamId => IntValue(row.upstreamId)
    case UpstreamName => TextValue(row.upstreamName)
    case Cname => TextValue(row.cname)
    case IsActive => BoolValue(row.isActive)
  }

  /** The value bound to a placeholder; placeholders count from 1. */
  function Bound(binds: seq<Value>, placeholder: nat): Option<Value> {
    if 1 <= placeholder <= |binds| then Some(binds[placeholder - 1]) else None
  }

  predicate Holds(conditions: seq<Condition>, binds: seq<Value>, row: Row) {
    forall k :: 0 <= k < |conditions| ==>
        Bound(binds, conditions[k].placeholder) == Some(ValueIn(row, conditions[k].column))
  }

  /** The rows, in id order, that meet every condition. */
  function Where(table: seq<Row>, conditions: seq<Condition>, binds: seq<Value>): seq<Row> {
    if table == [] then []
    else
      var n := |table| - 1;
      Where(table[..n], conditions, binds) + if Holds(conditions, binds, table[n]) then [table[n]] else []
  }

  function Slice(rows: seq<Row>, offset: nat, limit: nat): (slice: seq<Row>)
    ensures |slice| <= limit && (offset + limit <= |rows| ==> |slice| == limit)
    ensures offset <= |rows| < offset + limit ==> |slice| == |rows| - offset
    ensures forall k :: 0 <= k < |slice| ==> offset + k < |rows| && slice[k] == rows[offset + k]
  {
    if offset >= |rows| then []
    else if offset + limit >= |rows| then rows[offset..]
    else rows[offset..offset + limit]
  }

  /** A statement is refused when a LIMIT or OFFSET is not bound to an integer or is negative. */
  function Execute(statement: Statement, binds: seq<Value>, table: seq<Row>): Result<seq<Row>> {
    var rows := Where(table, statement.conditions, binds);
    match statement
    case CountRows(_) => Ok(rows)
    case ListRows(_, limitAt, offsetAt) =>
      match (Bound(binds, limitAt), Bound(binds, offsetAt))
      case (Some(IntValue(limit)), Some(IntValue(offset))) =>
        if limit < 0 || offset < 0 then Err else Ok(Slice(rows, offset, limit))
      case _ => Err
  }

  // ---------------------------------------------------------------- the meaning of a filter

  /** The fields that are given all agree with the row. */
  predicate Matches(filter: Filter, row: Row) {
    && (filter.upstreamId.Some? ==> row.upstreamId == filter.upstreamId.value)
    && (filter.upstreamName.Some? ==> row.upstreamName == filter.upstreamName.value)
    && (filter.name.Some? ==> row.cname == filter.name.value)
    && (filter.isActive.Some? ==> row.isActive == filter.isActive.value)
  }

  /** The rows the filter asks for. */
  function Filtered(table: seq<Row>, filter: Filter): seq<Row> {
    if table == [] then []
    else
      var n := |table| - 1;
      Filtered(table[..n], filter) + if Matches(filter, table[n]) then [table[n]] else []
  }

  /** Conditions numbered from 1 with no gap, as many as values bound, that say what the filter says. */
  ghost predicate Means(conditions: seq<Condition>, binds: seq<Value>, filter: Filter) {
    && (forall k :: 0 <= k < |conditions| ==> conditions[k].placeholder == k + 1)
    && |conditions| <= |binds|
    && (forall row :: Holds(conditions, binds, row) <==> Matches(filter, row))
  }

  lemma {:induction false} WhereIsFiltered(table: seq<Row>, conditions: seq<Condition>, binds: seq<Value>,
                                           filter: Filter)
    requires Means(conditions, binds, filter)
    ensures Where(table, conditions, binds) == Filtered(table, filter)
  {
    if table == [] {
    } else {
      WhereIsFiltered(table[..|table| - 1], conditions, binds, filter);
    }
  }

  /** A row is asked for when every field that is given agrees with it, and as often as it is in the table. */
  lemma {:induction false} FilteredInItsFields(table: seq<Row>, filter: Filter, r: Row)
    ensures (filter.upstreamId.Some? && r.upstreamId != filter.upstreamId.value)
            || (filter.upstreamName.Some? && r.upstreamName != filter.upstreamName.value)
            || (filter.name.Some? && r.cname != filter.name.value)
            || (filter.isActive.Some? && r.isActive != filter.isActive.value)
      ==> r !in Filtered(table, filter)
    ensures (filter.upstreamId.Some? ==> r.upstreamId == filter.upstreamId.value)
            && (filter.upstreamName.Some? ==> r.upstreamName == filter.upstreamName.value)
            && (filter.name.Some? ==> r.cname == filter.name.value)
            && (filter.isActive.Some? ==> r.isActive == filter.isActive.value)
      ==> multiset(Filtered(table, filter))[r] == multiset(table)[r]
    ensures r in Filtered(table, filter) ==> r in table
  {
    if table == [] {
    } else {
      var front, last := table[..|table| - 1], table[|table| - 1];
      assert table == front + [last];
      FilteredInItsFields(front, filter, r);
    }
  }

  lemma AppendedLast(rows: seq<Row>, last: Row)
    requires forall i, j :: 0 <= i < j < |rows| ==> rows[i].id < rows[j].id
    requires forall i :: 0 <= i < |rows| ==> rows[i].id < last.id
    ensures var all := rows + [last]; forall i, j :: 0 <= i < j < |all| ==> all[i].id < all[j].id
  {
  }

  /** The rows asked for keep the order of the table. */
  lemma {:induction false} FilteredInOrder(table: seq<Row>, filter: Filter)
    requires forall i, j :: 0 <= i < j < |table| ==> table[i].id < table[j].id
    ensures var rows := Filtered(table, filter); forall i, j :: 0 <= i < j < |rows| ==> rows[i].id < rows[j].id
  {
    if table == [] {
    } else {
      var front, last := table[..|table| - 1], table[|table| - 1];
      var rows := Filtered(front, filter);
      FilteredInOrder(front, filter);
      forall i | 0 <= i < |rows| ensures rows[i].id < last.id {
        FilteredInItsFields(front, filter, rows[i]);
        assert rows[i] in front;
      }
      AppendedLast(rows, last);
    }
  }

  // ---------------------------------------------------------------- building

  function Mapped<T, U>(value: Option<T>, f: T -> U): Option<U> {
    if value.Some? then Some(f(value.value)) else None
  }

  /** A field that may be given, as the passes see it. */
  function Field(column: Column, value: Option<Value>): seq<(Column, Value)> {
    if value.Some? then [(column, value.value)] else []
  }

  /** The given fields, in the order both passes look at them. */
  function Given(filter: Filter): seq<(Column, Value)> {
    Field(UpstreamId, Mapped(filter.upstreamId, i => IntValue(i))) +
    Field(UpstreamName, Mapped(filter.upstreamName, s => TextValue(s))) +
    Field(Cname, Mapped(filter.name, s => TextValue(s))) +
    Field(IsActive, Mapped(filter.isActive, b => BoolValue(b)))
  }

  ghost predicate AgreesWith(row: Row, given: seq<(Column, Value)>) {
    forall k :: 0 <= k < |given| ==> ValueIn(row, given[k].0) == given[k].1
  }

  lemma AgreesWithBoth(row: Row, a: seq<(Column, Value)>, b: seq<(Column, Value)>)
    ensures AgreesWith(row, a + b) <==> AgreesWith(row, a) && AgreesWith(row, b)
  {
    if AgreesWith(row, a + b) {
      forall k | 0 <= k < |a| ensures ValueIn(row, a[k].0) == a[k].1 {
        assert (a + b)[k] == a[k];
      }
      forall k | 0 <= k < |b| ensures ValueIn(row, b[k].0) == b[k].1 {
        assert (a + b)[|a| + k] == b[k];
      }
    }
  }

  lemma AgreesWithField(row: Row, column: Column, value: Option<Value>)
    ensures AgreesWith(row, Field(column, value)) <==> (value.Some? ==> ValueIn(row, column) == value.value)
  {
    if value.Some? && AgreesWith(row, Field(column, value)) {
      assert ValueIn(row, Field(column, value)[0].0) == Field(column, value)[0].1;
    }
  }

  lemma GivenSaysTheFilter(filter: Filter, row: Row)
    ensures AgreesWith(row, Given(filter)) <==> Matches(filter, row)
  {
    var a := Field(UpstreamId, Mapped(filter.upstreamId, i => IntValue(i)));
    var b := Field(UpstreamName, Mapped(filter.upstreamName, s => TextValue(s)));
    var c := Field(Cname, Mapped(filter.name, s => TextValue(s)));
    var d := Field(IsActive, Mapped(filter.isActive, b => BoolValue(b)));
    AgreesWithBoth(row, a, b);
    AgreesWithBoth(row, a + b, c);
    AgreesWithBoth(row, a + b + c, d);
    AgreesWithField(row, UpstreamId, Mapped(filter.upstreamId, i => IntValue(i)));
    AgreesWithField(row, UpstreamName, Mapped(filter.upstreamName, s => TextValue(s)));
    AgreesWithField(row, Cname, Mapped(filter.name, s => TextValue(s)));
    AgreesWithField(row, IsActive, Mapped(filter.isActive, b => BoolValue(b)));
  }

  /** The first pass writes the conditions, each with the next placeholder. */
  method PushConditions(filter: Filter) returns (conditions: seq<Condition>, paramIdx: nat)
    ensures |conditions| == |Given(filter)| == paramIdx
    ensures forall k :: 0 <= k < |conditions| ==> conditions[k] == Condition(Given(filter)[k].0, k + 1)
  {
    conditions, paramIdx := [], 0;
    if filter.upstreamId.Some? {
      paramIdx := paramIdx + 1;
      conditions := conditions + [Condition(UpstreamId, paramIdx)];
    }
    if filter.upstreamName.Some? {
      paramIdx := paramIdx + 1;
      conditions := conditions + [Condition(UpstreamName, paramIdx)];
    }
    if filter.name.Some? {
      paramIdx := paramIdx + 1;
      conditions := conditions + [Condition(Cname, paramIdx)];
    }
    if filter.isActive.Some? {
      paramIdx := paramIdx + 1;
      conditions := conditions + [Condition(IsActive, paramIdx)];
    }
  }

  /** The second pass binds the values, without looking at the conditions. */
  method BindValues(filter: Filter) returns (binds: seq<Value>)
    ensures |binds| == |Given(filter)|
    ensures forall k :: 0 <= k < |binds| ==> binds[k] == Given(filter)[k].1
  {
    binds := [];
    if filter.upstreamId.Some? {
      binds := binds + [IntValue(filter.upstreamId.value)];
    }
    if filter.upstreamName.Some? {
      binds := binds + [TextValue(filter.upstreamName.value)];
    }
    if filter.name.Some? {
      binds := binds + [TextValue(filter.name.value)];
    }
    if filter.isActive.Some? {
      binds := binds + [BoolValue(filter.isActive.value)];
    }
  }

  /** The two passes meet: each placeholder finds the value its condition was written for. */
  lemma PassesMean(filter: Filter, conditions: seq<Condition>, binds: seq<Value>)
    requires |conditions| == |Given(filter)| <= |binds|
    requires forall k :: 0 <= k < |conditions| ==> conditions[k] == Condition(Given(filter)[k].0, k + 1)
    requires forall k :: 0 <= k < |conditions| ==> binds[k] == Given(filter)[k].1
    ensures Means(conditions, binds, filter)
  {
    forall row ensures Holds(conditions, binds, row) <==> Matches(filter, row) {
      GivenSaysTheFilter(filter, row);
      if Holds(conditions, binds, row) {
        forall k | 0 <= k < |conditions| ensures ValueIn(row, Given(filter)[k].0) == Given(filter)[k].1 {
          assert Bound(binds, conditions[k].placeholder) == Some(ValueIn(row, conditions[k].column));
        }
      }
    }
  }

  method CountModelsFiltered(filter: Filter, table: seq<Row>)
    returns (statement: Statement, binds: seq<Value>, count: nat)
    ensures statement.CountRows? && Means(statement.conditions, binds, filter) && |binds| == |statement.conditions|
    ensures count == |Filtered(table, filter)|
  {
    var conditions, _ := PushConditions(filter);
    binds := BindValues(filter);
    PassesMean(filter, conditions, binds);
    statement := CountRows(conditions);
    WhereIsFiltered(table, statement.conditions, binds, filter);
    count := |Execute(statement, binds, table).value|;
  }

  method ListModelsFilteredPaginated(filter: Filter, offset: int, limit: int, table: seq<Row>)
    returns (statement: Statement, binds: seq<Value>, page: Result<seq<Row>>)
    ensures statement.ListRows? && Means(statement.conditions, binds, filter) && |binds| == |statement.conditions| + 2
    ensures statement.limitAt == |statement.conditions| + 1 && statement.offsetAt == |statement.conditions| + 2
    ensures page == if limit < 0 || offset < 0 then Err else Ok(Slice(Filtered(table, filter), offset, limit))
  {
    var conditions, paramIdx := PushConditions(filter);
    var limitAt := paramIdx + 1;
    var offsetAt := limitAt + 1;
    statement := ListRows(conditions, limitAt, offsetAt);
    binds := BindValues(filter);
    binds := binds + [IntValue(limit), IntValue(offset)];
    PassesMean(filter, conditions, binds);
    WhereIsFiltered(table, statement.conditions, binds, filter);
    page := Execute(statement, binds, table);
  }

  // ---------------------------------------------------------------- the pages together

  /** The first `n` pages of a list, one after the other. */
  function Pages(rows: seq<Row>, size: nat, n: nat): seq<Row> {
    if n == 0 then [] else Pages(rows, size, n - 1) + Slice(rows, (n - 1) * size, size)
  }

  function Prefix(rows: seq<Row>, n: nat): seq<Row> {
    if n < |rows| then rows[..n] else rows
  }

  lemma SliceExtends(rows: seq<Row>, offset: nat, limit: nat)
    ensures Prefix(rows, offset) + Slice(rows, offset, limit) == Prefix(rows, offset + limit)
  {
  }

  lemma PreviousPages(n: nat, size: nat)
    requires n > 0
    ensures 0 <= (n - 1) * size && (n - 1) * size + size == n * size
  {
  }

  /** The first `n` pages are the first `n * size` rows: enough pages hold the counted rows, each once. */
  lemma {:induction false} PagesAreTheRows(rows: seq<Row>, size: nat, n: nat)
    ensures Pages(rows, size, n) == Prefix(rows, n * size)
    ensures n * size >= |rows| ==> Pages(rows, size, n) == rows
  {
    if n == 0 {
    } else {
      PagesAreTheRows(rows, size, n - 1);
      PreviousPages(n, size);
      SliceExtends(rows, (n - 1) * size, size);
    }
  }
}
