/**
 * The execution side of the builder, with the database driver abstracted:
 * the driver's answers are given as inputs. This module holds the pure
 * binding plan of `statement`, the result of `get`, the integer that
 * `aggregate` reads from the first row, and the per-row insert loop.
 */
module Execution {
  import opened PhpValues

  // ---------------------------------------------------------------------
  // Binding plan of `statement`

  datatype ParamType = ParamInt | ParamStr

  /** One `bindValue(parameter, value, type)` call. */
  datatype Binding = Binding(parameter: Key, value: Value, dataType: ParamType)

  /** Integers and booleans bind as integer parameters, everything else as text. */
  function ParamTypeOf(v: Value): ParamType
  {
    if v.Int? || v.Bool? then ParamInt else ParamStr
  }

  /** Position k of a list binds placeholder k + 1; a string key binds the named placeholder. */
  function BindingParameter(k: Key): Key
  {
    match k
    case IntKey(i) => IntKey(i + 1)
    case StrKey(s) => StrKey(s)
  }

  /** The `bindValue` calls `statement($sql, $bindings)` makes, in order; none for null. */
  function BindingPlan(bindings: Value): (plan: seq<Binding>)
    requires bindings.Null? || bindings.Arr?
    ensures bindings.Null? ==> plan == []
    ensures bindings.Arr? ==> |plan| == |bindings.entries|
    ensures bindings.Arr? ==> forall i :: 0 <= i < |plan| ==>
      plan[i].value == bindings.entries[i].value &&
      (plan[i].dataType == ParamInt <==> (bindings.entries[i].value.Int? || bindings.entries[i].value.Bool?))
    ensures bindings.Arr? ==> forall i :: 0 <= i < |plan| ==>
      plan[i].parameter ==
        (if bindings.entries[i].key.IntKey? then IntKey(bindings.entries[i].key.i + 1) else bindings.entries[i].key)
  {
    if bindings.Null? then []
    else
      var es := bindings.entries;
      seq(|es|, i requires 0 <= i < |es| => Binding(BindingParameter(es[i].key), es[i].value, ParamTypeOf(es[i].value)))
  }

  /**
   * A list of bindings fills the positional placeholders 1, 2, ... in order,
   * and distinct keys never bind the same placeholder twice.
   */
  lemma {:induction false} BindingPlanPlaceholders(bindings: Value)
    requires bindings.Arr?
    ensures IsList(bindings.entries) ==>
      forall i :: 0 <= i < |bindings.entries| ==> BindingPlan(bindings)[i].parameter == IntKey(i + 1)
    ensures DistinctKeys(bindings.entries) ==>
      forall i, j :: 0 <= i < j < |bindings.entries| ==> BindingPlan(bindings)[i].parameter != BindingPlan(bindings)[j].parameter
  {
    var plan := BindingPlan(bindings);
    var es := bindings.entries;
    if DistinctKeys(es) {
      forall i, j | 0 <= i < j < |es|
        ensures plan[i].parameter != plan[j].parameter
      {
        assert es[i].key != es[j].key;
        assert plan[i].parameter == BindingParameter(es[i].key);
        assert plan[j].parameter == BindingParameter(es[j].key);
      }
    }
  }

  // ---------------------------------------------------------------------
  // get() and the aggregate value

  /** What the driver does for a select: returns rows (associative arrays), or fails. */
  datatype Fetch = Fetched(rows: seq<seq<Entry>>) | FetchFailed

  /** `get()`: the fetched rows as a list, or null when execution failed (the error is swallowed). */
  function GetResult(f: Fetch): (r: Value)
    ensures r.Null? <==> f.FetchFailed?
    ensures f.Fetched? ==> r.Arr? && IsList(r.entries) && |r.entries| == |f.rows|
    ensures f.Fetched? ==> forall i :: 0 <= i < |f.rows| ==> r.entries[i].value == Arr(f.rows[i])
  {
    match f
    case FetchFailed => Null
    case Fetched(rows) => Arr(List(seq(|rows|, i requires 0 <= i < |rows| => Arr(rows[i]))))
  }

  /** `first()`'s answer: the first row, or null when there is none or execution failed. */
  function FirstRow(f: Fetch): (r: Value)
    ensures r.Null? <==> (f.FetchFailed? || f.rows == [])
    ensures f.Fetched? && f.rows != [] ==> r == Arr(f.rows[0])
  {
    var result := GetResult(f);
    if !Truthy(result) then Null
    else
      match Lookup(result.entries, IntKey(0))
      case Some(row) => row
      case None => Null
  }

  /** `$row[0]['field']`: null when there is no first row or it has no `field`. */
  function FirstField(f: Fetch): Value
  {
    if f.Fetched? && f.rows != [] then
      match Lookup(f.rows[0], StrKey("field"))
      case Some(v) => v
      case None => Null
    else Null
  }

  /**
   * A fetched row as the driver hands it over: an associative array
   * (`FETCH_ASSOC`) or a `stdClass` object (`FETCH_OBJ`, the builder's
   * default fetch mode).
   */
  datatype FetchedRow = AssocRow(fields: seq<Entry>) | ObjectRow(props: seq<Entry>)

  /** What a PHP expression does: yields a value, or throws an `Error`. */
  datatype Outcome<T> = Returns(value: T) | Throws

  /** The row's `field`, read as `['field']` from an array or as `->field` from an object; null when missing. */
  function RowField(row: FetchedRow): Value
  {
    var fields := if row.AssocRow? then row.fields else row.props;
    match Lookup(fields, StrKey("field"))
    case Some(v) => v
    case None => Null
  }

  /** The rows `get()` answered, as associative arrays; none when execution failed. */
  function AssocRows(f: Fetch): (rows: seq<FetchedRow>)
    ensures f.FetchFailed? ==> rows == []
    ensures f.Fetched? ==> |rows| == |f.rows| && forall i :: 0 <= i < |rows| ==> rows[i] == AssocRow(f.rows[i])
  {
    if f.FetchFailed? then [] else seq(|f.rows|, i requires 0 <= i < |f.rows| => AssocRow(f.rows[i]))
  }

  /**
   * The tail of `aggregate` as written, over the rows `get()` returned.
   * `$row[0]['field']` is evaluated first, and indexing an object throws, so
   * an object row never reaches the `->field` branch. With no row, or an
   * array row whose field is not truthy, both reads give null and the result
   * is 0.
   */
  function AggregateAsWritten(rows: seq<FetchedRow>): (r: Outcome<int>)
    ensures r.Throws? <==> rows != [] && rows[0].ObjectRow?
  {
    if rows == [] then Returns(0)
    else match rows[0]
      case ObjectRow(_) => Throws
      case AssocRow(_) => Returns(if Truthy(RowField(rows[0])) then ToInt(RowField(rows[0])) else 0)
  }

  /** Under the default fetch mode, the object row that carries a count makes `aggregate` throw. */
  lemma ObjectRowCountThrows(count: nat)
    ensures AggregateAsWritten([ObjectRow([Entry(StrKey("field"), Str(Decimal(count)))])]).Throws?
  {
  }

  /**
   * What `aggregate` evidently intends: the first row's `field`, however the
   * row was fetched, cast to an integer; 0 when there is no row or the field
   * is not truthy.
   */
  function AggregateIntended(rows: seq<FetchedRow>): (n: int)
    ensures rows == [] || !Truthy(RowField(rows[0])) ==> n == 0
    ensures rows != [] && RowField(rows[0]).Int? ==> n == RowField(rows[0]).i
  {
    if rows != [] && Truthy(RowField(rows[0])) then ToInt(RowField(rows[0])) else 0
  }

  /** A count reported as decimal text is read back exactly, from an array row or an object row alike. */
  lemma {:induction false} AggregateIntendedOfDecimal(rows: seq<FetchedRow>, count: nat)
    requires rows != [] && RowField(rows[0]) == Str(Decimal(count))
    requires count <= PhpIntMax
    ensures AggregateIntended(rows) == count
  {
    if count == 0 {
      assert Decimal(0) == "0";
    } else {
      DecimalRoundTrip(count);
      assert Decimal(count) != "0" by {
        if count >= 10 {
          assert |Decimal(count)| >= 2 by { assert Decimal(count) == Decimal(count / 10) + ['0' + (count % 10) as char]; }
        }
      }
    }
  }

  /** Where the code as written does not throw, it agrees with the intended reading. */
  lemma {:induction false} AsWrittenAgreesOnArrays(rows: seq<FetchedRow>)
    requires rows == [] || rows[0].AssocRow?
    ensures AggregateAsWritten(rows) == Returns(AggregateIntended(rows))
  {
  }

  /** What `aggregate` returns for the rows `get()` answered, read as associative arrays. */
  function AggregateResult(f: Fetch): (n: int)
    ensures !Truthy(FirstField(f)) ==> n == 0
    ensures FirstField(f).Int? ==> n == FirstField(f).i
    ensures f.FetchFailed? || f.rows == [] ==> n == 0
    ensures AggregateAsWritten(AssocRows(f)) == Returns(n)
  {
    var rows := AssocRows(f);
    assert rows != [] ==> RowField(rows[0]) == FirstField(f);
    AsWrittenAgreesOnArrays(rows);
    AggregateIntended(rows)
  }

  /** A count the driver reports as decimal text is read back exactly. */
  lemma {:induction false} AggregateOfDecimal(f: Fetch, count: nat)
    requires FirstField(f) == Str(Decimal(count))
    requires count <= PhpIntMax
    ensures AggregateResult(f) == count
  {
    var rows := AssocRows(f);
    assert rows != [] && RowField(rows[0]) == FirstField(f);
    AggregateIntendedOfDecimal(rows, count);
  }

  // ---------------------------------------------------------------------
  // Inserts

  /** What the driver does with one insert statement: it runs and reports a row count and the last id, or it fails. */
  datatype ExecOutcome = Executed(rowCount: int, lastInsertId: Value) | Failed

  /** What the plugin hooks are told about one insert statement. */
  datatype Event = AfterInsert(rowCount: int, insertId: Value) | OnException(operation: string)

  /** The id a row contributes: its last insert id, only when exactly one row was affected. */
  function RowId(o: ExecOutcome): seq<Value>
  {
    if o.Executed? && o.rowCount == 1 then [o.lastInsertId] else []
  }

  /** The ids a batch collects, in row order. */
  function CollectedIds(os: seq<ExecOutcome>): seq<Value>
  {
    if os == [] then [] else CollectedIds(os[..|os| - 1]) + RowId(os[|os| - 1])
  }

  /** The hook call one row produces: `afterInsert` with the id or null, or `onException` tagged with the operation. */
  function RowEvent(operation: string, o: ExecOutcome): Event
  {
    match o
    case Executed(n, id) => AfterInsert(n, if n == 1 then id else Null)
    case Failed => OnException(operation)
  }

  /** The hook calls of a batch, one per row in row order; `onException` exactly for the failed rows. */
  function RowEvents(operation: string, os: seq<ExecOutcome>): (es: seq<Event>)
    ensures |es| == |os|
    ensures forall i :: 0 <= i < |os| ==>
      (es[i].OnException? <==> os[i].Failed?) && (es[i].OnException? ==> es[i].operation == operation)
  {
    seq(|os|, i requires 0 <= i < |os| => RowEvent(operation, os[i]))
  }

  /** One more row adds its id and its event at the end. */
  lemma RowStep(operation: string, os: seq<ExecOutcome>, i: nat)
    requires i < |os|
    ensures CollectedIds(os[..i + 1]) == CollectedIds(os[..i]) + RowId(os[i])
    ensures RowEvents(operation, os[..i + 1]) == RowEvents(operation, os[..i]) + [RowEvent(operation, os[i])]
  {
    assert os[..i + 1][..i] == os[..i];
  }

  /**
   * The batch branch of `doInsert`: one statement per row, in order. A row
   * that affects exactly one row adds its id; a failing row is reported and
   * the loop goes on with the next row.
   */
  method InsertRows(operation: string, rows: seq<Value>, outcomes: seq<ExecOutcome>) returns (ids: seq<Value>, events: seq<Event>)
    requires |outcomes| == |rows|
    ensures ids == CollectedIds(outcomes)
    ensures |ids| <= |rows|
    ensures |events| == |rows| && events == RowEvents(operation, outcomes)
    ensures forall i :: 0 <= i < |rows| ==>
      (events[i].OnException? <==> outcomes[i].Failed?) &&
      (events[i].OnException? ==> events[i].operation == operation)
  {
    ids, events := [], [];
    var i := 0;
    while i < |rows|
      invariant 0 <= i <= |rows|
      invariant ids == CollectedIds(outcomes[..i])
      invariant |ids| <= i
      invariant events == RowEvents(operation, outcomes[..i])
    {
      // the adapter compiles rows[i]; the driver runs it and answers outcomes[i]
      RowStep(operation, outcomes, i);
      match outcomes[i] {
        case Executed(n, id) =>
          var insertId := Null;
          if n == 1 {
            insertId := id;
            ids := ids + [insertId];
          }
          events := events + [AfterInsert(n, insertId)];
        case Failed =>
          events := events + [OnException(operation)];
      }
      i := i + 1;
    }
    assert outcomes[..|rows|] == outcomes;
  }

  /** The single-statement branch of `doInsert`: the id when one row was affected, null otherwise or on failure. */
  function SingleInsertResult(operation: string, o: ExecOutcome): (r: (Value, Event))
    ensures r.0 != Null ==> o.Executed? && o.rowCount == 1 && r.0 == o.lastInsertId
    ensures o.Executed? && o.rowCount == 1 ==> r.0 == o.lastInsertId
    ensures r.1 == RowEvent(operation, o)
  {
    match o
    case Executed(n, id) => (if n == 1 then id else Null, AfterInsert(n, if n == 1 then id else Null))
    case Failed => (Null, OnException(operation))
  }

  lemma {:induction false} CollectedIdsBound(os: seq<ExecOutcome>)
    ensures |CollectedIds(os)| <= |os|
  {
    if os != [] {
      CollectedIdsBound(os[..|os| - 1]);
    }
  }

  lemma {:induction false} CollectedIdsAppend(a: seq<ExecOutcome>, b: seq<ExecOutcome>)
    ensures CollectedIds(a + b) == CollectedIds(a) + CollectedIds(b)
    decreases |b|
  {
    if b == [] {
      assert a + b == a;
    } else {
      var b' := b[..|b| - 1];
      assert (a + b)[..|a + b| - 1] == a + b';
      CollectedIdsAppend(a, b');
    }
  }

  /** A failing row on its own adds no id. */
  lemma FailedRowNoId()
    ensures CollectedIds([Failed]) == []
  {
    var failed: seq<ExecOutcome> := [Failed];
    assert failed[..0] == [];
  }

  /** A failing row adds nothing, and the rows after it still contribute their ids. */
  lemma {:induction false} FailedRowSkipped(before: seq<ExecOutcome>, after: seq<ExecOutcome>)
    ensures CollectedIds(before + [Failed] + after) == CollectedIds(before) + CollectedIds(after)
  {
    var failed: seq<ExecOutcome> := [Failed];
    var upTo := before + failed;
    FailedRowNoId();
    CollectedIdsAppend(before, failed);
    assert CollectedIds(upTo) == CollectedIds(before);
    CollectedIdsAppend(upTo, after);
  }

  /** The positions of the rows that affected exactly one row, in increasing order. */
  function SingleRowIndices(os: seq<ExecOutcome>): (r: seq<nat>)
    ensures forall j :: 0 <= j < |r| ==> r[j] < |os| && os[r[j]].Executed? && os[r[j]].rowCount == 1
    ensures forall j, k :: 0 <= j < k < |r| ==> r[j] < r[k]
    ensures forall i :: 0 <= i < |os| && os[i].Executed? && os[i].rowCount == 1 ==> i in r
  {
    if os == [] then []
    else
      var n := |os| - 1;
      var init := SingleRowIndices(os[..n]);
      assert forall i :: 0 <= i < n ==> os[..n][i] == os[i];
      init + (if os[n].Executed? && os[n].rowCount == 1 then [n] else [])
  }

  /**
   * The collected ids are exactly the last insert ids of the rows that
   * affected one row, in row order: position j of the result belongs to the
   * j-th such row.
   */
  lemma {:induction false} CollectedIdsExact(os: seq<ExecOutcome>)
    ensures |CollectedIds(os)| == |SingleRowIndices(os)|
    ensures forall j :: 0 <= j < |SingleRowIndices(os)| ==>
      CollectedIds(os)[j] == os[SingleRowIndices(os)[j]].lastInsertId
  {
    if os != [] {
      var n := |os| - 1;
      var init := os[..n];
      CollectedIdsExact(init);
      var ids, idx := CollectedIds(init), SingleRowIndices(init);
      assert CollectedIds(os) == ids + RowId(os[n]);
      forall j | 0 <= j < |idx|
        ensures CollectedIds(os)[j] == os[SingleRowIndices(os)[j]].lastInsertId
      {
        assert SingleRowIndices(os)[j] == idx[j];
        assert os[idx[j]] == init[idx[j]];
      }
    }
  }
}
