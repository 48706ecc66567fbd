/**
 * The statement model of the fluent query builder (`QueryBuilderHandler`)
 * and of its `NestedCriteria` variant. `$statements` maps a clause name to
 * the clause's entries; the chainable mutators append to it or assign it,
 * `table()` spawns a fresh child builder, `count()` snapshots and restores
 * it, and the terminal operations hand it to the dialect compiler and the
 * driver, whose answers are given as inputs here.
 */
module QueryBuilder {
  import opened PhpValues
  import opened TablePrefix
  import opened Containers
  import opened Execution

  const JoinBuilderClass: string := "\\Vega\\Database\\QueryBuilder\\JoinBuilder"
  const AdapterNamespace: string := "\\Vega\\Database\\QueryBuilder\\Adapters\\"

  /** The clauses assigned directly (`limit`, `offset`); every other clause is an array. */
  const ScalarClauses: set<string> := {"limit", "offset"}

  /**
   * What a builder takes from its connection: a handle that identifies the
   * connection, the adapter name, the configured table prefix (absent when
   * the configuration sets none), the connection's container, and the
   * dialect's identifier quoting (`wrapSanitizer`), which is not modelled.
   */
  datatype Connection = Connection(
    handle: nat,
    adapter: string,
    prefix: Option<string>,
    container: Container,
    wrapSanitizer: Value -> string)

  /** `ucfirst` on ASCII text. */
  function UcFirst(s: string): string
  {
    if s != [] && 'a' <= s[0] <= 'z' then [(s[0] as int - 32) as char] + s[1..] else s
  }

  /** The container key of the dialect compiler for an adapter name. */
  function AdapterKey(adapter: string): string
  {
    AdapterNamespace + UcFirst(adapter)
  }

  /** The entries of a clause; empty when the clause is absent. */
  function Clause(stmts: map<string, Value>, name: string): seq<Entry>
  {
    if name in stmts && stmts[name].Arr? then stmts[name].entries else []
  }

  /** Every clause other than `name` is as it was. */
  ghost predicate OnlyChanged(before: map<string, Value>, after: map<string, Value>, name: string)
  {
    forall n :: n != name ==> (n in before <==> n in after) && (n in before ==> before[n] == after[n])
  }

  /** `compact('key', 'operator', 'value', 'joiner')`. */
  function Criterion(key: Value, operator: Value, value: Value, joiner: Value): Value
  {
    Arr([Entry(StrKey("key"), key), Entry(StrKey("operator"), operator),
         Entry(StrKey("value"), value), Entry(StrKey("joiner"), joiner)])
  }

  /** `compact('field', 'type')`. */
  function OrderSpec(field: Value, direction: Value): Value
  {
    Arr([Entry(StrKey("field"), field), Entry(StrKey("type"), direction)])
  }

  /** `compact('type', 'table', 'joinBuilder')`. */
  function JoinSpec(joinType: Value, table: Value, joinBuilder: Value): Value
  {
    Arr([Entry(StrKey("type"), joinType), Entry(StrKey("table"), table), Entry(StrKey("joinBuilder"), joinBuilder)])
  }

  /** `$statements[$name][] = $entry`. */
  function Appended(stmts: map<string, Value>, name: string, entry: Value): (r: map<string, Value>)
    ensures OnlyChanged(stmts, r, name)
    ensures name in r && r[name].Arr?
    ensures Vals(Clause(r, name)) == Vals(Clause(stmts, name)) + [entry]
  {
    stmts[name := Arr(Push(Clause(stmts, name), entry))]
  }

  /**
   * `entries` appended to clause `name` one after another, as the
   * `$statements[$name][] = ...` of a foreach; the clause is created only
   * when there is something to append.
   */
  function AppendedAll(stmts: map<string, Value>, name: string, entries: seq<Value>): (r: map<string, Value>)
    ensures OnlyChanged(stmts, r, name)
    ensures entries != [] ==> name in r && r[name].Arr?
    ensures Vals(Clause(r, name)) == Vals(Clause(stmts, name)) + entries
  {
    if entries == [] then
      assert Vals(Clause(stmts, name)) + entries == Vals(Clause(stmts, name));
      stmts
    else stmts[name := Arr(PushAll(Clause(stmts, name), entries))]
  }

  /** Appending several entries is appending them one at a time. */
  lemma {:induction false} AppendedAllSnoc(stmts: map<string, Value>, name: string, entries: seq<Value>, entry: Value)
    ensures AppendedAll(stmts, name, entries + [entry]) == Appended(AppendedAll(stmts, name, entries), name, entry)
  {
    assert (entries + [entry])[..|entries|] == entries;
  }

  /** `addStatement($key, $value)`: the new statements. */
  function StatementAdded(stmts: map<string, Value>, key: string, value: Value): (r: map<string, Value>)
    ensures OnlyChanged(stmts, r, key)
    ensures key in r && r[key].Arr?
    ensures key !in stmts ==> r[key] == Arr(ToArray(value))
    ensures IntVals(Clause(r, key)) == IntVals(Clause(stmts, key)) + IntVals(ToArray(value))
  {
    if key in stmts then
      ArrayMergeIntVals(Clause(stmts, key), ToArray(value));
      stmts[key := Arr(ArrayMerge(Clause(stmts, key), ToArray(value)))]
    else
      stmts[key := Arr(ToArray(value))]
  }

  /**
   * On a clause whose keys are all integers, `addStatement` of a single
   * value or of a list leaves the list of the old entries followed by the new
   * ones, in call order.
   */
  lemma {:induction false} StatementAddedAppends(stmts: map<string, Value>, key: string, value: Value)
    requires key in stmts && stmts[key].Arr? && AllIntKeys(stmts[key].entries)
    requires AllIntKeys(ToArray(value))
    ensures StatementAdded(stmts, key, value)[key] == Arr(List(Vals(stmts[key].entries) + Vals(ToArray(value))))
  {
    ArrayMergeLists(stmts[key].entries, ToArray(value));
  }

  /** The operator and value `where($key, ...)` hands on, from the arguments after the key. */
  function WhereOperands(args: seq<Value>): (r: (Value, Value))
    ensures |args| == 1 ==> r == (Str("="), args[0])
    ensures |args| != 1 ==> r.0 == (if |args| >= 1 then args[0] else Null)
    ensures |args| != 1 ==> r.1 == (if |args| >= 2 then args[1] else Null)
  {
    if |args| == 1 then (Str("="), args[0])
    else ((if |args| >= 1 then args[0] else Null), (if |args| >= 2 then args[1] else Null))
  }

  /** `select`'s fields: an array argument as it is, otherwise all the arguments as a list. */
  function SelectFields(args: seq<Value>): Value
    requires |args| >= 1
  {
    if args[0].Arr? then args[0] else Arr(List(args))
  }

  /** A key of an array as a PHP value. */
  function KeyValue(k: Key): Value
  {
    match k
    case IntKey(i) => Int(i)
    case StrKey(s) => Str(s)
  }

  /** Every field `orderBy` would prefix is a name `addTablePrefix` accepts. */
  predicate OrderFieldsPrefixable(tablePrefix: Option<string>, fields: Value)
  {
    var es := ToArray(fields);
    tablePrefix.None? ||
    forall i :: 0 <= i < |es| ==> es[i].key.StrKey? || IsRawValue(es[i].value) || Prefixable(es[i].value)
  }

  /**
   * The ordering spec of one element of `orderBy`: a list element is a field
   * ordered in the default direction, a string key is a field mapped to its
   * direction. Raw fields are left unprefixed.
   */
  function OrderEntry(tablePrefix: Option<string>, e: Entry, defaultDirection: Value): (r: Value)
    requires tablePrefix.None? || e.key.StrKey? || IsRawValue(e.value) || Prefixable(e.value)
    ensures e.key.IntKey? ==>
      r == OrderSpec(if IsRawValue(e.value) then e.value else AddTablePrefix(tablePrefix, e.value), defaultDirection)
    ensures e.key.StrKey? ==> r == OrderSpec(AddTablePrefix(tablePrefix, Str(e.key.s)), e.value)
  {
    var field := if e.key.IntKey? then e.value else KeyValue(e.key);
    var direction := if e.key.IntKey? then defaultDirection else e.value;
    OrderSpec(if IsRawValue(field) then field else AddTablePrefix(tablePrefix, field), direction)
  }

  function OrderSpecs(tablePrefix: Option<string>, fields: Value, defaultDirection: Value): (r: seq<Value>)
    requires OrderFieldsPrefixable(tablePrefix, fields)
    ensures |r| == |ToArray(fields)|
    ensures forall i :: 0 <= i < |r| ==> r[i] == OrderEntry(tablePrefix, ToArray(fields)[i], defaultDirection)
  {
    var es := ToArray(fields);
    seq(|es|, i requires 0 <= i < |es| => OrderEntry(tablePrefix, es[i], defaultDirection))
  }

  /**
   * The foreach of `orderBy`: for each entry, the field and direction it
   * names (a list entry takes the default direction), the field prefixed
   * unless it is a raw expression, as the specs it appends, in order.
   */
  method OrderLoop(tablePrefix: Option<string>, fields: Value, defaultDirection: Value) returns (specs: seq<Value>)
    requires OrderFieldsPrefixable(tablePrefix, fields)
    ensures specs == OrderSpecs(tablePrefix, fields, defaultDirection)
  {
    var es := if fields.Arr? then fields.entries else [Entry(IntKey(0), fields)];
    ghost var expected := OrderSpecs(tablePrefix, fields, defaultDirection);
    assert es == ToArray(fields);
    specs := [];
    var i := 0;
    while i < |es|
      invariant 0 <= i <= |es| == |expected|
      invariant specs == expected[..i]
    {
      var field, direction := KeyValue(es[i].key), es[i].value;
      if es[i].key.IntKey? {
        field, direction := es[i].value, defaultDirection;
      }
      if !IsRawValue(field) {
        field := AddTablePrefix(tablePrefix, field);
      }
      assert OrderSpec(field, direction) == expected[i];
      specs := specs + [OrderSpec(field, direction)];
      i := i + 1;
    }
    assert specs == expected;
  }

  /** Whether `doInsert` takes the batch branch: the data's first element is itself an array. */
  predicate IsBatch(data: Value)
  {
    data.Arr? && data.entries != [] && data.entries[0].value.Arr?
  }

  /** How many statements `doInsert` executes. */
  function InsertExecutions(isRaw: bool, data: Value): nat
  {
    if !isRaw && IsBatch(data) then |data.entries| else 1
  }

  class QueryBuilderHandler {
    const connection: Connection
    const container: Container
    const tablePrefix: Option<string>
    const adapterInstance: Value
    /** Whether this builder is a `NestedCriteria`, whose `_where` writes to `criteria`. */
    const nestedCriteria: bool
    var statements: map<string, Value>
    var isRaw: bool

    ghost predicate Valid()
      reads this, container
    {
      && container == connection.container
      && tablePrefix == connection.prefix
      && container.Valid()
      && AdapterKey(connection.adapter) in container.singletons
      && container.singletons[AdapterKey(connection.adapter)] == adapterInstance
      && forall name :: name in statements && name !in ScalarClauses ==> statements[name].Arr?
    }

    /** `new QueryBuilderHandler($connection)`, or `new NestedCriteria($connection)`. */
    constructor (connection: Connection, nestedCriteria: bool)
      requires connection.container.Valid()
      modifies connection.container
      ensures Valid()
      ensures this.connection == connection && this.nestedCriteria == nestedCriteria
      ensures statements == map[] && isRaw
      ensures connection.container.singletons ==
        old(connection.container.singletons)[AdapterKey(connection.adapter) := adapterInstance]
      ensures old(connection.container.Has(AdapterKey(connection.adapter))) ==>
        adapterInstance == old(connection.container.singletons[AdapterKey(connection.adapter)])
      ensures connection.container.Built(old(connection.container.singletons),
        AdapterKey(connection.adapter), [Handle(connection.handle)])
      ensures !old(connection.container.Has(AdapterKey(connection.adapter))) ==> fresh(adapterInstance.obj)
    {
      var adapter := connection.container.Build(AdapterKey(connection.adapter), [Handle(connection.handle)]);
      this.connection := connection;
      container := connection.container;
      tablePrefix := connection.prefix;
      adapterInstance := adapter;
      this.nestedCriteria := nestedCriteria;
      statements := map[];
      isRaw := true;
    }

    /** The names `addTablePrefix` is asked to prefix can be prefixed. */
    predicate KeyPrefixable(key: Value)
    {
      tablePrefix.None? || Prefixable(key)
    }

    /** The clause `_where` writes to. */
    function WhereClause(): string
    {
      if nestedCriteria then "criteria" else "wheres"
    }

    /** The statements after `_where($key, $operator, $value, $joiner)`. */
    function WithCriterion(key: Value, operator: Value, value: Value, joiner: string): (r: map<string, Value>)
      requires KeyPrefixable(key)
      reads this
      ensures OnlyChanged(statements, r, WhereClause())
      ensures Vals(Clause(r, WhereClause())) ==
        Vals(Clause(statements, WhereClause())) + [Criterion(AddTablePrefix(tablePrefix, key), operator, value, Str(joiner))]
    {
      Appended(statements, WhereClause(), Criterion(AddTablePrefix(tablePrefix, key), operator, value, Str(joiner)))
    }

    method SetIsRaw(value: bool)
      modifies this`isRaw
      ensures isRaw == value
    {
      isRaw := value;
    }

    /**
     * `addStatement($key, $value)`: a non-array value is wrapped in an array;
     * an absent clause is created, an existing one is merged with it.
     */
    method AddStatement(key: string, value: Value)
      requires Valid() && key !in ScalarClauses
      modifies this`statements
      ensures Valid()
      ensures statements == StatementAdded(old(statements), key, value)
    {
      var v := value;
      if !v.Arr? {
        v := Arr([Entry(IntKey(0), v)]);
      }
      if key !in statements {
        statements := statements[key := v];
      } else {
        ArrayMergeIntVals(statements[key].entries, v.entries);
        statements := statements[key := Arr(ArrayMerge(statements[key].entries, v.entries))];
      }
    }

    /** `_where`, and `NestedCriteria::_where`: one criterion appended, the key prefixed. */
    method AddWhere(key: Value, operator: Value, value: Value, joiner: string := "AND") returns (self: QueryBuilderHandler)
      requires Valid() && KeyPrefixable(key)
      modifies this`statements
      ensures Valid() && self == this
      ensures statements == old(WithCriterion(key, operator, value, joiner))
    {
      var k := AddTablePrefix(tablePrefix, key);
      statements := Appended(statements, WhereClause(), Criterion(k, operator, value, Str(joiner)));
      self := this;
    }

    /** `where($key, ...$args)`. */
    method Where(key: Value, args: seq<Value>)
      requires Valid() && KeyPrefixable(key)
      modifies this`statements
      ensures Valid()
      ensures statements == old(WithCriterion(key, WhereOperands(args).0, WhereOperands(args).1, "AND"))
    {
      var (operator, value) := WhereOperands(args);
      var _ := AddWhere(key, operator, value);
    }

    /** `orWhere($key, ...$args)`. */
    method OrWhere(key: Value, args: seq<Value>)
      requires Valid() && KeyPrefixable(key)
      modifies this`statements
      ensures Valid()
      ensures statements == old(WithCriterion(key, WhereOperands(args).0, WhereOperands(args).1, "OR"))
    {
      var (operator, value) := WhereOperands(args);
      var _ := AddWhere(key, operator, value, "OR");
    }

    /** `whereNot($key, ...$args)`. */
    method WhereNot(key: Value, args: seq<Value>)
      requires Valid() && KeyPrefixable(key)
      modifies this`statements
      ensures Valid()
      ensures statements == old(WithCriterion(key, WhereOperands(args).0, WhereOperands(args).1, "AND NOT"))
    {
      var (operator, value) := WhereOperands(args);
      var _ := AddWhere(key, operator, value, "AND NOT");
    }

    /** `orWhereNot($key, ...$args)`. */
    method OrWhereNot(key: Value, args: seq<Value>)
      requires Valid() && KeyPrefixable(key)
      modifies this`statements
      ensures Valid()
      ensures statements == old(WithCriterion(key, WhereOperands(args).0, WhereOperands(args).1, "OR NOT"))
    {
      var (operator, value) := WhereOperands(args);
      var _ := AddWhere(key, operator, value, "OR NOT");
    }

    method WhereIn(key: Value, values: seq<Entry>)
      requires Valid() && KeyPrefixable(key)
      modifies this`statements
      ensures Valid()
      ensures statements == old(WithCriterion(key, Str("IN"), Arr(values), "AND"))
    {
      var _ := AddWhere(key, Str("IN"), Arr(values), "AND");
    }

    method WhereNotIn(key: Value, values: seq<Entry>)
      requires Valid() && KeyPrefixable(key)
      modifies this`statements
      ensures Valid()
      ensures statements == old(WithCriterion(key, Str("NOT IN"), Arr(values), "AND"))
    {
      var _ := AddWhere(key, Str("NOT IN"), Arr(values), "AND");
    }

    method OrWhereIn(key: Value, values: seq<Entry>)
      requires Valid() && KeyPrefixable(key)
      modifies this`statements
      ensures Valid()
      ensures statements == old(WithCriterion(key, Str("IN"), Arr(values), "OR"))
    {
      var _ := AddWhere(key, Str("IN"), Arr(values), "OR");
    }

    method OrWhereNotIn(key: Value, values: seq<Entry>)
      requires Valid() && KeyPrefixable(key)
      modifies this`statements
      ensures Valid()
      ensures statements == old(WithCriterion(key, Str("NOT IN"), Arr(values), "OR"))
    {
      var _ := AddWhere(key, Str("NOT IN"), Arr(values), "OR");
    }

    method WhereBetween(key: Value, valueFrom: Value, valueTo: Value)
      requires Valid() && KeyPrefixable(key)
      modifies this`statements
      ensures Valid()
      ensures statements == old(WithCriterion(key, Str("BETWEEN"), Arr(List([valueFrom, valueTo])), "AND"))
    {
      var _ := AddWhere(key, Str("BETWEEN"), Arr(List([valueFrom, valueTo])), "AND");
    }

    method OrWhereBetween(key: Value, valueFrom: Value, valueTo: Value)
      requires Valid() && KeyPrefixable(key)
      modifies this`statements
      ensures Valid()
      ensures statements == old(WithCriterion(key, Str("BETWEEN"), Arr(List([valueFrom, valueTo])), "OR"))
    {
      var _ := AddWhere(key, Str("BETWEEN"), Arr(List([valueFrom, valueTo])), "OR");
    }

    /**
     * `raw($value, $bindings)`: a Raw expression built through the container.
     * The container caches by class name, so only the first call builds one;
     * every later call returns that first expression and its arguments are lost.
     */
    method Raw(value: Value, bindings: seq<Entry>) returns (raw: Value)
      requires Valid()
      modifies container
      ensures Valid()
      ensures IsRawValue(raw) && container.Has(RawClass) && raw == container.singletons[RawClass]
      ensures old(container.Has(RawClass)) ==>
        raw == old(container.singletons[RawClass]) && container.singletons == old(container.singletons)
      ensures !old(container.Has(RawClass)) ==>
        fresh(raw.obj) && raw.obj.args == [value, Arr(bindings)] &&
        container.singletons == old(container.singletons)[RawClass := raw]
    {
      raw := container.Build(RawClass, [value, Arr(bindings)]);
    }

    /** The text of `_whereNull`'s Raw: `<quoted, prefixed key> IS [NOT] NULL`. */
    function NullCheck(key: Value, not: string): string
      requires KeyPrefixable(key)
    {
      connection.wrapSanitizer(AddTablePrefix(tablePrefix, key)) + " IS " + not + " NULL"
    }

    /**
     * `_whereNull($key, $prefix, $operator)`: a Raw `<quoted key> IS [NOT] NULL`
     * handed to `where` (or `orWhere`) as its only argument, so the criterion
     * has a null operator and a null value. The Raw is the container's cached
     * one, which carries this call's text only when it is the first Raw built.
     */
    method WhereNullBase(key: Value, not: string, orJoin: bool)
      requires Valid() && KeyPrefixable(key)
      modifies this`statements, container
      ensures Valid()
      ensures container.Built(old(container.singletons), RawClass, [Str(NullCheck(key, not)), Arr([])])
      ensures !old(container.Has(RawClass)) ==> fresh(container.singletons[RawClass].obj)
      ensures statements == Appended(old(statements), WhereClause(),
        Criterion(container.singletons[RawClass], Null, Null, Str(if orJoin then "OR" else "AND")))
    {
      var raw := Raw(Str(NullCheck(key, not)), []);
      if orJoin {
        OrWhere(raw, []);
      } else {
        Where(raw, []);
      }
    }

    method WhereNull(key: Value)
      requires Valid() && KeyPrefixable(key)
      modifies this`statements, container
      ensures Valid()
      ensures container.Built(old(container.singletons), RawClass, [Str(NullCheck(key, "")), Arr([])])
      ensures !old(container.Has(RawClass)) ==> fresh(container.singletons[RawClass].obj)
      ensures statements == Appended(old(statements), WhereClause(), Criterion(container.singletons[RawClass], Null, Null, Str("AND")))
    {
      WhereNullBase(key, "", false);
    }

    method WhereNotNull(key: Value)
      requires Valid() && KeyPrefixable(key)
      modifies this`statements, container
      ensures Valid()
      ensures container.Built(old(container.singletons), RawClass, [Str(NullCheck(key, "NOT")), Arr([])])
      ensures !old(container.Has(RawClass)) ==> fresh(container.singletons[RawClass].obj)
      ensures statements == Appended(old(statements), WhereClause(), Criterion(container.singletons[RawClass], Null, Null, Str("AND")))
    {
      WhereNullBase(key, "NOT", false);
    }

    method OrWhereNull(key: Value)
      requires Valid() && KeyPrefixable(key)
      modifies this`statements, container
      ensures Valid()
      ensures container.Built(old(container.singletons), RawClass, [Str(NullCheck(key, "")), Arr([])])
      ensures !old(container.Has(RawClass)) ==> fresh(container.singletons[RawClass].obj)
      ensures statements == Appended(old(statements), WhereClause(), Criterion(container.singletons[RawClass], Null, Null, Str("OR")))
    {
      WhereNullBase(key, "", true);
    }

    method OrWhereNotNull(key: Value)
      requires Valid() && KeyPrefixable(key)
      modifies this`statements, container
      ensures Valid()
      ensures container.Built(old(container.singletons), RawClass, [Str(NullCheck(key, "NOT")), Arr([])])
      ensures !old(container.Has(RawClass)) ==> fresh(container.singletons[RawClass].obj)
      ensures statements == Appended(old(statements), WhereClause(), Criterion(container.singletons[RawClass], Null, Null, Str("OR")))
    {
      WhereNullBase(key, "NOT", true);
    }

    /** `having($key, $operator, $value, $joiner)`: one criterion appended to `havings`. */
    method Having(key: Value, operator: Value, value: Value, joiner: string := "AND")
      requires Valid() && KeyPrefixable(key)
      modifies this`statements
      ensures Valid()
      ensures statements == Appended(old(statements), "havings", Criterion(AddTablePrefix(tablePrefix, key), operator, value, Str(joiner)))
    {
      var k := AddTablePrefix(tablePrefix, key);
      statements := Appended(statements, "havings", Criterion(k, operator, value, Str(joiner)));
    }

    method OrHaving(key: Value, operator: Value, value: Value)
      requires Valid() && KeyPrefixable(key)
      modifies this`statements
      ensures Valid()
      ensures statements == Appended(old(statements), "havings", Criterion(AddTablePrefix(tablePrefix, key), operator, value, Str("OR")))
    {
      Having(key, operator, value, "OR");
    }

    /**
     * `orderBy($fields, $defaultDirection)`: one ordering spec appended to
     * `orderBys` per element of the fields, in order.
     */
    method OrderBy(fields: Value, defaultDirection: Value := Str("ASC"))
      requires Valid() && OrderFieldsPrefixable(tablePrefix, fields)
      modifies this`statements
      ensures Valid()
      ensures statements ==
        AppendedAll(old(statements), "orderBys", OrderSpecs(tablePrefix, fields, defaultDirection))
    {
      var specs := OrderLoop(tablePrefix, fields, defaultDirection);
      statements := AppendedAll(statements, "orderBys", specs);
    }

    /** `limit($limit)`: the clause is assigned, replacing any earlier limit. */
    method Limit(limit: Value)
      requires Valid()
      modifies this`statements
      ensures Valid()
      ensures statements == old(statements)["limit" := limit]
    {
      statements := statements["limit" := limit];
    }

    /** `offset($offset)`: the clause is assigned, replacing any earlier offset. */
    method Offset(offset: Value)
      requires Valid()
      modifies this`statements
      ensures Valid()
      ensures statements == old(statements)["offset" := offset]
    {
      statements := statements["offset" := offset];
    }

    /** `select($fields, ...)`: the prefixed fields merged into `selects`. */
    method Select(args: seq<Value>)
      requires |args| >= 1
      requires Valid() && KeyPrefixable(SelectFields(args))
      modifies this`statements
      ensures Valid()
      ensures statements == StatementAdded(old(statements), "selects", AddTablePrefix(tablePrefix, SelectFields(args)))
    {
      var fields := args[0];
      if !fields.Arr? {
        fields := Arr(List(args));
      }
      fields := AddTablePrefix(tablePrefix, fields);
      AddStatement("selects", fields);
    }

    /** `selectDistinct($fields)`: a select, then `true` added to `distinct` (appended, not assigned). */
    method SelectDistinct(fields: Value)
      requires Valid() && KeyPrefixable(SelectFields([fields]))
      modifies this`statements
      ensures Valid()
      ensures statements == StatementAdded(
        StatementAdded(old(statements), "selects", AddTablePrefix(tablePrefix, SelectFields([fields]))),
        "distinct", Bool(true))
    {
      Select([fields]);
      AddStatement("distinct", Bool(true));
    }

    method GroupBy(field: Value)
      requires Valid() && KeyPrefixable(field)
      modifies this`statements
      ensures Valid()
      ensures statements == StatementAdded(old(statements), "groupBys", AddTablePrefix(tablePrefix, field))
    {
      var f := AddTablePrefix(tablePrefix, field);
      AddStatement("groupBys", f);
    }

    /** `from($tables)`: tables prefixed unconditionally and added (appended) to `tables`. */
    method From(tables: Value)
      requires Valid() && KeyPrefixable(tables)
      modifies this`statements
      ensures Valid()
      ensures statements == StatementAdded(old(statements), "tables", AddTablePrefix(tablePrefix, tables, false))
    {
      var t := AddTablePrefix(tablePrefix, tables, false);
      AddStatement("tables", t);
    }

    method OnDuplicateKeyUpdate(data: Value)
      requires Valid()
      modifies this`statements
      ensures Valid()
      ensures statements == StatementAdded(old(statements), "onduplicate", data)
    {
      AddStatement("onduplicate", data);
    }

    /**
     * `table($tables)`: a new builder of the same kind on the same connection,
     * out of raw mode, whose only clause is the unconditionally prefixed
     * tables. The caller's statements are not touched.
     */
    method Table(tables: Value) returns (child: QueryBuilderHandler)
      requires Valid() && KeyPrefixable(tables)
      modifies container
      ensures Valid()
      ensures fresh(child) && child.Valid()
      ensures child.connection == connection && child.nestedCriteria == nestedCriteria && !child.isRaw
      ensures child.statements == map["tables" := Arr(ToArray(AddTablePrefix(tablePrefix, tables, false)))]
      ensures statements == old(statements) && isRaw == old(isRaw)
      ensures container.singletons == old(container.singletons)
      ensures child.adapterInstance == adapterInstance
    {
      child := new QueryBuilderHandler(connection, nestedCriteria);
      child.SetIsRaw(false);
      var t := AddTablePrefix(tablePrefix, tables, false);
      child.AddStatement("tables", t);
    }

    /**
     * `join($table, $key, $operator, $value, $type)`: the join builder comes
     * from the container, so every join of a connection shares the first one
     * built. The callback (or the `on` call made from key, operator and value)
     * runs against it; what it does to the join builder is not modelled.
     */
    method Join(table: Value, key: Value, operator: Value, value: Value, joinType: Value := Str("inner"))
      requires Valid() && KeyPrefixable(table)
      modifies this`statements, container
      ensures Valid()
      ensures container.Built(old(container.singletons), JoinBuilderClass, [Handle(connection.handle)])
      ensures !old(container.Has(JoinBuilderClass)) ==> fresh(container.singletons[JoinBuilderClass].obj)
      ensures statements == Appended(old(statements), "joins",
        JoinSpec(joinType, AddTablePrefix(tablePrefix, table, false), container.singletons[JoinBuilderClass]))
    {
      var joinBuilder := container.Build(JoinBuilderClass, [Handle(connection.handle)]);
      var t := AddTablePrefix(tablePrefix, table, false);
      statements := Appended(statements, "joins", JoinSpec(joinType, t, joinBuilder));
    }

    method LeftJoin(table: Value, key: Value, operator: Value, value: Value)
      requires Valid() && KeyPrefixable(table)
      modifies this`statements, container
      ensures Valid()
      ensures container.Built(old(container.singletons), JoinBuilderClass, [Handle(connection.handle)])
      ensures !old(container.Has(JoinBuilderClass)) ==> fresh(container.singletons[JoinBuilderClass].obj)
      ensures statements == Appended(old(statements), "joins",
        JoinSpec(Str("left"), AddTablePrefix(tablePrefix, table, false), container.singletons[JoinBuilderClass]))
    {
      Join(table, key, operator, value, Str("left"));
    }

    method RightJoin(table: Value, key: Value, operator: Value, value: Value)
      requires Valid() && KeyPrefixable(table)
      modifies this`statements, container
      ensures Valid()
      ensures container.Built(old(container.singletons), JoinBuilderClass, [Handle(connection.handle)])
      ensures !old(container.Has(JoinBuilderClass)) ==> fresh(container.singletons[JoinBuilderClass].obj)
      ensures statements == Appended(old(statements), "joins",
        JoinSpec(Str("right"), AddTablePrefix(tablePrefix, table, false), container.singletons[JoinBuilderClass]))
    {
      Join(table, key, operator, value, Str("right"));
    }

    method InnerJoin(table: Value, key: Value, operator: Value, value: Value)
      requires Valid() && KeyPrefixable(table)
      modifies this`statements, container
      ensures Valid()
      ensures container.Built(old(container.singletons), JoinBuilderClass, [Handle(connection.handle)])
      ensures !old(container.Has(JoinBuilderClass)) ==> fresh(container.singletons[JoinBuilderClass].obj)
      ensures statements == Appended(old(statements), "joins",
        JoinSpec(Str("inner"), AddTablePrefix(tablePrefix, table, false), container.singletons[JoinBuilderClass]))
    {
      Join(table, key, operator, value, Str("inner"));
    }

    /** `first()`: sets `limit` to 1, which stays in the statements, and returns the first row. */
    method First(fetched: Fetch) returns (row: Value)
      requires Valid()
      modifies this`statements
      ensures Valid()
      ensures statements == old(statements)["limit" := Int(1)]
      ensures row == FirstRow(fetched)
    {
      Limit(Int(1));
      // get(): the adapter compiles the statements; the driver answers `fetched`
      row := FirstRow(fetched);
    }

    /** `findAll($fieldName, $value)`: an equality criterion on the field, then every row. */
    method FindAll(fieldName: Value, value: Value, fetched: Fetch) returns (result: Value)
      requires Valid() && KeyPrefixable(fieldName)
      modifies this`statements
      ensures Valid()
      ensures statements == old(WithCriterion(fieldName, Str("="), value, "AND"))
      ensures result == GetResult(fetched)
    {
      Where(fieldName, [Str("="), value]);
      // get(): the adapter compiles the statements; the driver answers `fetched`
      result := GetResult(fetched);
    }

    /** `find($value, $fieldName)`: an equality criterion on the field, then the first row. */
    method Find(value: Value, fetched: Fetch, fieldName: Value := Str("id")) returns (row: Value)
      requires Valid() && KeyPrefixable(fieldName)
      modifies this`statements
      ensures Valid()
      ensures statements == old(WithCriterion(fieldName, Str("="), value, "AND"))["limit" := Int(1)]
      ensures row == FirstRow(fetched)
    {
      Where(fieldName, [Str("="), value]);
      row := First(fetched);
    }

    /**
     * `aggregate($type)`: selects replaced by the single Raw `<type>(*) as
     * field` for the query (`queried` is what the compiler is given), then
     * restored when they were a non-empty array and removed otherwise.
     */
    method Aggregate(aggregateType: string, fetched: Fetch) returns (n: int, queried: map<string, Value>)
      requires Valid()
      modifies this`statements, container
      ensures Valid()
      ensures n == AggregateResult(fetched)
      ensures container.Built(old(container.singletons), RawClass, [Str(aggregateType + "(*) as field"), Arr([])])
      ensures !old(container.Has(RawClass)) ==> fresh(container.singletons[RawClass].obj)
      ensures queried == old(statements)["selects" := Arr([Entry(IntKey(0), container.singletons[RawClass])])]
      ensures statements ==
        if "selects" in old(statements) && Truthy(old(statements)["selects"]) then old(statements)
        else old(statements) - {"selects"}
    {
      var mainSelects := if "selects" in statements then statements["selects"] else Null;
      var raw := Raw(Str(aggregateType + "(*) as field"), []);
      statements := statements["selects" := Arr([Entry(IntKey(0), raw)])];
      queried := statements;
      // get(): the adapter compiles `queried`; the driver answers `fetched`
      if Truthy(mainSelects) {
        statements := statements["selects" := mainSelects];
      } else {
        statements := statements - {"selects"};
      }
      n := AggregateResult(fetched);
    }

    /**
     * `count()`: the query runs without `orderBys`, `limit` and `offset` and
     * with the count select, and afterwards the statements are exactly as
     * they were before the call.
     */
    method Count(fetched: Fetch) returns (n: int, queried: map<string, Value>)
      requires Valid()
      modifies this`statements, container
      ensures Valid()
      ensures statements == old(statements)
      ensures n == AggregateResult(fetched)
      ensures container.Built(old(container.singletons), RawClass, [Str("count(*) as field"), Arr([])])
      ensures !old(container.Has(RawClass)) ==> fresh(container.singletons[RawClass].obj)
      ensures queried == (old(statements) - {"orderBys", "limit", "offset"})["selects" := Arr([Entry(IntKey(0), container.singletons[RawClass])])]
    {
      var originalStatements := statements;
      statements := statements - {"orderBys", "limit", "offset"};
      assert "count" + "(*) as field" == "count(*) as field";
      n, queried := Aggregate("count", fetched);
      statements := originalStatements;
    }

    /**
     * `doInsert($type, $data)` with the compiler and driver abstracted: in raw
     * mode, or when the data's first element is not an array, one statement
     * runs; otherwise one statement runs per row. `outcomes` are the driver's
     * answers in execution order.
     */
    method DoInsert(operation: string, data: Value, outcomes: seq<ExecOutcome>) returns (ret: Value, events: seq<Event>)
      requires isRaw || data.Arr?
      requires |outcomes| == InsertExecutions(isRaw, data)
      ensures !isRaw && IsBatch(data) ==>
        && ret == Arr(List(CollectedIds(outcomes)))
        && |CollectedIds(outcomes)| <= |data.entries|
        && |events| == |data.entries|
        && events == RowEvents(operation, outcomes)
      ensures (isRaw || !IsBatch(data)) ==>
        ret == SingleInsertResult(operation, outcomes[0]).0 && events == [SingleInsertResult(operation, outcomes[0]).1]
    {
      if isRaw || !IsBatch(data) {
        var (r, e) := SingleInsertResult(operation, outcomes[0]);
        ret, events := r, [e];
      } else {
        var ids;
        ids, events := InsertRows(operation, Vals(data.entries), outcomes);
        ret := Arr(List(ids));
      }
    }

    method Insert(data: Value, outcomes: seq<ExecOutcome>) returns (ret: Value, events: seq<Event>)
      requires isRaw || data.Arr?
      requires |outcomes| == InsertExecutions(isRaw, data)
      ensures !isRaw && IsBatch(data) ==>
        ret == Arr(List(CollectedIds(outcomes))) && |events| == |data.entries| && events == RowEvents("insert", outcomes)
      ensures (isRaw || !IsBatch(data)) ==>
        ret == SingleInsertResult("insert", outcomes[0]).0 && events == [SingleInsertResult("insert", outcomes[0]).1]
    {
      ret, events := DoInsert("insert", data, outcomes);
    }

    method InsertIgnore(data: Value, outcomes: seq<ExecOutcome>) returns (ret: Value, events: seq<Event>)
      requires isRaw || data.Arr?
      requires |outcomes| == InsertExecutions(isRaw, data)
      ensures !isRaw && IsBatch(data) ==>
        ret == Arr(List(CollectedIds(outcomes))) && |events| == |data.entries| && events == RowEvents("insertignore", outcomes)
      ensures (isRaw || !IsBatch(data)) ==>
        ret == SingleInsertResult("insertignore", outcomes[0]).0 && events == [SingleInsertResult("insertignore", outcomes[0]).1]
    {
      ret, events := DoInsert("insertignore", data, outcomes);
    }

    method Replace(data: Value, outcomes: seq<ExecOutcome>) returns (ret: Value, events: seq<Event>)
      requires isRaw || data.Arr?
      requires |outcomes| == InsertExecutions(isRaw, data)
      ensures !isRaw && IsBatch(data) ==>
        ret == Arr(List(CollectedIds(outcomes))) && |events| == |data.entries| && events == RowEvents("replace", outcomes)
      ensures (isRaw || !IsBatch(data)) ==>
        ret == SingleInsertResult("replace", outcomes[0]).0 && events == [SingleInsertResult("replace", outcomes[0]).1]
    {
      ret, events := DoInsert("replace", data, outcomes);
    }
  }

  /**
   * Two `whereNull` calls on different columns append criteria whose keys
   * are the same Raw object: the second column never reaches the query.
   */
  method WhereNullTwice(b: QueryBuilderHandler, first: Value, second: Value)
    requires b.Valid() && b.KeyPrefixable(first) && b.KeyPrefixable(second)
    modifies b`statements, b.container
    ensures b.Valid()
    ensures var c := Vals(Clause(b.statements, b.WhereClause()));
      |c| >= 2 && c[|c| - 2] == c[|c| - 1]
  {
    b.WhereNull(first);
    b.WhereNull(second);
  }
}
