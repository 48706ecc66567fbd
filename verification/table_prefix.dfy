/**
 * `addTablePrefix`: puts the connection's table prefix in front of table and
 * column names. Raw expressions and closures pass through; for an alias
 * mapping (a string key) the key is prefixed and the value is kept;
 * otherwise the name is prefixed when field/table mixing is off or the name
 * contains a dot. A single value comes back as a single value, an array as
 * an array.
 */
module TablePrefix {
  import opened PhpValues

  /** The class name under which `raw()` builds its expressions. */
  const RawClass: string := "\\Vega\\Database\\QueryBuilder\\Raw"

  /** `$v instanceof Raw`. */
  predicate IsRawValue(v: Value)
  {
    v.Ref? && v.obj.cls == RawClass
  }

  /** Raw expressions and closures are never prefixed. */
  predicate PassesThrough(v: Value)
  {
    IsRawValue(v) || v.Closure?
  }

  /**
   * The entry names something that can be prefixed: it passes through, or
   * its prefix target (the key for a string key, the value otherwise) is a
   * string.
   */
  predicate HasTarget(e: Entry)
  {
    PassesThrough(e.value) || e.key.StrKey? || e.value.Str?
  }

  /** What `addTablePrefix` accepts: every name it may prefix is a string. */
  predicate Prefixable(v: Value)
  {
    if v.Arr? then forall i :: 0 <= i < |v.entries| ==> HasTarget(v.entries[i])
    else HasTarget(Entry(IntKey(0), v))
  }

  /** The dot rule: prefix when mixing is off or the name is table-qualified. */
  function Prefixed(prefix: string, target: string, tableFieldMix: bool): (r: string)
    ensures r == target || r == prefix + target
    ensures (!tableFieldMix || '.' in target) ==> r == prefix + target
    ensures (tableFieldMix && '.' !in target) ==> r == target
  {
    if !tableFieldMix || '.' in target then prefix + target else target
  }

  /** One entry of the loop: what it contributes to the result, as `$return[$key] = $value`. */
  function PrefixEntry(prefix: string, e: Entry, tableFieldMix: bool): (r: Entry)
    requires HasTarget(e)
    ensures PassesThrough(e.value) ==> r == e
    ensures !PassesThrough(e.value) && e.key.StrKey? ==>
      r.value == e.value && r.key == StrKey(Prefixed(prefix, e.key.s, tableFieldMix))
    ensures !PassesThrough(e.value) && e.key.IntKey? ==>
      r.key == e.key && r.value == Str(Prefixed(prefix, e.value.s, tableFieldMix))
  {
    if PassesThrough(e.value) then e
    else match e.key
      case StrKey(k) => Entry(StrKey(Prefixed(prefix, k, tableFieldMix)), e.value)
      case IntKey(_) => Entry(e.key, Str(Prefixed(prefix, e.value.s, tableFieldMix)))
  }

  /** The foreach loop of `addTablePrefix`, building `$return` entry by entry. */
  function Rebuild(prefix: string, es: seq<Entry>, tableFieldMix: bool): (r: seq<Entry>)
    requires forall i :: 0 <= i < |es| ==> HasTarget(es[i])
    ensures |r| <= |es| && (es != [] ==> r != [])
  {
    if es == [] then []
    else
      var e := PrefixEntry(prefix, es[|es| - 1], tableFieldMix);
      Set(Rebuild(prefix, es[..|es| - 1], tableFieldMix), e.key, e.value)
  }

  /** `addTablePrefix($values, $tableFieldMix)` for a table prefix that may be absent. */
  function AddTablePrefix(tablePrefix: Option<string>, values: Value, tableFieldMix: bool := true): (r: Value)
    requires tablePrefix.None? || Prefixable(values)
    ensures tablePrefix.None? ==> r == values
    ensures PassesThrough(values) ==> r == values
    ensures tablePrefix.Some? ==> (r.Arr? <==> values.Arr?)
    ensures tablePrefix.Some? && values.Str? ==> r == Str(Prefixed(tablePrefix.value, values.s, tableFieldMix))
  {
    if tablePrefix.None? then values
    else if values.Arr? then Arr(Rebuild(tablePrefix.value, values.entries, tableFieldMix))
    else
      // a single value is wrapped, prefixed, and the last entry's value returned
      var r := Rebuild(tablePrefix.value, [Entry(IntKey(0), values)], tableFieldMix);
      r[|r| - 1].value
  }

  /** The reference reading of the loop: each entry transformed on its own, in place. */
  function Mapped(prefix: string, es: seq<Entry>, tableFieldMix: bool): (r: seq<Entry>)
    requires forall i :: 0 <= i < |es| ==> HasTarget(es[i])
    ensures |r| == |es|
    ensures forall i :: 0 <= i < |es| ==> r[i] == PrefixEntry(prefix, es[i], tableFieldMix)
  {
    seq(|es|, i requires 0 <= i < |es| => PrefixEntry(prefix, es[i], tableFieldMix))
  }

  lemma {:induction false} RebuildWithoutCollisions(prefix: string, es: seq<Entry>, tableFieldMix: bool)
    requires forall i :: 0 <= i < |es| ==> HasTarget(es[i])
    requires DistinctKeys(Mapped(prefix, es, tableFieldMix))
    ensures Rebuild(prefix, es, tableFieldMix) == Mapped(prefix, es, tableFieldMix)
  {
    if es != [] {
      var init := es[..|es| - 1];
      var m := Mapped(prefix, es, tableFieldMix);
      assert Mapped(prefix, init, tableFieldMix) == m[..|es| - 1];
      SetLastDistinct(m);
      RebuildWithoutCollisions(prefix, init, tableFieldMix);
    }
  }

  /** Prefixing names is one-to-one under the dot rule, so distinct names stay distinct. */
  lemma {:induction false} PrefixedInjective(prefix: string, s: string, t: string, tableFieldMix: bool)
    requires Prefixed(prefix, s, tableFieldMix) == Prefixed(prefix, t, tableFieldMix)
    ensures s == t
  {
    var ps, pt := Prefixed(prefix, s, tableFieldMix), Prefixed(prefix, t, tableFieldMix);
    var sPrefixed, tPrefixed := !tableFieldMix || '.' in s, !tableFieldMix || '.' in t;
    if sPrefixed && tPrefixed {
      assert s == ps[|prefix|..] && t == pt[|prefix|..];
    } else if sPrefixed != tPrefixed {
      // exactly one of them was prefixed and holds a dot; then so does the other
      assert false;
    }
  }

  /**
   * When the input's keys are distinct and every string key is an alias whose
   * value is prefixable (no raw expression or closure under a string key),
   * prefixing cannot make two keys equal.
   */
  lemma {:induction false} MappedKeysDistinct(prefix: string, es: seq<Entry>, tableFieldMix: bool)
    requires forall i :: 0 <= i < |es| ==> HasTarget(es[i])
    requires DistinctKeys(es)
    requires forall i :: 0 <= i < |es| && es[i].key.StrKey? ==> !PassesThrough(es[i].value)
    ensures DistinctKeys(Mapped(prefix, es, tableFieldMix))
  {
    var m := Mapped(prefix, es, tableFieldMix);
    forall i, j | 0 <= i < j < |m|
      ensures m[i].key != m[j].key
    {
      if es[i].key.StrKey? && es[j].key.StrKey? && m[i].key == m[j].key {
        PrefixedInjective(prefix, es[i].key.s, es[j].key.s, tableFieldMix);
      }
    }
  }

  /**
   * On an array whose keys cannot collide after prefixing, `addTablePrefix`
   * returns an array with the same number of entries, in the same order, each
   * entry transformed by the per-entry rule.
   */
  lemma {:induction false} AddTablePrefixArray(prefix: string, values: Value, tableFieldMix: bool)
    requires values.Arr? && Prefixable(values)
    requires DistinctKeys(values.entries)
    requires forall i :: 0 <= i < |values.entries| && values.entries[i].key.StrKey? ==> !PassesThrough(values.entries[i].value)
    ensures AddTablePrefix(Some(prefix), values, tableFieldMix) == Arr(Mapped(prefix, values.entries, tableFieldMix))
    ensures |AddTablePrefix(Some(prefix), values, tableFieldMix).entries| == |values.entries|
  {
    MappedKeysDistinct(prefix, values.entries, tableFieldMix);
    RebuildWithoutCollisions(prefix, values.entries, tableFieldMix);
  }

  /**
   * A raw expression stored under a string key can be overwritten by an alias
   * that prefixing maps onto the same key: the result is then shorter than
   * the input.
   */
  lemma {:induction false} AliasCollisionShortens(raw: Value)
    requires IsRawValue(raw)
    ensures var values := Arr([Entry(StrKey("p_a.b"), raw), Entry(StrKey("a.b"), Str("x"))]);
      |AddTablePrefix(Some("p_"), values).entries| == 1
  {
    var es := [Entry(StrKey("p_a.b"), raw), Entry(StrKey("a.b"), Str("x"))];
    assert '.' in "a.b" by { assert "a.b"[1] == '.'; }
    assert "p_" + "a.b" == "p_a.b";
    assert es[..1] == [es[0]];
    assert Rebuild("p_", es[..1], true) == [es[0]];
  }
}
