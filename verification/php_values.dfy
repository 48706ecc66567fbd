/**
 * The PHP values the query builder handles: scalars, ordered arrays (maps
 * from integer or string keys that remember insertion order), closures, and
 * objects. Objects made through the container are `Instance`s, so that two
 * builds can be told apart by identity; other foreign objects (the
 * connection, a PDO handle) are opaque `Handle`s.
 */
module PhpValues {

  datatype Option<T> = None | Some(value: T)

  /** A PHP array key. String keys are the non-numeric ones (PHP turns "5" into 5). */
  datatype Key = IntKey(i: int) | StrKey(s: string)

  datatype Value =
    | Null
    | Bool(b: bool)
    | Int(i: int)
    | Str(s: string)
    | Arr(entries: seq<Entry>)
    | Closure(id: nat)
    | Handle(id: nat)
    | Ref(obj: Instance)

  datatype Entry = Entry(key: Key, value: Value)

  /** An object built by reflection: the class it was built from and the constructor arguments. */
  class Instance {
    const cls: string
    const args: seq<Value>

    constructor (cls: string, args: seq<Value>)
      ensures this.cls == cls && this.args == args
    {
      this.cls := cls;
      this.args := args;
    }
  }

  /** The values of an array, in order. */
  function Vals(a: seq<Entry>): seq<Value>
  {
    seq(|a|, i requires 0 <= i < |a| => a[i].value)
  }

  /** The array literal `[v0, v1, ...]`: keys 0, 1, ... */
  function List(vs: seq<Value>): seq<Entry>
  {
    seq(|vs|, i requires 0 <= i < |vs| => Entry(IntKey(i), vs[i]))
  }

  predicate IsList(a: seq<Entry>)
  {
    forall i :: 0 <= i < |a| ==> a[i].key == IntKey(i)
  }

  predicate AllIntKeys(a: seq<Entry>)
  {
    forall i :: 0 <= i < |a| ==> a[i].key.IntKey?
  }

  predicate DistinctKeys(a: seq<Entry>)
  {
    forall i, j :: 0 <= i < j < |a| ==> a[i].key != a[j].key
  }

  /** `array($v)` applied when `$v` is not already an array. */
  function ToArray(v: Value): (a: seq<Entry>)
    ensures !v.Arr? ==> |a| == 1 && a[0] == Entry(IntKey(0), v)
    ensures v.Arr? ==> a == v.entries
  {
    if v.Arr? then v.entries else [Entry(IntKey(0), v)]
  }

  /** `$a[$k]`, or None when the key is absent. */
  function Lookup(a: seq<Entry>, k: Key): Option<Value>
  {
    if a == [] then None
    else if a[0].key == k then Some(a[0].value)
    else Lookup(a[1..], k)
  }

  /** `$a[$k] = $v`: replaces the value in place when the key exists, appends otherwise. */
  function Set(a: seq<Entry>, k: Key, v: Value): (r: seq<Entry>)
    ensures Lookup(r, k) == Some(v)
    ensures forall k' :: k' != k ==> Lookup(r, k') == Lookup(a, k')
    ensures |r| == if Lookup(a, k).Some? then |a| else |a| + 1
  {
    if a == [] then [Entry(k, v)]
    else if a[0].key == k then [Entry(k, v)] + a[1..]
    else [a[0]] + Set(a[1..], k, v)
  }

  lemma {:induction false} SetAbsent(a: seq<Entry>, k: Key, v: Value)
    requires forall i :: 0 <= i < |a| ==> a[i].key != k
    ensures Set(a, k, v) == a + [Entry(k, v)]
  {
    if a != [] {
      SetAbsent(a[1..], k, v);
    }
  }

  /** Re-assigning the last entry of an array with distinct keys onto the rest rebuilds it. */
  lemma {:induction false} SetLastDistinct(a: seq<Entry>)
    requires a != [] && DistinctKeys(a)
    ensures DistinctKeys(a[..|a| - 1])
    ensures Set(a[..|a| - 1], a[|a| - 1].key, a[|a| - 1].value) == a
  {
    var n := |a| - 1;
    forall i | 0 <= i < n
      ensures a[..n][i].key != a[n].key
    {
      assert a[..n][i] == a[i];
    }
    SetAbsent(a[..n], a[n].key, a[n].value);
    assert a == a[..n] + [a[n]];
  }

  /**
   * The key `$a[] = $v` uses: one more than the largest integer key, or 0
   * when there is no integer key that is not negative.
   */
  function NextIndex(a: seq<Entry>): nat
  {
    if a == [] then 0
    else
      var n := NextIndex(a[..|a| - 1]);
      var last := a[|a| - 1].key;
      if last.IntKey? && last.i + 1 > n then last.i + 1 else n
  }

  /** `$a[] = $v`. */
  function Push(a: seq<Entry>, v: Value): (r: seq<Entry>)
    ensures Vals(r) == Vals(a) + [v]
  {
    a + [Entry(IntKey(NextIndex(a)), v)]
  }

  /** On a list, `$a[] = $v` uses the next position and keeps the array a list. */
  lemma {:induction false} PushOnList(a: seq<Entry>, v: Value)
    requires IsList(a)
    ensures NextIndex(a) == |a|
    ensures IsList(Push(a, v))
  {
    if a != [] {
      PushOnList(a[..|a| - 1], v);
    }
  }

  /** `$a[] = $v` for each of `vs` in turn. */
  function PushAll(a: seq<Entry>, vs: seq<Value>): (r: seq<Entry>)
    ensures Vals(r) == Vals(a) + vs
  {
    if vs == [] then a
    else
      var init := vs[..|vs| - 1];
      assert vs == init + [vs[|vs| - 1]];
      Push(PushAll(a, init), vs[|vs| - 1])
  }

  /** The values of the integer-keyed entries, in order. */
  function IntVals(a: seq<Entry>): seq<Value>
  {
    if a == [] then []
    else (if a[0].key.IntKey? then [a[0].value] else []) + IntVals(a[1..])
  }

  lemma {:induction false} IntValsAppend(a: seq<Entry>, b: seq<Entry>)
    ensures IntVals(a + b) == IntVals(a) + IntVals(b)
  {
    if a == [] {
      assert a + b == b;
    } else {
      var head := if a[0].key.IntKey? then [a[0].value] else [];
      assert (a + b)[0] == a[0] && (a + b)[1..] == a[1..] + b;
      assert IntVals(a + b) == head + IntVals(a[1..] + b);
      IntValsAppend(a[1..], b);
      assert IntVals(a) == head + IntVals(a[1..]);
    }
  }

  lemma {:induction false} IntValsSetString(a: seq<Entry>, s: string, v: Value)
    ensures IntVals(Set(a, StrKey(s), v)) == IntVals(a)
  {
    if a != [] && a[0].key != StrKey(s) {
      IntValsSetString(a[1..], s, v);
      assert Set(a, StrKey(s), v)[1..] == Set(a[1..], StrKey(s), v);
    }
  }

  /** One element of `array_merge`: integer keys are renumbered from 0, string keys are assigned. */
  function MergeStep(acc: seq<Entry>, e: Entry): seq<Entry>
  {
    if e.key.IntKey? then acc + [Entry(IntKey(|IntVals(acc)|), e.value)]
    else Set(acc, e.key, e.value)
  }

  function MergeInto(acc: seq<Entry>, es: seq<Entry>): seq<Entry>
    decreases |es|
  {
    if es == [] then acc else MergeInto(MergeStep(acc, es[0]), es[1..])
  }

  /** PHP's `array_merge($a, $b)`. */
  function ArrayMerge(a: seq<Entry>, b: seq<Entry>): seq<Entry>
  {
    MergeInto(MergeInto([], a), b)
  }

  lemma {:induction false} MergeStepIntVals(acc: seq<Entry>, e: Entry)
    ensures IntVals(MergeStep(acc, e)) == IntVals(acc) + (if e.key.IntKey? then [e.value] else [])
  {
    if e.key.IntKey? {
      var x := Entry(IntKey(|IntVals(acc)|), e.value);
      IntValsAppend(acc, [x]);
      assert [x][1..] == [];
    } else {
      IntValsSetString(acc, e.key.s, e.value);
    }
  }

  lemma {:induction false} MergeIntoIntVals(acc: seq<Entry>, es: seq<Entry>)
    ensures IntVals(MergeInto(acc, es)) == IntVals(acc) + IntVals(es)
    decreases |es|
  {
    if es != [] {
      var e := es[0];
      var acc' := MergeStep(acc, e);
      MergeStepIntVals(acc, e);
      MergeIntoIntVals(acc', es[1..]);
      assert MergeInto(acc, es) == MergeInto(acc', es[1..]);
      assert IntVals(es) == (if e.key.IntKey? then [e.value] else []) + IntVals(es[1..]);
    }
  }

  /**
   * `array_merge` keeps every integer-keyed value: those of the first array,
   * then those of the second, each in its own order.
   */
  lemma {:induction false} ArrayMergeIntVals(a: seq<Entry>, b: seq<Entry>)
    ensures IntVals(ArrayMerge(a, b)) == IntVals(a) + IntVals(b)
  {
    var first := MergeInto([], a);
    MergeIntoIntVals([], a);
    assert IntVals(first) == IntVals(a) by {
      assert IntVals([]) + IntVals(a) == IntVals(a);
    }
    MergeIntoIntVals(first, b);
  }

  lemma {:induction false} IntValsAllInt(a: seq<Entry>)
    requires AllIntKeys(a)
    ensures IntVals(a) == Vals(a)
  {
    if a != [] {
      IntValsAllInt(a[1..]);
      assert Vals(a) == [a[0].value] + Vals(a[1..]);
    }
  }

  /** Merging one integer-keyed entry into a list appends its value. */
  lemma {:induction false} MergeStepOnList(vs: seq<Value>, e: Entry)
    requires e.key.IntKey?
    ensures MergeStep(List(vs), e) == List(vs + [e.value])
  {
    IntValsAllInt(List(vs));
    assert Vals(List(vs)) == vs;
  }

  lemma {:induction false} MergeIntoList(vs: seq<Value>, es: seq<Entry>)
    requires AllIntKeys(es)
    ensures MergeInto(List(vs), es) == List(vs + Vals(es))
    decreases |es|
  {
    if es == [] {
      assert vs + Vals(es) == vs;
    } else {
      MergeStepOnList(vs, es[0]);
      MergeIntoList(vs + [es[0].value], es[1..]);
      assert Vals(es) == [es[0].value] + Vals(es[1..]);
      assert vs + [es[0].value] + Vals(es[1..]) == vs + Vals(es);
    }
  }

  /**
   * Merging two arrays whose keys are all integers gives the list of the
   * first array's values followed by the second's.
   */
  lemma {:induction false} ArrayMergeLists(a: seq<Entry>, b: seq<Entry>)
    requires AllIntKeys(a) && AllIntKeys(b)
    ensures ArrayMerge(a, b) == List(Vals(a) + Vals(b))
  {
    assert List([]) == [];
    MergeIntoList([], a);
    assert [] + Vals(a) == Vals(a);
    MergeIntoList(Vals(a), b);
  }

  /** The value the last entry with key `k` carries. */
  function LastLookup(es: seq<Entry>, k: Key): Option<Value>
  {
    if es == [] then None
    else
      var rest := LastLookup(es[1..], k);
      if rest.Some? then rest
      else if es[0].key == k then Some(es[0].value)
      else None
  }

  lemma {:induction false} LookupAppend(a: seq<Entry>, x: Entry, k: Key)
    ensures Lookup(a + [x], k) ==
      if Lookup(a, k).Some? then Lookup(a, k)
      else if x.key == k then Some(x.value)
      else None
  {
    if a != [] {
      assert (a + [x])[1..] == a[1..] + [x];
      LookupAppend(a[1..], x, k);
    }
  }

  lemma {:induction false} MergeIntoStringKey(acc: seq<Entry>, es: seq<Entry>, s: string)
    ensures Lookup(MergeInto(acc, es), StrKey(s)) ==
      if LastLookup(es, StrKey(s)).Some? then LastLookup(es, StrKey(s)) else Lookup(acc, StrKey(s))
    decreases |es|
  {
    if es != [] {
      var e := es[0];
      if e.key.IntKey? {
        LookupAppend(acc, Entry(IntKey(|IntVals(acc)|), e.value), StrKey(s));
      }
      MergeIntoStringKey(MergeStep(acc, e), es[1..], s);
    }
  }

  /**
   * Under `array_merge` a string key keeps the value the second array gives
   * it, and the first array's value when the second does not mention it.
   */
  lemma {:induction false} ArrayMergeStringKey(a: seq<Entry>, b: seq<Entry>, s: string)
    ensures Lookup(ArrayMerge(a, b), StrKey(s)) ==
      if LastLookup(b, StrKey(s)).Some? then LastLookup(b, StrKey(s)) else LastLookup(a, StrKey(s))
  {
    MergeIntoStringKey([], a, s);
    MergeIntoStringKey(MergeInto([], a), b, s);
  }

  /** PHP truthiness, as `if ($v)` tests it. */
  predicate Truthy(v: Value)
  {
    match v
    case Null => false
    case Bool(b) => b
    case Int(i) => i != 0
    case Str(s) => s != "" && s != "0"
    case Arr(es) => es != []
    case _ => true
  }

  predicate IsDigit(c: char)
  {
    '0' <= c <= '9'
  }

  predicate IsSpace(c: char)
  {
    c == ' ' || c == '\t' || c == '\n' || c == '\r' || c == '\U{000B}' || c == '\U{000C}'
  }

  /** The run of decimal digits at the front of `s`. */
  function LeadingDigits(s: string): (d: string)
    ensures |d| <= |s| && d == s[..|d|]
    ensures forall i :: 0 <= i < |d| ==> IsDigit(d[i])
  {
    if s != [] && IsDigit(s[0]) then [s[0]] + LeadingDigits(s[1..]) else []
  }

  function DigitsValue(d: string): nat
    requires forall i :: 0 <= i < |d| ==> IsDigit(d[i])
  {
    if d == [] then 0
    else
      var c := d[|d| - 1];
      assert IsDigit(c);
      10 * DigitsValue(d[..|d| - 1]) + (c as int - '0' as int)
  }

  function SkipSpace(s: string): string
  {
    if s != [] && IsSpace(s[0]) then SkipSpace(s[1..]) else s
  }

  /** `(int) $s` for a string: leading blanks, an optional sign, then decimal digits. */
  function LeadingInt(s: string): int
  {
    var t := SkipSpace(s);
    if t != [] && t[0] == '-' then -(DigitsValue(LeadingDigits(t[1..])) as int)
    else if t != [] && t[0] == '+' then DigitsValue(LeadingDigits(t[1..]))
    else DigitsValue(LeadingDigits(t))
  }

  /** The bounds of PHP's 64-bit integers. */
  const PhpIntMax: int := 0x7FFF_FFFF_FFFF_FFFF
  const PhpIntMin: int := -0x8000_0000_0000_0000

  /** A number read from text is clamped to the integer range. */
  function Saturate(i: int): (r: int)
    ensures PhpIntMin <= r <= PhpIntMax
    ensures PhpIntMin <= i <= PhpIntMax ==> r == i
    ensures i > PhpIntMax ==> r == PhpIntMax
    ensures i < PhpIntMin ==> r == PhpIntMin
  {
    if i > PhpIntMax then PhpIntMax else if i < PhpIntMin then PhpIntMin else i
  }

  /** `(int) $v`; text out of range saturates at the nearer bound. */
  function ToInt(v: Value): int
  {
    match v
    case Null => 0
    case Bool(b) => if b then 1 else 0
    case Int(i) => i
    case Str(s) => Saturate(LeadingInt(s))
    case Arr(es) => if es == [] then 0 else 1
    case _ => 1
  }

  /** The decimal text of a natural number, as a database driver reports a count. */
  function Decimal(n: nat): (d: string)
    ensures |d| > 0 && forall i :: 0 <= i < |d| ==> IsDigit(d[i])
  {
    if n < 10 then ['0' + n as char] else Decimal(n / 10) + ['0' + (n % 10) as char]
  }

  lemma {:induction false} DigitsValueDecimal(n: nat)
    ensures DigitsValue(Decimal(n)) == n
  {
    if n >= 10 {
      DigitsValueDecimal(n / 10);
      var d := Decimal(n);
      assert d[..|d| - 1] == Decimal(n / 10);
    }
  }

  lemma {:induction false} LeadingDigitsAll(d: string)
    requires forall i :: 0 <= i < |d| ==> IsDigit(d[i])
    ensures LeadingDigits(d) == d
  {
    if d != [] {
      LeadingDigitsAll(d[1..]);
    }
  }

  /**
   * Casting the decimal text of a count back to an integer gives the count
   * when it fits, and `PHP_INT_MAX` when it does not.
   */
  lemma {:induction false} DecimalRoundTrip(n: nat)
    ensures n <= PhpIntMax ==> ToInt(Str(Decimal(n))) == n
    ensures n > PhpIntMax ==> ToInt(Str(Decimal(n))) == PhpIntMax
  {
    var d := Decimal(n);
    assert !IsSpace(d[0]) && d[0] != '-' && d[0] != '+';
    assert SkipSpace(d) == d;
    LeadingDigitsAll(d);
    DigitsValueDecimal(n);
  }
}
