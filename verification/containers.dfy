/**
 * The object container every connection owns. `build` is a memo keyed on the
 * class name alone: the first build of a key instantiates it and stores the
 * instance, and every later build of that key returns the stored instance,
 * whatever parameters it is given.
 */
module Containers {
  import opened PhpValues

  class Container {
    /** `$singletons`: the instances built so far, by key. */
    var singletons: map<string, Value>

    /** Every cached instance is an object of the class its key names. */
    ghost predicate Valid()
      reads this
    {
      forall key :: key in singletons ==> singletons[key].Ref? && singletons[key].obj.cls == key
    }

    constructor ()
      ensures Valid() && singletons == map[]
    {
      singletons := map[];
    }

    /**
     * `has($key)`: whether `$singletons` holds the key; a held key names the
     * class of the instance it holds.
     */
    function Has(key: string): (b: bool)
      reads this
      ensures b <==> key in singletons
      ensures b && Valid() ==> singletons[key].Ref? && singletons[key].obj.cls == key
    {
      key in singletons
    }

    /**
     * The cache is what `build(key, parameters)` leaves when it started from
     * `before`: unchanged when `key` was cached, and otherwise `before` with
     * one new entry, an object of class `key` built from `parameters`.
     */
    ghost predicate Built(before: map<string, Value>, key: string, parameters: seq<Value>)
      reads this
    {
      && key in singletons && singletons[key].Ref?
      && (key in before ==> singletons == before)
      && (key !in before ==>
            && singletons[key].obj.cls == key && singletons[key].obj.args == parameters
            && singletons == before[key := singletons[key]])
    }

    /**
     * `instanciate`: reflection builds a new object of the class `key` with
     * `parameters` as constructor arguments. What the constructor does is not
     * part of this model; only the new object's identity, class and arguments are.
     */
    method Instanciate(key: string, parameters: seq<Value>) returns (instance: Value)
      ensures instance.Ref? && fresh(instance.obj)
      ensures instance.obj.cls == key && instance.obj.args == parameters
    {
      var obj := new Instance(key, parameters);
      instance := Ref(obj);
    }

    /** `build($key, $parameters)`. */
    method Build(key: string, parameters: seq<Value>) returns (instance: Value)
      requires Valid()
      modifies this
      ensures Valid()
      ensures old(Has(key)) ==> instance == old(singletons[key]) && singletons == old(singletons)
      ensures !old(Has(key)) ==>
        && instance.Ref? && fresh(instance.obj)
        && instance.obj.cls == key && instance.obj.args == parameters
        && singletons == old(singletons)[key := instance]
      ensures Has(key) && singletons[key] == instance
      ensures forall k :: k != key ==> Has(k) == old(Has(k)) && (Has(k) ==> singletons[k] == old(singletons[k]))
      ensures Built(old(singletons), key, parameters)
    {
      if key in singletons {
        return singletons[key];
      }
      instance := Instanciate(key, parameters);
      singletons := singletons[key := instance];
    }
  }

  /**
   * Two builds of the same key return the same instance even when their
   * parameters differ: the second build's parameters are never used.
   */
  method BuildTwice(c: Container, key: string, p1: seq<Value>, p2: seq<Value>) returns (first: Value, second: Value)
    requires c.Valid()
    modifies c
    ensures c.Valid()
    ensures first == second
    ensures !old(c.Has(key)) ==> first.Ref? && first.obj.args == p1
  {
    first := c.Build(key, p1);
    second := c.Build(key, p2);
  }
}
