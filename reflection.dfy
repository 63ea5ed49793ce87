/**
 * What the injector learns from Python's reflection (`inspect.signature`,
 * `iscoroutinefunction`, `isclass`, `getmro`), given here as plain data.
 */
module Reflection {
  import opened Wrappers

  /** An annotation: a class or any other hashable object a parameter or return value is declared as. */
  type Key(==, !new)

  /** A value produced by user code. */
  type Value

  /** One declared parameter; `annotation` is None when it has none (`inspect.Parameter.empty`). */
  datatype Param = Param(name: string, annotation: Option<Key>)

  /**
   * A user callable as reflection sees it: its parameters, its return annotation and whether it
   * is a coroutine function. Running it is foreign code: `output(n)` is what its n-th run returns.
   */
  datatype Callable = Callable(params: seq<Param>, returnAnnotation: Key, isAsync: bool, output: nat -> Value)
  {
    /** A Python signature never declares the same parameter name twice. */
    ghost predicate WellFormed()
    {
      forall i, j :: 0 <= i < j < |params| ==> params[i].name != params[j].name
    }
  }

  /** The classes among the keys, each with its method resolution order (`inspect.getmro`). */
  datatype ClassTable = ClassTable(mro: map<Key, seq<Key>>)
  {
    /** `inspect.isclass` */
    predicate IsClass(k: Key)
    {
      k in mro
    }

    /** Every MRO starts with the class itself and lists only classes. */
    ghost predicate Valid()
    {
      forall k :: k in mro ==> |mro[k]| >= 1 && mro[k][0] == k && forall c :: c in mro[k] ==> c in mro
    }

    /**
     * The keys a provider for `k` is stored under: every class of the MRO when `k` is a
     * class, otherwise `k` alone.
     */
    function RegistrationKeys(k: Key): (keys: seq<Key>)
      requires Valid()
      ensures |keys| >= 1 && keys[0] == k
      ensures forall c :: c in keys ==> c == k || (IsClass(k) && IsClass(c))
      ensures forall c :: IsClass(k) && c in mro[k] ==> c in keys
      ensures IsClass(k) ==> forall c :: c in keys ==> c in mro[k]
      ensures !IsClass(k) ==> keys == [k]
    {
      if IsClass(k) then mro[k] else [k]
    }
  }
}
