/**
 * The provider classes: SingletonProvider, FactoryProvider, SingletonAsyncProvider,
 * FactoryAsyncProvider (through SyncProvider and AsyncProvider) and Service.
 */
module Providers {
  import opened Wrappers
  import opened Reflection

  /** Which of the five concrete provider classes a provider is. */
  datatype Kind = Singleton | Factory | SingletonAsync | FactoryAsync | Service
  {
    /** The subclasses of AsyncProvider. */
    predicate IsAsync()
    {
      SingletonAsync? || FactoryAsync?
    }

    /** The classes that keep their first value behind a placeholder. */
    predicate Caches()
    {
      Singleton? || SingletonAsync? || Service?
    }
  }

  /** Why `InjectionError` is raised. */
  datatype InjectionError = NoProvider(annotation: Key) | AsyncProviderUsedSynchronously

  /** The mutable part of a provider: its `_provided` slot (None is the placeholder) and how often its callable has run. */
  datatype Slot = Slot(provided: Option<Value>, calls: nat)

  /**
   * What the placeholder guarantees: a caching provider either has not run its callable yet,
   * or has run it exactly once and holds its first result; the others hold nothing.
   */
  ghost predicate SlotOk(kind: Kind, source: Callable, s: Slot)
  {
    if kind.Caches() then
      (s.provided.None? && s.calls == 0) || (s.provided == Some(source.output(0)) && s.calls == 1)
    else
      s.provided.None?
  }

  /**
   * A value request answered without the sync/async check: `provide()` of a synchronous
   * provider, `provide_async()` of any provider.
   */
  function ProduceStep(kind: Kind, source: Callable, s: Slot): (r: (Value, Slot))
    ensures SlotOk(kind, source, s) ==> SlotOk(kind, source, r.1)
    ensures SlotOk(kind, source, s) && kind.Caches() ==> r.0 == source.output(0) && r.1.calls == 1
    ensures !kind.Caches() ==> r.0 == source.output(s.calls) && r.1.calls == s.calls + 1
  {
    if kind.Caches() then
      if s.provided.None? then (source.output(s.calls), Slot(Some(source.output(s.calls)), s.calls + 1))
      else (s.provided.value, s)
    else
      (source.output(s.calls), Slot(s.provided, s.calls + 1))
  }

  /** `provide()`: an asynchronous provider refuses, the others produce. */
  function ProvideStep(kind: Kind, source: Callable, s: Slot): (r: (Result<Value, InjectionError>, Slot))
    ensures r.0.Failure? <==> kind.IsAsync()
    ensures r.0.Failure? ==> r.0.error == AsyncProviderUsedSynchronously && r.1 == s
    ensures SlotOk(kind, source, s) ==> SlotOk(kind, source, r.1)
  {
    if kind.IsAsync() then (Failure(AsyncProviderUsedSynchronously), s)
    else (Success(ProduceStep(kind, source, s).0), ProduceStep(kind, source, s).1)
  }

  /** One request: `provide_async()` when `isAsync`, `provide()` otherwise. */
  function Request(kind: Kind, source: Callable, s: Slot, isAsync: bool): (Result<Value, InjectionError>, Slot)
  {
    if isAsync then (Success(ProduceStep(kind, source, s).0), ProduceStep(kind, source, s).1)
    else ProvideStep(kind, source, s)
  }

  /** The answers to a series of requests, `asyncRequests[i]` telling how the i-th is made, and the final slot. */
  function Serve(kind: Kind, source: Callable, s: Slot, asyncRequests: seq<bool>): (seq<Result<Value, InjectionError>>, Slot)
    decreases |asyncRequests|
  {
    if asyncRequests == [] then ([], s)
    else
      var (first, s1) := Request(kind, source, s, asyncRequests[0]);
      var (rest, s2) := Serve(kind, source, s1, asyncRequests[1..]);
      ([first] + rest, s2)
  }

  /** The slot after `n` requests made the same way (`provide_async()` when `isAsync`, `provide()` otherwise). */
  function AfterRequests(kind: Kind, source: Callable, s: Slot, isAsync: bool, n: nat): Slot
    decreases n
  {
    if n == 0 then s else Request(kind, source, AfterRequests(kind, source, s, isAsync, n - 1), isAsync).1
  }

  /**
   * What `n` requests made the same way do to a provider: a factory that answers them runs its
   * callable `n` more times, a caching provider runs it at most once in all, and an asynchronous
   * provider asked synchronously runs nothing.
   */
  lemma {:induction false} RequestsRun(kind: Kind, source: Callable, s: Slot, isAsync: bool, n: nat)
    ensures !kind.Caches() && (kind.IsAsync() ==> isAsync) ==>
              AfterRequests(kind, source, s, isAsync, n).calls == s.calls + n
    ensures kind.Caches() && SlotOk(kind, source, s) ==>
              SlotOk(kind, source, AfterRequests(kind, source, s, isAsync, n)) &&
              AfterRequests(kind, source, s, isAsync, n).calls <= 1
    ensures kind.IsAsync() && !isAsync ==> AfterRequests(kind, source, s, isAsync, n) == s
    decreases n
  {
    if n > 0 {
      RequestsRun(kind, source, s, isAsync, n - 1);
    }
  }

  /** `SyncProvider.provide_async` answers with `provide()`: for a synchronous provider the two requests agree. */
  lemma SyncProvideAsyncIsProvide(kind: Kind, source: Callable, s: Slot)
    requires !kind.IsAsync()
    ensures Request(kind, source, s, true) == Request(kind, source, s, false)
    ensures Request(kind, source, s, true).0.Success?
  {
  }

  /**
   * Singletons and services run their callable at most once, however they are asked, and
   * every value they give is the identical first result.
   */
  lemma {:induction false} SingletonRunsAtMostOnce(kind: Kind, source: Callable, s: Slot, asyncRequests: seq<bool>)
    requires kind.Caches() && SlotOk(kind, source, s)
    ensures |Serve(kind, source, s, asyncRequests).0| == |asyncRequests|
    ensures Serve(kind, source, s, asyncRequests).1.calls <= 1
    ensures forall i :: 0 <= i < |asyncRequests| && Serve(kind, source, s, asyncRequests).0[i].Success? ==>
              Serve(kind, source, s, asyncRequests).0[i].value == source.output(0)
    decreases |asyncRequests|
  {
    if asyncRequests != [] {
      var (first, s1) := Request(kind, source, s, asyncRequests[0]);
      SingletonRunsAtMostOnce(kind, source, s1, asyncRequests[1..]);
    }
  }

  /**
   * Factories run their callable once for every request they answer, and the i-th answer is
   * the callable's next result.
   */
  lemma {:induction false} FactoryRunsEveryTime(kind: Kind, source: Callable, s: Slot, asyncRequests: seq<bool>)
    requires !kind.Caches()
    requires kind.IsAsync() ==> forall i :: 0 <= i < |asyncRequests| ==> asyncRequests[i]
    ensures |Serve(kind, source, s, asyncRequests).0| == |asyncRequests|
    ensures Serve(kind, source, s, asyncRequests).1.calls == s.calls + |asyncRequests|
    ensures forall i :: 0 <= i < |asyncRequests| ==>
              Serve(kind, source, s, asyncRequests).0[i] == Success(source.output(s.calls + i))
    decreases |asyncRequests|
  {
    if asyncRequests != [] {
      var (first, s1) := Request(kind, source, s, asyncRequests[0]);
      FactoryRunsEveryTime(kind, source, s1, asyncRequests[1..]);
    }
  }

  /** A provider object; `kind`, `source` and `provides` are fixed when it is built. */
  class Provider {
    const kind: Kind
    /** The callable it runs: the wrapped consumer, or for a Service the class itself. */
    const source: Callable
    /** The `provides` property: the return annotation (for a Service, the class). */
    const providesKey: Key
    var provided: Option<Value>
    var calls: nat

    ghost function State(): Slot
      reads this
    {
      Slot(provided, calls)
    }

    ghost predicate Valid()
      reads this
    {
      SlotOk(kind, source, State())
    }

    constructor (kind: Kind, source: Callable)
      ensures this.kind == kind && this.source == source && providesKey == source.returnAnnotation
      ensures State() == Slot(None, 0) && Valid()
    {
      this.kind := kind;
      this.source := source;
      providesKey := source.returnAnnotation;
      provided := None;
      calls := 0;
    }

    /** The shared body of the caching and the fresh-value paths. */
    method Produce() returns (v: Value)
      requires Valid()
      modifies this`provided, this`calls
      ensures Valid()
      ensures (v, State()) == ProduceStep(kind, source, old(State()))
    {
      if kind.Caches() {
        if provided.None? {
          var first := source.output(calls);
          calls := calls + 1;
          provided := Some(first);
        }
        v := provided.value;
      } else {
        v := source.output(calls);
        calls := calls + 1;
      }
    }

    /** `provide()` */
    method Provide() returns (r: Result<Value, InjectionError>)
      requires Valid()
      modifies this`provided, this`calls
      ensures Valid()
      ensures (r, State()) == ProvideStep(kind, source, old(State()))
    {
      if kind.IsAsync() {
        r := Failure(AsyncProviderUsedSynchronously);
      } else {
        var v := Produce();
        r := Success(v);
      }
    }

    /** `provide_async()`: a synchronous provider answers with `provide()`. */
    method ProvideAsync() returns (v: Value)
      requires Valid()
      modifies this`provided, this`calls
      ensures Valid()
      ensures (v, State()) == ProduceStep(kind, source, old(State()))
    {
      if kind.IsAsync() {
        v := Produce();
      } else {
        var r := Provide();
        v := r.value;
      }
    }
  }
}
