# pyserp injector, modelled in Dafny

pyserp is a small provider/consumer dependency-injection library for Python. Its one module,
`pyserp/__init__.py`, keeps a tree of scoped `Injector`s. Each injector holds a providers map
from annotations (usually classes) to provider objects, and a map of named children.

- `provider`, `factory` and `service` register a provider under an annotation. When the
  annotation is a class, the provider is stored under every class of its method resolution
  order (MRO).
- `get_provider` looks an annotation up in the injector's own map first. On a miss it asks the
  parent and caches the answer locally. An injector with no parent raises `InjectionError`.
- `get_child` and `get_injector` walk (and grow) the scope tree along a dotted name.
- A *consumer* is a callable wrapped by `_consumer_factory`. When it is called, every parameter
  the caller did not pass and that carries an annotation is filled from the provider the
  injector resolves for that annotation.
- Singleton providers (`SingletonProvider`, `SingletonAsyncProvider`, `Service`) run their
  callable at most once in one sequential series of requests, behind a placeholder. Factory
  providers run it on every request.
  Asynchronous providers refuse synchronous use.

The Dafny project models that core.

| file | module | what it holds |
|---|---|---|
| `wrappers.dfy` | `Wrappers` | `Option` and `Result` |
| `reflection.dfy` | `Reflection` | what Python's reflection reports, given as data: parameter lists, return annotations, the coroutine flag, `isclass` and `getmro` as a class table |
| `dotted_names.dfy` | `DottedNames` | `str.split('.')` and its inverse `'.'.join` |
| `providers.dfy` | `Providers` | the provider classes: a `Provider` class whose `provided` slot and call counter change in place, and pure step functions that specify its methods |
| `resolution.dfy` | `Resolution` | lookup, caching and registration on the values of the providers maps along a parent chain (`seq<map<Key, Provider>>`, nearest first) |
| `injection.dfy` | `Injection` | the `Injector` class (children, providers, parent), registration, `get_provider`, `get_child`, `get_injector`, and the consumer's argument-filling loop |

The `Injector` methods and the consumer's loop change fields in place. The lookup and
registration methods (`GetProvider`, `Store`, the consumer's lookups) are proved against the
pure definitions in `Resolution`, and the lookup and caching properties are proved about those
definitions. The scope-tree methods (`GetChild`, `GetInjector`) are proved against the path
predicates in `Injection` (`IsPath`, the loop bundle `Walked`, `TreeValid`). The provider slots a
consumer call changes are proved against `AfterRequests` in `Providers`: one request per lookup
that found the provider (`Served`).

## Model

| member | source | states |
|---|---|---|
| Reflection.ClassTable.RegistrationKeys | pyserp/__init__.py:187-191 | the keys a provider is stored under: its annotation first; for a class, every class of its MRO and nothing outside the MRO; for anything else, the annotation alone |
| DottedNames.Split | pyserp/__init__.py:224 | `name.split('.')` gives one more segment than there are dots, and no segment holds a dot; empty segments are kept |
| DottedNames.JoinSplit | pyserp/__init__.py:224 | joining the segments of a name with dots gives the name back |
| DottedNames.SplitJoin | pyserp/__init__.py:224 | splitting the dot-join of dot-free segments gives the segments back |
| DottedNames.SplitPrefix | pyserp/__init__.py:224 | a dot-free prefix only lengthens the first segment |
| DottedNames.JoinPrefixesHead | pyserp/__init__.py:224 | prefixing the first segment prefixes the joined name |
| Providers.ProduceStep | pyserp/__init__.py:96-99 | answering a request keeps the placeholder invariant; a caching provider answers with its callable's first result and has run it exactly once; a factory answers with the callable's next result and runs it once more |
| Providers.ProvideStep | pyserp/__init__.py:109-113 | `provide()` fails exactly for the asynchronous providers, with `InjectionError` and no state change; otherwise it keeps the placeholder invariant |
| Providers.SyncProvideAsyncIsProvide | pyserp/__init__.py:84-85 | for a synchronous provider, `provide_async()` and `provide()` give the same answer and the same new state, and never fail |
| Providers.SingletonRunsAtMostOnce | pyserp/__init__.py:96-99 | over any series of sync or async requests, a singleton or service runs its callable at most once, and every value it hands out is the first result |
| Providers.RequestsRun | pyserp/__init__.py:88-158 | after n requests of one kind, a factory called the way it supports has run its callable n more times; a valid caching provider stays valid and has run it at most once; an async provider asked synchronously is unchanged |
| Providers.FactoryRunsEveryTime | pyserp/__init__.py:105-106 | over any series of requests a factory may answer, it runs its callable once per request, and the i-th answer is the callable's next result |
| Providers.Provider.constructor | pyserp/__init__.py:92-94 | a new provider holds the placeholder, has run nothing, and `provides` is its callable's return annotation |
| Providers.Provider.Produce | pyserp/__init__.py:96-99 | the value and new slot are exactly `ProduceStep` of the old slot; the placeholder invariant is kept |
| Providers.Provider.Provide | pyserp/__init__.py:112-113 | the result and new slot are exactly `ProvideStep` of the old slot: an asynchronous provider raises, the others produce |
| Providers.Provider.ProvideAsync | pyserp/__init__.py:84-85 | `provide_async()` produces like `ProduceStep` for every kind; a synchronous provider goes through `provide()` |
| Resolution.Nearest | pyserp/__init__.py:231-240 | the position of the first map on the chain holding the key, or the chain's length; no earlier map holds it |
| Resolution.NearestIs | pyserp/__init__.py:231-240 | `Nearest` is the only position that holds the key with none before it |
| Resolution.ResolveMeaning | pyserp/__init__.py:235-238 | a lookup fails exactly when no injector on the chain holds the key; otherwise it returns the entry of the nearest holder |
| Resolution.CachedAlong | pyserp/__init__.py:239 | caching keeps the chain's length; a failed lookup caches nothing |
| Resolution.CachedAlongEntries | pyserp/__init__.py:231-240 | caching changes only the looked-up key, and only on the injectors below the holder; each of them now maps it to the found provider; the holder and its ancestors are unchanged |
| Resolution.LookupHit | pyserp/__init__.py:233-234 | a local hit returns the local entry and changes no map |
| Resolution.LookupMiss | pyserp/__init__.py:235-239 | a local miss answers with the parent's lookup, then caches the parent's answer locally (nothing when it failed) on top of the parent's own caching |
| Resolution.ResolveByEntries | pyserp/__init__.py:231-240 | lookups over chains with the same entries for a key agree |
| Resolution.CachingKeepsAnswers | pyserp/__init__.py:239 | caching one key changes no answer: every key resolves as before from every injector of the chain |
| Resolution.CachingIdempotent | pyserp/__init__.py:233-239 | a second lookup of the same key caches nothing more |
| Resolution.ProviderIsHeld | pyserp/__init__.py:233-239 | what a lookup returns is a provider held on the chain |
| Resolution.CachingKeepsHeld | pyserp/__init__.py:239 | caching only copies providers that are already held, and loses none |
| Resolution.CachedAll | pyserp/__init__.py:34-36 | a series of lookups keeps the chain's length |
| Resolution.CachedAllKeeps | pyserp/__init__.py:34-36 | after any series of lookups, every key resolves as before, the same providers are held, and keys never looked up keep their entries everywhere |
| Resolution.Hits | pyserp/__init__.py:34-36 | the number of lookups in a series that find a given provider: at most the number of lookups, and zero when none finds it |
| Resolution.Registered | pyserp/__init__.py:189 | a registration at one injector sets that key there and changes no other entry |
| Resolution.RegistrationVisibility | pyserp/__init__.py:231-240 | a registration is seen from every injector below it that has no closer entry, and from none above it |
| Resolution.CacheShadowsLaterRegistration | pyserp/__init__.py:239 | staleness as written: once a lookup has cached a key, a later registration of that key at an ancestor of the requester, up to and including the holder, is not seen from the requester, although without the lookup it would be |
| Resolution.Overwrite | pyserp/__init__.py:188-189 | after the registration loop, every listed key maps to the provider and every other key keeps its entry: last write wins, with no error |
| Resolution.OverwriteExtends | pyserp/__init__.py:188-189 | writing under one more key is one more map update, the loop's step |
| Resolution.RegistrationAnswersItsKeys | pyserp/__init__.py:187-191 | after a registration, exactly the registered keys resolve to the new provider from that injector; every other key resolves as before, so a subclass registration answers requests for its bases but not the reverse |
| Injection.MakeConsumer | pyserp/__init__.py:18-19 | wrapping keeps the callable's signature; an existing consumer is returned as it is, so wrapping is idempotent; a plain callable is bound to the given injector |
| Injection.Injector.constructor | pyserp/__init__.py:164-171 | a new injector has the given name and parent, no children and no providers, and is linked to its ancestors |
| Injection.Injector.AncestorsAreShallower | pyserp/__init__.py:236-239 | each ancestor is strictly closer to the root and no injector is its own ancestor, so the delegation in `get_provider` ends |
| Injection.Injector.GetProvider | pyserp/__init__.py:231-240 | `get_provider(k)` succeeds exactly when some injector on the parent chain holds `k`, returns the nearest holder's provider, and otherwise raises the no-provider error; the chain's maps become exactly `CachedAlong` of the old ones: caching along the path and nothing else |
| Injection.Injector.Inherit | pyserp/__init__.py:235-239 | a local miss below a parent: the parent's answer, cached here on success, with the same four guarantees as `GetProvider` |
| Injection.MapsKept | pyserp/__init__.py:239 | the chain's maps are unchanged when none of its providers maps changed |
| Injection.Injector.Store | pyserp/__init__.py:187-191 | the providers map becomes `Overwrite` of the old map under the registration keys: every MRO class for a class annotation, the annotation alone otherwise |
| Injection.Injector.RegisterProvider | pyserp/__init__.py:177-192 | `provider(cbl)` returns the consumer for `cbl`; it stores a new singleton provider (the asynchronous kind for a coroutine function) running the consumer under its registration keys; that provider has not run yet |
| Injection.Injector.RegisterFactory | pyserp/__init__.py:194-209 | `factory(cbl)`: as `provider`, with a factory provider |
| Injection.Injector.RegisterService | pyserp/__init__.py:211-217 | `service(cls)` returns `cls` and stores a new `Service` provider for `cls` under every class of its MRO |
| Injection.Injector.NewChild | pyserp/__init__.py:226-227 | a missing child is created empty (no children, no providers) with this injector as parent and the segment as name, then recorded under the segment; the tree stays valid |
| Injection.Injector.ChildFor | pyserp/__init__.py:225-228 | one step of the walk: an existing child is reused and nothing changes; otherwise a fresh child is created; the walk extends by one segment |
| Injection.Injector.Adopt | pyserp/__init__.py:226-227 | the creating step keeps every earlier part of the walk and only adds to children maps |
| Injection.Injector.Descend | pyserp/__init__.py:223-228 | the loop of `get_child` visits one child per segment, and every injector it adds is new and lies on its path |
| Injection.Injector.GetChild | pyserp/__init__.py:219-229 | the result is the end of the only path from this injector along the segments of `name`. Each injector on it has the previous one as parent and its segment as name. Existing children are never removed or replaced. New injectors lie on the path and hold no providers. When the whole path already existed, nothing changes |
| Injection.GetChildTwice | pyserp/__init__.py:219-229 | `get_child` is idempotent: a second call with the same name returns the same injector and creates none |
| Injection.WalkEnds | pyserp/__init__.py:224-228 | a finished walk stays in the tree, and follows parents and names; a walk that met only old injectors changed nothing |
| Injection.PathInTree | pyserp/__init__.py:224-228 | a path from a tree member stays in the tree; each injector on it has the previous one as parent and its segment as name |
| Injection.PathExtends | pyserp/__init__.py:228 | a path extends by one step through the last injector's child |
| Injection.PathUnique | pyserp/__init__.py:224-228 | the children maps admit at most one path for a sequence of segments from a given injector, so names sharing a prefix share its injectors |
| Injection.Snapshot | pyserp/__init__.py:224-228 | a path is also a path through a snapshot of its injectors' children maps, taken from a set holding them |
| Injection.Survives | pyserp/__init__.py:224-228 | a snapshot path is still a path once the children maps have only grown |
| Injection.GetInjector | pyserp/__init__.py:243-249 | `get_injector('')` returns the root and changes nothing. Any other name gives `root.get_child(name)`'s guarantees: the result ends the only path from the root along the name's segments, each injector on it has the previous one as parent and its segment as name, new injectors are fresh, lie on the path and hold no providers (so every lookup from them goes to their ancestors), existing children are kept, and nothing changes when the whole path existed |
| Injection.GetInjectorTwice | pyserp/__init__.py:243-249 | `get_injector` is idempotent: a second call with the same name returns the same injector and creates none |
| Injection.Requested | pyserp/__init__.py:34-36 | the annotations the consumer looks up, in order: at most one per parameter |
| Injection.Supply | pyserp/__init__.py:35-36 | one filled argument looks the annotation up, then fails exactly when there is no provider, or the consumer is synchronous and the provider asynchronous, with the matching error; otherwise it gives a value the resolved provider yields; caching is as `get_provider`'s; the resolved provider answers one more request and every other provider keeps its slot |
| Injection.Draw | pyserp/__init__.py:28-36 | the call step: the result and the provider's new slot are exactly one request of the consumer's kind (`provide_async()` for a coroutine consumer, which never fails; `provide()` otherwise, which fails exactly on an asynchronous provider); the value is one the provider yields; every provider's slot stays the one due after the lookups so far |
| Injection.ServedStep | pyserp/__init__.py:28-36 | when the provider a lookup found answers one request and no other provider changes, every slot is the one due after that lookup too |
| Injection.WantedTest | pyserp/__init__.py:35 | once the earlier parameters are filled, the test `name not in arguments and annotated` holds exactly for parameters the caller did not pass that are annotated |
| Injection.BlockedBreaks | pyserp/__init__.py:36 | a blocked wanted parameter anywhere makes the whole call fail |
| Injection.SkipStep | pyserp/__init__.py:35 | a parameter that is passed, or has no annotation, is left alone |
| Injection.FillStep | pyserp/__init__.py:36 | filling a wanted parameter with a value its provider yields keeps the loop's invariant |
| Injection.FillSupplies | pyserp/__init__.py:36 | the filled parameter holds its value, and the earlier ones keep theirs |
| Injection.SuppliedKeeps | pyserp/__init__.py:36 | setting an argument that no earlier parameter is named after keeps the values they were supplied |
| Injection.SuppliedAt | pyserp/__init__.py:34-36 | every wanted parameter among the first i holds a value its provider yields |
| Injection.FillAddsOnlyWanted | pyserp/__init__.py:36 | the one new argument belongs to a wanted parameter |
| Injection.UnannotatedStaysAbsent | pyserp/__init__.py:35 | a parameter that was not passed and has no annotation stays out of the final arguments |
| Injection.FillParam | pyserp/__init__.py:34-36 | one turn of the loop keeps the loop's state (lookups made, maps cached, arguments filled, each provider's slot after one request per lookup that found it) or fails on a blocked wanted parameter with its error |
| Injection.Invoke | pyserp/__init__.py:24-37 | a consumer call fails exactly when some wanted parameter's lookup is blocked, with the first such parameter's error. Otherwise the caller's arguments are unchanged and every wanted parameter is filled with a value its provider yields. Nothing else is added. The maps are cached exactly along the lookups made. Each provider's slot is its slot on entry after one request per lookup that found it |
| Injection.ServedCounts | pyserp/__init__.py:24-37 | after a call's lookups: a provider no lookup found is unchanged; a factory called the way it supports has run its callable once per lookup that found it; an async provider under a plain consumer has not run; a singleton or service has run at most once |
| Injection.NothingRequested | pyserp/__init__.py:34-36 | a call looks nothing up exactly when the caller bound every annotated parameter, so such a call runs no provider |

## Left out

- Python reflection is given as data: `inspect.signature`, `bind_partial`, `iscoroutinefunction`, `isclass`, `getmro`, `functools.wraps` and the `__is_consumer__` attribute. A callable is its parameter list, return annotation and coroutine flag; the class table maps each class to its MRO. A consumer is told apart from a plain callable by a tag.
- `await` and coroutines: asynchronous calls are plain calls, selected by the coroutine flag. Concurrency is not modelled.
- Foreign code: running the user callable (`self._callable()`, `self._cls()`) is `output(n)`, where n counts the runs made through one provider. Providers count their runs. The callable's own consumer injection, when it runs, is not modelled. Its arguments would be looked up through the injector again and could recurse without end.
- Invoke: returns the argument map the wrapped callable is called with (`cbl(**arguments)`), not the result of that call, which is foreign code.
- Invoke: the caller's arguments are given already bound, as the map `bind_partial` builds. The `TypeError` that `bind_partial` raises for arguments that do not fit is not modelled.
- Invoke: a factory's value is stated as some result of its callable, not which call produced it; the number of calls is stated exactly through the providers' slots.
- Supply: for a factory, the value is stated as some result of its callable, not which call produced it; `Draw` pins it to the next call.
- SingletonRunsAtMostOnce: a callable that raises is not modelled. In the source the placeholder then stays in place (pyserp/__init__.py:97-98, 128-129, 153-154) and the next request runs the callable again; the bound counts successful runs only.
- SingletonRunsAtMostOnce: the bound holds for one sequential series of requests. `SingletonAsyncProvider.provide_async` tests the placeholder before `await self._callable()` and stores the result after it (pyserp/__init__.py:128-129). Two consumer coroutines run together (for example with `asyncio.gather`) can both pass the test while the first is suspended, so both run the callable and receive different values. Interleaved coroutines are not modelled.
- Providers.Provider.constructor: the results of a callable are indexed by the runs made through one provider, and belong to the callable. Two providers built over the same callable (`provider(f)` in two scopes, or `provider(f)` and `factory(f)`) are therefore modelled as receiving the same series of values, where Python runs `f` separately for each and may get distinct objects. No property stated here compares values across providers.
- Invoke, FillParam, Supply and Draw take the set of providers on the chain as a ghost parameter. That is the set whose slots a call may change. FillParam, Supply and Draw also take the record of those slots on entry to the call (`init`), which Invoke takes and returns.
- RegisterService: requires its argument to be a class. `inspect.getmro` on anything else fails with an attribute error, which is not modelled.
- RegisterService: the replacement of `cls.__init__` by a consumer of it is reflection on a foreign class and is not modelled.
- GetInjector: the module-level `root`, and the aliases `consumer`, `provider` and `factory` bound to it, are passed in or left out. The root is an explicit parameter.
- The `provides` properties are a constant field `providesKey` of each provider.
- `if not prov` in `get_provider` is modelled as absence from the map. Provider objects define no truth value, so a present provider is always true.
- `Provider` and `CallableProvider` only raise `NotImplementedError`; they are abstract and are folded into the provider kind.
- Staleness is modelled as written and not fixed. A key cached along a path keeps shadowing later registrations at its ancestors (`Resolution.CacheShadowsLaterRegistration`).
- `setup.py` and the tests are not part of this model.
