/**
 * The Injector: a tree of scopes, each holding providers by annotation, and the consumer
 * wrapper that fills a callable's missing arguments from one of them.
 */
module Injection {
  import opened Wrappers
  import opened Reflection
  import opened Providers
  import opened Resolution
  import DottedNames

  /** A callable wrapped by `_consumer_factory`; its calls resolve missing arguments through `injector`. */
  datatype Consumer = Consumer(target: Callable, injector: Injector)

  /** What `_consumer_factory` is given: a plain callable, or a consumer (one marked `__is_consumer__`). */
  datatype Wrappable = Plain(callable: Callable) | Wrapped(consumer: Consumer)
  {
    /** The user callable underneath; a consumer keeps its target's signature. */
    function Underlying(): Callable
    {
      match this
      case Plain(f) => f
      case Wrapped(c) => c.target
    }
  }

  /**
   * `_consumer_factory(cbl, inj)`: a consumer is returned as it is, bound to whatever injector
   * it was made for; a plain callable is wrapped for `inj`.
   */
  function MakeConsumer(cbl: Wrappable, inj: Injector): (c: Consumer)
    ensures c.target == cbl.Underlying()
    ensures cbl.Wrapped? ==> c == cbl.consumer
    ensures cbl.Plain? ==> c.injector == inj
  {
    match cbl
    case Wrapped(c) => c
    case Plain(f) => Consumer(f, inj)
  }

  /** The providers maps of a chain of injectors, nearest first. */
  ghost function Maps(chain: seq<Injector>): (ms: seq<map<Key, Provider>>)
    reads chain`providers
    ensures |ms| == |chain|
    decreases |chain|
  {
    if chain == [] then [] else [chain[0].providers] + Maps(chain[1..])
  }

  /** Maps of a chain none of whose providers maps changed are the same. */
  twostate lemma MapsKept(chain: seq<Injector>)
    requires forall n :: n in chain ==> old(n.providers) == n.providers
    ensures Maps(chain) == old(Maps(chain))
    decreases |chain|
  {
    if chain != [] {
      MapsKept(chain[1..]);
    }
  }

  /** Every entry of `before` is still in `after`: a children map that only grows. */
  ghost predicate Grows(before: map<string, Injector>, after: map<string, Injector>)
  {
    forall s :: s in before ==> s in after && after[s] == before[s]
  }

  /** `path` descends from `path[0]` through the children maps, one segment of `segs` at a time. */
  ghost predicate IsPath(path: seq<Injector>, segs: seq<string>)
    reads path`children
  {
    |path| == |segs| + 1 &&
    forall i {:trigger segs[i]} :: 0 <= i < |segs| ==> segs[i] in path[i].children && path[i].children[segs[i]] == path[i + 1]
  }

  class Injector {
    const name: string
    const parent: Injector?
    /** The parent, its parent, and so on up to the root. */
    ghost const ancestors: seq<Injector>
    var children: map<string, Injector>
    var providers: map<Key, Provider>
    /** On a root: every injector of its tree. */
    ghost var scope: set<Injector>

    /** `ancestors` follows the parent pointers. */
    ghost predicate Linked()
      decreases |ancestors|
    {
      if parent == null then ancestors == []
      else ancestors == [parent] + parent.ancestors && parent.Linked()
    }

    /** This injector followed by its ancestors: the order of a provider lookup. */
    ghost function Chain(): seq<Injector>
    {
      [this] + ancestors
    }

    ghost function Root(): Injector
    {
      if ancestors == [] then this else ancestors[|ancestors| - 1]
    }

    /** Ancestors are strictly closer to the root, so none of them is this injector. */
    lemma AncestorsAreShallower()
      requires Linked()
      ensures forall n :: n in ancestors ==> |n.ancestors| < |ancestors| && n.Linked()
      ensures this !in ancestors
      decreases |ancestors|
    {
      if parent != null {
        parent.AncestorsAreShallower();
      }
    }

    /**
     * The tree below a root: it holds the root, every member knows its ancestors, and every
     * child is a member whose parent is the injector holding it and whose name is its key.
     */
    ghost predicate TreeValid()
      reads this`scope, scope`children
    {
      this in scope && parent == null &&
      forall n :: n in scope ==>
        n.Linked() && n.Root() == this &&
        forall s :: s in n.children ==>
          n.children[s] in scope && n.children[s].parent == n && n.children[s].name == s
    }

    /** `Injector(name, parent)` */
    constructor (name: string, parent: Injector?)
      requires parent != null ==> parent.Linked()
      ensures this.name == name && this.parent == parent && Linked()
      ensures ancestors == if parent == null then [] else [parent] + parent.ancestors
      ensures children == map[] && providers == map[] && scope == {this}
      ensures parent == null ==> TreeValid()
    {
      this.name := name;
      this.parent := parent;
      ancestors := if parent == null then [] else [parent] + parent.ancestors;
      children := map[];
      providers := map[];
      new;
      scope := {this};
    }

    /**
     * `get_provider(annotation)`: the local entry if there is one; otherwise the parent's answer,
     * cached here; `InjectionError` when there is no parent.
     */
    method GetProvider(k: Key) returns (r: Result<Provider, InjectionError>)
      requires Linked()
      modifies Chain()`providers
      ensures Maps(Chain()) == CachedAlong(old(Maps(Chain())), k)
      ensures r.Success? <==> Resolve(old(Maps(Chain())), k).Some?
      ensures r.Success? ==> r.value == Resolve(old(Maps(Chain())), k).value
      ensures r.Failure? ==> r.error == NoProvider(k)
      decreases |ancestors|, 1
    {
      MapsOfChain();
      if k in providers {
        LookupHit(Maps(Chain()), k);
        return Success(providers[k]);
      }
      if parent == null {
        LookupMiss(providers, Maps(ancestors), k);
        return Failure(NoProvider(k));
      }
      r := Inherit(k);
    }

    /** A local miss below a parent: the parent's answer, cached here when there is one. */
    method Inherit(k: Key) returns (r: Result<Provider, InjectionError>)
      requires Linked() && parent != null && k !in providers
      modifies Chain()`providers
      ensures Maps(Chain()) == CachedAlong(old(Maps(Chain())), k)
      ensures r.Success? <==> Resolve(old(Maps(Chain())), k).Some?
      ensures r.Success? ==> r.value == Resolve(old(Maps(Chain())), k).value
      ensures r.Failure? ==> r.error == NoProvider(k)
      decreases |ancestors|, 0
    {
      ghost var local, above := providers, Maps(ancestors);
      MapsOfChain();
      LookupMiss(local, above, k);
      AncestorsAreShallower();
      assert parent.Chain() == ancestors;
      r := parent.GetProvider(k);
      assert providers == local;
      label called:
      if r.Success? {
        providers := providers[k := r.value];
        MapsKept@called(ancestors);
      }
      MapsOfChain();
    }

    /** The maps of the chain: this injector's own, then its ancestors'. */
    lemma MapsOfChain()
      ensures Maps(Chain()) == [providers] + Maps(ancestors)
    {
      assert Chain()[1..] == ancestors;
    }

    /**
     * The store step of `provider`, `factory` and `service`: under every class of the MRO when
     * the provided annotation is a class, under the annotation alone otherwise; last write wins.
     */
    method Store(table: ClassTable, prov: Provider)
      requires table.Valid()
      modifies this`providers
      ensures providers == Overwrite(old(providers), table.RegistrationKeys(prov.providesKey), prov)
    {
      if table.IsClass(prov.providesKey) {
        var mro := table.mro[prov.providesKey];
        for i := 0 to |mro|
          invariant providers == Overwrite(old(providers), mro[..i], prov)
        {
          assert mro[..i + 1] == mro[..i] + [mro[i]];
          OverwriteExtends(old(providers), mro[..i], mro[i], prov);
          providers := providers[mro[i] := prov];
        }
        assert mro[..|mro|] == mro;
      } else {
        providers := providers[prov.providesKey := prov];
      }
    }

    /**
     * `provider(cbl)`: wraps `cbl` as a consumer, registers a singleton provider running it
     * (the asynchronous kind for a coroutine function) and returns the consumer.
     */
    method RegisterProvider(table: ClassTable, cbl: Wrappable) returns (cons: Consumer, ghost prov: Provider)
      requires table.Valid()
      modifies this`providers
      ensures cons == MakeConsumer(cbl, this)
      ensures fresh(prov) && prov.Valid() && prov.State() == Slot(None, 0)
      ensures prov.kind == (if cons.target.isAsync then SingletonAsync else Singleton)
      ensures prov.source == cons.target && prov.providesKey == cons.target.returnAnnotation
      ensures providers == Overwrite(old(providers), table.RegistrationKeys(prov.providesKey), prov)
    {
      cons := MakeConsumer(cbl, this);
      var p := new Provider(if cbl.Underlying().isAsync then SingletonAsync else Singleton, cons.target);
      Store(table, p);
      prov := p;
    }

    /** `factory(cbl)`: as `provider`, with a provider that runs `cbl` on every request. */
    method RegisterFactory(table: ClassTable, cbl: Wrappable) returns (cons: Consumer, ghost prov: Provider)
      requires table.Valid()
      modifies this`providers
      ensures cons == MakeConsumer(cbl, this)
      ensures fresh(prov) && prov.Valid() && prov.State() == Slot(None, 0)
      ensures prov.kind == (if cons.target.isAsync then FactoryAsync else Factory)
      ensures prov.source == cons.target && prov.providesKey == cons.target.returnAnnotation
      ensures providers == Overwrite(old(providers), table.RegistrationKeys(prov.providesKey), prov)
    {
      cons := MakeConsumer(cbl, this);
      var p := new Provider(if cbl.Underlying().isAsync then FactoryAsync else Factory, cons.target);
      Store(table, p);
      prov := p;
    }

    /**
     * `service(cls)`: registers a singleton provider that builds `cls`, under every class of its
     * MRO, and returns the class. `cls` is given as the callable that constructs it, whose
     * return annotation is the class itself.
     */
    method RegisterService(table: ClassTable, cls: Callable) returns (r: Callable, ghost prov: Provider)
      requires table.Valid() && table.IsClass(cls.returnAnnotation)
      modifies this`providers
      ensures r == cls
      ensures fresh(prov) && prov.Valid() && prov.State() == Slot(None, 0)
      ensures prov.kind == Service && prov.source == cls && prov.providesKey == cls.returnAnnotation
      ensures providers == Overwrite(old(providers), table.mro[cls.returnAnnotation], prov)
    {
      var p := new Provider(Service, cls);
      Store(table, p);
      r, prov := cls, p;
    }

    /** The creation step of `get_child`: a new injector named `seg`, recorded as this one's child. */
    method NewChild(seg: string) returns (child: Injector)
      requires Linked() && Root().TreeValid() && this in Root().scope && seg !in children
      modifies this`children, Root()`scope
      ensures fresh(child) && child.parent == this && child.name == seg
      ensures child.children == map[] && child.providers == map[]
      ensures child.Linked() && child.Root() == Root()
      ensures children == old(children)[seg := child]
      ensures Root().scope == old(Root().scope) + {child}
      ensures Root().TreeValid()
    {
      child := new Injector(seg, this);
      assert child.Root() == Root();
      children := children[seg := child];
      Root().scope := Root().scope + {child};
    }

    /**
     * One step of `get_child`: the existing child named `seg`, or a new one recorded under it.
     * The walk so far is `path` over `segs`, from a tree whose members and children maps were
     * `scope0` and `kids0` when the walk began; the step extends the walk by one segment.
     */
    method ChildFor(seg: string, ghost root: Injector, ghost scope0: set<Injector>,
                    ghost kids0: map<Injector, map<string, Injector>>, ghost path: seq<Injector>,
                    ghost segs: seq<string>, ghost created: Option<nat>)
      returns (child: Injector, ghost created': Option<nat>)
      requires Walked(root, scope0, kids0, path, segs, created) && path[|path| - 1] == this
      modifies this`children, root`scope
      ensures Walked(root, scope0, kids0, path + [child], segs + [seg], created')
      ensures seg in old(children) ==> child == old(children)[seg] && root.scope == old(root.scope)
      ensures seg !in old(children) ==> fresh(child) && child.providers == map[] && root.scope == old(root.scope) + {child}
    {
      if seg in children {
        child := children[seg];
        created' := created;
        PathExtends(path, segs, seg);
      } else {
        child, created' := Adopt(seg, root, scope0, kids0, path, segs, created);
      }
    }

    /** The creating branch of a `get_child` step: a new child named `seg` extends the walk. */
    method Adopt(seg: string, ghost root: Injector, ghost scope0: set<Injector>,
                 ghost kids0: map<Injector, map<string, Injector>>, ghost path: seq<Injector>,
                 ghost segs: seq<string>, ghost created: Option<nat>)
      returns (child: Injector, ghost created': Option<nat>)
      requires Walked(root, scope0, kids0, path, segs, created) && path[|path| - 1] == this && seg !in children
      modifies this`children, root`scope
      ensures Walked(root, scope0, kids0, path + [child], segs + [seg], created')
      ensures fresh(child) && child.providers == map[] && root.scope == old(root.scope) + {child}
    {
      child := NewChild(seg);
      created' := if created.None? then Some(|path|) else created;
      forall j | 0 <= j < |segs|
        ensures segs[j] in path[j].children && path[j].children[segs[j]] == path[j + 1]
      {
        assert segs[j] in old(path[j].children) && old(path[j].children)[segs[j]] == path[j + 1];
        assert path[j].children == old(path[j].children) || path[j] == this;
      }
      forall n | n in scope0
        ensures Grows(kids0[n], n.children)
      {
        assert Grows(kids0[n], old(n.children));
      }
      PathExtends(path, segs, seg);
    }

    /**
     * `get_child(name)`: walks the dot-separated segments of `name` from this injector, taking
     * the existing child for each segment and creating (and recording) a new one when there is
     * none. Empty segments are names like any other.
     */
    method GetChild(name: string) returns (r: Injector, ghost path: seq<Injector>)
      requires Linked() && Root().TreeValid() && this in Root().scope
      modifies Root()`scope, Root().scope`children
      ensures Root().TreeValid() && r in Root().scope && r.Root() == Root()
      ensures IsPath(path, DottedNames.Split(name)) && path[0] == this && r == path[|path| - 1]
      ensures forall j :: 0 <= j < |path| ==> path[j] in Root().scope
      ensures forall j :: 0 < j < |path| ==>
        path[j].parent == path[j - 1] && path[j].name == DottedNames.Split(name)[j - 1]
      ensures forall q :: IsPath(q, DottedNames.Split(name)) && q[0] == this ==> q == path
      ensures old(Root().scope) <= Root().scope
      ensures forall n :: n in Root().scope && n !in old(Root().scope) ==> n in path && fresh(n)
      ensures forall n :: n in Root().scope && n !in old(Root().scope) ==> n.providers == map[]
      ensures forall n :: n in old(Root().scope) ==> Grows(old(n.children), n.children)
      ensures (forall j :: 0 <= j < |path| ==> path[j] in old(Root().scope)) ==>
        Root().scope == old(Root().scope) && forall n :: n in old(Root().scope) ==> n.children == old(n.children)
    {
      ghost var root := Root();
      ghost var scope0 := root.scope;
      ghost var kids0 := map n | n in scope0 :: n.children;
      assert forall n :: n in scope0 ==> kids0[n] == old(n.children);
      var segs := DottedNames.Split(name);
      ghost var created;
      r, path, created := Descend(segs, root, scope0, kids0);
      WalkEnds(root, scope0, kids0, path, segs, created);
      PathUnique(path, segs);
    }

    /** The loop of `get_child`: from this injector, one child per segment of `segs`. */
    method Descend(segs: seq<string>, ghost root: Injector, ghost scope0: set<Injector>,
                   ghost kids0: map<Injector, map<string, Injector>>)
      returns (r: Injector, ghost path: seq<Injector>, ghost created: Option<nat>)
      requires Walked(root, scope0, kids0, [this], [], None) && scope0 == root.scope
      modifies root`scope, root.scope`children
      ensures Walked(root, scope0, kids0, path, segs, created) && path[0] == this && r == path[|path| - 1]
      ensures forall n :: n in root.scope && n !in scope0 ==> fresh(n) && n.providers == map[]
    {
      var inj := this;
      path := [this];
      created := None;
      var i := 0;
      while i < |segs|
        invariant i <= |segs| && |path| == i + 1 && path[0] == this && inj == path[i]
        invariant Walked(root, scope0, kids0, path, segs[..i], created)
        invariant forall n :: n in root.scope && n !in scope0 ==> fresh(n) && n.providers == map[]
      {
        var child;
        child, created := inj.ChildFor(segs[i], root, scope0, kids0, path, segs[..i], created);
        TakeOneMore(segs, i);
        path := path + [child];
        inj := child;
        i := i + 1;
      }
      r := inj;
      assert segs[..i] == segs;
    }
  }

  /**
   * Where the walk of `get_child` stands: `path` follows `segs` inside a valid tree whose
   * members and children maps were `scope0` and `kids0` when the walk began; the old maps only
   * grew, the only new members lie on the path, and `created` marks the first new one on it
   * (none: the tree is as it was).
   */
  ghost predicate Walked(root: Injector, scope0: set<Injector>, kids0: map<Injector, map<string, Injector>>,
                         path: seq<Injector>, segs: seq<string>, created: Option<nat>)
    reads root, root.scope, path
  {
    root.TreeValid() && IsPath(path, segs) && path[|path| - 1] in root.scope &&
    scope0 <= root.scope && (forall n :: n in scope0 ==> n in kids0 && Grows(kids0[n], n.children)) &&
    (forall n :: n in root.scope && n !in scope0 ==> n in path) &&
    match created
    case None => root.scope == scope0 && forall n :: n in scope0 ==> n.children == kids0[n]
    case Some(c) => c < |path| && path[c] !in scope0
  }

  /**
   * In a valid tree, a path from a member stays inside the tree, and each injector on it has
   * the previous one as its parent and its segment as its name.
   */
  lemma {:induction false} PathInTree(root: Injector, path: seq<Injector>, segs: seq<string>)
    requires root.TreeValid() && IsPath(path, segs) && path[0] in root.scope
    ensures forall j :: 0 <= j < |path| ==> path[j] in root.scope
    ensures forall j :: 0 < j < |path| ==> path[j].parent == path[j - 1] && path[j].name == segs[j - 1]
  {
    var i := 0;
    while i < |segs|
      invariant 0 <= i <= |segs|
      invariant forall j :: 0 <= j <= i ==> path[j] in root.scope
      invariant forall j :: 0 < j <= i ==> path[j].parent == path[j - 1] && path[j].name == segs[j - 1]
    {
      assert segs[i] in path[i].children && path[i].children[segs[i]] == path[i + 1];
      i := i + 1;
    }
  }

  /**
   * A finished walk stays inside the tree, each injector on it has the previous one as its
   * parent and its segment as its name, and a walk that met only old members changed nothing.
   */
  lemma WalkEnds(root: Injector, scope0: set<Injector>, kids0: map<Injector, map<string, Injector>>,
                 path: seq<Injector>, segs: seq<string>, created: Option<nat>)
    requires Walked(root, scope0, kids0, path, segs, created) && path[0] in root.scope
    ensures forall j :: 0 <= j < |path| ==> path[j] in root.scope
    ensures forall j :: 0 < j < |path| ==> path[j].parent == path[j - 1] && path[j].name == segs[j - 1]
    ensures (forall j :: 0 <= j < |path| ==> path[j] in scope0) ==>
      root.scope == scope0 && forall n :: n in scope0 ==> n.children == kids0[n]
  {
    PathInTree(root, path, segs);
    if created.Some? {
      assert path[created.value] !in scope0;
    }
  }

  /** The first `i + 1` elements of `s` are its first `i` followed by `s[i]`. */
  lemma TakeOneMore<T>(s: seq<T>, i: nat)
    requires i < |s|
    ensures s[..i] + [s[i]] == s[..i + 1]
  { }

  /** A path over `segs` extends by one step through the last injector's child named `seg`. */
  lemma PathExtends(path: seq<Injector>, segs: seq<string>, seg: string)
    requires IsPath(path, segs) && seg in path[|path| - 1].children
    ensures IsPath(path + [path[|path| - 1].children[seg]], segs + [seg])
  {
    var ext, more := path + [path[|path| - 1].children[seg]], segs + [seg];
    forall j | 0 <= j < |more|
      ensures more[j] in ext[j].children && ext[j].children[more[j]] == ext[j + 1]
    {
      if j < |segs| {
        assert more[j] == segs[j] && ext[j] == path[j] && ext[j + 1] == path[j + 1];
      }
    }
  }

  /** `path` follows `segs` through the children maps recorded in `kids`. */
  ghost predicate PathIn(kids: map<Injector, map<string, Injector>>, path: seq<Injector>, segs: seq<string>)
  {
    |path| == |segs| + 1 && (forall j :: 0 <= j < |path| ==> path[j] in kids) &&
    forall j :: 0 <= j < |segs| ==> segs[j] in kids[path[j]] && kids[path[j]][segs[j]] == path[j + 1]
  }


  /** A record of the children maps along a path, through which the path can be followed later. */
  lemma Snapshot(path: seq<Injector>, segs: seq<string>, scope: set<Injector>)
    returns (kids: map<Injector, map<string, Injector>>)
    requires IsPath(path, segs) && forall j :: 0 <= j < |path| ==> path[j] in scope
    ensures PathIn(kids, path, segs)
    ensures forall n :: n in kids ==> n in scope && kids[n] == n.children
  {
    kids := map n | n in scope :: n.children;
  }

  /** A recorded path is still a path once the recorded children maps have only grown. */
  lemma Survives(kids: map<Injector, map<string, Injector>>, path: seq<Injector>, segs: seq<string>)
    requires PathIn(kids, path, segs) && forall n :: n in kids ==> Grows(kids[n], n.children)
    ensures IsPath(path, segs)
  {
    forall j | 0 <= j < |segs|
      ensures segs[j] in path[j].children && path[j].children[segs[j]] == path[j + 1]
    {
      assert Grows(kids[path[j]], path[j].children);
    }
  }

  /** From a given start, the children maps admit at most one path for a sequence of segments. */
  lemma {:induction false} PathUnique(path: seq<Injector>, segs: seq<string>)
    requires IsPath(path, segs)
    ensures forall q :: IsPath(q, segs) && q[0] == path[0] ==> q == path
  {
    forall q: seq<Injector> | IsPath(q, segs) && q[0] == path[0]
      ensures q == path
    {
      var i := 0;
      while i < |segs|
        invariant 0 <= i <= |segs| && q[..i + 1] == path[..i + 1]
      {
        assert q[i] == path[i] && segs[i] in q[i].children && q[i + 1] == q[i].children[segs[i]];
        i := i + 1;
      }
      assert q == q[..|segs| + 1] && path == path[..|segs| + 1];
    }
  }

  /**
   * `get_child` is idempotent: asked twice for the same name, it returns the same injector,
   * and the second time it creates none.
   */
  method GetChildTwice(inj: Injector, name: string) returns (first: Injector, second: Injector, ghost grew: bool)
    requires inj.Linked() && inj.Root().TreeValid() && inj in inj.Root().scope
    modifies inj.Root()`scope, inj.Root().scope`children
    ensures first == second && !grew
  {
    ghost var root := inj.Root();
    ghost var p1, p2;
    var segs := DottedNames.Split(name);
    first, p1 := inj.GetChild(name);
    ghost var scope1 := root.scope;
    ghost var kids1 := Snapshot(p1, segs, scope1);
    second, p2 := inj.GetChild(name);
    Survives(kids1, p1, segs);
    grew := root.scope != scope1;
  }

  /**
   * `get_injector(name)`: the root itself for the empty name, otherwise `root.get_child(name)`.
   * The module-level `root` is passed in.
   */
  method GetInjector(root: Injector, name: string) returns (r: Injector, ghost path: seq<Injector>)
    requires root.TreeValid()
    modifies root`scope, root.scope`children
    ensures root.TreeValid() && r in root.scope && |path| > 0 && path[0] == root && r == path[|path| - 1]
    ensures forall j :: 0 <= j < |path| ==> path[j] in root.scope
    ensures name == "" ==> r == root && path == [root]
    ensures name != "" ==> IsPath(path, DottedNames.Split(name))
    ensures name != "" ==> forall j :: 0 < j < |path| ==>
      path[j].parent == path[j - 1] && path[j].name == DottedNames.Split(name)[j - 1]
    ensures name != "" ==> forall q :: IsPath(q, DottedNames.Split(name)) && q[0] == root ==> q == path
    ensures old(root.scope) <= root.scope
    ensures forall n :: n in root.scope && n !in old(root.scope) ==> n in path && fresh(n)
    ensures forall n :: n in root.scope && n !in old(root.scope) ==> n.providers == map[]
    ensures forall n :: n in old(root.scope) ==> Grows(old(n.children), n.children)
    ensures (forall j :: 0 <= j < |path| ==> path[j] in old(root.scope)) ==>
      root.scope == old(root.scope) && forall n :: n in old(root.scope) ==> n.children == old(n.children)
  {
    if name == "" {
      r, path := root, [root];
    } else {
      r, path := root.GetChild(name);
    }
  }

  /**
   * `get_injector` is idempotent: asked twice for the same name, it returns the same injector,
   * and the second time it creates none.
   */
  method GetInjectorTwice(root: Injector, name: string) returns (first: Injector, second: Injector, ghost grew: bool)
    requires root.TreeValid()
    modifies root`scope, root.scope`children
    ensures first == second && !grew
  {
    ghost var p1, p2;
    var segs := DottedNames.Split(name);
    first, p1 := GetInjector(root, name);
    ghost var scope1 := root.scope;
    if name == "" {
      second, p2 := GetInjector(root, name);
    } else {
      ghost var kids1 := Snapshot(p1, segs, scope1);
      second, p2 := GetInjector(root, name);
      Survives(kids1, p1, segs);
      assert p2 == p1;
    }
    grew := root.scope != scope1;
  }

  /** Every provider of `ps` keeps its placeholder invariant. */
  ghost predicate AllValid(ps: set<Provider>)
    reads ps
  {
    forall p :: p in ps ==> p.Valid()
  }

  /** A parameter the consumer fills: not passed by the caller, and annotated. */
  predicate Wanted(p: Param, bound: map<string, Value>)
  {
    p.name !in bound && p.annotation.Some?
  }

  /** The annotations the consumer looks up for `params`, in order. */
  function Requested(params: seq<Param>, bound: map<string, Value>): (keys: seq<Key>)
    ensures |keys| <= |params|
    decreases |params|
  {
    if params == [] then []
    else
      var last := params[|params| - 1];
      Requested(params[..|params| - 1], bound) + if Wanted(last, bound) then [last.annotation.value] else []
  }

  /** Why the lookup of `k` cannot give a value: no provider, or an asynchronous one asked synchronously. */
  ghost predicate Blocked(ms: seq<map<Key, Provider>>, k: Key, isAsync: bool)
  {
    Resolve(ms, k).None? || (!isAsync && Resolve(ms, k).value.kind.IsAsync())
  }

  /** The error a blocked lookup raises. */
  ghost function Refusal(ms: seq<map<Key, Provider>>, k: Key, isAsync: bool): InjectionError
  {
    if Resolve(ms, k).None? then NoProvider(k) else AsyncProviderUsedSynchronously
  }

  /** A value `prov` can hand out: its first result if it caches, one of its results otherwise. */
  ghost predicate Yields(found: Option<Provider>, v: Value)
  {
    found.Some? &&
    if found.value.kind.Caches() then v == found.value.source.output(0)
    else exists n: nat :: v == found.value.source.output(n)
  }

  /**
   * The providers' slots after the lookups of `keys`: each provider of `provs` is valid and has
   * answered, from its slot `init[p]`, one request (made the consumer's way) per lookup that found it.
   */
  ghost predicate Served(provs: set<Provider>, init: map<Provider, Slot>, start: seq<map<Key, Provider>>,
                         keys: seq<Key>, isAsync: bool)
    reads provs
  {
    forall p :: p in provs ==> p.Valid() && p in init && p.State() == Due(p, init[p], start, keys, isAsync)
  }

  /** The slot of `p`, from slot `s`, after one request per lookup of `keys` that found it. */
  ghost function Due(p: Provider, s: Slot, start: seq<map<Key, Provider>>, keys: seq<Key>, isAsync: bool): Slot
  {
    AfterRequests(p.kind, p.source, s, isAsync, Hits(start, keys, p))
  }

  /**
   * One filled argument: `get_provider(k)` on the consumer's injector, then `provide_async()`
   * for a coroutine consumer and `provide()` otherwise. `keys` are the lookups made before.
   */
  method Supply(inj: Injector, k: Key, isAsync: bool, ghost start: seq<map<Key, Provider>>, ghost keys: seq<Key>,
                ghost provs: set<Provider>, ghost init: map<Provider, Slot>)
    returns (r: Result<Value, InjectionError>)
    requires inj.Linked() && Maps(inj.Chain()) == CachedAll(start, keys)
    requires Held(start) <= provs && Served(provs, init, start, keys, isAsync)
    modifies inj.Chain()`providers, provs
    ensures Maps(inj.Chain()) == CachedAll(start, keys + [k])
    ensures Served(provs, init, start, keys + [k], isAsync)
    ensures forall p :: p in provs && Resolve(start, k) != Some(p) ==> p.State() == old(p.State())
    ensures r.Failure? <==> Blocked(start, k, isAsync)
    ensures r.Failure? ==> r.error == Refusal(start, k, isAsync)
    ensures r.Success? ==> Yields(Resolve(start, k), r.value)
  {
    ghost var before := Maps(inj.Chain());
    CachedAllKeeps(start, keys, k);
    CachedAllSnoc(start, keys, k);
    var got := inj.GetProvider(k);
    if got.Failure? {
      forall p | p in provs
        ensures Hits(start, keys + [k], p) == Hits(start, keys, p)
      {
        HitsSnoc(start, keys, k, p);
      }
      return Failure(got.error);
    }
    var prov := got.value;
    ProviderIsHeld(before, k);
    label fetched:
    r := Draw(prov, isAsync, provs, start, keys, k, init);
    MapsKept@fetched(inj.Chain());
  }

  /**
   * The call step of one filled argument: `provide_async()` for a coroutine consumer, `provide()`
   * otherwise, on the provider `prov` that the lookup of `k` found after the lookups of `keys`.
   */
  method Draw(prov: Provider, isAsync: bool, ghost provs: set<Provider>, ghost start: seq<map<Key, Provider>>,
              ghost keys: seq<Key>, ghost k: Key, ghost init: map<Provider, Slot>)
    returns (r: Result<Value, InjectionError>)
    requires prov in provs && Resolve(start, k) == Some(prov) && Served(provs, init, start, keys, isAsync)
    modifies prov`provided, prov`calls
    ensures Served(provs, init, start, keys + [k], isAsync)
    ensures r.Failure? <==> !isAsync && prov.kind.IsAsync()
    ensures r.Failure? ==> r.error == AsyncProviderUsedSynchronously
    ensures r.Success? ==> Yields(Some(prov), r.value)
    ensures (r, prov.State()) == Request(prov.kind, prov.source, old(prov.State()), isAsync)
  {
    ghost var before := map p | p in provs :: p.State();
    if isAsync {
      var v := prov.ProvideAsync();
      r := Success(v);
    } else {
      r := prov.Provide();
    }
    ServedStep(provs, init, start, keys, k, isAsync, prov, before);
  }

  /**
   * One more lookup, of `k`, that found `prov`: if the slots were `before` after the lookups of
   * `keys`, and then `prov` alone answered a request, the providers are served after `keys + [k]`.
   */
  lemma ServedStep(provs: set<Provider>, init: map<Provider, Slot>, start: seq<map<Key, Provider>>, keys: seq<Key>,
                   k: Key, isAsync: bool, prov: Provider, before: map<Provider, Slot>)
    requires prov in provs && Resolve(start, k) == Some(prov)
    requires forall p :: p in provs ==> p in init && p in before && before[p] == Due(p, init[p], start, keys, isAsync)
    requires forall p :: p in provs ==> p.Valid() && (p != prov ==> p.State() == before[p])
    requires prov.State() == Request(prov.kind, prov.source, before[prov], isAsync).1
    ensures Served(provs, init, start, keys + [k], isAsync)
  {
    forall p | p in provs
      ensures p.State() == Due(p, init[p], start, keys + [k], isAsync)
    {
      HitsSnoc(start, keys, k, p);
    }
  }


  /** The arguments after `i` parameters: the caller's kept, every wanted one so far filled, nothing else. */
  ghost predicate Filled(params: seq<Param>, bound: map<string, Value>, start: seq<map<Key, Provider>>,
                         args: map<string, Value>, i: nat)
    requires i <= |params|
  {
    KeepsBound(bound, args) && Supplied(params, bound, start, args, i) && OnlyWanted(params, bound, args, i)
  }

  /** The arguments the caller passed are kept as they are. */
  ghost predicate KeepsBound(bound: map<string, Value>, args: map<string, Value>)
  {
    forall n :: n in bound ==> n in args && args[n] == bound[n]
  }

  /** Every wanted parameter among the first `i` holds a value its provider yields. */
  ghost predicate Supplied(params: seq<Param>, bound: map<string, Value>, start: seq<map<Key, Provider>>,
                           args: map<string, Value>, i: nat)
    requires i <= |params|
    decreases i
  {
    i == 0 ||
    (Supplied(params, bound, start, args, i - 1) &&
     (Wanted(params[i - 1], bound) ==>
        params[i - 1].name in args && Yields(Resolve(start, params[i - 1].annotation.value), args[params[i - 1].name])))
  }

  /** Every argument was passed by the caller or belongs to a wanted parameter among the first `i`. */
  ghost predicate OnlyWanted(params: seq<Param>, bound: map<string, Value>, args: map<string, Value>, i: nat)
    requires i <= |params|
  {
    forall n :: n in args ==> n in bound || exists j :: 0 <= j < i && Wanted(params[j], bound) && params[j].name == n
  }

  /** None of the first `i` parameters is a blocked lookup. */
  ghost predicate Unblocked(params: seq<Param>, bound: map<string, Value>, start: seq<map<Key, Provider>>,
                            isAsync: bool, i: nat)
    requires i <= |params|
    decreases i
  {
    i == 0 ||
    (Unblocked(params, bound, start, isAsync, i - 1) &&
     (Wanted(params[i - 1], bound) ==> !Blocked(start, params[i - 1].annotation.value, isAsync)))
  }

  /** The consumer's test `name not in arguments` agrees with `Wanted` once the earlier parameters are filled. */
  lemma WantedTest(f: Callable, bound: map<string, Value>, start: seq<map<Key, Provider>>,
                   args: map<string, Value>, i: nat)
    requires f.WellFormed() && i < |f.params| && Filled(f.params, bound, start, args, i)
    ensures (f.params[i].name !in args && f.params[i].annotation.Some?) == Wanted(f.params[i], bound)
  {
  }

  /** The lookups for one more parameter: its annotation when it is wanted, nothing otherwise. */
  lemma RequestedStep(params: seq<Param>, bound: map<string, Value>, i: nat)
    requires i < |params|
    ensures Wanted(params[i], bound) ==> Requested(params[..i + 1], bound) == Requested(params[..i], bound) + [params[i].annotation.value]
    ensures !Wanted(params[i], bound) ==> Requested(params[..i + 1], bound) == Requested(params[..i], bound)
  {
    assert params[..i + 1][..i] == params[..i];
  }

  /** One more parameter that is not a blocked lookup keeps `Unblocked`. */
  lemma UnblockedStep(params: seq<Param>, bound: map<string, Value>, start: seq<map<Key, Provider>>, isAsync: bool, i: nat)
    requires i < |params| && Unblocked(params, bound, start, isAsync, i)
    requires Wanted(params[i], bound) ==> !Blocked(start, params[i].annotation.value, isAsync)
    ensures Unblocked(params, bound, start, isAsync, i + 1)
  {
  }

  /** A blocked wanted parameter anywhere makes the whole parameter list blocked. */
  lemma BlockedBreaks(params: seq<Param>, bound: map<string, Value>, start: seq<map<Key, Provider>>, isAsync: bool, i: nat)
    requires i < |params| && Wanted(params[i], bound) && Blocked(start, params[i].annotation.value, isAsync)
    ensures !Unblocked(params, bound, start, isAsync, |params|)
  {
    var n := i + 1;
    while n < |params|
      invariant i < n <= |params| && !Unblocked(params, bound, start, isAsync, n)
    {
      n := n + 1;
    }
  }

  /** Skipping a parameter that is not wanted keeps `Filled`. */
  lemma SkipStep(f: Callable, bound: map<string, Value>, start: seq<map<Key, Provider>>,
                 args: map<string, Value>, i: nat)
    requires i < |f.params| && Filled(f.params, bound, start, args, i) && !Wanted(f.params[i], bound)
    ensures Filled(f.params, bound, start, args, i + 1)
  {
    forall n | n in args
      ensures n in bound || exists j :: 0 <= j < i + 1 && Wanted(f.params[j], bound) && f.params[j].name == n
    {
      if n !in bound {
        var j :| 0 <= j < i && Wanted(f.params[j], bound) && f.params[j].name == n;
      }
    }
  }

  /** Filling a wanted parameter with a value its provider yields keeps `Filled`. */
  lemma FillStep(f: Callable, bound: map<string, Value>, start: seq<map<Key, Provider>>,
                 args: map<string, Value>, i: nat, v: Value)
    requires f.WellFormed() && i < |f.params| && Filled(f.params, bound, start, args, i)
    requires Wanted(f.params[i], bound) && Yields(Resolve(start, f.params[i].annotation.value), v)
    ensures Filled(f.params, bound, start, args[f.params[i].name := v], i + 1)
  {
    FillSupplies(f, bound, start, args, i, v);
    FillAddsOnlyWanted(f.params, bound, args, i, v);
  }

  /** The filled parameter holds its value, and the earlier ones, having other names, keep theirs. */
  lemma FillSupplies(f: Callable, bound: map<string, Value>, start: seq<map<Key, Provider>>,
                     args: map<string, Value>, i: nat, v: Value)
    requires f.WellFormed() && i < |f.params| && Supplied(f.params, bound, start, args, i)
    requires Wanted(f.params[i], bound) && Yields(Resolve(start, f.params[i].annotation.value), v)
    ensures Supplied(f.params, bound, start, args[f.params[i].name := v], i + 1)
  {
    SuppliedKeeps(f.params, bound, start, args, i, f.params[i].name, v);
  }

  /** Setting an argument no earlier parameter is named after keeps what they were supplied. */
  lemma {:induction false} SuppliedKeeps(params: seq<Param>, bound: map<string, Value>, start: seq<map<Key, Provider>>,
                                         args: map<string, Value>, i: nat, name: string, v: Value)
    requires i <= |params| && Supplied(params, bound, start, args, i)
    requires forall j :: 0 <= j < i ==> params[j].name != name
    ensures Supplied(params, bound, start, args[name := v], i)
    decreases i
  {
    if i > 0 {
      SuppliedKeeps(params, bound, start, args, i - 1, name, v);
    }
  }

  /** After `i` parameters, each wanted one among them holds a value its provider yields. */
  lemma {:induction false} SuppliedAt(params: seq<Param>, bound: map<string, Value>, start: seq<map<Key, Provider>>,
                                      args: map<string, Value>, i: nat, j: nat)
    requires i <= |params| && Supplied(params, bound, start, args, i)
    requires j < i && Wanted(params[j], bound)
    ensures params[j].name in args && Yields(Resolve(start, params[j].annotation.value), args[params[j].name])
    decreases i
  {
    if j < i - 1 {
      SuppliedAt(params, bound, start, args, i - 1, j);
    }
  }

  /** The one new argument belongs to the wanted parameter `i`. */
  lemma FillAddsOnlyWanted(params: seq<Param>, bound: map<string, Value>, args: map<string, Value>, i: nat, v: Value)
    requires i < |params| && OnlyWanted(params, bound, args, i) && Wanted(params[i], bound)
    ensures OnlyWanted(params, bound, args[params[i].name := v], i + 1)
  {
    var name, args' := params[i].name, args[params[i].name := v];
    forall n | n in args'
      ensures n in bound || exists j :: 0 <= j < i + 1 && Wanted(params[j], bound) && params[j].name == n
    {
      if n == name {
        assert Wanted(params[i], bound) && params[i].name == n;
      } else if n !in bound {
        var j :| 0 <= j < i && Wanted(params[j], bound) && params[j].name == n;
      }
    }
  }

  /** A parameter the consumer leaves alone: not passed and not annotated, so it stays out of the arguments. */
  lemma UnannotatedStaysAbsent(f: Callable, bound: map<string, Value>, start: seq<map<Key, Provider>>,
                               args: map<string, Value>, j: nat)
    requires f.WellFormed() && j < |f.params| && Filled(f.params, bound, start, args, |f.params|)
    requires f.params[j].name !in bound && f.params[j].annotation.None?
    ensures f.params[j].name !in args
  {
  }

  /** The state after `i` turns of the consumer's loop, starting from the maps `start`. */
  ghost predicate Midway(c: Consumer, bound: map<string, Value>, start: seq<map<Key, Provider>>,
                         args: map<string, Value>, keys: seq<Key>, i: nat)
    reads c.injector.Chain()`providers
  {
    i <= |c.target.params| &&
    keys == Requested(c.target.params[..i], bound) && Maps(c.injector.Chain()) == CachedAll(start, keys) &&
    Unblocked(c.target.params, bound, start, c.target.isAsync, i) &&
    Filled(c.target.params, bound, start, args, i)
  }

  ghost predicate Progress(c: Consumer, bound: map<string, Value>, start: seq<map<Key, Provider>>,
                         args: map<string, Value>, keys: seq<Key>, i: nat, provs: set<Provider>, init: map<Provider, Slot>)
    reads c.injector.Chain()`providers, provs
  {
    Midway(c, bound, start, args, keys, i) && Served(provs, init, start, keys, c.target.isAsync)
  }

  /**
   * One turn of the consumer's loop: parameter `i` is filled when it is wanted and left alone
   * otherwise; a blocked lookup raises.
   */
  method FillParam(c: Consumer, bound: map<string, Value>, args: map<string, Value>, i: nat,
                   ghost start: seq<map<Key, Provider>>, ghost keys: seq<Key>, ghost provs: set<Provider>,
                   ghost init: map<Provider, Slot>)
    returns (r: Result<map<string, Value>, InjectionError>, ghost keys': seq<Key>)
    requires c.injector.Linked() && c.target.WellFormed() && i < |c.target.params|
    requires Midway(c, bound, start, args, keys, i)
    requires Held(start) <= provs && Served(provs, init, start, keys, c.target.isAsync)
    modifies c.injector.Chain()`providers, provs
    ensures Served(provs, init, start, keys', c.target.isAsync)
    ensures keys' == Requested(c.target.params[..i + 1], bound) && Maps(c.injector.Chain()) == CachedAll(start, keys')
    ensures r.Success? ==> Midway(c, bound, start, r.value, keys', i + 1)
    ensures r.Failure? ==>
              Wanted(c.target.params[i], bound) &&
              Blocked(start, c.target.params[i].annotation.value, c.target.isAsync) &&
              r.error == Refusal(start, c.target.params[i].annotation.value, c.target.isAsync)
  {
    var p := c.target.params[i];
    RequestedStep(c.target.params, bound, i);
    WantedTest(c.target, bound, start, args, i);
    if p.name !in args && p.annotation.Some? {
      var v := Supply(c.injector, p.annotation.value, c.target.isAsync, start, keys, provs, init);
      keys' := keys + [p.annotation.value];
      if v.Failure? {
        return Failure(v.error), keys';
      }
      FillStep(c.target, bound, start, args, i, v.value);
      UnblockedStep(c.target.params, bound, start, c.target.isAsync, i);
      r := Success(args[p.name := v.value]);
    } else {
      SkipStep(c.target, bound, start, args, i);
      UnblockedStep(c.target.params, bound, start, c.target.isAsync, i);
      r, keys' := Success(args), keys;
    }
  }

  /**
   * A call of the consumer `c` with the arguments `bound` (what `bind_partial` bound): returns
   * the arguments the wrapped callable is then called with. Each parameter the caller left out
   * that has an annotation gets a value from the provider the injector resolves for it; the
   * first lookup that fails raises, after the lookups before it have taken effect.
   */
  method Invoke(c: Consumer, bound: map<string, Value>, ghost provs: set<Provider>)
    returns (r: Result<map<string, Value>, InjectionError>, ghost at: nat, ghost used: seq<Key>,
             ghost init: map<Provider, Slot>)
    requires c.injector.Linked() && c.target.WellFormed()
    requires provs == Held(Maps(c.injector.Chain())) && AllValid(provs)
    modifies c.injector.Chain()`providers, provs
    ensures r.Failure? <==> !Unblocked(c.target.params, bound, old(Maps(c.injector.Chain())), c.target.isAsync, |c.target.params|)
    ensures r.Success? ==> at == |c.target.params|
    ensures r.Failure? ==>
              at < |c.target.params| && Wanted(c.target.params[at], bound) &&
              Unblocked(c.target.params, bound, old(Maps(c.injector.Chain())), c.target.isAsync, at) &&
              Blocked(old(Maps(c.injector.Chain())), c.target.params[at].annotation.value, c.target.isAsync) &&
              r.error == Refusal(old(Maps(c.injector.Chain())), c.target.params[at].annotation.value, c.target.isAsync)
    ensures r.Success? ==> Filled(c.target.params, bound, old(Maps(c.injector.Chain())), r.value, |c.target.params|)
    ensures used == Requested(c.target.params[..if r.Success? then at else at + 1], bound)
    ensures Maps(c.injector.Chain()) == CachedAll(old(Maps(c.injector.Chain())), used)
    ensures init == map p | p in provs :: old(p.State())
    ensures Served(provs, init, old(Maps(c.injector.Chain())), used, c.target.isAsync)
  {
    var params, inj, isAsync := c.target.params, c.injector, c.target.isAsync;
    ghost var start := old(Maps(c.injector.Chain()));
    var args := bound;
    var i := 0;
    ghost var keys: seq<Key> := [];
    init := map p | p in provs :: p.State();
    ServedAtStart(provs, init, start, isAsync);
    while i < |params|
      invariant Progress(c, bound, start, args, keys, i, provs, init)
    {
      var step;
      step, keys := FillParam(c, bound, args, i, start, keys, provs, init);
      if step.Failure? {
        BlockedBreaks(params, bound, start, isAsync, i);
        return Failure(step.error), i, keys, init;
      }
      args := step.value;
      i := i + 1;
    }
    r, at, used := Success(args), i, keys;
  }

  /** Before any lookup, valid providers that still hold their recorded slots are served. */
  lemma ServedAtStart(provs: set<Provider>, init: map<Provider, Slot>, start: seq<map<Key, Provider>>, isAsync: bool)
    requires AllValid(provs) && init == map p | p in provs :: p.State()
    ensures Served(provs, init, start, [], isAsync)
  {
  }

  /**
   * What `Served` means for one provider: one that no lookup found keeps its slot; a factory
   * called the way it supports (a sync one either way, an async one from a coroutine consumer)
   * has run its callable once per lookup that found it; an async provider asked from a plain
   * function has not run at all; a provider or service has still run its callable at most once.
   */
  lemma ServedCounts(provs: set<Provider>, init: map<Provider, Slot>, start: seq<map<Key, Provider>>,
                     keys: seq<Key>, isAsync: bool, p: Provider)
    requires Served(provs, init, start, keys, isAsync) && p in provs
    ensures (forall i :: 0 <= i < |keys| ==> Resolve(start, keys[i]) != Some(p)) ==> p.State() == init[p]
    ensures !p.kind.Caches() && (p.kind.IsAsync() ==> isAsync) ==>
              p.calls == init[p].calls + Hits(start, keys, p)
    ensures p.kind.IsAsync() && !isAsync ==> p.State() == init[p]
    ensures p.kind.Caches() && SlotOk(p.kind, p.source, init[p]) ==> SlotOk(p.kind, p.source, p.State()) && p.calls <= 1
  {
    RequestsRun(p.kind, p.source, init[p], isAsync, Hits(start, keys, p));
  }


  /**
   * A call that binds every annotated parameter looks nothing up, and one that looks nothing up
   * left no annotated parameter unbound.
   */
  lemma {:induction false} NothingRequested(params: seq<Param>, bound: map<string, Value>)
    ensures Requested(params, bound) == [] <==> forall i :: 0 <= i < |params| ==> !Wanted(params[i], bound)
    decreases |params|
  {
    if params != [] {
      var init := params[..|params| - 1];
      NothingRequested(init, bound);
      assert forall i :: 0 <= i < |init| ==> init[i] == params[i];
    }
  }
}
