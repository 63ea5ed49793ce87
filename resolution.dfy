/**
 * Provider lookup along a scope chain, on values. `ms[0]` is the providers map of the
 * injector asked, `ms[1]` its parent's, and so on up to the root.
 */
module Resolution {
  import opened Wrappers

  /** The entry of `m` for `k`, None when `k` is not a key of `m`. */
  function Entry<K(==, !new), V>(m: map<K, V>, k: K): Option<V>
  {
    if k in m then Some(m[k]) else None
  }

  /** The position of the nearest map that holds `k`; |ms| when none does. */
  function Nearest<K(==, !new), V>(ms: seq<map<K, V>>, k: K): (i: nat)
    ensures i <= |ms|
    ensures i < |ms| ==> k in ms[i]
    ensures forall j {:trigger k in ms[j]} :: 0 <= j < i ==> k !in ms[j]
    decreases |ms|
  {
    if ms == [] || k in ms[0] then 0 else 1 + Nearest(ms[1..], k)
  }

  /** `Nearest` is the only position with its two properties. */
  lemma NearestIs<K(!new), V>(ms: seq<map<K, V>>, k: K, i: nat)
    requires i <= |ms|
    requires i < |ms| ==> k in ms[i]
    requires forall j :: 0 <= j < i ==> k !in ms[j]
    ensures Nearest(ms, k) == i
  {
  }

  /** What a lookup of `k` from the first injector finds: the entry of the nearest holder. */
  function Resolve<K(==, !new), V>(ms: seq<map<K, V>>, k: K): (r: Option<V>)
  {
    var n := Nearest(ms, k);
    if n < |ms| then Some(ms[n][k]) else None
  }

  /**
   * A lookup fails exactly when no map holds `k`; otherwise it finds the entry of a map that
   * holds `k` with none before it holding `k`.
   */
  lemma ResolveMeaning<K(!new), V>(ms: seq<map<K, V>>, k: K)
    ensures Resolve(ms, k).None? <==> forall i :: 0 <= i < |ms| ==> k !in ms[i]
    ensures Resolve(ms, k).Some? ==>
              exists i :: 0 <= i < |ms| && k in ms[i] && Resolve(ms, k).value == ms[i][k] &&
                          forall j :: 0 <= j < i ==> k !in ms[j]
  {
  }

  /**
   * The maps after a lookup of `k` from the first injector that caches what it finds:
   * every map below the nearest holder now holds the holder's entry for `k`.
   */
  function CachedAlong<K(==, !new), V>(ms: seq<map<K, V>>, k: K): (r: seq<map<K, V>>)
    ensures |r| == |ms|
    ensures Resolve(ms, k).None? ==> r == ms
  {
    var n := Nearest(ms, k);
    seq(|ms|, i requires 0 <= i < |ms| => if i < n && n < |ms| then ms[i][k := ms[n][k]] else ms[i])
  }

  /**
   * What caching changes: only entries for `k`, and only below the holder, each of which now
   * gives what the lookup found; the holder and everything above it stay as they were.
   */
  lemma CachedAlongEntries<K(!new), V>(ms: seq<map<K, V>>, k: K)
    ensures forall i, k2 :: 0 <= i < |ms| && k2 != k ==> Entry(CachedAlong(ms, k)[i], k2) == Entry(ms[i], k2)
    ensures forall i :: 0 <= i < |ms| && i <= Nearest(ms, k) && Resolve(ms, k).Some? ==>
                          Entry(CachedAlong(ms, k)[i], k) == Resolve(ms, k)
    ensures forall i :: 0 <= i < |ms| && Nearest(ms, k) <= i ==> CachedAlong(ms, k)[i] == ms[i]
  {
  }

  /** One map of `CachedAlong`, as defined. */
  lemma CachedAt<K(!new), V>(ms: seq<map<K, V>>, k: K, i: nat)
    requires i < |ms|
    ensures CachedAlong(ms, k)[i]
         == if i < Nearest(ms, k) && Nearest(ms, k) < |ms| then ms[i][k := ms[Nearest(ms, k)][k]] else ms[i]
  {
  }

  /** A local hit: the lookup answers from the first map and caches nothing. */
  lemma LookupHit<K(!new), V>(ms: seq<map<K, V>>, k: K)
    requires |ms| > 0 && k in ms[0]
    ensures Resolve(ms, k) == Some(ms[0][k])
    ensures CachedAlong(ms, k) == ms
  {
    NearestIs(ms, k, 0);
  }

  /** A local miss: the lookup is the parent's, and the first map caches what the parent found. */
  lemma LookupMiss<K(!new), V>(m: map<K, V>, ms: seq<map<K, V>>, k: K)
    requires k !in m
    ensures Resolve([m] + ms, k) == Resolve(ms, k)
    ensures CachedAlong([m] + ms, k)
         == [if Resolve(ms, k).Some? then m[k := Resolve(ms, k).value] else m] + CachedAlong(ms, k)
  {
    var all := [m] + ms;
    assert all[1..] == ms;
    var n := Nearest(ms, k);
    NearestIs(all, k, n + 1);
    var lhs := CachedAlong(all, k);
    var rest := CachedAlong(ms, k);
    var rhs := [if Resolve(ms, k).Some? then m[k := Resolve(ms, k).value] else m] + rest;
    assert |lhs| == |rhs|;
    forall i | 0 <= i < |lhs| ensures lhs[i] == rhs[i] {
      CachedAt(all, k, i);
      if i > 0 {
        assert all[i] == ms[i - 1] && rhs[i] == rest[i - 1];
        CachedAt(ms, k, i - 1);
      }
    }
  }

  /** Lookups that see the same entries for `k` find the same thing. */
  lemma ResolveByEntries<K(!new), V>(a: seq<map<K, V>>, b: seq<map<K, V>>, k: K)
    requires |a| == |b|
    requires forall i :: 0 <= i < |a| ==> Entry(a[i], k) == Entry(b[i], k)
    ensures Resolve(a, k) == Resolve(b, k)
  {
    var n := Nearest(a, k);
    assert forall j :: 0 <= j < n ==> Entry(b[j], k) == Entry(a[j], k);
    NearestIs(b, k, n);
  }

  /** Caching is invisible: from every injector of the chain, every key resolves as before. */
  lemma {:induction false} CachingKeepsAnswers<K(!new), V>(ms: seq<map<K, V>>, k: K, k2: K, i: nat)
    requires i <= |ms|
    ensures Resolve(CachedAlong(ms, k)[i..], k2) == Resolve(ms[i..], k2)
  {
    var r := CachedAlong(ms, k);
    var n := Nearest(ms, k);
    CachedAlongEntries(ms, k);
    if k2 != k || n == |ms| || n < i {
      forall j | 0 <= j < |ms| - i ensures Entry(r[i..][j], k2) == Entry(ms[i..][j], k2) {
        assert r[i..][j] == r[i + j] && ms[i..][j] == ms[i + j];
      }
      ResolveByEntries(r[i..], ms[i..], k2);
    } else {
      assert forall j :: 0 <= j < n - i ==> ms[i..][j] == ms[i + j];
      NearestIs(ms[i..], k, n - i);
      assert Entry(r[i], k) == Resolve(ms, k);
      NearestIs(r[i..], k, 0);
    }
  }

  /** Looking the same key up twice caches nothing more. */
  lemma {:induction false} CachingIdempotent<K(!new), V>(ms: seq<map<K, V>>, k: K)
    ensures CachedAlong(CachedAlong(ms, k), k) == CachedAlong(ms, k)
  {
    var r := CachedAlong(ms, k);
    CachedAlongEntries(ms, k);
    CachedAlongEntries(r, k);
    if Resolve(ms, k).Some? {
      assert Entry(r[0], k) == Resolve(ms, k);
      NearestIs(r, k, 0);
    }
  }

  /** Every provider held anywhere on the chain. */
  function Held<K(==, !new), V(==)>(ms: seq<map<K, V>>): set<V>
  {
    set i, k | 0 <= i < |ms| && k in ms[i] :: ms[i][k]
  }

  /** What a lookup finds is held by one of the maps. */
  lemma ProviderIsHeld<K(!new), V>(ms: seq<map<K, V>>, k: K)
    requires Resolve(ms, k).Some?
    ensures Resolve(ms, k).value in Held(ms)
  {
    var i :| 0 <= i < |ms| && k in ms[i] && ms[i][k] == Resolve(ms, k).value;
  }

  /** Caching only copies providers that are already held. */
  lemma {:induction false} CachingKeepsHeld<K(!new), V>(ms: seq<map<K, V>>, k: K)
    ensures Held(CachedAlong(ms, k)) == Held(ms)
  {
    var r := CachedAlong(ms, k);
    var n := Nearest(ms, k);
    CachedAlongEntries(ms, k);
    forall v | v in Held(r) ensures v in Held(ms) {
      var i, k2 :| 0 <= i < |r| && k2 in r[i] && r[i][k2] == v;
      if k2 != k || n <= i || n == |ms| {
        assert Entry(r[i], k2) == Entry(ms[i], k2);
      } else {
        assert v == ms[n][k];
      }
    }
    forall v | v in Held(ms) ensures v in Held(r) {
      var i, k2 :| 0 <= i < |ms| && k2 in ms[i] && ms[i][k2] == v;
      assert Entry(r[i], k2) == Entry(ms[i], k2);
    }
  }

  /** The maps after looking up each key of `keys` in turn from the first one. */
  function CachedAll<K(==, !new), V>(ms: seq<map<K, V>>, keys: seq<K>): (r: seq<map<K, V>>)
    ensures |r| == |ms|
    decreases |keys|
  {
    if keys == [] then ms else CachedAlong(CachedAll(ms, keys[..|keys| - 1]), keys[|keys| - 1])
  }

  /** One more lookup caches along the maps the earlier ones left. */
  lemma CachedAllSnoc<K(!new), V>(ms: seq<map<K, V>>, keys: seq<K>, k: K)
    ensures CachedAll(ms, keys + [k]) == CachedAlong(CachedAll(ms, keys), k)
  {
    assert (keys + [k])[..|keys|] == keys;
  }

  /**
   * However many lookups are made, every key still resolves as it did, the same providers are
   * held, and keys never looked up keep their entries everywhere.
   */
  lemma {:induction false} CachedAllKeeps<K(!new), V>(ms: seq<map<K, V>>, keys: seq<K>, k2: K)
    ensures Resolve(CachedAll(ms, keys), k2) == Resolve(ms, k2)
    ensures Held(CachedAll(ms, keys)) == Held(ms)
    ensures k2 !in keys ==> forall i :: 0 <= i < |ms| ==> Entry(CachedAll(ms, keys)[i], k2) == Entry(ms[i], k2)
    decreases |keys|
  {
    if keys != [] {
      var front, last := keys[..|keys| - 1], keys[|keys| - 1];
      var before := CachedAll(ms, front);
      CachedAllKeeps(ms, front, k2);
      CachingKeepsAnswers(before, last, k2, 0);
      assert before[0..] == before && CachedAlong(before, last)[0..] == CachedAlong(before, last);
      CachingKeepsHeld(before, last);
      if k2 !in keys {
        assert k2 !in front;
        CachedAlongEntries(before, last);
      }
    }
  }

  /** How many of the lookups of `keys` from the first map find `v`. */
  function Hits<K(==, !new), V(==)>(ms: seq<map<K, V>>, keys: seq<K>, v: V): (n: nat)
    ensures n <= |keys|
    ensures (forall i :: 0 <= i < |keys| ==> Resolve(ms, keys[i]) != Some(v)) ==> n == 0
    decreases |keys|
  {
    if keys == [] then 0
    else Hits(ms, keys[..|keys| - 1], v) + if Resolve(ms, keys[|keys| - 1]) == Some(v) then 1 else 0
  }

  /** One more lookup counts when it finds `v`. */
  lemma HitsSnoc<K(!new), V>(ms: seq<map<K, V>>, keys: seq<K>, k: K, v: V)
    ensures Hits(ms, keys + [k], v) == Hits(ms, keys, v) + if Resolve(ms, k) == Some(v) then 1 else 0
  {
    assert (keys + [k])[..|keys|] == keys;
  }

  /** The maps after `ms[j]` registers `p` for `k` (last write wins). */
  function Registered<K(==, !new), V>(ms: seq<map<K, V>>, j: nat, k: K, p: V): (r: seq<map<K, V>>)
    requires j < |ms|
    ensures |r| == |ms| && Entry(r[j], k) == Some(p)
    ensures forall i, k2 :: 0 <= i < |ms| && (i != j || k2 != k) ==> Entry(r[i], k2) == Entry(ms[i], k2)
  {
    ms[j := ms[j][k := p]]
  }

  /**
   * Ancestor-first visibility: a registration at `ms[j]` is seen from every injector below it that
   * has no closer entry, and by no injector above it.
   */
  lemma {:induction false} RegistrationVisibility<K(!new), V>(ms: seq<map<K, V>>, j: nat, k: K, p: V, i: nat)
    requires j < |ms| && i <= |ms|
    ensures j < i ==> Resolve(Registered(ms, j, k, p)[i..], k) == Resolve(ms[i..], k)
    ensures i <= j && (forall h :: i <= h < j ==> k !in ms[h]) ==>
              Resolve(Registered(ms, j, k, p)[i..], k) == Some(p)
  {
    var r := Registered(ms, j, k, p);
    if j < i {
      forall h | 0 <= h < |ms| - i ensures Entry(r[i..][h], k) == Entry(ms[i..][h], k) {
        assert r[i..][h] == r[i + h] && ms[i..][h] == ms[i + h];
      }
      ResolveByEntries(r[i..], ms[i..], k);
    } else if forall h :: i <= h < j ==> k !in ms[h] {
      forall h | 0 <= h < j - i ensures k !in r[i..][h] {
        assert r[i..][h] == r[i + h] && Entry(r[i + h], k) == Entry(ms[i + h], k);
      }
      NearestIs(r[i..], k, j - i);
    }
  }

  /**
   * Staleness of the cache: once a lookup from `ms[0]` has cached `k`, a later registration for
   * `k` at an ancestor on the way to the holder is not seen from `ms[0]`, although it would
   * have been without the earlier lookup.
   */
  lemma {:induction false} CacheShadowsLaterRegistration<K(!new), V>(ms: seq<map<K, V>>, k: K, j: nat, p: V)
    requires 0 < j < |ms| && j <= Nearest(ms, k) && Resolve(ms, k).Some?
    ensures Resolve(Registered(ms, j, k, p), k) == Some(p)
    ensures Resolve(Registered(CachedAlong(ms, k), j, k, p), k) == Resolve(ms, k)
  {
    RegistrationVisibility(ms, j, k, p, 0);
    CachedAlongEntries(ms, k);
    var r := Registered(CachedAlong(ms, k), j, k, p);
    assert Entry(r[0], k) == Entry(CachedAlong(ms, k)[0], k) == Resolve(ms, k);
    NearestIs(r, k, 0);
  }

  /** Writes `v` under every key of `keys` (a registration loop), leaving other keys alone. */
  function Overwrite<K(==, !new), V>(m: map<K, V>, keys: seq<K>, v: V): (r: map<K, V>)
    ensures forall k :: k in keys ==> Entry(r, k) == Some(v)
    ensures forall k :: k !in keys ==> Entry(r, k) == Entry(m, k)
  {
    m + map k | k in keys :: v
  }

  /** Writing under one more key is one more map update: the registration loop's step. */
  lemma OverwriteExtends<K(!new), V>(m: map<K, V>, keys: seq<K>, k: K, v: V)
    ensures Overwrite(m, keys + [k], v) == Overwrite(m, keys, v)[k := v]
  {
    assert forall a :: a in keys + [k] <==> a in keys || a == k;
  }

  /**
   * A registration under `keys` at the first injector answers exactly the keys of `keys`
   * with the new provider; every other key resolves as before.
   */
  lemma {:induction false} RegistrationAnswersItsKeys<K(!new), V>(ms: seq<map<K, V>>, keys: seq<K>, v: V, a: K)
    requires |ms| > 0
    ensures Resolve([Overwrite(ms[0], keys, v)] + ms[1..], a) == if a in keys then Some(v) else Resolve(ms, a)
  {
    var r := [Overwrite(ms[0], keys, v)] + ms[1..];
    if a in keys {
      NearestIs(r, a, 0);
    } else {
      forall i | 0 <= i < |ms| ensures Entry(r[i], a) == Entry(ms[i], a) {
      }
      ResolveByEntries(r, ms, a);
    }
  }
}
