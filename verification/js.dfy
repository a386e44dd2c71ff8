/**
 * The JavaScript values the wrapper manipulates: nullable values, string truthiness and
 * plain objects with their own properties in enumeration order.
 *
 * The functions on objects carry no postconditions of their own; what they compute is
 * stated by the lemmas that follow each of them, so that a proof about one object
 * operation does not drag in the contracts of all the others.
 */
module Js {
  import opened Wrappers

  /** A value that may be `undefined`, `null` or defined. */
  datatype Nullable<+T> = Undefined | Null | Defined(value: T)

  /** The `TypeError` thrown by destructuring `undefined` or `null`. */
  datatype TypeError = TypeError

  /** `!!s` for a string: only the empty string is falsy. */
  predicate Truthy(s: string)
  {
    s != ""
  }

  /** An optional string that is present and truthy. */
  predicate Given(s: Option<string>)
  {
    s.Some? && Truthy(s.value)
  }

  /** `a || b` for two strings. */
  function OrElse(a: string, b: string): string
  {
    if Truthy(a) then a else b
  }

  /** One own enumerable property of a plain object. */
  datatype Property<+V> = Property(key: string, value: V)

  /**
   * A plain object as the list of its own properties in enumeration order.
   * Objects built by the operations below never repeat a key (see `DistinctKeys`).
   */
  type Obj<V> = seq<Property<V>>

  /** `Object.keys(o)`. */
  function Keys<V>(o: Obj<V>): (ks: seq<string>)
    ensures |ks| == |o|
  {
    if o == [] then [] else [o[0].key] + Keys(o[1..])
  }

  lemma {:induction false} KeysAt<V>(o: Obj<V>, i: nat)
    requires i < |o|
    ensures Keys(o)[i] == o[i].key
  {
    if i > 0 {
      KeysAt(o[1..], i - 1);
    }
  }

  lemma {:induction false} KeysConcat<V>(a: Obj<V>, b: Obj<V>)
    ensures Keys(a + b) == Keys(a) + Keys(b)
  {
    if a != [] {
      assert (a + b)[0] == a[0];
      assert (a + b)[1..] == a[1..] + b;
      KeysConcat(a[1..], b);
      assert Keys(a + b) == [a[0].key] + (Keys(a[1..]) + Keys(b));
    } else {
      assert a + b == b;
    }
  }

  /** No key is listed twice. */
  predicate Distinct(ks: seq<string>)
  {
    forall i, j :: 0 <= i < j < |ks| ==> ks[i] != ks[j]
  }

  /** A well-formed object: no property name appears twice. */
  predicate DistinctKeys<V>(o: Obj<V>)
  {
    Distinct(Keys(o))
  }

  /** A key list with a first key in front is distinct exactly when that key is new and the rest is distinct. */
  lemma DistinctCons(x: string, ks: seq<string>)
    ensures Distinct([x] + ks) <==> x !in ks && Distinct(ks)
  {
    var r := [x] + ks;
    if x !in ks && Distinct(ks) {
      forall i, j | 0 <= i < j < |r|
        ensures r[i] != r[j]
      {
        assert r[j] == ks[j - 1];
        if i > 0 {
          assert r[i] == ks[i - 1];
        }
      }
    }
    if Distinct(r) {
      forall i, j | 0 <= i < j < |ks|
        ensures ks[i] != ks[j]
      {
        assert ks[i] == r[i + 1] && ks[j] == r[j + 1];
      }
      forall j | 0 <= j < |ks|
        ensures ks[j] != x
      {
        assert ks[j] == r[j + 1] && x == r[0];
      }
    }
  }

  lemma DistinctAppend(ks: seq<string>, k: string)
    requires Distinct(ks) && k !in ks
    ensures Distinct(ks + [k])
  {
    var r := ks + [k];
    forall i, j | 0 <= i < j < |r|
      ensures r[i] != r[j]
    {
      if j < |ks| {
        assert r[i] == ks[i] && r[j] == ks[j];
      } else {
        assert r[i] == ks[i] && r[j] == k;
      }
    }
  }

  /** An object with one more property in front. */
  lemma ConsKeys<V>(p: Property<V>, o: Obj<V>)
    ensures Keys([p] + o) == [p.key] + Keys(o)
    ensures DistinctKeys([p] + o) <==> p.key !in Keys(o) && DistinctKeys(o)
  {
    assert ([p] + o)[1..] == o;
    DistinctCons(p.key, Keys(o));
  }

  /** `o[k]`, with `None` for a key the object does not have. */
  function Get<V>(o: Obj<V>, k: string): Option<V>
  {
    if o == [] then None
    else if o[0].key == k then Some(o[0].value)
    else Get(o[1..], k)
  }

  /** A read finds a value exactly for the keys the object lists. */
  lemma {:induction false} GetDefined<V>(o: Obj<V>, k: string)
    ensures Get(o, k).Some? <==> k in Keys(o)
  {
    if o != [] {
      GetDefined(o[1..], k);
    }
  }

  lemma ConsGet<V>(p: Property<V>, o: Obj<V>, k: string)
    ensures Get([p] + o, k) == if p.key == k then Some(p.value) else Get(o, k)
  {
    assert ([p] + o)[1..] == o;
  }

  /** Every property named `k` takes the value `v`; all other properties are kept. */
  function Update<V>(o: Obj<V>, k: string, v: V): Obj<V>
  {
    if o == [] then []
    else [if o[0].key == k then Property(k, v) else o[0]] + Update(o[1..], k, v)
  }

  lemma {:induction false} UpdateKeys<V>(o: Obj<V>, k: string, v: V)
    ensures Keys(Update(o, k, v)) == Keys(o)
  {
    if o != [] {
      UpdateKeys(o[1..], k, v);
      ConsKeys(if o[0].key == k then Property(k, v) else o[0], Update(o[1..], k, v));
    }
  }

  lemma {:induction false} UpdateGet<V>(o: Obj<V>, k: string, v: V, k': string)
    ensures Get(Update(o, k, v), k') == if k' == k && k in Keys(o) then Some(v) else Get(o, k')
  {
    if o != [] {
      UpdateGet(o[1..], k, v, k');
      ConsGet(if o[0].key == k then Property(k, v) else o[0], Update(o[1..], k, v), k');
      ConsKeys(o[0], o[1..]);
      assert o == [o[0]] + o[1..];
    }
  }

  /**
   * The assignment `o[k] = v`: a property that exists keeps its place and takes the new value,
   * a new property is added last.
   */
  function Set<V>(o: Obj<V>, k: string, v: V): Obj<V>
  {
    if o == [] then [Property(k, v)]
    else if o[0].key == k then [Property(k, v)] + Update(o[1..], k, v)
    else [o[0]] + Set(o[1..], k, v)
  }

  /** After `o[k] = v`, reading `k` gives `v` and every other key reads as before. */
  lemma {:induction false} SetGet<V>(o: Obj<V>, k: string, v: V, k': string)
    ensures Get(Set(o, k, v), k') == if k' == k then Some(v) else Get(o, k')
  {
    if o != [] {
      assert o == [o[0]] + o[1..];
      ConsGet(o[0], o[1..], k');
      if o[0].key == k {
        ConsGet(Property(k, v), Update(o[1..], k, v), k');
        UpdateGet(o[1..], k, v, k');
      } else {
        ConsGet(o[0], Set(o[1..], k, v), k');
        SetGet(o[1..], k, v, k');
      }
    }
  }

  /** An existing key keeps its place; a new key is listed last. */
  lemma {:induction false} SetKeys<V>(o: Obj<V>, k: string, v: V)
    ensures Keys(Set(o, k, v)) == if k in Keys(o) then Keys(o) else Keys(o) + [k]
  {
    if o != [] {
      assert o == [o[0]] + o[1..];
      ConsKeys(o[0], o[1..]);
      if o[0].key == k {
        ConsKeys(Property(k, v), Update(o[1..], k, v));
        UpdateKeys(o[1..], k, v);
      } else {
        ConsKeys(o[0], Set(o[1..], k, v));
        SetKeys(o[1..], k, v);
      }
    }
  }

  /** An assignment never introduces a repeated key. */
  lemma SetKeepsDistinct<V>(o: Obj<V>, k: string, v: V)
    requires DistinctKeys(o)
    ensures DistinctKeys(Set(o, k, v))
  {
    SetKeys(o, k, v);
    if k !in Keys(o) {
      DistinctAppend(Keys(o), k);
    }
  }

  /** Assigning a key the object lacks appends exactly that property. */
  lemma {:induction false} SetNew<V>(o: Obj<V>, k: string, v: V)
    requires k !in Keys(o)
    ensures Set(o, k, v) == o + [Property(k, v)]
  {
    if o != [] {
      assert o == [o[0]] + o[1..];
      ConsKeys(o[0], o[1..]);
      SetNew(o[1..], k, v);
      assert o + [Property(k, v)] == [o[0]] + (o[1..] + [Property(k, v)]);
    }
  }

  /** Assigns `v` to each key of `ks` in turn, as a `forEach` or a `reduce` over `ks` does. */
  function SetEach<V>(o: Obj<V>, ks: seq<string>, v: V): Obj<V>
    decreases |ks|
  {
    if ks == [] then o else SetEach(Set(o, ks[0], v), ks[1..], v)
  }

  /** Every listed key reads `v`; every other key reads as before. */
  lemma {:induction false} SetEachGet<V>(o: Obj<V>, ks: seq<string>, v: V, k: string)
    ensures Get(SetEach(o, ks, v), k) == if k in ks then Some(v) else Get(o, k)
    decreases |ks|
  {
    if ks != [] {
      assert ks == [ks[0]] + ks[1..];
      SetEachGet(Set(o, ks[0], v), ks[1..], v, k);
      SetGet(o, ks[0], v, k);
    }
  }

  lemma {:induction false} SetEachDistinct<V>(o: Obj<V>, ks: seq<string>, v: V)
    requires DistinctKeys(o)
    ensures DistinctKeys(SetEach(o, ks, v))
    decreases |ks|
  {
    if ks != [] {
      SetKeepsDistinct(o, ks[0], v);
      SetEachDistinct(Set(o, ks[0], v), ks[1..], v);
    }
  }

  /** No key of `ks` is listed in `present`. */
  predicate AllAbsent(ks: seq<string>, present: seq<string>)
  {
    forall i :: 0 <= i < |ks| ==> ks[i] !in present
  }

  /** The keys after the first of a distinct, absent list are distinct and absent after the first is added. */
  lemma DistinctRest(ks: seq<string>, present: seq<string>)
    requires ks != [] && Distinct(ks) && AllAbsent(ks, present)
    ensures Distinct(ks[1..]) && AllAbsent(ks[1..], present + [ks[0]])
  {
    assert ks == [ks[0]] + ks[1..];
    DistinctCons(ks[0], ks[1..]);
    forall i | 0 <= i < |ks[1..]|
      ensures ks[1..][i] !in present + [ks[0]]
    {
      assert ks[1..][i] == ks[i + 1];
    }
  }

  /** Assigning distinct keys that are all new appends them in order. */
  lemma {:induction false} SetEachNew<V>(o: Obj<V>, ks: seq<string>, v: V)
    requires Distinct(ks) && AllAbsent(ks, Keys(o))
    ensures Keys(SetEach(o, ks, v)) == Keys(o) + ks
    decreases |ks|
  {
    if ks != [] {
      var next := Set(o, ks[0], v);
      assert Keys(next) == Keys(o) + [ks[0]] by {
        assert ks[0] !in Keys(o);
        SetKeys(o, ks[0], v);
      }
      assert Distinct(ks[1..]) && AllAbsent(ks[1..], Keys(next)) by {
        DistinctRest(ks, Keys(o));
      }
      assert Keys(SetEach(next, ks[1..], v)) == Keys(next) + ks[1..] by {
        SetEachNew(next, ks[1..], v);
      }
      assert Keys(o) + [ks[0]] + ks[1..] == Keys(o) + ks;
    }
  }

  /** The spread `{ ...a, ...b }`: `b`'s properties assigned, in order, onto a copy of `a`. */
  function Spread<V>(a: Obj<V>, b: Obj<V>): Obj<V>
    decreases |b|
  {
    if b == [] then a else Spread(Set(a, b[0].key, b[0].value), b[1..])
  }

  /** The first assignment of a spread, and what the rest of the spread still sees. */
  lemma SpreadUnfold<V>(a: Obj<V>, b: Obj<V>)
    requires b != []
    ensures Spread(a, b) == Spread(Set(a, b[0].key, b[0].value), b[1..])
    ensures Keys(b) == [b[0].key] + Keys(b[1..])
    ensures DistinctKeys(b) ==> DistinctKeys(b[1..]) && b[0].key !in Keys(b[1..])
  {
    ConsKeys(b[0], b[1..]);
    assert b == [b[0]] + b[1..];
  }

  /** In `{ ...a, ...b }` every property of `b` wins; `a` supplies only the keys `b` lacks. */
  lemma {:induction false} SpreadGet<V>(a: Obj<V>, b: Obj<V>, k: string)
    requires DistinctKeys(b)
    ensures Get(Spread(a, b), k) == if k in Keys(b) then Get(b, k) else Get(a, k)
    decreases |b|
  {
    if b != [] {
      SpreadUnfold(a, b);
      assert b == [b[0]] + b[1..];
      ConsGet(b[0], b[1..], k);
      SetGet(a, b[0].key, b[0].value, k);
      SpreadGet(Set(a, b[0].key, b[0].value), b[1..], k);
    }
  }

  /** A spread onto a well-formed object is well-formed. */
  lemma {:induction false} SpreadDistinct<V>(a: Obj<V>, b: Obj<V>)
    requires DistinctKeys(a)
    ensures DistinctKeys(Spread(a, b))
    decreases |b|
  {
    if b != [] {
      SpreadUnfold(a, b);
      SetKeepsDistinct(a, b[0].key, b[0].value);
      SpreadDistinct(Set(a, b[0].key, b[0].value), b[1..]);
    }
  }

  /** The keys of `ks` that `present` does not list, in order. */
  function Fresh(ks: seq<string>, present: seq<string>): seq<string>
  {
    if ks == [] then []
    else (if ks[0] in present then [] else [ks[0]]) + Fresh(ks[1..], present)
  }

  lemma {:induction false} FreshIgnores(ks: seq<string>, present: seq<string>, x: string)
    requires x !in ks
    ensures Fresh(ks, present + [x]) == Fresh(ks, present)
  {
    if ks != [] {
      FreshIgnores(ks[1..], present, x);
    }
  }

  lemma FreshUnfold(ks: seq<string>, present: seq<string>)
    requires ks != []
    ensures Fresh(ks, present) == (if ks[0] in present then [] else [ks[0]]) + Fresh(ks[1..], present)
  {
  }

  /** `{ ...a, ...b }` lists `a`'s keys first, then the keys only `b` has, in `b`'s order. */
  lemma {:induction false} SpreadKeys<V>(a: Obj<V>, b: Obj<V>)
    requires DistinctKeys(b)
    ensures Keys(Spread(a, b)) == Keys(a) + Fresh(Keys(b), Keys(a))
    decreases |b|
  {
    if b != [] {
      SpreadUnfold(a, b);
      var k := b[0].key;
      var next := Set(a, k, b[0].value);
      var restKeys := Keys(b[1..]);
      SetKeys(a, k, b[0].value);
      SpreadKeys(next, b[1..]);
      assert Keys(Spread(a, b)) == Keys(next) + Fresh(restKeys, Keys(next));
      FreshUnfold(Keys(b), Keys(a));
      assert Keys(b)[0] == k && Keys(b)[1..] == restKeys;
      if k in Keys(a) {
        assert Fresh(Keys(b), Keys(a)) == Fresh(restKeys, Keys(a));
      } else {
        FreshIgnores(restKeys, Keys(a), k);
        assert Fresh(Keys(b), Keys(a)) == [k] + Fresh(restKeys, Keys(a));
        assert Keys(a) + [k] + Fresh(restKeys, Keys(a)) == Keys(a) + ([k] + Fresh(restKeys, Keys(a)));
      }
    }
  }

  /** Spreading an object whose keys are all new appends its properties unchanged. */
  lemma {:induction false} SpreadDisjoint<V>(a: Obj<V>, b: Obj<V>)
    requires DistinctKeys(b)
    requires forall k :: k in Keys(b) ==> k !in Keys(a)
    ensures Spread(a, b) == a + b
    decreases |b|
  {
    if b != [] {
      SpreadUnfold(a, b);
      SetNew(a, b[0].key, b[0].value);
      KeysConcat(a, [b[0]]);
      assert Keys([b[0]]) == [b[0].key];
      SpreadDisjoint(a + [b[0]], b[1..]);
      assert a + [b[0]] + b[1..] == a + b;
    }
  }
}
