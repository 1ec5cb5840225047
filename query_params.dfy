/**
 * Query parameters as a JavaScript plain object: an ordered list of
 * (name, value) pairs, in the order in which `Object.keys` and
 * `JSON.stringify` enumerate them, and the object spread
 * `{type: "webp", ...query}` that builds the image handler's parameters.
 */
module QueryParams {
  import opened Common

  type Params = seq<(string, string)>

  /** The value of property `k`, if the object has one. */
  function Get(obj: Params, k: string): Option<string> {
    if obj == [] then None
    else if obj[0].0 == k then Some(obj[0].1)
    else Get(obj[1..], k)
  }

  /** No name occurs twice: true of every JavaScript object. */
  predicate DistinctKeys(obj: Params) {
    forall i, j :: 0 <= i < j < |obj| ==> obj[i].0 != obj[j].0
  }

  /** The object without property `k`, the others keeping their order. */
  function Without(obj: Params, k: string): (r: Params)
    ensures Get(r, k).None?
    ensures |r| <= |obj|
  {
    if obj == [] then []
    else if obj[0].0 == k then Without(obj[1..], k)
    else [obj[0]] + Without(obj[1..], k)
  }

  lemma {:induction false} GetNone(obj: Params, k: string)
    ensures Get(obj, k).None? <==> forall i :: 0 <= i < |obj| ==> obj[i].0 != k
  {
    if obj != [] {
      GetNone(obj[1..], k);
      assert forall i :: 1 <= i < |obj| ==> obj[i] == obj[1..][i - 1];
    }
  }

  lemma {:induction false} GetConcat(a: Params, b: Params, k: string)
    ensures Get(a + b, k) == if Get(a, k).Some? then Get(a, k) else Get(b, k)
  {
    if a != [] {
      assert (a + b)[1..] == a[1..] + b;
      GetConcat(a[1..], b, k);
    } else {
      assert a + b == b;
    }
  }

  lemma {:induction false} WithoutConcat(a: Params, b: Params, k: string)
    ensures Without(a + b, k) == Without(a, k) + Without(b, k)
  {
    if a != [] {
      assert (a + b)[1..] == a[1..] + b;
      WithoutConcat(a[1..], b, k);
    } else {
      assert a + b == b;
    }
  }

  /** A list without any occurrence of `k` is its own Without. */
  lemma {:induction false} WithoutAbsent(obj: Params, k: string)
    requires Get(obj, k).None?
    ensures Without(obj, k) == obj
  {
    if obj != [] {
      WithoutAbsent(obj[1..], k);
    }
  }

  /**
   * `obj[k] = v` on a plain object (also CreateDataProperty, as used by
   * spread): an existing property keeps its position and takes the new value,
   * a new one is added last.
   */
  function Assign(obj: Params, k: string, v: string): (r: Params)
    ensures Get(r, k) == Some(v)
    ensures forall k' :: k' != k ==> Get(r, k') == Get(obj, k')
    ensures |r| == if Get(obj, k).Some? then |obj| else |obj| + 1
    ensures forall i :: 0 <= i < |obj| ==> r[i].0 == obj[i].0
  {
    if obj == [] then [(k, v)]
    else if obj[0].0 == k then [(k, v)] + obj[1..]
    else [obj[0]] + Assign(obj[1..], k, v)
  }

  lemma {:induction false} AssignNew(obj: Params, k: string, v: string)
    requires Get(obj, k).None?
    ensures Assign(obj, k, v) == obj + [(k, v)]
  {
    if obj != [] {
      AssignNew(obj[1..], k, v);
      assert [obj[0]] + (obj[1..] + [(k, v)]) == obj + [(k, v)];
    }
  }

  /** A one-property object has that property and no other. */
  lemma GetSingle(k: string, v: string)
    ensures forall k' :: Get([(k, v)], k') == if k' == k then Some(v) else None
  {
    assert [(k, v)][1..] == [];
  }

  /** `{...obj, ...src}`: the properties of `src` assigned onto `obj` one by one, in order. */
  function Spread(obj: Params, src: Params): (r: Params)
    ensures forall k :: Get(r, k).Some? <==> Get(obj, k).Some? || Get(src, k).Some?
    ensures |r| >= |obj|
    ensures forall i :: 0 <= i < |obj| ==> r[i].0 == obj[i].0
    decreases |src|
  {
    if src == [] then obj else Spread(Assign(obj, src[0].0, src[0].1), src[1..])
  }

  const TypeName := "type"
  const DefaultType := "webp"

  /**
   * `{type: "webp", ...(event.queryStringParameters || {})}`: absent query
   * parameters count as an empty object.
   */
  function EffectiveParams(query: Option<Params>): (param: Params)
    ensures |param| >= 1 && param[0].0 == TypeName
    ensures forall k :: Get(param, k).Some? <==> k == TypeName || Get(query.GetOr([]), k).Some?
  {
    GetSingle(TypeName, DefaultType);
    Spread([(TypeName, DefaultType)], query.GetOr([]))
  }

  lemma {:induction false} SpreadShape(t: string, w: Params, src: Params)
    requires DistinctKeys(src)
    requires Get(w, TypeName).None?
    requires forall k :: Get(w, k).Some? ==> Get(src, k).None?
    ensures Spread([(TypeName, t)] + w, src)
         == [(TypeName, Get(src, TypeName).GetOr(t))] + w + Without(src, TypeName)
    decreases |src|
  {
    if src == [] {
    } else {
      var (k, v) := src[0];
      var rest := src[1..];
      assert DistinctKeys(rest) by {
        forall i, j | 0 <= i < j < |rest| ensures rest[i].0 != rest[j].0 {
          assert rest[i] == src[i + 1] && rest[j] == src[j + 1];
        }
      }
      assert Get(rest, k).None? by {
        GetNone(rest, k);
        forall i | 0 <= i < |rest| ensures rest[i].0 != k {
          assert rest[i] == src[i + 1];
        }
      }
      if k == TypeName {
        assert Assign([(TypeName, t)] + w, k, v) == [(TypeName, v)] + w;
        SpreadShape(v, w, rest);
      } else {
        var w' := SpreadShapeStep(t, w, src);
        SpreadShape(t, w', rest);
        assert [(TypeName, Get(rest, TypeName).GetOr(t))] + w' + Without(rest, TypeName)
            == [(TypeName, Get(src, TypeName).GetOr(t))] + w + Without(src, TypeName);
      }
    }
  }

  /**
   * Spreading a first property other than `type` appends it to the
   * properties already spread, and the invariant of SpreadShape still holds
   * for the remaining ones.
   */
  lemma SpreadShapeStep(t: string, w: Params, src: Params) returns (w': Params)
    requires src != [] && src[0].0 != TypeName
    requires Get(src[1..], src[0].0).None?
    requires Get(w, TypeName).None?
    requires forall k :: Get(w, k).Some? ==> Get(src, k).None?
    ensures w' == w + [src[0]]
    ensures Assign([(TypeName, t)] + w, src[0].0, src[0].1) == [(TypeName, t)] + w'
    ensures Get(w', TypeName).None?
    ensures forall k :: Get(w', k).Some? ==> Get(src[1..], k).None?
    ensures Without(src, TypeName) == [src[0]] + Without(src[1..], TypeName)
    ensures Get(src[1..], TypeName) == Get(src, TypeName)
  {
    var (k, v) := src[0];
    var rest := src[1..];
    w' := w + [(k, v)];
    assert Get(src, k).Some?;
    GetConcat([(TypeName, t)], w, k);
    AssignNew([(TypeName, t)] + w, k, v);
    forall k' | Get(w', k').Some? ensures Get(rest, k').None? {
      GetConcat(w, [(k, v)], k');
      if Get(w, k').None? {
        assert k' == k;
      } else {
        assert Get(src, k').None?;
      }
    }
    GetConcat(w, [(k, v)], TypeName);
    assert [(TypeName, t)] + w + [(k, v)] == [(TypeName, t)] + w';
  }

  /**
   * The effective parameters are `type` first, with the caller's value if one
   * was given and "webp" otherwise, followed by every other query parameter in
   * the caller's order.
   */
  lemma EffectiveParamsShape(query: Params)
    requires DistinctKeys(query)
    ensures EffectiveParams(Some(query))
         == [(TypeName, Get(query, TypeName).GetOr(DefaultType))] + Without(query, TypeName)
  {
    var start: Params := [(TypeName, DefaultType)];
    assert start + [] == start;
    assert EffectiveParams(Some(query)) == Spread(start + [], query);
    SpreadShape(DefaultType, [], query);
    var head := [(TypeName, Get(query, TypeName).GetOr(DefaultType))];
    assert head + [] + Without(query, TypeName) == head + Without(query, TypeName);
  }

  /** Absent query parameters, no parameters and only `type=webp` all give exactly `{type: "webp"}`. */
  lemma EffectiveParamsAbsent()
    ensures EffectiveParams(None) == [(TypeName, DefaultType)]
    ensures EffectiveParams(Some([])) == [(TypeName, DefaultType)]
    ensures EffectiveParams(Some([(TypeName, DefaultType)])) == [(TypeName, DefaultType)]
  {
    var only := [(TypeName, DefaultType)];
    assert Assign(only, TypeName, DefaultType) == only;
    assert Spread(only, only) == Spread(only, []);
  }

  lemma DistinctInsert(obj: Params, i: nat, p: (string, string))
    requires DistinctKeys(obj) && Get(obj, p.0).None? && i <= |obj|
    ensures DistinctKeys(obj[..i] + [p] + obj[i..])
  {
    GetNone(obj, p.0);
    var r := obj[..i] + [p] + obj[i..];
    forall a, b | 0 <= a < b < |r| ensures r[a].0 != r[b].0 {
      if a < i && b > i {
        assert r[a] == obj[a] && r[b] == obj[b - 1];
      } else if a > i {
        assert r[a] == obj[a - 1] && r[b] == obj[b - 1];
      } else if b < i {
        assert r[a] == obj[a] && r[b] == obj[b];
      } else if a < i {
        assert r[a] == obj[a] && r[b] == p;
      } else {
        assert r[a] == p && r[b] == obj[b - 1];
      }
    }
  }

  /**
   * Supplying `type=webp` anywhere among the query parameters gives the same
   * effective parameters as leaving `type` out.
   */
  lemma ExplicitDefaultType(query: Params, i: nat)
    requires DistinctKeys(query) && Get(query, TypeName).None?
    requires i <= |query|
    ensures EffectiveParams(Some(query[..i] + [(TypeName, DefaultType)] + query[i..]))
         == EffectiveParams(Some(query))
  {
    var pre, post, t := query[..i], query[i..], [(TypeName, DefaultType)];
    var withType := pre + t + post;
    DistinctInsert(query, i, (TypeName, DefaultType));
    assert pre + post == query;
    assert Get(pre, TypeName).None? by {
      GetConcat(pre, post, TypeName);
    }
    assert Get(withType, TypeName) == Some(DefaultType) by {
      GetConcat(pre, t, TypeName);
      GetConcat(pre + t, post, TypeName);
    }
    WithoutInserted(pre, t, post);
    SameShape(withType, query);
  }

  /** Removing `type` also removes a `type` inserted between two parts. */
  lemma WithoutInserted(pre: Params, t: Params, post: Params)
    requires t == [(TypeName, DefaultType)]
    ensures Without(pre + t + post, TypeName) == Without(pre + post, TypeName)
  {
    WithoutConcat(pre, t, TypeName);
    WithoutConcat(pre + t, post, TypeName);
    WithoutConcat(pre, post, TypeName);
    assert Without(t, TypeName) == [];
    assert Without(pre, TypeName) + [] == Without(pre, TypeName);
  }

  /** Two queries with the same `type` (or default) and the same other parameters give the same effective parameters. */
  lemma SameShape(q1: Params, q2: Params)
    requires DistinctKeys(q1) && DistinctKeys(q2)
    requires Get(q1, TypeName).GetOr(DefaultType) == Get(q2, TypeName).GetOr(DefaultType)
    requires Without(q1, TypeName) == Without(q2, TypeName)
    ensures EffectiveParams(Some(q1)) == EffectiveParams(Some(q2))
  {
    EffectiveParamsShape(q1);
    EffectiveParamsShape(q2);
  }
}
