/** De-duplication of list-field items in `merge_documents`
    (preprocess/postprocessing.py:36-44): an item is kept only if no earlier
    item has an equal key, where a dict is keyed by `tuple(sorted(items))`
    and anything else by itself. */
module ListDedup {
  import opened Dicts
  import opened Json

  /** A hashable stand-in for a list item. Two dicts give equal sorted
      item tuples exactly when they hold the same key/value pairs, so a
      dict's key is its contents as a map. */
  datatype Key = Scalar(v: Value) | Entries(m: map<string, Value>)

  predicate IsScalar(v: Value) {
    v.Null? || v.Bool? || v.Num? || v.Str?
  }

  /** Whether Python can hash the dedup key of `item`. A list is not hashable,
      and neither is the tuple of a dict holding a list or dict value. */
  predicate Hashable(item: Value) {
    IsScalar(item) || (item.Obj? && forall i :: 0 <= i < |item.fields| ==> IsScalar(item.fields[i].1))
  }

  /** Python equates `True` with `1` and `False` with `0`, also inside tuples. */
  function Normalize(v: Value): (r: Value)
    ensures !r.Bool?
    ensures !v.Bool? ==> r == v
  {
    match v
    case Bool(b) => Num(if b then 1 else 0)
    case _ => v
  }

  /** The dedup key: a dict's (key, value) pairs with order forgotten, any
      other value itself; `True` and `False` become 1 and 0. */
  function KeyOf(item: Value): (r: Key)
    ensures r.Entries? <==> item.Obj?
    ensures item.Obj? ==> forall k :: k in r.m <==> Has(item.fields, k)
    ensures item.Obj? ==> forall k :: k in r.m ==> r.m[k] == Normalize(Get(item.fields, k))
    ensures !item.Obj? ==> r == Scalar(Normalize(item))
  {
    if item.Obj? then
      var ks := set i | 0 <= i < |item.fields| :: item.fields[i].0;
      Entries(map k | k in ks :: Normalize(Get(item.fields, k)))
    else Scalar(Normalize(item))
  }

  /** Two dicts with the same keys and the same `.get` values have the
      same dedup key, whatever their order. */
  lemma KeyOfIgnoresOrder(a: Record, b: Record)
    requires forall k :: Has(a, k) <==> Has(b, k)
    requires forall k :: Get(a, k) == Get(b, k)
    ensures KeyOf(Obj(a)) == KeyOf(Obj(b))
  {
  }

  function KeySet(items: seq<Value>): set<Key> {
    set i | 0 <= i < |items| :: KeyOf(items[i])
  }

  lemma KeySetSnoc(init: seq<Value>, last: Value)
    ensures KeySet(init + [last]) == KeySet(init) + {KeyOf(last)}
  {
    var s := init + [last];
    assert s[|init|] == last;
    assert forall i :: 0 <= i < |init| ==> s[i] == init[i];
    forall k | k in KeySet(s) ensures k in KeySet(init) + {KeyOf(last)} {
      var i :| 0 <= i < |s| && KeyOf(s[i]) == k;
      if i < |init| { assert KeyOf(init[i]) == k; }
    }
  }

  /** The items whose key does not occur earlier in `items`, in order: the
      first occurrence of every key. */
  function Dedup(items: seq<Value>): (r: seq<Value>)
    ensures |r| <= |items|
    ensures forall x :: x in r ==> x in items
  {
    if |items| == 0 then []
    else
      var init := items[..|items| - 1];
      var last := items[|items| - 1];
      assert items == init + [last];
      if KeyOf(last) in KeySet(init) then Dedup(init)
      else Dedup(init) + [last]
  }

  /** The position of the first item with key `k`. */
  function FirstIndex(items: seq<Value>, k: Key): (r: nat)
    requires k in KeySet(items)
    ensures r < |items| && KeyOf(items[r]) == k
    ensures forall j :: 0 <= j < r ==> KeyOf(items[j]) != k
  {
    var init := items[..|items| - 1];
    KeySetSnoc(init, items[|items| - 1]);
    assert items == init + [items[|items| - 1]];
    if k in KeySet(init) then FirstIndex(init, k) else |items| - 1
  }

  /** Every key of the input is represented in the output, and the output
      introduces no other key. */
  lemma {:induction false} DedupKeySet(items: seq<Value>)
    ensures KeySet(Dedup(items)) == KeySet(items)
  {
    if |items| > 0 {
      var init := items[..|items| - 1];
      var last := items[|items| - 1];
      assert items == init + [last];
      DedupKeySet(init);
      KeySetSnoc(init, last);
      if KeyOf(last) !in KeySet(init) {
        KeySetSnoc(Dedup(init), last);
      }
    }
  }

  predicate DistinctKeys(items: seq<Value>) {
    forall i, j :: 0 <= i < j < |items| ==> KeyOf(items[i]) != KeyOf(items[j])
  }

  /** No two output items share a key. */
  lemma {:induction false} DedupDistinct(items: seq<Value>)
    ensures DistinctKeys(Dedup(items))
  {
    if |items| > 0 {
      var init := items[..|items| - 1];
      var last := items[|items| - 1];
      assert items == init + [last];
      DedupDistinct(init);
      if KeyOf(last) !in KeySet(init) {
        DedupKeySet(init);
        var p := Dedup(init);
        var r := p + [last];
        assert Dedup(items) == r;
        forall i, j | 0 <= i < j < |r| ensures KeyOf(r[i]) != KeyOf(r[j]) {
          if j == |p| {
            assert r[i] == p[i];
            assert KeyOf(p[i]) in KeySet(p);
          } else {
            assert r[i] == p[i] && r[j] == p[j];
          }
        }
      }
    }
  }

  /** Appending an item moves no first occurrence, and a new key first
      occurs at the end. */
  lemma FirstIndexSnoc(init: seq<Value>, last: Value)
    ensures forall k :: k in KeySet(init) ==> k in KeySet(init + [last]) && FirstIndex(init + [last], k) == FirstIndex(init, k)
    ensures KeyOf(last) in KeySet(init + [last])
    ensures KeyOf(last) !in KeySet(init) ==> FirstIndex(init + [last], KeyOf(last)) == |init|
  {
    KeySetSnoc(init, last);
    var items := init + [last];
    assert items[..|items| - 1] == init;
  }

  /** Every output key is a key of the input. */
  lemma DedupKeysIn(items: seq<Value>)
    ensures forall a :: 0 <= a < |Dedup(items)| ==> KeyOf(Dedup(items)[a]) in KeySet(items)
  {
    DedupKeySet(items);
    var r := Dedup(items);
    forall a | 0 <= a < |r| ensures KeyOf(r[a]) in KeySet(items) {
      assert KeyOf(r[a]) in KeySet(r);
    }
  }

  /** Each output item is the first occurrence of its key. */
  lemma {:induction false} DedupFirstOccurrences(items: seq<Value>)
    ensures forall a :: 0 <= a < |Dedup(items)| ==>
      KeyOf(Dedup(items)[a]) in KeySet(items) && items[FirstIndex(items, KeyOf(Dedup(items)[a]))] == Dedup(items)[a]
  {
    DedupKeysIn(items);
    if |items| > 0 {
      var init := items[..|items| - 1];
      var last := items[|items| - 1];
      assert items == init + [last];
      DedupFirstOccurrences(init);
      DedupKeysIn(init);
      FirstIndexSnoc(init, last);
      var p := Dedup(init);
      var r := Dedup(items);
      forall a | 0 <= a < |r| ensures items[FirstIndex(items, KeyOf(r[a]))] == r[a] {
        if a < |p| {
          assert r[a] == p[a];
          assert items[FirstIndex(init, KeyOf(p[a]))] == init[FirstIndex(init, KeyOf(p[a]))];
        }
      }
    }
  }

  /** The output lists the keys in the order of their first occurrences. */
  lemma {:induction false} DedupOrder(items: seq<Value>)
    ensures forall a, b :: 0 <= a < b < |Dedup(items)| ==>
      KeyOf(Dedup(items)[a]) in KeySet(items) && KeyOf(Dedup(items)[b]) in KeySet(items)
      && FirstIndex(items, KeyOf(Dedup(items)[a])) < FirstIndex(items, KeyOf(Dedup(items)[b]))
  {
    DedupKeysIn(items);
    if |items| > 0 {
      var init := items[..|items| - 1];
      var last := items[|items| - 1];
      assert items == init + [last];
      DedupOrder(init);
      DedupKeysIn(init);
      FirstIndexSnoc(init, last);
      var p := Dedup(init);
      var r := Dedup(items);
      forall a, b | 0 <= a < b < |r|
        ensures FirstIndex(items, KeyOf(r[a])) < FirstIndex(items, KeyOf(r[b]))
      {
        assert r[a] == p[a];
        if b < |p| {
          assert r[b] == p[b];
        } else {
          assert FirstIndex(init, KeyOf(p[a])) < |init|;
        }
      }
    }
  }

  /** De-duplicating an already de-duplicated list changes nothing. */
  lemma DedupIdempotent(items: seq<Value>)
    ensures Dedup(Dedup(items)) == Dedup(items)
  {
    DedupDistinct(items);
    DedupOfDistinct(Dedup(items));
  }

  lemma {:induction false} DedupOfDistinct(items: seq<Value>)
    requires DistinctKeys(items)
    ensures Dedup(items) == items
  {
    if |items| > 0 {
      var init := items[..|items| - 1];
      var last := items[|items| - 1];
      assert items == init + [last];
      DedupOfDistinct(init);
      assert KeyOf(last) !in KeySet(init) by {
        forall i | 0 <= i < |init| ensures KeyOf(init[i]) != KeyOf(last) {
          assert init[i] == items[i];
        }
      }
    }
  }

  /** The loop of preprocess/postprocessing.py:39-44 with its `seen` set. */
  method DedupLoop(items: seq<Value>) returns (out: seq<Value>)
    ensures out == Dedup(items)
  {
    out := [];
    var seen: set<Key> := {};
    var i := 0;
    while i < |items|
      invariant 0 <= i <= |items|
      invariant seen == KeySet(items[..i])
      invariant out == Dedup(items[..i])
    {
      var t := KeyOf(items[i]);
      assert items[..i + 1] == items[..i] + [items[i]];
      KeySetSnoc(items[..i], items[i]);
      if t !in seen {
        seen := seen + {t};
        out := out + [items[i]];
      }
      i := i + 1;
    }
    assert items[..i] == items;
  }
}
