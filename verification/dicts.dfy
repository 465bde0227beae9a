/** Python dictionaries as insertion-ordered sequences of (key, value) pairs.
    A dictionary built by Python never repeats a key (`UniqueKeys`); the
    operations here keep that invariant and behave like their Python
    counterparts on it. */
module Dicts {
  import opened Results

  type Dict<V> = seq<(string, V)>

  /** The keys in insertion order, as `d.keys()` lists them. */
  function KeysOf<V>(d: Dict<V>): seq<string> {
    seq(|d|, i requires 0 <= i < |d| => d[i].0)
  }

  predicate Has<V>(d: Dict<V>, k: string) {
    exists i :: 0 <= i < |d| && d[i].0 == k
  }

  predicate UniqueKeys<V>(d: Dict<V>) {
    forall i, j :: 0 <= i < j < |d| ==> d[i].0 != d[j].0
  }

  lemma HasCons<V>(p: (string, V), d: Dict<V>)
    ensures forall k :: Has([p] + d, k) <==> p.0 == k || Has(d, k)
  {
    var r := [p] + d;
    forall k ensures Has(r, k) <==> p.0 == k || Has(d, k) {
      assert r[0] == p;
      if Has(d, k) {
        var i :| 0 <= i < |d| && d[i].0 == k;
        assert r[i + 1] == d[i];
      }
      if Has(r, k) && p.0 != k {
        var i :| 0 <= i < |r| && r[i].0 == k;
        assert i > 0 && r[i] == d[i - 1];
      }
    }
  }

  lemma HasAppend<V>(a: Dict<V>, b: Dict<V>)
    ensures forall k :: Has(a + b, k) <==> Has(a, k) || Has(b, k)
  {
    forall k ensures Has(a + b, k) <==> Has(a, k) || Has(b, k) {
      if Has(a, k) {
        var i :| 0 <= i < |a| && a[i].0 == k;
        assert (a + b)[i] == a[i];
      }
      if Has(b, k) {
        var i :| 0 <= i < |b| && b[i].0 == k;
        assert (a + b)[|a| + i] == b[i];
      }
      if Has(a + b, k) {
        var i :| 0 <= i < |a + b| && (a + b)[i].0 == k;
        if i < |a| { assert a[i] == (a + b)[i]; } else { assert b[i - |a|] == (a + b)[i]; }
      }
    }
  }

  lemma LookupCons<V>(p: (string, V), d: Dict<V>)
    ensures forall k :: Lookup([p] + d, k) == if p.0 == k then Some(p.1) else Lookup(d, k)
  {
    assert ([p] + d)[1..] == d;
  }

  /** `d.get(k)`: the value stored under `k`, if any. */
  function Lookup<V>(d: Dict<V>, k: string): (r: Option<V>)
    ensures r.Some? <==> Has(d, k)
    ensures r.Some? ==> exists i :: 0 <= i < |d| && d[i] == (k, r.value)
    ensures UniqueKeys(d) ==> forall i :: 0 <= i < |d| && d[i].0 == k ==> r == Some(d[i].1)
  {
    if |d| == 0 then None
    else if d[0].0 == k then Some(d[0].1)
    else
      var r := Lookup(d[1..], k);
      assert r.Some? ==> exists i :: 0 <= i < |d[1..]| && d[1..][i] == (k, r.value);
      assert forall i :: 1 <= i < |d| ==> d[i] == d[1..][i - 1];
      r
  }

  /** The lookup finds the first pair with the key. */
  lemma {:induction false} LookupFirst<V>(d: Dict<V>, i: nat, k: string)
    requires i < |d| && d[i].0 == k
    requires forall j :: 0 <= j < i ==> d[j].0 != k
    ensures Lookup(d, k) == Some(d[i].1)
  {
    if i > 0 {
      LookupFirst(d[1..], i - 1, k);
    }
  }

  lemma ConsKeysOf<V>(p: (string, V), q: (string, V), a: Dict<V>, b: Dict<V>)
    requires p.0 == q.0 && KeysOf(a) == KeysOf(b)
    ensures KeysOf([p] + a) == KeysOf([q] + b)
  {
    var l, r := [p] + a, [q] + b;
    assert |a| == |KeysOf(a)| == |KeysOf(b)| == |b|;
    forall i | 0 <= i < |l| ensures l[i].0 == r[i].0 {
      if i > 0 {
        assert l[i] == a[i - 1] && r[i] == b[i - 1];
        assert KeysOf(a)[i - 1] == KeysOf(b)[i - 1];
      }
    }
  }

  lemma ConsUnique<V>(p: (string, V), d: Dict<V>)
    requires UniqueKeys(d) && !Has(d, p.0)
    ensures UniqueKeys([p] + d)
  {
    var r := [p] + d;
    forall i, j | 0 <= i < j < |r| ensures r[i].0 != r[j].0 {
      assert r[j] == d[j - 1];
      if i > 0 {
        assert r[i] == d[i - 1];
      }
    }
  }

  lemma TailUnique<V>(d: Dict<V>)
    requires UniqueKeys(d) && |d| > 0
    ensures UniqueKeys(d[1..]) && !Has(d[1..], d[0].0)
  {
    var tail := d[1..];
    forall i, j | 0 <= i < j < |tail| ensures tail[i].0 != tail[j].0 {
      assert tail[i] == d[i + 1] && tail[j] == d[j + 1];
    }
    forall i | 0 <= i < |tail| ensures tail[i].0 != d[0].0 {
      assert tail[i] == d[i + 1];
    }
  }

  lemma ConsLookupAgree<V>(p: (string, V), a: Dict<V>, b: Dict<V>, k: string)
    requires forall k' :: k' != k ==> Lookup(a, k') == Lookup(b, k')
    ensures forall k' :: k' != k ==> Lookup([p] + a, k') == Lookup([p] + b, k')
  {
    LookupCons(p, a);
    LookupCons(p, b);
  }

  lemma ReplaceHeadLookup<V>(p: (string, V), q: (string, V), d: Dict<V>)
    requires p.0 == q.0
    ensures forall k' :: k' != p.0 ==> Lookup([p] + d, k') == Lookup([q] + d, k')
  {
    LookupCons(p, d);
    LookupCons(q, d);
  }

  /** `d[k] = v`: replaces the value of an existing key in place, or appends a
      new entry at the end. */
  function Set<V>(d: Dict<V>, k: string, v: V): (r: Dict<V>)
    ensures Lookup(r, k) == Some(v)
    ensures forall k' :: k' != k ==> Lookup(r, k') == Lookup(d, k')
    ensures forall k' :: Has(r, k') <==> Has(d, k') || k' == k
    ensures !Has(d, k) ==> r == d + [(k, v)]
    ensures Has(d, k) ==> KeysOf(r) == KeysOf(d)
    ensures UniqueKeys(d) ==> UniqueKeys(r)
  {
    if |d| == 0 then [(k, v)]
    else
      var p := d[0];
      var tail := d[1..];
      assert d == [p] + tail;
      HasCons(p, tail);
      if p.0 == k then
        var r := [(k, v)] + tail;
        HasCons((k, v), tail);
        ReplaceHeadLookup((k, v), p, tail);
        ConsKeysOf((k, v), p, tail, tail);
        if UniqueKeys(d) then
          TailUnique(d);
          ConsUnique((k, v), tail);
          r
        else r
      else
        var rest := Set(tail, k, v);
        var r := [p] + rest;
        HasCons(p, rest);
        assert r[1..] == rest;
        ConsLookupAgree(p, rest, tail, k);
        assert !Has(d, k) ==> r == d + [(k, v)];
        if Has(d, k) then
          ConsKeysOf(p, p, rest, tail);
          if UniqueKeys(d) then
            TailUnique(d);
            ConsUnique(p, rest);
            r
          else r
        else if UniqueKeys(d) then
          TailUnique(d);
          ConsUnique(p, rest);
          r
        else r
  }

  /** `d[k] = v` stores no pair other than the old ones and the new one. */
  lemma {:induction false} SetPairs<V>(d: Dict<V>, k: string, v: V)
    ensures forall p :: p in Set(d, k, v) ==> p in d || p == (k, v)
  {
    if |d| > 0 && d[0].0 != k {
      SetPairs(d[1..], k, v);
      assert d == [d[0]] + d[1..];
    }
  }

  /** `d.pop(k, None)` with the popped value discarded. */
  function Remove<V>(d: Dict<V>, k: string): (r: Dict<V>)
    ensures !Has(r, k)
    ensures forall k' :: k' != k ==> Lookup(r, k') == Lookup(d, k')
    ensures forall k' :: Has(r, k') <==> Has(d, k') && k' != k
    ensures !Has(d, k) ==> r == d
    ensures UniqueKeys(d) ==> UniqueKeys(r)
  {
    if |d| == 0 then []
    else
      var p := d[0];
      var tail := d[1..];
      assert d == [p] + tail;
      HasCons(p, tail);
      LookupCons(p, tail);
      var rest := Remove(tail, k);
      assert UniqueKeys(d) ==> UniqueKeys(tail) && !Has(tail, p.0) by {
        if UniqueKeys(d) {
          forall i, j | 0 <= i < j < |tail| ensures tail[i].0 != tail[j].0 {
            assert tail[i] == d[i + 1] && tail[j] == d[j + 1];
          }
          forall i | 0 <= i < |tail| ensures tail[i].0 != p.0 {
            assert tail[i] == d[i + 1];
          }
        }
      }
      if p.0 == k then rest
      else
        var r := [p] + rest;
        HasCons(p, rest);
        assert r[1..] == rest;
        ConsLookupAgree(p, rest, tail, k);
        assert UniqueKeys(d) ==> UniqueKeys(r) by {
          if UniqueKeys(d) {
            forall i, j | 0 <= i < j < |r| ensures r[i].0 != r[j].0 {
              assert r[j] == rest[j - 1];
              if i == 0 {
                assert Has(rest, r[j].0);
              } else {
                assert r[i] == rest[i - 1];
              }
            }
          }
        }
        r
  }

  /** The value of the LAST pair in `items` with key `k`. */
  function LastLookup<V>(items: seq<(string, V)>, k: string): Option<V> {
    if |items| == 0 then None
    else if items[|items| - 1].0 == k then Some(items[|items| - 1].1)
    else LastLookup(items[..|items| - 1], k)
  }

  /** `dict(items)`: the pairs are assigned one after the other, so a key
      keeps the position of its first pair and the value of its last. */
  function FromPairs<V>(items: seq<(string, V)>): (r: Dict<V>)
    ensures UniqueKeys(r)
    ensures forall k :: Has(r, k) <==> Has(items, k)
  {
    if |items| == 0 then []
    else
      var prefix := items[..|items| - 1];
      var last := items[|items| - 1];
      assert forall k :: Has(items, k) <==> Has(prefix, k) || last.0 == k by {
        forall k | Has(items, k) ensures Has(prefix, k) || last.0 == k {
          var i :| 0 <= i < |items| && items[i].0 == k;
          if i < |items| - 1 { assert prefix[i] == items[i]; }
        }
      }
      Set(FromPairs(prefix), last.0, last.1)
  }

  /** On a repeated key the later pair wins. */
  lemma {:induction false} FromPairsLastWins<V>(items: seq<(string, V)>, k: string)
    ensures Lookup(FromPairs(items), k) == LastLookup(items, k)
  {
    if |items| > 0 {
      FromPairsLastWins(items[..|items| - 1], k);
    }
  }

  /** `dict(items)` holds no pair that is not among the items. */
  lemma {:induction false} FromPairsPairs<V>(items: seq<(string, V)>)
    ensures forall p :: p in FromPairs(items) ==> p in items
  {
    if |items| > 0 {
      var prefix, last := items[..|items| - 1], items[|items| - 1];
      FromPairsPairs(prefix);
      SetPairs(FromPairs(prefix), last.0, last.1);
      assert items == prefix + [last];
    }
  }

  /** Building a dictionary from the pairs of a dictionary gives it back. */
  lemma {:induction false} FromPairsOfDict<V>(d: Dict<V>)
    requires UniqueKeys(d)
    ensures FromPairs(d) == d
  {
    if |d| > 0 {
      var prefix := d[..|d| - 1];
      assert UniqueKeys(prefix) by {
        forall i, j | 0 <= i < j < |prefix| ensures prefix[i].0 != prefix[j].0 {
          assert prefix[i] == d[i] && prefix[j] == d[j];
        }
      }
      FromPairsOfDict(prefix);
      assert !Has(prefix, d[|d| - 1].0) by {
        forall i | 0 <= i < |prefix| ensures prefix[i].0 != d[|d| - 1].0 {
          assert prefix[i] == d[i];
        }
      }
      assert prefix + [d[|d| - 1]] == d;
    }
  }
}
