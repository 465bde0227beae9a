/** The pure helpers of app/functions.py: the API-key format check and the
    dictionary flattener used before results are shown as a table. */
module AppHelpers {
  import opened Results
  import opened Dicts
  import opened Json
  import opened Text

  const KeyPrefix := "sk-"

  const MinKeyLength := 20

  /** `validate_api_key`: rejects a missing or empty key, then a key without
      the `sk-` prefix, then a key shorter than 20 characters. */
  function ValidateApiKey(apiKey: Option<string>): (ok: bool)
    ensures ok <==> apiKey.Some? && StartsWith(apiKey.value, KeyPrefix) && |apiKey.value| >= MinKeyLength
  {
    match apiKey
    case None => false
    case Some(key) =>
      if |key| == 0 then false
      else if !StartsWith(key, KeyPrefix) then false
      else |key| >= MinKeyLength
  }

  /** Each rejection rule on its own. */
  lemma ApiKeyRejections(key: string)
    ensures !ValidateApiKey(None) && !ValidateApiKey(Some(""))
    ensures !StartsWith(key, KeyPrefix) ==> !ValidateApiKey(Some(key))
    ensures |key| < MinKeyLength ==> !ValidateApiKey(Some(key))
    ensures ValidateApiKey(Some(KeyPrefix + "01234567890123456"))
  {
  }

  /** The flattened key of child `k` under `parent`: `k` alone at the top
      level (an empty parent), otherwise joined with the separator. */
  function ChildKey(parent: string, sep: string, k: string): (r: string)
    ensures parent != "" ==> StartsWith(r, parent + sep) && r[|parent + sep|..] == k
    ensures parent == "" ==> r == k
  {
    if parent != "" then parent + sep + k else k
  }

  /** Whether a list is expanded element by element: it is non-empty and
      its first element is a dictionary. */
  predicate ExpandsList(v: Value) {
    v.List? && |v.items| > 0 && v.items[0].Obj?
  }

  predicate NoNestedObjects(pairs: seq<(string, Value)>) {
    forall i :: 0 <= i < |pairs| ==> !pairs[i].1.Obj?
  }

  predicate AllStartWith(pairs: seq<(string, Value)>, prefix: string) {
    forall i :: 0 <= i < |pairs| ==> StartsWith(pairs[i].0, prefix)
  }

  lemma StartsWithLonger(s: string, a: string, b: string)
    requires StartsWith(s, a + b)
    ensures StartsWith(s, a)
  {
    assert s[..|a|] == (a + b)[..|a|];
  }

  lemma PrefixWeaken(pairs: seq<(string, Value)>, a: string, b: string)
    requires AllStartWith(pairs, a + b)
    ensures AllStartWith(pairs, a)
  {
    forall i | 0 <= i < |pairs| ensures StartsWith(pairs[i].0, a) {
      StartsWithLonger(pairs[i].0, a, b);
    }
  }

  lemma EmptyPrefix(pairs: seq<(string, Value)>)
    ensures AllStartWith(pairs, "")
  {
    forall i | 0 <= i < |pairs| ensures StartsWith(pairs[i].0, "") {
      assert pairs[i].0[..0] == "";
    }
  }

  /** Keys made under `key + sep + digits + sep` start with `key + sep` and
      are longer than it. */
  lemma IndexPrefix(pairs: seq<(string, Value)>, key: string, sep: string, digits: string)
    requires |digits| >= 1 && AllStartWith(pairs, key + sep + digits + sep)
    ensures AllStartWith(pairs, key + sep)
    ensures forall i :: 0 <= i < |pairs| ==> |pairs[i].0| > |key + sep|
  {
    PrefixWeaken(pairs, key + sep + digits, sep);
    PrefixWeaken(pairs, key + sep, digits);
  }

  lemma NoNestedAppend(a: seq<(string, Value)>, b: seq<(string, Value)>)
    requires NoNestedObjects(a) && NoNestedObjects(b)
    ensures NoNestedObjects(a + b)
  {
    forall i | 0 <= i < |a + b| ensures !(a + b)[i].1.Obj? {
      if i < |a| { assert (a + b)[i] == a[i]; } else { assert (a + b)[i] == b[i - |a|]; }
    }
  }

  lemma StartAppend(a: seq<(string, Value)>, b: seq<(string, Value)>, prefix: string)
    requires AllStartWith(a, prefix) && AllStartWith(b, prefix)
    ensures AllStartWith(a + b, prefix)
  {
    forall i | 0 <= i < |a + b| ensures StartsWith((a + b)[i].0, prefix) {
      if i < |a| { assert (a + b)[i] == a[i]; } else { assert (a + b)[i] == b[i - |a|]; }
    }
  }

  /** The pairs of `dict(items)` keep the properties of the items. */
  lemma FromPairsKeeps(items: seq<(string, Value)>, prefix: string)
    ensures NoNestedObjects(items) ==> NoNestedObjects(FromPairs(items))
    ensures AllStartWith(items, prefix) ==> AllStartWith(FromPairs(items), prefix)
  {
    var r := FromPairs(items);
    FromPairsPairs(items);
    forall i | 0 <= i < |r| ensures exists j :: 0 <= j < |items| && items[j] == r[i] {
      assert r[i] in r;
    }
  }

  /** `flatten_dict(v, parent, sep)` for a dictionary value `v`: the pairs
      are collected and then turned into a dictionary. */
  function FlattenObj(v: Value, parent: string, sep: string): (r: Record)
    requires v.Obj?
    ensures UniqueKeys(r)
    ensures NoNestedObjects(r)
    ensures parent != "" ==> AllStartWith(r, parent + sep)
    decreases v, 2
  {
    var items := FieldItems(v, 0, parent, sep);
    FromPairsKeeps(items, parent + sep);
    FromPairs(items)
  }

  /** The pairs the loop collects from the entries at index `i` onward. */
  function FieldItems(v: Value, i: nat, parent: string, sep: string): (r: seq<(string, Value)>)
    requires v.Obj?
    ensures NoNestedObjects(r)
    ensures parent != "" ==> AllStartWith(r, parent + sep)
    decreases v, 1, |v.fields| - i
  {
    if i >= |v.fields| then []
    else
      assert v.fields[i] in v.fields;
      var (k, x) := v.fields[i];
      var key := ChildKey(parent, sep, k);
      var here := EntryItems(x, key, sep);
      var rest := FieldItems(v, i + 1, parent, sep);
      NoNestedAppend(here, rest);
      if parent != "" then
        PrefixWeaken(here, parent + sep, k);
        StartAppend(here, rest, parent + sep);
        here + rest
      else here + rest
  }

  /** The pairs one entry contributes under its flattened key: a nested
      dictionary is flattened under it, an expanded list gives its
      dictionaries under `key_i`, anything else is kept as it is. */
  function EntryItems(x: Value, key: string, sep: string): (r: seq<(string, Value)>)
    ensures NoNestedObjects(r)
    ensures AllStartWith(r, key)
    decreases x, 3
  {
    if x.Obj? then
      var r := FlattenObj(x, key, sep);
      if key != "" then PrefixWeaken(r, key, sep); r
      else EmptyPrefix(r); r
    else if ExpandsList(x) then
      var r := ListItems(x, 0, key, sep);
      PrefixWeaken(r, key, sep);
      r
    else [(key, x)]
  }

  /** Key `k` lies under `key + sep + str(jj) + sep` for some dictionary
      element `jj` of the list `x` at position `from` or later. */
  predicate UnderIndex(k: string, x: Value, from: nat, key: string, sep: string) {
    x.List? && exists jj :: from <= jj < |x.items| && x.items[jj].Obj? && StartsWith(k, key + sep + NatToString(jj) + sep)
  }

  lemma IndexedAppend(here: seq<(string, Value)>, rest: seq<(string, Value)>, x: Value, j: nat, key: string, sep: string)
    requires x.List? && j < |x.items| && x.items[j].Obj?
    requires AllStartWith(here, key + sep + NatToString(j) + sep)
    requires forall i :: 0 <= i < |rest| ==> UnderIndex(rest[i].0, x, j + 1, key, sep)
    ensures forall i :: 0 <= i < |here + rest| ==> UnderIndex((here + rest)[i].0, x, j, key, sep)
  {
  }

  /** The pairs of an expanded list from position `j` on: each dictionary
      element is flattened under `key + sep + str(j)`; other elements are
      dropped. */
  function ListItems(x: Value, j: nat, key: string, sep: string): (r: seq<(string, Value)>)
    requires x.List?
    ensures NoNestedObjects(r)
    ensures AllStartWith(r, key + sep)
    ensures forall i :: 0 <= i < |r| ==> |r[i].0| > |key + sep|
    ensures forall i :: 0 <= i < |r| ==> UnderIndex(r[i].0, x, j, key, sep)
    decreases x, 1, |x.items| - j
  {
    if j >= |x.items| then []
    else
      assert x.items[j] in x.items;
      var rest := ListItems(x, j + 1, key, sep);
      if x.items[j].Obj? then
        var digits := NatToString(j);
        var prefix := key + sep + digits;
        var here := FlattenObj(x.items[j], prefix, sep);
        IndexPrefix(here, key, sep, digits);
        NoNestedAppend(here, rest);
        StartAppend(here, rest, key + sep);
        IndexedAppend(here, rest, x, j, key, sep);
        here + rest
      else rest
  }

  /** `flatten_dict(d, parent, sep)`. */
  function Flatten(d: Record, parent: string, sep: string): Record {
    FlattenObj(Obj(d), parent, sep)
  }

  /** The pairs `flatten_dict` collects before building its result. */
  function FlattenPairs(d: Record, parent: string, sep: string): seq<(string, Value)> {
    FieldItems(Obj(d), 0, parent, sep)
  }

  /** No value of a flattened dictionary is itself a dictionary. */
  lemma FlattenHasNoNestedObjects(d: Record, parent: string, sep: string)
    ensures forall i :: 0 <= i < |Flatten(d, parent, sep)| ==> !Flatten(d, parent, sep)[i].1.Obj?
  {
    assert NoNestedObjects(Flatten(d, parent, sep));
  }

  /** On a key produced twice the later pair wins. */
  lemma FlattenLaterWins(d: Record, parent: string, sep: string, key: string)
    ensures Lookup(Flatten(d, parent, sep), key) == LastLookup(FlattenPairs(d, parent, sep), key)
  {
    FromPairsLastWins(FlattenPairs(d, parent, sep), key);
  }

  lemma {:induction false} FieldItemsFrom(v: Value, i: nat, parent: string, sep: string)
    requires v.Obj? && i < |v.fields|
    ensures FieldItems(v, i, parent, sep) ==
      EntryItems(v.fields[i].1, ChildKey(parent, sep, v.fields[i].0), sep)
        + FieldItems(Obj(v.fields[i + 1..]), 0, parent, sep)
    decreases |v.fields| - i
  {
    var w := Obj(v.fields[i + 1..]);
    FieldItemsShift(v, w, i + 1, parent, sep);
  }

  lemma {:induction false} FieldItemsShift(v: Value, w: Value, i: nat, parent: string, sep: string)
    requires v.Obj? && w.Obj? && i <= |v.fields| && w.fields == v.fields[i..]
    ensures FieldItems(v, i, parent, sep) == FieldItems(w, 0, parent, sep)
    decreases |v.fields| - i
  {
    if i < |v.fields| {
      var w' := Obj(w.fields[1..]);
      assert w.fields[0] == v.fields[i];
      assert w.fields[1..] == v.fields[i + 1..];
      FieldItemsShift(v, w', i + 1, parent, sep);
      FieldItemsShift(w, w', 1, parent, sep);
    }
  }

  /** The pairs are collected entry by entry, in the dictionary's order,
      each under its child key. */
  lemma FlattenPairsCons(k: string, x: Value, d: Record, parent: string, sep: string)
    ensures FlattenPairs([(k, x)] + d, parent, sep) ==
      EntryItems(x, ChildKey(parent, sep, k), sep) + FlattenPairs(d, parent, sep)
  {
    var v := Obj([(k, x)] + d);
    FieldItemsFrom(v, 0, parent, sep);
    assert v.fields[1..] == d;
  }

  /** A scalar, an empty list or a list not starting with a dictionary is
      kept unchanged under its flattened key. */
  lemma VerbatimEntry(k: string, x: Value, parent: string, sep: string)
    requires !x.Obj? && !ExpandsList(x)
    ensures Flatten([(k, x)], parent, sep) == [(ChildKey(parent, sep, k), x)]
  {
    FlattenPairsCons(k, x, [], parent, sep);
    assert FlattenPairs([], parent, sep) == [];
    assert [(k, x)] + [] == [(k, x)];
    var items := [(ChildKey(parent, sep, k), x)];
    assert FromPairs(items) == Set([], items[0].0, items[0].1) by {
      assert items[..0] == [];
    }
  }

  /** A nested dictionary is flattened under the child key. */
  lemma NestedEntry(k: string, fs: Record, parent: string, sep: string)
    ensures Flatten([(k, Obj(fs))], parent, sep) == Flatten(fs, ChildKey(parent, sep, k), sep)
  {
    var key := ChildKey(parent, sep, k);
    var inner := Flatten(fs, key, sep);
    FlattenPairsCons(k, Obj(fs), [], parent, sep);
    assert [(k, Obj(fs))] + [] == [(k, Obj(fs))];
    assert FlattenPairs([], parent, sep) == [];
    assert EntryItems(Obj(fs), key, sep) == inner;
    assert FlattenPairs([(k, Obj(fs))], parent, sep) == inner;
    FromPairsOfDict(inner);
  }

  /** An expanded list leaves no entry under its own key: every key it
      produces is longer and starts with `key + sep`. */
  lemma ExpandedListKeyAbsent(k: string, x: Value, parent: string, sep: string)
    requires ExpandsList(x)
    ensures !Has(Flatten([(k, x)], parent, sep), ChildKey(parent, sep, k))
  {
    var key := ChildKey(parent, sep, k);
    var items := ListItems(x, 0, key, sep);
    FlattenPairsCons(k, x, [], parent, sep);
    assert [(k, x)] + [] == [(k, x)];
    assert FlattenPairs([(k, x)], parent, sep) == items;
    FromPairsPairs(items);
  }

  lemma ListItemsStep(x: Value, j: nat, key: string, sep: string)
    requires x.List? && j < |x.items|
    ensures ListItems(x, j, key, sep) ==
      (if x.items[j].Obj? then FlattenObj(x.items[j], key + sep + NatToString(j), sep) else [])
        + ListItems(x, j + 1, key, sep)
  {
  }

  lemma FlattenSingle(k: string, v: Value, parent: string)
    requires parent != "" && !v.Obj? && !ExpandsList(v)
    ensures FlattenObj(Obj([(k, v)]), parent, "_") == [(parent + "_" + k, v)]
  {
    VerbatimEntry(k, v, parent, "_");
  }

  lemma ExampleListItems(x: Value, k: string, a: Value, b: Value)
    requires x.List? && |x.items| == 3 && !x.items[1].Obj?
    requires x.items[0] == Obj([("t", a)]) && x.items[2] == Obj([("t", b)])
    requires !a.Obj? && !b.Obj? && !ExpandsList(a) && !ExpandsList(b)
    ensures ListItems(x, 0, k, "_") == [(k + "_0_t", a), (k + "_2_t", b)]
  {
    var k0, k2 := k + "_" + NatToString(0), k + "_" + NatToString(2);
    FlattenSingle("t", a, k0);
    FlattenSingle("t", b, k2);
    ListItemsStep(x, 2, k, "_");
    var l2 := [(k2 + "_" + "t", b)];
    assert ListItems(x, 2, k, "_") == l2;
    ListItemsStep(x, 1, k, "_");
    assert ListItems(x, 1, k, "_") == l2;
    ListItemsStep(x, 0, k, "_");
    assert ListItems(x, 0, k, "_") == [(k0 + "_" + "t", a)] + l2;
    IndexedKey(k, 0, "_0_t");
    IndexedKey(k, 2, "_2_t");
  }

  lemma IndexedKey(k: string, j: nat, expected: string)
    requires j < 10 && expected == ['_', DigitChar(j), '_', 't']
    ensures k + "_" + NatToString(j) + "_" + "t" == k + expected
  {
  }

  /** A list of two dictionaries around a string: the dictionaries are
      flattened under the indices 0 and 2, the string is dropped. */
  lemma ExpandedListExample(k: string, a: Value, b: Value, s: string)
    requires k != "" && !a.Obj? && !b.Obj? && !ExpandsList(a) && !ExpandsList(b)
    ensures Flatten([(k, List([Obj([("t", a)]), Str(s), Obj([("t", b)])]))], "", "_")
      == [(k + "_0_t", a), (k + "_2_t", b)]
  {
    var x := List([Obj([("t", a)]), Str(s), Obj([("t", b)])]);
    var items := [(k + "_0_t", a), (k + "_2_t", b)];
    ExampleListItems(x, k, a, b);
    FlattenPairsCons(k, x, [], "", "_");
    assert [(k, x)] + [] == [(k, x)];
    assert FlattenPairs([], "", "_") == [];
    assert FlattenPairs([(k, x)], "", "_") == items;
    assert items[0].0 != items[1].0 by {
      assert items[0].0[|k| + 1] == '0' && items[1].0[|k| + 1] == '2';
    }
    FromPairsOfDict(items);
  }
}
