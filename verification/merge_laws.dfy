/** What `merge_documents` (preprocess/postprocessing.py:14-64) promises about
    a batch of two or more records. */
module MergeLaws {
  import opened Results
  import opened Dicts
  import opened Json
  import opened ListDedup
  import opened Postprocessing

  lemma FieldTablesDisjoint()
    ensures forall f :: f in ListFields ==> f !in ScalarFields
    ensures forall i, j :: 0 <= i < j < |ScalarFields| ==> ScalarFields[i] != ScalarFields[j]
    ensures forall i, j :: 0 <= i < j < |ListFields| ==> ListFields[i] != ListFields[j]
    ensures "source" !in ListFields && "file_name" !in ListFields && "page" !in ListFields
    ensures "source" !in ScalarFields && "file_name" !in ScalarFields && "page" !in ScalarFields
  {
  }

  /** For a batch of two or more, the merged record's fields, before the
      strip of `source`/`file_name`/`page`, which then removes nothing. */
  lemma MergeUnstripped(rs: seq<Record>, m: Record)
    requires |rs| >= 2 && Merge(rs) == Ok(m)
    ensures MergeListFields(rs, ListFields).Ok?
    ensures m == MergeListFields(rs, ListFields).value + MergeScalarFields(rs, ScalarFields)
  {
    var lists := MergeListFields(rs, ListFields).value;
    var scalars := MergeScalarFields(rs, ScalarFields);
    var d := lists + scalars;
    assert m == Strip(d);
    assert !Has(d, "source") && !Has(d, "file_name") && !Has(d, "page") by {
      KeysOfParts(rs, lists, scalars);
    }
    assert Remove(d, "source") == d;
    assert Remove(d, "file_name") == d;
    assert Remove(d, "page") == d;
  }

  lemma KeysOfParts(rs: seq<Record>, lists: Record, scalars: Record)
    requires MergeListFields(rs, ListFields) == Ok(lists)
    requires scalars == MergeScalarFields(rs, ScalarFields)
    ensures forall k :: Has(lists + scalars, k) ==> k in ListFields || k in ScalarFields
    ensures !Has(lists + scalars, "source") && !Has(lists + scalars, "file_name") && !Has(lists + scalars, "page")
  {
    HasAppend(lists, scalars);
    ListKeys(rs, lists);
    forall k | Has(lists + scalars, k) ensures k in ListFields || k in ScalarFields {
      assert Has(lists, k) || Has(scalars, k);
    }
    NotAField("source");
    assert !Has(lists, "source") && !Has(scalars, "source");
    NotAField("file_name");
    assert !Has(lists, "file_name") && !Has(scalars, "file_name");
    NotAField("page");
    assert !Has(lists, "page") && !Has(scalars, "page");
  }

  lemma NotAField(k: string)
    requires k in ["source", "file_name", "page"]
    ensures k !in ListFields && k !in ScalarFields
  {
  }

  lemma ListKeys(rs: seq<Record>, lists: Record)
    requires MergeListFields(rs, ListFields) == Ok(lists)
    ensures forall k :: Has(lists, k) ==> k in ListFields
  {
    forall k | Has(lists, k) ensures k in ListFields {
      var i :| 0 <= i < |lists| && lists[i].0 == k;
      assert KeysOf(lists)[i] == k;
    }
  }

  /** A merge of two or more records holds every list field, as a list, first
      and in table order, then only scalar fields; never `source`,
      `file_name`, `page` or any other key, and no key twice. */
  lemma MergeShape(rs: seq<Record>, m: Record)
    requires |rs| >= 2 && Merge(rs) == Ok(m)
    ensures |m| >= |ListFields| && KeysOf(m[..|ListFields|]) == ListFields
    ensures forall f :: f in ListFields ==> Has(m, f) && Get(m, f).List?
    ensures forall k :: Has(m, k) ==> k in ListFields || k in ScalarFields
    ensures !Has(m, "source") && !Has(m, "file_name") && !Has(m, "page")
    ensures UniqueKeys(m)
  {
    MergeUnstripped(rs, m);
    var lists := MergeListFields(rs, ListFields).value;
    var scalars := MergeScalarFields(rs, ScalarFields);
    FieldTablesDisjoint();
    HasAppend(lists, scalars);
    assert m[..|ListFields|] == lists;
    assert forall i :: 0 <= i < |lists| ==> lists[i].0 == ListFields[i] by {
      forall i | 0 <= i < |lists| ensures lists[i].0 == ListFields[i] {
        assert KeysOf(lists)[i] == lists[i].0;
      }
    }
    UniqueOfParts(lists, scalars);
    ListFieldsPresent(m, lists);
  }

  lemma ListFieldsPresent(m: Record, lists: Record)
    requires |lists| == |ListFields| <= |m| && m[..|ListFields|] == lists && UniqueKeys(m)
    requires forall i :: 0 <= i < |lists| ==> lists[i].0 == ListFields[i] && lists[i].1.List?
    ensures forall f :: f in ListFields ==> Has(m, f) && Get(m, f).List?
  {
    forall f | f in ListFields ensures Has(m, f) && Get(m, f).List? {
      var i :| 0 <= i < |ListFields| && ListFields[i] == f;
      assert m[i] == lists[i];
      assert Lookup(m, f) == Some(m[i].1);
    }
  }

  lemma UniqueOfParts(lists: Record, scalars: Record)
    requires |lists| == |ListFields|
    requires forall i :: 0 <= i < |lists| ==> lists[i].0 == ListFields[i]
    requires UniqueKeys(scalars)
    requires forall k :: Has(scalars, k) ==> k in ScalarFields
    ensures UniqueKeys(lists + scalars)
  {
    FieldTablesDisjoint();
    var d := lists + scalars;
    forall i, j | 0 <= i < j < |d| ensures d[i].0 != d[j].0 {
      if j < |lists| {
        assert d[i] == lists[i] && d[j] == lists[j];
      } else if i >= |lists| {
        assert d[i] == scalars[i - |lists|] && d[j] == scalars[j - |lists|];
      } else {
        assert d[j] == scalars[j - |lists|];
        assert Has(scalars, d[j].0);
        assert d[i].0 in ListFields;
      }
    }
  }

  /** Each list field of a merge holds the concatenation of that field's items
      over the batch, in document order, with the first item of every dedup
      key kept and every later one dropped. */
  lemma MergeListFieldDedup(rs: seq<Record>, m: Record, f: string)
    requires |rs| >= 2 && Merge(rs) == Ok(m) && f in ListFields
    ensures FieldItems(rs, f).Some?
    ensures Get(m, f) == List(Dedup(FieldItems(rs, f).value))
    ensures DistinctKeys(Get(m, f).items)
    ensures KeySet(Get(m, f).items) == KeySet(FieldItems(rs, f).value)
    ensures forall x :: x in Get(m, f).items ==> x in FieldItems(rs, f).value
  {
    MergeUnstripped(rs, m);
    MergeShape(rs, m);
    var lists := MergeListFields(rs, ListFields).value;
    var i :| 0 <= i < |ListFields| && ListFields[i] == f;
    assert m[i] == lists[i];
    assert Lookup(m, f) == Some(m[i].1) by {
      assert KeysOf(m[..|ListFields|])[i] == m[i].0;
    }
    var items := FieldItems(rs, f).value;
    DedupDistinct(items);
    DedupKeySet(items);
  }

  /** Each scalar field of a merge is present exactly when some record has a
      non-blank value for it, and then holds the first such value. */
  lemma MergeScalarFirstFilled(rs: seq<Record>, m: Record, f: string)
    requires |rs| >= 2 && Merge(rs) == Ok(m) && f in ScalarFields
    ensures Has(m, f) <==> exists i :: 0 <= i < |rs| && !IsBlank(Get(rs[i], f))
    ensures forall i :: (0 <= i < |rs| && !IsBlank(Get(rs[i], f)) && (forall j :: 0 <= j < i ==> IsBlank(Get(rs[j], f)))
      ==> Get(m, f) == Get(rs[i], f))
  {
    MergeUnstripped(rs, m);
    MergeShape(rs, m);
    FieldTablesDisjoint();
    var lists := MergeListFields(rs, ListFields).value;
    var scalars := MergeScalarFields(rs, ScalarFields);
    HasAppend(lists, scalars);
    FirstFilledSpec(rs, f);
    assert !Has(lists, f) by {
      forall i | 0 <= i < |lists| ensures lists[i].0 != f {
        assert KeysOf(lists)[i] == lists[i].0;
      }
    }
    if Has(scalars, f) {
      var i :| 0 <= i < |scalars| && scalars[i].0 == f;
      assert m[|lists| + i] == scalars[i];
      assert Lookup(m, f) == Some(scalars[i].1);
    }
  }

  /** The same, as a value: a scalar field of a merge reads as the first
      non-blank value any record holds for it, or None. */
  lemma MergeScalarValue(rs: seq<Record>, m: Record, f: string)
    requires |rs| >= 2 && Merge(rs) == Ok(m) && f in ScalarFields
    ensures Get(m, f) == FirstFilled(rs, f).GetOr(Null)
  {
    MergeUnstripped(rs, m);
    FieldTablesDisjoint();
    var lists := MergeListFields(rs, ListFields).value;
    var scalars := MergeScalarFields(rs, ScalarFields);
    HasAppend(lists, scalars);
    assert !Has(lists, f) by {
      forall i | 0 <= i < |lists| ensures lists[i].0 != f {
        assert KeysOf(lists)[i] == lists[i].0;
      }
    }
    if Has(scalars, f) {
      var i :| 0 <= i < |scalars| && scalars[i].0 == f;
      assert m[|lists| + i] == scalars[i];
      MergeShape(rs, m);
      assert Lookup(m, f) == Some(scalars[i].1);
    }
  }

  /** A merge of two or more records fails exactly when some list field fails,
      and then with the first such field in table order. A list field fails
      when some record holds a truthy number or True under it, or when one of
      its items is a list or a dict holding a list or dict. */
  lemma MergeFails(rs: seq<Record>)
    requires |rs| >= 2
    ensures Merge(rs).Err? <==> exists f :: f in ListFields && MergeListField(rs, f).Err?
    ensures Merge(rs).Err? ==> exists i :: (0 <= i < |ListFields| && Merge(rs).error == TypeError(ListFields[i])
      && MergeListField(rs, ListFields[i]).Err?
      && forall j :: 0 <= j < i ==> MergeListField(rs, ListFields[j]).Ok?)
  {
    var r := MergeListFields(rs, ListFields);
    if r.Err? {
      FirstFailingField(rs, ListFields);
    } else {
      forall f | f in ListFields ensures MergeListField(rs, f).Ok? {
        var i :| 0 <= i < |ListFields| && ListFields[i] == f;
      }
    }
  }

  lemma {:induction false} FirstFailingField(rs: seq<Record>, fields: seq<string>)
    requires MergeListFields(rs, fields).Err?
    ensures exists i :: (0 <= i < |fields| && MergeListFields(rs, fields).error == TypeError(fields[i])
      && MergeListField(rs, fields[i]).Err?
      && forall j :: 0 <= j < i ==> MergeListField(rs, fields[j]).Ok?)
  {
    if MergeListField(rs, fields[0]).Ok? {
      FirstFailingField(rs, fields[1..]);
      var i :| (0 <= i < |fields[1..]| && MergeListFields(rs, fields[1..]).error == TypeError(fields[1..][i])
        && MergeListField(rs, fields[1..][i]).Err?
        && forall j :: 0 <= j < i ==> MergeListField(rs, fields[1..][j]).Ok?);
      assert forall j :: 1 <= j < i + 1 ==> fields[j] == fields[1..][j - 1];
    }
  }

  /** A list field fails exactly on a non-iterable value or an unhashable
      item. */
  lemma ListFieldFails(rs: seq<Record>, f: string)
    ensures MergeListField(rs, f).Err? <==>
      (exists i :: 0 <= i < |rs| && NotIterable(GetOr(rs[i], f, List([]))))
      || (FieldItems(rs, f).Some? && exists x :: x in FieldItems(rs, f).value && !Hashable(x))
  {
    FieldItemsSpec(rs, f);
    forall i | 0 <= i < |rs| ensures ItemsOf(rs[i], f).None? <==> NotIterable(GetOr(rs[i], f, List([]))) {
    }
  }

  predicate NotIterable(v: Value) {
    Truthy(v) && (v.Num? || v.Bool?)
  }

  lemma DedupSnoc(init: seq<Value>, last: Value)
    ensures Dedup(init + [last]) == if KeyOf(last) in KeySet(init) then Dedup(init) else Dedup(init) + [last]
  {
    assert (init + [last])[..|init|] == init;
  }

  lemma FieldItemsSingle(r: Record, f: string)
    ensures FieldItems([r], f) == ItemsOf(r, f)
  {
    var rs := [r];
    assert rs[1..] == [];
    assert FieldItems(rs[1..], f) == Some([]);
    var head := ItemsOf(rs[0], f);
    if head.Some? {
      assert FieldItems(rs, f) == Some(head.value + []);
      assert head.value + [] == head.value;
    }
  }

  lemma FieldItemsCons(r: Record, rs: seq<Record>, f: string)
    ensures FieldItems([r] + rs, f) ==
      if ItemsOf(r, f).Some? && FieldItems(rs, f).Some? then Some(ItemsOf(r, f).value + FieldItems(rs, f).value) else None
  {
    assert ([r] + rs)[1..] == rs;
  }

  lemma {:induction false} MergeListFieldsOk(rs: seq<Record>, fields: seq<string>)
    requires forall f :: f in fields ==> MergeListField(rs, f).Ok?
    ensures MergeListFields(rs, fields).Ok?
  {
    if |fields| > 0 {
      assert fields[0] in fields;
      assert forall f :: f in fields[1..] ==> f in fields;
      MergeListFieldsOk(rs, fields[1..]);
    }
  }

  function ExampleBatch(): seq<Record> {
    [ [("skills", List([Str("Python"), Str("SQL")]))],
      [("skills", List([Str("SQL"), Str("Go")]))] ]
  }

  lemma ExampleItems(f: string)
    ensures FieldItems(ExampleBatch(), f) ==
      if f == "skills" then Some([Str("Python"), Str("SQL"), Str("SQL"), Str("Go")]) else Some([])
  {
    var rs := ExampleBatch();
    var r1 := rs[0];
    var r2 := rs[1];
    FieldItemsSingle(r2, f);
    FieldItemsCons(r1, [r2], f);
    assert [r1] + [r2] == rs;
    if f == "skills" {
      assert ItemsOf(r1, f) == Some([Str("Python"), Str("SQL")]);
      assert ItemsOf(r2, f) == Some([Str("SQL"), Str("Go")]);
      assert FieldItems(rs, f) == Some([Str("Python"), Str("SQL")] + [Str("SQL"), Str("Go")]);
      assert [Str("Python"), Str("SQL")] + [Str("SQL"), Str("Go")] == [Str("Python"), Str("SQL"), Str("SQL"), Str("Go")];
    } else {
      assert !Has(r1, f) && !Has(r2, f);
      assert ItemsOf(r1, f) == Some([]);
      assert ItemsOf(r2, f) == Some([]);
      assert FieldItems(rs, f) == Some([] + []);
    }
  }

  lemma ExampleDedup()
    ensures Dedup([Str("Python"), Str("SQL"), Str("SQL"), Str("Go")]) == [Str("Python"), Str("SQL"), Str("Go")]
  {
    var p := Str("Python");
    var q := Str("SQL");
    var g := Str("Go");
    DedupSnoc([], p);
    KeySetSnoc([], p);
    assert [] + [p] == [p];
    DedupSnoc([p], q);
    KeySetSnoc([p], q);
    DedupSnoc([p, q], q);
    KeySetSnoc([p, q], q);
    assert [p] + [q] == [p, q];
    assert [p, q] + [q] == [p, q, q];
    DedupSnoc([p, q, q], g);
    assert [p, q, q] + [g] == [p, q, q, g];
  }

  /** Skills `[Python, SQL]` and `[SQL, Go]` merge to `[Python, SQL, Go]`:
      concatenated in document order with the repeated "SQL" dropped. */
  lemma SkillsExample()
    ensures Merge(ExampleBatch()).Ok?
    ensures Get(Merge(ExampleBatch()).value, "skills") == List([Str("Python"), Str("SQL"), Str("Go")])
  {
    var rs := ExampleBatch();
    forall f | f in ListFields ensures MergeListField(rs, f).Ok? {
      ExampleItems(f);
    }
    MergeListFieldsOk(rs, ListFields);
    var m := Merge(rs).value;
    MergeListFieldDedup(rs, m, "skills");
    ExampleItems("skills");
    ExampleDedup();
  }

  lemma {:induction false} AbsentFieldHasNoItems(rs: seq<Record>, f: string)
    requires forall i :: 0 <= i < |rs| ==> !Has(rs[i], f)
    ensures FieldItems(rs, f) == Some([])
  {
    if |rs| > 0 {
      assert forall i :: 0 <= i < |rs[1..]| ==> rs[1..][i] == rs[i + 1];
      AbsentFieldHasNoItems(rs[1..], f);
      assert ItemsOf(rs[0], f) == Some([]);
      var none: seq<Value> := [];
      assert FieldItems(rs, f) == Some(none + none);
      assert none + none == none;
    }
  }

  /** With no list field in any record, the merge cannot fail. */
  lemma MergeWithoutListFields(rs: seq<Record>)
    requires |rs| >= 2
    requires forall i, f :: 0 <= i < |rs| && f in ListFields ==> !Has(rs[i], f)
    ensures Merge(rs).Ok?
  {
    forall f | f in ListFields ensures MergeListField(rs, f).Ok? {
      AbsentFieldHasNoItems(rs, f);
    }
    MergeListFieldsOk(rs, ListFields);
  }

  lemma NameOnlyRecord(v: Value)
    ensures forall f :: f in ListFields ==> !Has([("name", v)], f)
    ensures Get([("name", v)], "name") == v
  {
  }

  /** A record holding only a name merged with others holding only names. */
  lemma NameMerge(rs: seq<Record>)
    requires |rs| >= 2
    requires forall i :: 0 <= i < |rs| ==> exists v :: rs[i] == [("name", v)]
    ensures Merge(rs).Ok?
  {
    forall i, f | 0 <= i < |rs| && f in ListFields ensures !Has(rs[i], f) {
      var v :| rs[i] == [("name", v)];
      NameOnlyRecord(v);
    }
    MergeWithoutListFields(rs);
  }

  /** Two name-only records, one of them with a None name: the other name
      is the merged one. */
  lemma NameWins(rs: seq<Record>, x: string)
    requires |rs| == 2 && x != ""
    requires || (rs[0] == [("name", Str(x))] && rs[1] == [("name", Null)])
             || (rs[0] == [("name", Null)] && rs[1] == [("name", Str(x))])
    ensures Merge(rs).Ok? && Get(Merge(rs).value, "name") == Str(x)
  {
    NameOnlyRecord(Str(x));
    NameOnlyRecord(Null);
    NameMerge(rs);
    NameOfMerge(rs, Merge(rs).value, x);
  }

  lemma NameOfMerge(rs: seq<Record>, m: Record, x: string)
    requires |rs| == 2 && x != "" && Merge(rs) == Ok(m)
    requires || (Get(rs[0], "name") == Str(x) && Get(rs[1], "name") == Null)
             || (Get(rs[0], "name") == Null && Get(rs[1], "name") == Str(x))
    ensures Get(m, "name") == Str(x)
  {
    MergeScalarValue(rs, m, "name");
    assert rs[1..][0] == rs[1];
  }

  /** A name `x` merged with a None name gives `x`, whichever of the two
      records comes first. */
  lemma NameExample(x: string, a: Record, b: Record)
    requires x != "" && a == [("name", Str(x))] && b == [("name", Null)]
    ensures Merge([a, b]).Ok? && Get(Merge([a, b]).value, "name") == Str(x)
    ensures Merge([b, a]).Ok? && Get(Merge([b, a]).value, "name") == Str(x)
  {
    NameWins([a, b], x);
    NameWins([b, a], x);
  }
  /** A value found by `FirstFilled` is never blank, so never None. */
  lemma {:induction false} FirstFilledNotBlank(rs: seq<Record>, f: string)
    ensures FirstFilled(rs, f).Some? ==> !IsBlank(FirstFilled(rs, f).value)
  {
    if |rs| > 0 {
      FirstFilledNotBlank(rs[1..], f);
    }
  }

  /** A merge of two or more records holds no None value: list fields hold
      lists and a scalar field is only set from a non-blank value. */
  lemma MergeNullFree(rs: seq<Record>, m: Record)
    requires |rs| >= 2 && Merge(rs) == Ok(m)
    ensures forall i :: 0 <= i < |m| ==> m[i].1 != Null
  {
    MergeShape(rs, m);
    MergeUnstripped(rs, m);
    var lists := MergeListFields(rs, ListFields).value;
    var scalars := MergeScalarFields(rs, ScalarFields);
    forall i | 0 <= i < |scalars| ensures scalars[i].1 != Null {
      FirstFilledNotBlank(rs, scalars[i].0);
    }
    assert Merge(rs) == Ok(Strip(lists + scalars));
    NullFreeParts(lists, scalars, m);
  }

  /** Keeping only some keys of a None-free record, without changing their
      values, leaves a None-free record. */
  lemma NullFreeParts(lists: Record, scalars: Record, m: Record)
    requires forall i :: 0 <= i < |lists| ==> lists[i].1.List?
    requires forall i :: 0 <= i < |scalars| ==> scalars[i].1 != Null
    requires UniqueKeys(m)
    requires forall k :: Has(m, k) ==> Lookup(m, k) == Lookup(lists + scalars, k)
    ensures forall i :: 0 <= i < |m| ==> m[i].1 != Null
  {
    var d := lists + scalars;
    forall i | 0 <= i < |m| ensures m[i].1 != Null {
      var k := m[i].0;
      assert Has(m, k);
      assert Lookup(d, k) == Some(m[i].1);
      var j :| 0 <= j < |d| && d[j] == (k, m[i].1);
      if j >= |lists| {
        assert d[j] == scalars[j - |lists|];
      }
    }
  }

  /** Whatever `run_postprocessing` saves holds no None value: a single
      record had its None values filtered out, and a merge never adds one. */
  lemma RunPostprocessingNullFree(raw: RawFile)
    ensures RunPostprocessing(raw).Ok? ==>
      forall i :: 0 <= i < |RunPostprocessing(raw).value| ==> RunPostprocessing(raw).value[i].1 != Null
  {
    var r := RunPostprocessing(raw);
    if r.Ok? {
      var results := LoadedRecords(raw).value;
      var ps := seq(|results|, i requires 0 <= i < |results| => Postprocess(results[i]));
      assert Merge(ps) == Ok(r.value);
      if |results| >= 2 {
        MergeNullFree(ps, r.value);
      } else if |results| == 1 {
        var m := r.value;
        assert m == Postprocess(results[0]);
        forall i | 0 <= i < |m| ensures m[i].1 != Null {
          assert m[i] in m;
        }
      }
    }
  }
}
