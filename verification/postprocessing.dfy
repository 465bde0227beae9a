/** Clean-up and merge of extraction results (preprocess/postprocessing.py). */
module Postprocessing {
  import opened Results
  import opened Dicts
  import opened Json
  import opened ListDedup

  /** `postprocess_extracted_data`: drops the entries whose value is None. */
  function Postprocess(data: Record): (r: Record)
    ensures forall p :: p in r <==> p in data && p.1 != Null
    ensures |r| <= |data|
    ensures UniqueKeys(data) ==> UniqueKeys(r)
  {
    if |data| == 0 then []
    else
      var tail := data[1..];
      var rest := Postprocess(tail);
      assert data == [data[0]] + tail;
      assert forall p :: p in data <==> p == data[0] || p in tail;
      assert UniqueKeys(data) ==> UniqueKeys(tail) && !Has(tail, data[0].0) by {
        if UniqueKeys(data) {
          forall a, b | 0 <= a < b < |tail| ensures tail[a].0 != tail[b].0 {
            assert tail[a] == data[a + 1] && tail[b] == data[b + 1];
          }
          forall a | 0 <= a < |tail| ensures tail[a].0 != data[0].0 {
            assert tail[a] == data[a + 1];
          }
        }
      }
      if data[0].1 == Null then rest
      else
        var r := [data[0]] + rest;
        assert UniqueKeys(data) ==> UniqueKeys(r) by {
          if UniqueKeys(data) {
            forall a, b | 0 <= a < b < |r| ensures r[a].0 != r[b].0 {
              assert r[b] == rest[b - 1];
              assert r[b] in tail;
              if a > 0 { assert r[a] == rest[a - 1]; }
            }
          }
        }
        r
  }

  /** Clean-up is compositional, so it keeps the relative order of entries. */
  lemma {:induction false} PostprocessAppend(d1: Record, d2: Record)
    ensures Postprocess(d1 + d2) == Postprocess(d1) + Postprocess(d2)
  {
    if |d1| == 0 {
      assert d1 + d2 == d2;
    } else {
      assert (d1 + d2)[0] == d1[0];
      assert (d1 + d2)[1..] == d1[1..] + d2;
      PostprocessAppend(d1[1..], d2);
    }
  }

  /** A record without None values is left as it is; in particular clean-up is
      idempotent. */
  lemma {:induction false} PostprocessNullFree(data: Record)
    requires forall i :: 0 <= i < |data| ==> data[i].1 != Null
    ensures Postprocess(data) == data
  {
    if |data| > 0 {
      PostprocessNullFree(data[1..]);
    }
  }

  lemma PostprocessIdempotent(data: Record)
    ensures Postprocess(Postprocess(data)) == Postprocess(data)
  {
    var r := Postprocess(data);
    assert forall i :: 0 <= i < |r| ==> r[i] in r;
    PostprocessNullFree(r);
  }

  /** `{"a": None, "b": [], "c": "x"}` cleans to `{"b": [], "c": "x"}`: the
      None entry goes, while the empty list and the string stay, in order. */
  lemma PostprocessExample(a: Value, b: Value)
    requires a == List([]) && b == Str("x")
    ensures Postprocess([("a", Null), ("b", a), ("c", b)]) == [("b", a), ("c", b)]
  {
    var tail := [("b", a), ("c", b)];
    PostprocessNullFree(tail);
    assert [("a", Null), ("b", a), ("c", b)][1..] == tail;
  }

  /** On a dict, clean-up keeps exactly the keys whose value is not None, with
      their values, and adds none: `.get` cannot tell the two apart. */
  lemma PostprocessKeys(data: Record)
    requires UniqueKeys(data)
    ensures UniqueKeys(Postprocess(data))
    ensures forall k :: Has(Postprocess(data), k) <==> Has(data, k) && Get(data, k) != Null
    ensures forall k :: Get(Postprocess(data), k) == Get(data, k)
  {
    var r := Postprocess(data);
    forall k ensures Has(r, k) <==> Has(data, k) && Get(data, k) != Null {
      if Has(r, k) {
        var i :| 0 <= i < |r| && r[i].0 == k;
        assert r[i] in data;
      }
      if Has(data, k) && Get(data, k) != Null {
        var i :| 0 <= i < |data| && data[i].0 == k;
        assert data[i] in r;
      }
    }
  }

  /** The list fields concatenated and de-duplicated by `merge_documents`. */
  const ListFields: seq<string> :=
    ["professional_experience", "education", "skills", "languages", "certifications", "profiles"]

  /** The scalar fields filled from the first record with a non-blank value. */
  const ScalarFields: seq<string> :=
    ["name", "summary", "email", "phone", "location", "years_experience", "current_position", "current_company"]

  /** The TypeError Python raises while merging list field `field`: its value
      in some record is a truthy number or True (not iterable), or one of its
      items has an unhashable dedup key. */
  datatype MergeError = TypeError(field: string)

  /** `for item in v`: a list yields its elements, a string its characters,
      a dict its keys; a number or a bool is not iterable. */
  function Iterate(v: Value): (r: Option<seq<Value>>)
    ensures r.None? <==> v.Null? || v.Bool? || v.Num?
    ensures v.List? ==> r == Some(v.items)
    ensures v.Str? ==> r.Some? && |r.value| == |v.s| && forall i :: 0 <= i < |v.s| ==> r.value[i] == Str([v.s[i]])
    ensures v.Obj? ==> r.Some? && |r.value| == |v.fields| && forall i :: 0 <= i < |v.fields| ==> r.value[i] == Str(v.fields[i].0)
  {
    match v
    case List(xs) => Some(xs)
    case Str(s) => Some(seq(|s|, i requires 0 <= i < |s| => Str([s[i]])))
    case Obj(fs) => Some(seq(|fs|, i requires 0 <= i < |fs| => Str(fs[i].0)))
    case _ => None
  }

  /** `items = r.get(field, []); if items: for item in items`. */
  function ItemsOf(r: Record, field: string): Option<seq<Value>> {
    var v := GetOr(r, field, List([]));
    if !Truthy(v) then Some([]) else Iterate(v)
  }

  /** The items of `field` across all records, in document order; None when
      some record's value is not iterable. */
  function FieldItems(rs: seq<Record>, field: string): Option<seq<Value>> {
    if |rs| == 0 then Some([])
    else
      var head := ItemsOf(rs[0], field);
      var rest := FieldItems(rs[1..], field);
      if head.Some? && rest.Some? then Some(head.value + rest.value) else None
  }

  /** `FieldItems` fails exactly when some record's value fails to iterate;
      otherwise it holds every record's items and nothing else. */
  lemma {:induction false} FieldItemsSpec(rs: seq<Record>, field: string)
    ensures FieldItems(rs, field).Some? <==> forall i :: 0 <= i < |rs| ==> ItemsOf(rs[i], field).Some?
    ensures FieldItems(rs, field).Some? ==>
      forall i, x :: 0 <= i < |rs| && x in ItemsOf(rs[i], field).value ==> x in FieldItems(rs, field).value
    ensures FieldItems(rs, field).Some? ==>
      forall x :: x in FieldItems(rs, field).value ==> exists i :: 0 <= i < |rs| && x in ItemsOf(rs[i], field).value
  {
    if |rs| > 0 {
      FieldItemsSpec(rs[1..], field);
      assert forall i :: 1 <= i < |rs| ==> rs[i] == rs[1..][i - 1];
      var r := FieldItems(rs, field);
      if r.Some? {
        var xs := ItemsOf(rs[0], field).value;
        var ys := FieldItems(rs[1..], field).value;
        assert r.value == xs + ys;
        forall x | x in r.value
          ensures exists i :: 0 <= i < |rs| && x in ItemsOf(rs[i], field).value
        {
          if x !in xs {
            assert x in ys;
            var i :| 0 <= i < |rs[1..]| && x in ItemsOf(rs[1..][i], field).value;
            assert rs[i + 1] == rs[1..][i];
          }
        }
      }
    }
  }

  /** The merged value of one list field: its items, first occurrence of each
      dedup key kept. */
  function MergeListField(rs: seq<Record>, field: string): (r: Result<seq<Value>, MergeError>)
    ensures r.Err? ==> r.error == TypeError(field)
    ensures r.Ok? <==> FieldItems(rs, field).Some? && forall x :: x in FieldItems(rs, field).value ==> Hashable(x)
    ensures r.Ok? ==> r.value == Dedup(FieldItems(rs, field).value)
  {
    match FieldItems(rs, field)
    case None => Err(TypeError(field))
    case Some(items) =>
      if forall x :: x in items ==> Hashable(x) then Ok(Dedup(items)) else Err(TypeError(field))
  }

  /** The list fields, merged in the order of `fields`; the first field that
      fails decides the error. */
  function MergeListFields(rs: seq<Record>, fields: seq<string>): (r: Result<Record, MergeError>)
    ensures r.Ok? ==> KeysOf(r.value) == fields
    ensures r.Ok? ==> forall i :: 0 <= i < |fields| ==> r.value[i].1.List? && MergeListField(rs, fields[i]) == Ok(r.value[i].1.items)
  {
    if |fields| == 0 then Ok([])
    else
      match MergeListField(rs, fields[0])
      case Err(e) => Err(e)
      case Ok(xs) =>
        match MergeListFields(rs, fields[1..])
        case Err(e) => Err(e)
        case Ok(rest) =>
          var r := [(fields[0], List(xs))] + rest;
          assert forall i :: 1 <= i < |r| ==> r[i] == rest[i - 1] && fields[i] == fields[1..][i - 1];
          Ok(r)
  }

  /** The value of `field` in the first record where it is not blank. */
  function FirstFilled(rs: seq<Record>, field: string): Option<Value> {
    if |rs| == 0 then None
    else if !IsBlank(Get(rs[0], field)) then Some(Get(rs[0], field))
    else FirstFilled(rs[1..], field)
  }

  /** `FirstFilled` finds nothing exactly when every record leaves the field
      blank, and otherwise the value of the first record that does not. */
  lemma {:induction false} FirstFilledSpec(rs: seq<Record>, field: string)
    ensures FirstFilled(rs, field).None? <==> forall i :: 0 <= i < |rs| ==> IsBlank(Get(rs[i], field))
    ensures forall i :: (0 <= i < |rs| && !IsBlank(Get(rs[i], field)) && (forall j :: 0 <= j < i ==> IsBlank(Get(rs[j], field)))
      ==> FirstFilled(rs, field) == Some(Get(rs[i], field)))
  {
    if |rs| > 0 {
      FirstFilledSpec(rs[1..], field);
      assert forall i :: 1 <= i < |rs| ==> rs[i] == rs[1..][i - 1];
      if IsBlank(Get(rs[0], field)) {
        forall i | 0 <= i < |rs| && !IsBlank(Get(rs[i], field)) && (forall j :: 0 <= j < i ==> IsBlank(Get(rs[j], field)))
          ensures FirstFilled(rs, field) == Some(Get(rs[i], field))
        {
          assert i > 0;
          assert forall j :: 0 <= j < i - 1 ==> IsBlank(Get(rs[1..][j], field)) by {
            forall j | 0 <= j < i - 1 ensures IsBlank(Get(rs[1..][j], field)) {
              assert rs[1..][j] == rs[j + 1];
            }
          }
        }
      }
    }
  }

  predicate Distinct(fields: seq<string>) {
    forall i, j :: 0 <= i < j < |fields| ==> fields[i] != fields[j]
  }

  lemma DistinctTail(fields: seq<string>)
    requires Distinct(fields) && |fields| > 0
    ensures Distinct(fields[1..]) && fields[0] !in fields[1..]
  {
    var tail := fields[1..];
    forall i, j | 0 <= i < j < |tail| ensures tail[i] != tail[j] {
      assert tail[i] == fields[i + 1] && tail[j] == fields[j + 1];
    }
    forall i | 0 <= i < |tail| ensures tail[i] != fields[0] {
      assert tail[i] == fields[i + 1];
    }
  }

  /** The scalar fields that some record fills, each with its first value. */
  function MergeScalarFields(rs: seq<Record>, fields: seq<string>): (r: Record)
    ensures forall k :: Has(r, k) ==> k in fields
    ensures forall i :: 0 <= i < |r| ==> FirstFilled(rs, r[i].0) == Some(r[i].1)
    ensures forall k :: k in fields ==> (Has(r, k) <==> FirstFilled(rs, k).Some?)
    ensures Distinct(fields) ==> UniqueKeys(r)
  {
    if |fields| == 0 then []
    else
      var f := fields[0];
      var rest := MergeScalarFields(rs, fields[1..]);
      assert forall k :: k in fields <==> k == f || k in fields[1..];
      match FirstFilled(rs, f)
      case None => rest
      case Some(v) =>
        var r := [(f, v)] + rest;
        HasCons((f, v), rest);
        assert forall i :: 1 <= i < |r| ==> r[i] == rest[i - 1];
        if Distinct(fields) then
          DistinctTail(fields);
          ConsUnique((f, v), rest);
          r
        else r
  }

  /** The keys a merge of two or more records always strips. */
  function Strip(d: Record): (r: Record)
    ensures !Has(r, "source") && !Has(r, "file_name") && !Has(r, "page")
    ensures forall k :: k != "source" && k != "file_name" && k != "page" ==> Lookup(r, k) == Lookup(d, k)
  {
    Remove(Remove(Remove(d, "source"), "file_name"), "page")
  }

  /** `merge_documents`. */
  function Merge(rs: seq<Record>): (r: Result<Record, MergeError>)
    ensures |rs| == 0 ==> r == Ok([])
    ensures |rs| == 1 ==> r == Ok(rs[0])
  {
    if |rs| == 0 then Ok([])
    else if |rs| == 1 then Ok(rs[0])
    else
      match MergeListFields(rs, ListFields)
      case Err(e) => Err(e)
      case Ok(lists) => Ok(Strip(lists + MergeScalarFields(rs, ScalarFields)))
  }

  /** What `json.load` makes of the raw extraction file: any JSON value. */
  datatype RawFile = EmptyFile | Unparseable | Parsed(data: Value)

  /** Why `run_postprocessing` raises: `for r in results` on None, a bool or
      a number (TypeError), `.items()` on a result that is not a dict
      (AttributeError), or the merge itself. */
  datatype RunError = NotIterable | NotADict(index: nat) | MergeFailed(error: MergeError)

  /** The items as records, or the position of the first one that is not a
      dict. */
  function AsRecords(items: seq<Value>): (r: Result<seq<Record>, nat>)
    ensures r.Ok? <==> forall i :: 0 <= i < |items| ==> items[i].Obj?
    ensures r.Ok? ==> |r.value| == |items| && forall i :: 0 <= i < |items| ==> r.value[i] == items[i].fields
    ensures r.Err? ==>
      r.error < |items| && !items[r.error].Obj? && forall j :: 0 <= j < r.error ==> items[j].Obj?
  {
    if |items| == 0 then Ok([])
    else if !items[0].Obj? then Err(0)
    else
      match AsRecords(items[1..])
      case Err(i) => Err(i + 1)
      case Ok(rs) => Ok([items[0].fields] + rs)
  }

  /** The results the file holds, as `for r in results` and `r.items()` see
      them. An empty or unparseable file is read as no results at all. */
  function LoadedRecords(raw: RawFile): (r: Result<seq<Record>, RunError>)
    ensures !raw.Parsed? ==> r == Ok([])
    ensures raw.Parsed? ==> (r == Err(NotIterable) <==> Iterate(raw.data).None?)
    ensures raw.Parsed? && raw.data.List? ==>
      (r.Ok? <==> forall i :: 0 <= i < |raw.data.items| ==> raw.data.items[i].Obj?)
    ensures raw.Parsed? && raw.data.List? && r.Ok? ==>
      |r.value| == |raw.data.items| && forall i :: 0 <= i < |raw.data.items| ==> r.value[i] == raw.data.items[i].fields
    ensures raw.Parsed? && (raw.data.Obj? || raw.data.Str?) ==>
      r == if Truthy(raw.data) then Err(NotADict(0)) else Ok([])
  {
    match raw
    case Parsed(v) =>
      (match Iterate(v)
       case None => Err(NotIterable)
       case Some(items) =>
         match AsRecords(items)
         case Err(i) => Err(NotADict(i))
         case Ok(rs) => Ok(rs))
    case _ => Ok([])
  }

  /** `run_postprocessing` without the file I/O: the record it saves, or why
      it raises. A single record in a list is saved cleaned; a non-empty
      dict, such as the one the pipeline writes for a single file, makes it
      raise on its first key. */
  function RunPostprocessing(raw: RawFile): (r: Result<Record, RunError>)
    ensures !raw.Parsed? ==> r == Ok([])
    ensures raw.Parsed? && Iterate(raw.data).None? ==> r == Err(NotIterable)
    ensures raw.Parsed? && (raw.data == List([]) || raw.data == Obj([]) || raw.data == Str("")) ==> r == Ok([])
    ensures raw.Parsed? && raw.data.Obj? && |raw.data.fields| > 0 ==> r == Err(NotADict(0))
    ensures raw.Parsed? && raw.data.List? && |raw.data.items| == 1 && raw.data.items[0].Obj? ==>
      r == Ok(Postprocess(raw.data.items[0].fields))
  {
    match LoadedRecords(raw)
    case Err(e) => Err(e)
    case Ok(results) =>
      match Merge(seq(|results|, i requires 0 <= i < |results| => Postprocess(results[i])))
      case Err(e) => Err(MergeFailed(e))
      case Ok(m) => Ok(m)
  }
}
