/** The recursive cleaner `remove_null_values` and the predicate
    `is_form_empty` built on it. `Clean` is the cleaner as a function, with
    the Python filters written out as they stand; `RemoveNullValues` is the
    same cleaner as the source runs it, filling a fresh list or dict in a loop
    at each level. The lemmas state what cleaning guarantees. */
module Cleaner {
  import opened JsonValue

  // ---------------------------------------------------------------------
  // The filters, exactly as written in the source

  /** The test a cleaned dict value must pass to be kept. */
  predicate KeptInDict(cv: Json)
  {
    cv != Null && cv != Arr([]) && cv != Obj([]) && cv != Str("") && !IsNullText(PyStr(cv))
  }

  /** The test a cleaned list item must pass to be kept. */
  predicate KeptInList(cv: Json)
  {
    cv != Null && cv != Str("") && !IsNullText(PyStr(cv))
  }

  /** The test that turns a scalar into `None`. */
  predicate DroppedScalar(data: Json)
  {
    data == Null || data == Str("") || IsNullText(PyStr(data))
  }

  /** `remove_null_values(data)`; `Null` stands for Python's `None`. */
  function Clean(data: Json): (r: Json)
  {
    match data
    case Obj(fields) =>
      var kept := CleanFields(fields);
      if kept != [] then Obj(kept) else Null
    case Arr(items) =>
      var kept := CleanItems(items);
      if kept != [] then Arr(kept) else Null
    case _ =>
      if DroppedScalar(data) then Null else data
  }

  /** The dict loop after its first `|fields|` iterations. */
  function CleanFields(fields: seq<Member>): (r: seq<Member>)
  {
    if fields == [] then []
    else
      var m := fields[|fields| - 1];
      var cv := Clean(m.value);
      CleanFields(fields[..|fields| - 1]) + (if KeptInDict(cv) then [Member(m.key, cv)] else [])
  }

  /** The list loop after its first `|items|` iterations. */
  function CleanItems(items: seq<Json>): (r: seq<Json>)
  {
    if items == [] then []
    else
      var cv := Clean(items[|items| - 1]);
      CleanItems(items[..|items| - 1]) + (if KeptInList(cv) then [cv] else [])
  }

  /** `is_form_empty(form_data)`. */
  predicate IsFormEmpty(formData: Json)
  {
    var cleaned := Clean(formData);
    cleaned == Null || cleaned == Obj([])
  }

  // ---------------------------------------------------------------------
  // The cleaner as the source runs it

  /** Builds the cleaned dict or list in a loop at each level, recursing on
      each value; computes exactly `Clean`. */
  method RemoveNullValues(data: Json) returns (r: Json)
    ensures r == Clean(data)
    decreases data
  {
    match data {
      case Obj(fields) =>
        var cleaned: seq<Member> := [];
        var i := 0;
        while i < |fields|
          invariant 0 <= i <= |fields|
          invariant cleaned == CleanFields(fields[..i])
        {
          var m := fields[i];
          var cv := RemoveNullValues(m.value);
          if KeptInDict(cv) {
            cleaned := cleaned + [Member(m.key, cv)];
          }
          assert fields[..i + 1][..i] == fields[..i];
          i := i + 1;
        }
        assert fields[..i] == fields;
        r := if cleaned != [] then Obj(cleaned) else Null;
      case Arr(items) =>
        var cleaned: seq<Json> := [];
        var i := 0;
        while i < |items|
          invariant 0 <= i <= |items|
          invariant cleaned == CleanItems(items[..i])
        {
          var cv := RemoveNullValues(items[i]);
          if KeptInList(cv) {
            cleaned := cleaned + [cv];
          }
          assert items[..i + 1][..i] == items[..i];
          i := i + 1;
        }
        assert items[..i] == items;
        r := if cleaned != [] then Arr(cleaned) else Null;
      case _ =>
        if DroppedScalar(data) {
          r := Null;
        } else {
          r := data;
        }
    }
  }

  // ---------------------------------------------------------------------
  // Reference definitions

  /** A value that carries information at every depth: no `None`, no `""`,
      no string spelling "null" in any case, and no empty list or dict. */
  predicate Meaningful(j: Json)
  {
    match j
    case Null => false
    case Bool(_) => true
    case Int(_) => true
    case Str(s) => s != "" && !IsNullText(s)
    case Arr(items) => items != [] && forall x :: x in items ==> Meaningful(x)
    case Obj(fields) => fields != [] && forall m :: m in fields ==> Meaningful(m.value)
  }

  /** A value with no information anywhere: every leaf is `None`, `""` or a
      spelling of "null", and every list and dict holds only such values. */
  predicate Blank(j: Json)
  {
    match j
    case Null => true
    case Bool(_) => false
    case Int(_) => false
    case Str(s) => s == "" || IsNullText(s)
    case Arr(items) => forall x :: x in items ==> Blank(x)
    case Obj(fields) => forall m :: m in fields ==> Blank(m.value)
  }

  // ---------------------------------------------------------------------
  // No empties at any depth

  /** For a meaningful value every Python filter reduces to "is not None". */
  lemma MeaningfulPassesFilters(cv: Json)
    requires Meaningful(cv)
    ensures KeptInDict(cv) && KeptInList(cv) && !DroppedScalar(cv)
  {
    if !cv.Str? {
      NonStringNeverNullText(cv);
    }
  }

  /** The cleaner returns `None` or a meaningful value: never an empty list,
      an empty dict, `""`, or a "null" string, at any depth. */
  lemma {:induction false} CleanIsMeaningful(data: Json)
    ensures Clean(data) == Null || Meaningful(Clean(data))
    decreases data, 1
  {
    match data {
      case Obj(fields) => CleanFieldsAreMeaningful(fields);
      case Arr(items) => CleanItemsAreMeaningful(items);
      case _ =>
    }
  }

  lemma {:induction false} CleanFieldsAreMeaningful(fields: seq<Member>)
    ensures forall m :: m in CleanFields(fields) ==> Meaningful(m.value)
    decreases fields, 0
  {
    if fields != [] {
      var m := fields[|fields| - 1];
      CleanFieldsAreMeaningful(fields[..|fields| - 1]);
      CleanIsMeaningful(m.value);
    }
  }

  lemma {:induction false} CleanItemsAreMeaningful(items: seq<Json>)
    ensures forall x :: x in CleanItems(items) ==> Meaningful(x)
    decreases items, 0
  {
    if items != [] {
      CleanItemsAreMeaningful(items[..|items| - 1]);
      CleanIsMeaningful(items[|items| - 1]);
    }
  }

  /** What the cleaner produces always passes the dict and list filters
      unless it is `None`: the `[]`, `{}`, `""` and "null" tests never fire. */
  lemma CleanedPassesFilters(data: Json)
    ensures Clean(data) != Null ==> KeptInDict(Clean(data)) && KeptInList(Clean(data))
  {
    CleanIsMeaningful(data);
    if Clean(data) != Null {
      MeaningfulPassesFilters(Clean(data));
    }
  }

  // ---------------------------------------------------------------------
  // Scalars that are kept as they are

  /** Booleans and integers, `False` and `0` included, are never dropped. */
  lemma KeepsBoolAndInt(data: Json)
    requires data.Bool? || data.Int?
    ensures Clean(data) == data
  {
    NonStringNeverNullText(data);
  }

  /** A string is dropped exactly when it is `""` or a spelling of "null";
      whitespace-only strings are kept. */
  lemma CleanString(s: string)
    ensures Clean(Str(s)) == (if s == "" || IsNullText(s) then Null else Str(s))
    ensures (s != "" && forall i :: 0 <= i < |s| ==> s[i] in " \t\n\r\U{000B}\U{000C}") ==> Clean(Str(s)) == Str(s)
  {
    NullTextSpellings(s);
  }

  // ---------------------------------------------------------------------
  // Idempotence and fixed points

  lemma {:induction false} CleanKeepsMeaningful(j: Json)
    requires Meaningful(j)
    ensures Clean(j) == j
    decreases j, 1
  {
    match j {
      case Obj(fields) => CleanFieldsKeepMeaningful(fields);
      case Arr(items) => CleanItemsKeepMeaningful(items);
      case _ => MeaningfulPassesFilters(j);
    }
  }

  lemma {:induction false} CleanFieldsKeepMeaningful(fields: seq<Member>)
    requires forall m :: m in fields ==> Meaningful(m.value)
    ensures CleanFields(fields) == fields
    decreases fields, 0
  {
    if fields != [] {
      var pre, m := fields[..|fields| - 1], fields[|fields| - 1];
      assert m in fields;
      assert forall x :: x in pre ==> x in fields;
      CleanFieldsKeepMeaningful(pre);
      CleanKeepsMeaningful(m.value);
      MeaningfulPassesFilters(m.value);
      assert fields == pre + [Member(m.key, m.value)];
    }
  }

  lemma {:induction false} CleanItemsKeepMeaningful(items: seq<Json>)
    requires forall x :: x in items ==> Meaningful(x)
    ensures CleanItems(items) == items
    decreases items, 0
  {
    if items != [] {
      var pre, x := items[..|items| - 1], items[|items| - 1];
      assert x in items;
      assert forall y :: y in pre ==> y in items;
      CleanItemsKeepMeaningful(pre);
      CleanKeepsMeaningful(x);
      MeaningfulPassesFilters(x);
      assert items == pre + [x];
    }
  }

  /** Cleaning twice is cleaning once. */
  lemma CleanIdempotent(data: Json)
    ensures Clean(Clean(data)) == Clean(data)
  {
    CleanIsMeaningful(data);
    if Clean(data) != Null {
      CleanKeepsMeaningful(Clean(data));
    }
  }

  /** The values the cleaner leaves unchanged are exactly `None` and the
      meaningful values. */
  lemma CleanFixedPoints(j: Json)
    ensures Clean(j) == j <==> j == Null || Meaningful(j)
  {
    CleanIsMeaningful(j);
    if Meaningful(j) {
      CleanKeepsMeaningful(j);
    }
  }

  // ---------------------------------------------------------------------
  // Emptiness

  /** The cleaner returns `None` exactly for blank values. */
  lemma {:induction false} CleanNullIffBlank(data: Json)
    ensures Clean(data) == Null <==> Blank(data)
    decreases data, 1
  {
    match data {
      case Obj(fields) => CleanFieldsEmptyIffBlank(fields);
      case Arr(items) => CleanItemsEmptyIffBlank(items);
      case Str(s) => NullTextSpellings(s);
      case Null =>
      case Bool(_) => NonStringNeverNullText(data);
      case Int(_) => NonStringNeverNullText(data);
    }
  }

  lemma {:induction false} CleanFieldsEmptyIffBlank(fields: seq<Member>)
    ensures CleanFields(fields) == [] <==> forall m :: m in fields ==> Blank(m.value)
    decreases fields, 0
  {
    if fields != [] {
      var pre, m := fields[..|fields| - 1], fields[|fields| - 1];
      assert fields == pre + [m];
      CleanFieldsEmptyIffBlank(pre);
      CleanNullIffBlank(m.value);
      CleanedPassesFilters(m.value);
    }
  }

  lemma {:induction false} CleanItemsEmptyIffBlank(items: seq<Json>)
    ensures CleanItems(items) == [] <==> forall x :: x in items ==> Blank(x)
    decreases items, 0
  {
    if items != [] {
      var pre, x := items[..|items| - 1], items[|items| - 1];
      assert items == pre + [x];
      CleanItemsEmptyIffBlank(pre);
      CleanNullIffBlank(x);
      CleanedPassesFilters(x);
    }
  }

  /** `is_form_empty` holds exactly when the cleaner returns `None`, which is
      exactly when the form is blank; its `== {}` test can never fire. */
  lemma FormEmptyIffBlank(formData: Json)
    ensures Clean(formData) != Obj([])
    ensures IsFormEmpty(formData) <==> Clean(formData) == Null
    ensures IsFormEmpty(formData) <==> Blank(formData)
  {
    CleanIsMeaningful(formData);
    CleanNullIffBlank(formData);
  }

  // ---------------------------------------------------------------------
  // Structure preservation

  /** List cleaning works element by element and keeps surviving items in
      their original order. */
  lemma {:induction false} CleanItemsAppend(a: seq<Json>, b: seq<Json>)
    ensures CleanItems(a + b) == CleanItems(a) + CleanItems(b)
    decreases |b|
  {
    if b == [] {
      assert a + b == a;
    } else {
      var pre := b[..|b| - 1];
      assert (a + b)[..|a + b| - 1] == a + pre;
      CleanItemsAppend(a, pre);
    }
  }

  /** A single item survives, cleaned, exactly when it does not clean to
      `None`. */
  lemma CleanItemsSingle(x: Json)
    ensures CleanItems([x]) == if Clean(x) == Null then [] else [Clean(x)]
  {
    CleanedPassesFilters(x);
    assert [x][..0] == [];
  }

  /** Dict cleaning works member by member and keeps surviving keys in their
      original order. */
  lemma {:induction false} CleanFieldsAppend(a: seq<Member>, b: seq<Member>)
    ensures CleanFields(a + b) == CleanFields(a) + CleanFields(b)
    decreases |b|
  {
    if b == [] {
      assert a + b == a;
    } else {
      var pre := b[..|b| - 1];
      assert (a + b)[..|a + b| - 1] == a + pre;
      CleanFieldsAppend(a, pre);
    }
  }

  /** A single member survives, with its key and its cleaned value, exactly
      when its value does not clean to `None`. */
  lemma CleanFieldsSingle(m: Member)
    ensures CleanFields([m]) ==
      if Clean(m.value) == Null then [] else [Member(m.key, Clean(m.value))]
  {
    CleanedPassesFilters(m.value);
    assert [m][..0] == [];
  }

  /** Looking a key up in a cleaned dict gives the cleaned value of that key
      in the input, or nothing when the key is absent or cleans to `None`:
      no key is added and no surviving value comes from another key. */
  lemma {:induction false} CleanFieldsLookup(fields: seq<Member>, key: string)
    requires DistinctKeys(fields)
    ensures Lookup(CleanFields(fields), key) ==
      match Lookup(fields, key)
      case None => None
      case Some(v) => if Clean(v) == Null then None else Some(Clean(v))
    decreases |fields|
  {
    if fields != [] {
      var pre, m := fields[..|fields| - 1], fields[|fields| - 1];
      assert fields == pre + [m];
      DistinctKeysSnoc(pre, m);
      CleanFieldsLookup(pre, key);
      LookupSnoc(pre, m, key);
      var cpre, cv := CleanFields(pre), Clean(m.value);
      CleanedPassesFilters(m.value);
      if cv == Null {
        assert CleanFields(fields) == cpre;
      } else {
        assert CleanFields(fields) == cpre + [Member(m.key, cv)];
        LookupSnoc(cpre, Member(m.key, cv), key);
      }
    }
  }

  /** Looking up in a dict whose last member was just assigned. */
  lemma LookupSnoc(pre: seq<Member>, m: Member, key: string)
    ensures Lookup(pre + [m], key) == if m.key == key then Some(m.value) else Lookup(pre, key)
  {
    assert (pre + [m])[..|pre|] == pre;
  }

  lemma DistinctKeysSnoc(pre: seq<Member>, m: Member)
    requires DistinctKeys(pre + [m])
    ensures DistinctKeys(pre) && Lookup(pre, m.key) == None
  {
    var fields := pre + [m];
    assert forall i :: 0 <= i < |pre| ==> pre[i] == fields[i];
    assert fields[|pre|] == m;
    assert forall i :: 0 <= i < |pre| ==> fields[i].key != fields[|pre|].key;
  }

  lemma DistinctKeysExtend(pre: seq<Member>, m: Member)
    requires DistinctKeys(pre) && Lookup(pre, m.key) == None
    ensures DistinctKeys(pre + [m])
  {
    var fields := pre + [m];
    forall i, j | 0 <= i < j < |fields|
      ensures fields[i].key != fields[j].key
    {
      if j == |pre| {
        assert fields[i] in pre;
      } else {
        assert fields[i] == pre[i] && fields[j] == pre[j];
      }
    }
  }

  /** A cleaned dict is still a dict: no key appears twice. */
  lemma {:induction false} CleanFieldsKeepDistinctKeys(fields: seq<Member>)
    requires DistinctKeys(fields)
    ensures DistinctKeys(CleanFields(fields))
    decreases |fields|
  {
    if fields != [] {
      var pre, m := fields[..|fields| - 1], fields[|fields| - 1];
      assert fields == pre + [m];
      DistinctKeysSnoc(pre, m);
      CleanFieldsKeepDistinctKeys(pre);
      var cv := Clean(m.value);
      CleanedPassesFilters(m.value);
      if cv != Null {
        CleanFieldsLookup(pre, m.key);
        DistinctKeysExtend(CleanFields(pre), Member(m.key, cv));
      }
    }
  }
}
