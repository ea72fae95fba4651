/** The list of test-case forms held in the session, the buttons that change
    it, and the export that collects the cleaned non-empty forms for the
    clipboard. */
module FormSession {
  import opened JsonValue
  import opened Cleaner
  import opened DefaultForm

  /** The export loop keeps a form when it is not empty and its cleaned value
      is truthy. */
  predicate Exported(form: Json)
  {
    !IsFormEmpty(form) && Truthy(Clean(form))
  }

  /** `valid_forms` after the export loop has seen `forms`. */
  function ExportList(forms: seq<Json>): (r: seq<Json>)
  {
    if forms == [] then []
    else
      var form := forms[|forms| - 1];
      ExportList(forms[..|forms| - 1]) + (if Exported(form) then [Clean(form)] else [])
  }

  /** What a copy button produces: the forms to copy, the warning shown when
      there are none, or nothing at all. */
  datatype CopyOutcome = Ready(payload: seq<Json>) | EmptyWarning | Silent

  // ---------------------------------------------------------------------
  // Properties of the export

  /** A form is exported exactly when it cleans to something other than
      `None`, `False` or `0`: the `{}` test and the falsy containers and
      strings never occur after cleaning. */
  lemma ExportedIff(form: Json)
    ensures Exported(form) <==> Clean(form) != Null && Clean(form) != Bool(false) && Clean(form) != Int(0)
  {
    FormEmptyIffBlank(form);
    CleanIsMeaningful(form);
  }

  lemma {:induction false} ExportListAppend(a: seq<Json>, b: seq<Json>)
    ensures ExportList(a + b) == ExportList(a) + ExportList(b)
    decreases |b|
  {
    if b == [] {
      assert a + b == a;
    } else {
      var pre := b[..|b| - 1];
      assert (a + b)[..|a + b| - 1] == a + pre;
      ExportListAppend(a, pre);
    }
  }

  /** The export of one form, as the per-form copy button computes it. */
  lemma ExportListSingle(form: Json)
    ensures ExportList([form]) == if Exported(form) then [Clean(form)] else []
  {
    assert [form][..0] == [];
  }

  /** The export has at most one entry per form. */
  lemma {:induction false} ExportListBound(forms: seq<Json>)
    ensures |ExportList(forms)| <= |forms|
  {
    if forms != [] {
      ExportListBound(forms[..|forms| - 1]);
    }
  }

  /** The export holds exactly the cleaned values of the exported forms. */
  lemma {:induction false} ExportListMembers(forms: seq<Json>, e: Json)
    ensures e in ExportList(forms) <==> exists f :: f in forms && Exported(f) && Clean(f) == e
  {
    if forms != [] {
      var pre, form := forms[..|forms| - 1], forms[|forms| - 1];
      assert forms == pre + [form];
      ExportListMembers(pre, e);
      if e in ExportList(forms) && e !in ExportList(pre) {
        assert form in forms;
      }
      if exists f :: f in forms && Exported(f) && Clean(f) == e {
        var f :| f in forms && Exported(f) && Clean(f) == e;
        if f !in pre {
          assert f == form;
        }
      }
    }
  }

  /** Every exported entry is meaningful at every depth, truthy, already
      clean, and not an empty form. */
  lemma ExportedEntriesAreClean(forms: seq<Json>, e: Json)
    requires e in ExportList(forms)
    ensures Meaningful(e) && Truthy(e) && Clean(e) == e && !IsFormEmpty(e)
  {
    ExportListMembers(forms, e);
    var f :| f in forms && Exported(f) && Clean(f) == e;
    FormEmptyIffBlank(f);
    CleanIsMeaningful(f);
    CleanKeepsMeaningful(e);
  }

  /** Uploading a blank and a populated case and exporting yields only the
      populated case, cleaned. */
  lemma ExportScenario()
    ensures ExportList([DefaultStructure(), PopulatedExample()]) == [CleanedExample()]
  {
    var blank, full := DefaultStructure(), PopulatedExample();
    DefaultIsEmpty();
    CleanPopulatedExample();
    ExportListAppend([blank], [full]);
    ExportListSingle(blank);
    ExportListSingle(full);
    assert [blank, full] == [blank] + [full];
  }

  lemma CleanPopulatedExample()
    ensures Clean(PopulatedExample()) == CleanedExample()
  {
    KeepsBoolAndInt(Int(25));
    var age := Member("age", Int(25));
    var hgt := Member("hgt", Null);
    CleanFieldsAppend([age], [hgt]);
    CleanFieldsSingle(age);
    CleanFieldsSingle(hgt);
    assert Clean(Obj([age, hgt])) == Obj([age]) by {
      assert [age, hgt] == [age] + [hgt];
    }
    var mhm := Member("mhm", Obj([age, hgt]));
    var smk := Member("smk", Obj([]));
    CleanFieldsAppend([mhm], [smk]);
    CleanFieldsSingle(mhm);
    CleanFieldsSingle(smk);
    assert [mhm, smk] == [mhm] + [smk];
  }

  function PopulatedExample(): Json
  {
    Obj([Member("mhm", Obj([Member("age", Int(25)), Member("hgt", Null)])), Member("smk", Obj([]))])
  }

  function CleanedExample(): Json
  {
    Obj([Member("mhm", Obj([Member("age", Int(25))]))])
  }

  // ---------------------------------------------------------------------
  // The session's list of forms

  /** `st.session_state.forms`. */
  class Session {
    var forms: seq<Json>

    /** The list is never empty. */
    predicate Valid()
      reads this
    {
      forms != []
    }

    /** A new session starts with one default form, which exports nothing. */
    constructor ()
      ensures Valid()
      ensures forms == [DefaultStructure()]
      ensures ExportList(forms) == []
    {
      forms := [DefaultStructure()];
      DefaultIsEmpty();
      ExportListSingle(DefaultStructure());
    }

    /** "Add New Test Case": appends a default form; the export is unchanged. */
    method AddTestCase()
      requires Valid()
      modifies this
      ensures Valid()
      ensures forms == old(forms) + [DefaultStructure()]
      ensures ExportList(forms) == ExportList(old(forms))
    {
      DefaultIsEmpty();
      ExportListAppend(forms, [DefaultStructure()]);
      ExportListSingle(DefaultStructure());
      forms := forms + [DefaultStructure()];
    }

    /** "Clear All Forms": back to a single default form. */
    method ClearAll()
      modifies this
      ensures Valid()
      ensures forms == [DefaultStructure()]
      ensures ExportList(forms) == []
    {
      forms := [DefaultStructure()];
      DefaultIsEmpty();
      ExportListSingle(DefaultStructure());
    }

    /** "Delete" on form `i`: removes it unless it is the last form left. */
    method Delete(i: nat) returns (deleted: bool)
      requires Valid() && i < |forms|
      modifies this
      ensures Valid()
      ensures deleted <==> |old(forms)| > 1
      ensures forms == if deleted then old(forms)[..i] + old(forms)[i + 1..] else old(forms)
      ensures deleted ==> ExportList(forms) == ExportList(old(forms)[..i]) + ExportList(old(forms)[i + 1..])
    {
      if |forms| > 1 {
        ExportListAppend(forms[..i], forms[i + 1..]);
        forms := forms[..i] + forms[i + 1..];
        deleted := true;
      } else {
        deleted := false;
      }
    }

    /** The editor of form `i` after parsing its text: a parse result
        replaces form `i` only; a parse error leaves every form as it was. */
    method ApplyEdit(i: nat, parsed: Option<Json>) returns (valid: bool)
      requires Valid() && i < |forms|
      modifies this
      ensures Valid()
      ensures valid <==> parsed.Some?
      ensures forms == if valid then old(forms)[i := parsed.value] else old(forms)
    {
      match parsed {
        case Some(doc) =>
          forms := forms[i := doc];
          valid := true;
        case None =>
          valid := false;
      }
    }

    /** "Copy All to Clipboard": the export loop over every form. */
    method CopyAll() returns (r: CopyOutcome)
      ensures r == if ExportList(forms) == [] then EmptyWarning else Ready(ExportList(forms))
      ensures r.Ready? ==> |r.payload| <= |forms|
      ensures r.Ready? ==> forall e :: e in r.payload ==> Meaningful(e) && !IsFormEmpty(e)
    {
      var validForms: seq<Json> := [];
      var k := 0;
      while k < |forms|
        invariant 0 <= k <= |forms|
        invariant validForms == ExportList(forms[..k])
      {
        var formData := forms[k];
        if !IsFormEmpty(formData) {
          var cleanedForm := RemoveNullValues(formData);
          if Truthy(cleanedForm) {
            validForms := validForms + [cleanedForm];
          }
        }
        assert forms[..k + 1][..k] == forms[..k];
        k := k + 1;
      }
      assert forms[..k] == forms;
      ExportListBound(forms);
      forall e | e in validForms
        ensures Meaningful(e) && !IsFormEmpty(e)
      {
        ExportedEntriesAreClean(forms, e);
      }
      r := if validForms != [] then Ready(validForms) else EmptyWarning;
    }

    /** "Copy This Form" on form `i`. */
    method CopyForm(i: nat) returns (r: CopyOutcome)
      requires i < |forms|
      ensures r == EmptyWarning <==> IsFormEmpty(forms[i])
      ensures r.Ready? <==> Exported(forms[i])
      ensures r.Ready? ==> r.payload == ExportList([forms[i]])
    {
      var formData := forms[i];
      ExportListSingle(formData);
      if !IsFormEmpty(formData) {
        var cleanedForm := RemoveNullValues(formData);
        if Truthy(cleanedForm) {
          r := Ready([cleanedForm]);
        } else {
          r := Silent;
        }
      } else {
        r := EmptyWarning;
      }
    }
  }
}
