/** `get_default_json_structure()`: the blank test case every new form starts
    from. Every leaf is `None` or an empty list. */
module DefaultForm {
  import opened JsonValue
  import opened Cleaner

  /** The whole default document, sections in the source's order. */
  function DefaultStructure(): Json
  {
    Obj([
      Member("mhm", Obj(MhmTemplate())),
      Member("smk", Obj(SmkTemplate())),
      Member("slp", Obj(SlpTemplate())),
      Member("nut", Obj(NutTemplate())),
      Member("qlm", Obj(QlmTemplate())),
      Member("clip", Null)
    ])
  }

  /** Members with the given keys, in order, all holding `v`. */
  function Fields(keys: seq<string>, v: Json): (r: seq<Member>)
    ensures |r| == |keys|
    ensures forall i :: 0 <= i < |keys| ==> r[i] == Member(keys[i], v)
  {
    seq(|keys|, i requires 0 <= i < |keys| => Member(keys[i], v))
  }

  /** Every member is unanswered: `None` or `[]`. */
  predicate Unanswered(fields: seq<Member>)
  {
    forall m :: m in fields ==> m.value == Null || m.value == Arr([])
  }

  lemma FieldsUnanswered(keys: seq<string>, v: Json)
    requires v == Null || v == Arr([])
    ensures Unanswered(Fields(keys, v))
  {
  }

  lemma UnansweredAppend(a: seq<Member>, b: seq<Member>)
    requires Unanswered(a) && Unanswered(b)
    ensures Unanswered(a + b)
  {
  }

  /** Unanswered members only make a blank dict. */
  lemma UnansweredIsBlank(fields: seq<Member>)
    requires Unanswered(fields)
    ensures Blank(Obj(fields))
  {
  }

  /** The default structure is an empty form: cleaning it yields `None`. */
  lemma DefaultIsEmpty()
    ensures Clean(DefaultStructure()) == Null
    ensures IsFormEmpty(DefaultStructure())
  {
    MhmUnanswered();
    UnansweredIsBlank(MhmTemplate());
    SmkUnanswered();
    UnansweredIsBlank(SmkTemplate());
    SlpUnanswered();
    UnansweredIsBlank(SlpTemplate());
    NutUnanswered();
    UnansweredIsBlank(NutTemplate());
    QlmUnanswered();
    UnansweredIsBlank(QlmTemplate());
    SectionsBlank(MhmTemplate(), SmkTemplate(), SlpTemplate(), NutTemplate(), QlmTemplate());
    FormEmptyIffBlank(DefaultStructure());
  }

  /** The top-level shape of the default structure is blank once each of its
      five sections is. */
  lemma SectionsBlank(mhm: seq<Member>, smk: seq<Member>, slp: seq<Member>, nut: seq<Member>, qlm: seq<Member>)
    requires Blank(Obj(mhm)) && Blank(Obj(smk)) && Blank(Obj(slp)) && Blank(Obj(nut)) && Blank(Obj(qlm))
    ensures Blank(Obj([Member("mhm", Obj(mhm)), Member("smk", Obj(smk)), Member("slp", Obj(slp)),
                       Member("nut", Obj(nut)), Member("qlm", Obj(qlm)), Member("clip", Null)]))
  {
  }

  /** The "mhm" section (medical and health measurements), 49 fields. */
  function MhmTemplate(): seq<Member>
  {
    Fields(MhmKeysBeforeRhrDay, Null)
    + [Member("rhr_day", Arr([]))]
    + Fields(MhmKeysAfterRhrDay, Null)
  }

  /** The "smk" section (smoking data), 6 fields. */
  function SmkTemplate(): seq<Member>
  {
    Fields(SmkKeys, Null)
  }

  /** The "slp" section (sleep data), 4 fields. */
  function SlpTemplate(): seq<Member>
  {
    Fields(SlpKeys, Arr([]))
  }

  /** The "nut" section (nutrition data), 31 fields. */
  function NutTemplate(): seq<Member>
  {
    Fields(NutKeys, Null)
  }

  /** The "qlm" section (quality-of-life questionnaires), 70 fields. */
  function QlmTemplate(): seq<Member>
  {
    Fields(QlmKeysBeforeMfm, Null)
    + [Member("mfm", Arr([]))]
  }

  lemma MhmUnanswered()
    ensures Unanswered(MhmTemplate())
  {
    FieldsUnanswered(MhmKeysBeforeRhrDay, Null);
    FieldsUnanswered(MhmKeysAfterRhrDay, Null);
    UnansweredAppend(Fields(MhmKeysBeforeRhrDay, Null), [Member("rhr_day", Arr([]))]);
    UnansweredAppend(Fields(MhmKeysBeforeRhrDay, Null) + [Member("rhr_day", Arr([]))], Fields(MhmKeysAfterRhrDay, Null));
  }

  lemma SmkUnanswered()
    ensures Unanswered(SmkTemplate())
  {
    FieldsUnanswered(SmkKeys, Null);
  }

  lemma SlpUnanswered()
    ensures Unanswered(SlpTemplate())
  {
    FieldsUnanswered(SlpKeys, Arr([]));
  }

  lemma NutUnanswered()
    ensures Unanswered(NutTemplate())
  {
    FieldsUnanswered(NutKeys, Null);
  }

  lemma QlmUnanswered()
    ensures Unanswered(QlmTemplate())
  {
    FieldsUnanswered(QlmKeysBeforeMfm, Null);
    UnansweredAppend(Fields(QlmKeysBeforeMfm, Null), [Member("mfm", Arr([]))]);
  }

  const MhmKeysBeforeRhrDay: seq<string> := [
    "age", "hgt", "wgt", "sex", "dbp", "map", "sbp", "fat",
    "ppr", "rhr"
  ]

  const MhmKeysAfterRhrDay: seq<string> := [
    "spo2", "vo2max", "whr", "wst", "alc", "cst", "exh", "fCV",
    "fDM", "fMI", "pHT", "a1c", "acr", "cre", "crp", "cys",
    "fbg", "eag", "gfr", "hdl", "ldl", "tgl", "tsc", "vdl",
    "CAN", "CHD", "CHF", "CKD", "CVD", "DM2", "HTN", "LDS",
    "LVH", "PDM", "PMI", "STK", "TDM", "THT"
  ]

  const SmkKeys: seq<string> := [
    "now", "evr", "yrs", "num", "qit", "slt"
  ]

  const SlpKeys: seq<string> := [
    "bed", "slp", "awk", "slp_avg"
  ]

  const NutKeys: seq<string> := [
    "nqs01", "nqs02", "nqs03", "nqs04", "nqs05", "nqs06", "nqs07", "nqs08",
    "nqs09", "nqs10", "nqs11", "nqs12", "nqs13", "nqs14", "nqs15", "nqs16",
    "nqs17", "nqs18", "nqs19", "nqs20", "nqs21", "nqs22", "protein", "sfat",
    "sugar", "fiber", "sodium", "vitamin_c", "iron", "percentage_drink", "density_drink"
  ]

  const QlmKeysBeforeMfm: seq<string> := [
    "q01", "q02", "q03", "q04", "q05", "q06", "q07", "q08",
    "q09", "q10", "q11", "q12", "q13", "q14", "q15", "q16",
    "q17", "q18", "q19", "q20", "q21", "q22", "q23", "q24",
    "q25", "q26", "q27", "gad01", "gad02", "gad03", "gad04", "gad05",
    "gad06", "gad07", "phq01", "phq02", "phq03", "phq04", "phq05", "phq06",
    "phq07", "phq08", "phq09", "pss01", "pss02", "pss03", "pss04", "pss05",
    "pss06", "pss07", "pss08", "pss09", "pss10", "gsrh", "maas01", "maas02",
    "maas03", "maas04", "maas05", "maas06", "maas07", "maas08", "maas09", "maas10",
    "maas11", "maas12", "maas13", "maas14", "maas15"
  ]
}
