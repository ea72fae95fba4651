/** JSON values as the editor holds them after `json.loads`, and the parts of
    Python's `str()` and `str.lower()` that the cleaner relies on. */
module JsonValue {

  datatype Option<T> = None | Some(value: T)

  /** One key/value entry of a JSON object, in insertion order. */
  datatype Member = Member(key: string, value: Json)

  /** A parsed JSON document. Objects keep Python's dict insertion order, so
      they are sequences of members rather than maps. Numbers are integers. */
  datatype Json =
    | Null
    | Bool(flag: bool)
    | Int(num: int)
    | Str(text: string)
    | Arr(items: seq<Json>)
    | Obj(fields: seq<Member>)

  /** No key occurs twice among the members (true of every Python dict). */
  predicate DistinctKeys(fields: seq<Member>)
  {
    forall i, j :: 0 <= i < j < |fields| ==> fields[i].key != fields[j].key
  }

  /** `d.get(key)` on a dict built from `fields`: the last member with that
      key wins, as with repeated assignment. */
  function Lookup(fields: seq<Member>, key: string): (r: Option<Json>)
    ensures r.Some? ==> Member(key, r.value) in fields
    ensures r.None? ==> forall m :: m in fields ==> m.key != key
  {
    if fields == [] then None
    else if fields[|fields| - 1].key == key then Some(fields[|fields| - 1].value)
    else Lookup(fields[..|fields| - 1], key)
  }

  /** Python truthiness: `None`, `False`, `0`, `""`, `[]` and `{}` are false. */
  predicate Truthy(j: Json)
  {
    match j
    case Null => false
    case Bool(b) => b
    case Int(n) => n != 0
    case Str(s) => s != ""
    case Arr(items) => items != []
    case Obj(fields) => fields != []
  }

  // ---------------------------------------------------------------------
  // str.lower(), restricted to ASCII letters

  function LowerChar(c: char): char
  {
    if 'A' <= c <= 'Z' then (c as int + 32) as char else c
  }

  function Lower(s: string): (r: string)
    ensures |r| == |s|
    ensures forall i :: 0 <= i < |s| ==> r[i] == LowerChar(s[i])
  {
    seq(|s|, i requires 0 <= i < |s| => LowerChar(s[i]))
  }

  /** `s.lower() == "null"`, the test the cleaner applies to `str(value)`. */
  predicate IsNullText(s: string)
  {
    Lower(s) == "null"
  }

  /** The spellings that the test catches are exactly the sixteen case
      variants of "null". */
  lemma NullTextSpellings(s: string)
    ensures IsNullText(s) <==>
      |s| == 4 && s[0] in "nN" && s[1] in "uU" && s[2] in "lL" && s[3] in "lL"
  {
    if |s| == 4 {
      assert Lower(s) == [LowerChar(s[0]), LowerChar(s[1]), LowerChar(s[2]), LowerChar(s[3])];
    } else {
      assert |Lower(s)| != |"null"|;
    }
  }

  // ---------------------------------------------------------------------
  // str() of a JSON value

  function DigitChar(d: nat): (c: char)
    requires d < 10
    ensures '0' <= c <= '9'
  {
    "0123456789"[d]
  }

  /** Decimal digits of a natural number, most significant first. */
  function NatText(n: nat): (s: string)
    ensures s != []
    ensures '0' <= s[0] <= '9'
  {
    if n < 10 then [DigitChar(n)] else NatText(n / 10) + [DigitChar(n % 10)]
  }

  /** `str(n)` for a Python int. */
  function IntText(n: int): (s: string)
    ensures s != [] && (s[0] == '-' || '0' <= s[0] <= '9')
  {
    if n < 0 then "-" + NatText(-n) else NatText(n)
  }

  function Quote(s: string): string
  {
    "'" + s + "'"
  }

  /** `str(j)` in Python: `None`, `True`/`False`, decimal integers, the string
      itself, and the bracketed repr of lists and dicts. */
  function PyStr(j: Json): (r: string)
  {
    match j
    case Null => "None"
    case Bool(b) => if b then "True" else "False"
    case Int(n) => IntText(n)
    case Str(s) => s
    case Arr(items) => "[" + ReprItems(items) + "]"
    case Obj(fields) => "{" + ReprFields(fields) + "}"
  }

  /** The comma-separated element reprs inside a list's `str()`. */
  function ReprItems(items: seq<Json>): string
  {
    if items == [] then ""
    else
      var x := items[|items| - 1];
      ReprItems(items[..|items| - 1]) + (if |items| > 1 then ", " else "")
        + (if x.Str? then Quote(x.text) else PyStr(x))
  }

  /** The comma-separated `key: value` reprs inside a dict's `str()`. */
  function ReprFields(fields: seq<Member>): string
  {
    if fields == [] then ""
    else
      var m := fields[|fields| - 1];
      ReprFields(fields[..|fields| - 1]) + (if |fields| > 1 then ", " else "")
        + Quote(m.key) + ": " + (if m.value.Str? then Quote(m.value.text) else PyStr(m.value))
  }

  /** Only a string can have a `str()` that lower-cases to "null": `None`
      prints as "None", booleans as "True"/"False", integers start with a
      sign or a digit, lists with '[' and dicts with '{'. */
  lemma {:induction false} NonStringNeverNullText(j: Json)
    requires !j.Str?
    ensures !IsNullText(PyStr(j))
  {
    var s := PyStr(j);
    match j {
      case Null =>
        assert Lower(s)[1] == 'o';
      case Bool(b) =>
        assert Lower(s)[0] == (if b then 't' else 'f');
      case Int(n) =>
        assert s[0] == '-' || '0' <= s[0] <= '9';
        assert Lower(s)[0] != 'n';
      case Arr(_) =>
        assert Lower(s)[0] == '[';
      case Obj(_) =>
        assert Lower(s)[0] == '{';
    }
  }
}
