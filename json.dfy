/** The JSON values that `response.json()` can hand to the bot, and the two
    Python operations the bot applies to them: `d[key]` on a dict and the
    `str()` conversion an f-string performs. */
module Json {
  import opened Wrappers

  /** A decoded JSON value. `JNull` is Python's `None`; numbers are integers.
      An object keeps its members in document order; objects produced by
      decoding have pairwise distinct keys. */
  datatype Json =
    | JNull
    | JBool(b: bool)
    | JInt(n: int)
    | JStr(s: string)
    | JArr(items: seq<Json>)
    | JObj(fields: seq<(string, Json)>)

  /** No key occurs twice among the members of an object. */
  predicate DistinctKeys(fields: seq<(string, Json)>) {
    forall i, j :: 0 <= i < j < |fields| ==> fields[i].0 != fields[j].0
  }

  /** Python's `d[key]`: the value stored under `key`, or `None` where the
      dict raises `KeyError`. */
  function Get(fields: seq<(string, Json)>, key: string): (r: Option<Json>)
    ensures r.None? <==> forall p :: p in fields ==> p.0 != key
    ensures r.Some? ==> (key, r.value) in fields
  {
    if fields == [] then None
    else if fields[0].0 == key then Some(fields[0].1)
    else Get(fields[1..], key)
  }

  /** In an object with distinct keys, the member stored under a key is the
      one `d[key]` returns. */
  lemma {:induction false} GetMember(fields: seq<(string, Json)>, key: string, v: Json)
    requires DistinctKeys(fields)
    requires (key, v) in fields
    ensures Get(fields, key) == Some(v)
  {
    if fields[0] != (key, v) {
      assert fields[0].0 != key by {
        var j :| 0 <= j < |fields| && fields[j] == (key, v);
        assert j != 0;
      }
      assert DistinctKeys(fields[1..]) by {
        forall i, j | 0 <= i < j < |fields[1..]|
          ensures fields[1..][i].0 != fields[1..][j].0
        {
          assert fields[1..][i] == fields[i + 1] && fields[1..][j] == fields[j + 1];
        }
      }
      assert (key, v) in fields[1..] by {
        var j :| 0 <= j < |fields| && fields[j] == (key, v);
        assert j != 0 && fields[1..][j - 1] == fields[j];
      }
      GetMember(fields[1..], key, v);
    }
  }

  /** The decimal digit for `d`. */
  function DigitChar(d: nat): (c: char)
    requires d < 10
    ensures '0' <= c <= '9'
  {
    ('0' as int + d) as char
  }

  /** The decimal numeral of a natural number, most significant digit first. */
  function Digits(n: nat): (r: string)
    ensures |r| >= 1
    ensures forall i :: 0 <= i < |r| ==> '0' <= r[i] <= '9'
    ensures n >= 10 <==> |r| >= 2
  {
    if n < 10 then [DigitChar(n)] else Digits(n / 10) + [DigitChar(n % 10)]
  }

  /** The numeral a digit string denotes (the inverse of Digits). */
  function Value(r: string): int {
    if r == [] then 0 else 10 * Value(r[..|r| - 1]) + (r[|r| - 1] as int - '0' as int)
  }

  lemma {:induction false} DigitsValue(n: nat)
    ensures Value(Digits(n)) == n
  {
    if n >= 10 {
      DigitsValue(n / 10);
      var r := Digits(n);
      assert r[..|r| - 1] == Digits(n / 10);
    }
  }

  /** Python's `str()` of an `int`. */
  function Decimal(n: int): (r: string)
    ensures |r| >= 1
    ensures (r[0] == '-') <==> n < 0
  {
    if n < 0 then "-" + Digits(-n) else Digits(n)
  }

  /** Python's `str()` of a decoded value, as an f-string inserts it. */
  function PyStr(v: Json): (r: string)
    ensures v.JStr? ==> r == v.s
  {
    match v
    case JStr(s) => s
    case JInt(n) => Decimal(n)
    case _ => Repr(v)
  }

  /** Python's `repr()` of a decoded value, as `str()` of a list or dict shows
      its elements. */
  function Repr(v: Json): (r: string)
    ensures |r| >= 1
    ensures v.JArr? ==> r[0] == '[' && r[|r| - 1] == ']'
    ensures v.JObj? ==> r[0] == '{' && r[|r| - 1] == '}'
    decreases v, 1
  {
    match v
    case JNull => "None"
    case JBool(b) => if b then "True" else "False"
    case JInt(n) => Decimal(n)
    case JStr(s) => Quoted(s)
    case JArr(items) => "[" + ReprItems(items) + "]"
    case JObj(fields) => "{" + ReprFields(fields) + "}"
  }

  /** A string as `repr()` quotes it (quote and escape choice left out). */
  function Quoted(s: string): string {
    "'" + s + "'"
  }

  function ReprItems(items: seq<Json>): string
    decreases items, 0
  {
    if items == [] then ""
    else if |items| == 1 then Repr(items[0])
    else Repr(items[0]) + ", " + ReprItems(items[1..])
  }

  function ReprFields(fields: seq<(string, Json)>): string
    decreases fields, 0
  {
    if fields == [] then ""
    else
      var (key, value) := fields[0];
      assert value < fields[0];
      var entry := Quoted(key) + ": " + Repr(value);
      if |fields| == 1 then entry else entry + ", " + ReprFields(fields[1..])
  }
}
