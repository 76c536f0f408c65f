/** Values exchanged between the dictionary-data screen's components and its
    callbacks: the JSON-like data of a Python dict or a JavaScript object, with
    the few Python and JavaScript built-ins the callbacks apply to them
    (truthiness, str(), int(), ','.join, list(set(...))). */
module Values {

  datatype Option<T> = None | Some(value: T)

  /** A component property value, a Python dict entry or a JavaScript value. */
  datatype Value =
    | Null
    | Bool(b: bool)
    | Int(i: int)
    | Str(s: string)
    | List(items: seq<Value>)
    | Obj(fields: map<string, Value>)

  /** Python truthiness, as in `if search_click or refresh_click ...`. */
  predicate Truthy(v: Value) {
    match v
    case Null => false
    case Bool(b) => b
    case Int(n) => n != 0
    case Str(s) => s != ""
    case List(xs) => xs != []
    case Obj(m) => m != map[]
  }

  /** JavaScript truthiness, as in `if (reset_click)`: arrays and objects are
      truthy even when empty. */
  predicate JsTruthy(v: Value) {
    match v
    case Null => false
    case Bool(b) => b
    case Int(n) => n != 0
    case Str(s) => s != ""
    case List(_) => true
    case Obj(_) => true
  }

  /** Python's `d.get(k)`: the entry, or None when the key is missing. */
  function Get(m: map<string, Value>, k: string): Value {
    if k in m then m[k] else Null
  }

  /** A one-entry tag such as the operation signal `{'type': 'add'}`. */
  function TypeTag(t: string): (r: Value)
    ensures r.Obj? && r.fields.Keys == {"type"} && r.fields["type"] == Str(t)
    ensures Truthy(r) && JsTruthy(r)
  {
    Obj(map["type" := Str(t)])
  }

  // ---------------------------------------------------------------------------
  // Decimal text: Python's str() and int() on integers

  predicate IsDigit(c: char) {
    '0' <= c <= '9'
  }

  predicate AllDigits(s: string) {
    |s| > 0 && forall i | 0 <= i < |s| :: IsDigit(s[i])
  }

  function DigitChar(d: nat): (c: char)
    requires d < 10
    ensures IsDigit(c) && (c as int) - ('0' as int) == d
  {
    (('0' as int) + d) as char
  }

  /** The decimal digits of a natural number, most significant first. */
  function NatString(n: nat): string
    decreases n
  {
    if n < 10 then [DigitChar(n)] else NatString(n / 10) + [DigitChar(n % 10)]
  }

  /** Python's `str(n)` for an int. */
  function DecimalString(n: int): string {
    if n < 0 then "-" + NatString(-n) else NatString(n)
  }

  /** The number a run of decimal digits denotes. */
  function DigitsValue(s: string): nat
    requires forall i | 0 <= i < |s| :: IsDigit(s[i])
  {
    if s == [] then 0
    else
      assert IsDigit(s[|s| - 1]);
      DigitsValue(s[..|s| - 1]) * 10 + ((s[|s| - 1] as int) - ('0' as int))
  }

  /** Python's `int(s)` for a str: an optional sign and at least one digit;
      anything else raises ValueError (None here). */
  function ParseInt(s: string): (r: Option<int>)
    ensures r.Some? ==> |s| > 0 && forall i | 0 <= i < |s| :: IsDigit(s[i]) || (i == 0 && s[i] in "+-")
  {
    if |s| > 0 && (s[0] == '-' || s[0] == '+') then
      if AllDigits(s[1..]) then
        Some(if s[0] == '-' then -(DigitsValue(s[1..]) as int) else DigitsValue(s[1..]))
      else None
    else if AllDigits(s) then Some(DigitsValue(s))
    else None
  }

  lemma {:induction false} NatStringDigits(n: nat)
    ensures AllDigits(NatString(n)) && DigitsValue(NatString(n)) == n
    decreases n
  {
    if n >= 10 {
      NatStringDigits(n / 10);
      var a, c := NatString(n / 10), DigitChar(n % 10);
      assert NatString(n) == a + [c];
      assert (a + [c])[..|a + [c]| - 1] == a;
    }
  }

  /** int(str(n)) == n: the row key a table row is given parses back to its code. */
  lemma ParseIntDecimalString(n: int)
    ensures ParseInt(DecimalString(n)) == Some(n)
  {
    if n < 0 {
      NatStringDigits(-n);
      assert DecimalString(n)[1..] == NatString(-n);
    } else {
      NatStringDigits(n);
    }
  }

  /** A comma never survives int(): `int('12,13')` raises. */
  lemma ParseIntRejectsComma(s: string)
    requires ',' in s
    ensures ParseInt(s) == None
  {
  }

  lemma {:induction false} NatStringNoComma(n: nat)
    ensures ',' !in NatString(n)
    decreases n
  {
    if n >= 10 {
      NatStringNoComma(n / 10);
    }
  }

  lemma DecimalStringNoComma(n: int)
    ensures ',' !in DecimalString(n)
  {
    if n < 0 { NatStringNoComma(-n); } else { NatStringNoComma(n); }
  }

  /** Python's `str(v)`. Lists and dicts are rendered by a fixed marker: their
      Python repr is not modelled. */
  function PyStr(v: Value): string {
    match v
    case Null => "None"
    case Bool(b) => if b then "True" else "False"
    case Int(n) => DecimalString(n)
    case Str(s) => s
    case List(_) => "[...]"
    case Obj(_) => "{...}"
  }

  /** Python's `int(v)`: None when it raises (TypeError or ValueError). */
  function PyInt(v: Value): Option<int> {
    match v
    case Int(n) => Some(n)
    case Bool(b) => Some(if b then 1 else 0)
    case Str(s) => ParseInt(s)
    case _ => None
  }

  // ---------------------------------------------------------------------------
  // Joining and splitting on a separator

  /** Python's `sep.join(parts)`. */
  function Join(sep: string, parts: seq<string>): string {
    if parts == [] then ""
    else if |parts| == 1 then parts[0]
    else parts[0] + sep + Join(sep, parts[1..])
  }

  /** Python's `s.split(c)` for a one-character separator. */
  function Split(s: string, c: char): (r: seq<string>)
    ensures |r| > 0
    decreases |s|
  {
    if s == [] then [""]
    else
      var rest := Split(s[1..], c);
      if s[0] == c then [""] + rest else [[s[0]] + rest[0]] + rest[1..]
  }

  lemma {:induction false} SplitWithoutSeparator(s: string, c: char)
    requires c !in s
    ensures Split(s, c) == [s]
    decreases |s|
  {
    if s != [] {
      SplitWithoutSeparator(s[1..], c);
      assert [s[0]] + s[1..] == s;
    }
  }

  lemma {:induction false} SplitAtFirstSeparator(a: string, b: string, c: char)
    requires c !in a
    ensures Split(a + [c] + b, c) == [a] + Split(b, c)
    decreases |a|
  {
    var s := a + [c] + b;
    if a == [] {
      assert s[1..] == b;
    } else {
      assert s[1..] == a[1..] + [c] + b;
      SplitAtFirstSeparator(a[1..], b, c);
      assert [a[0]] + a[1..] == a;
    }
  }

  /** Splitting a joined list on its separator gives the list back, as long as
      no part contains the separator. */
  lemma {:induction false} SplitJoin(parts: seq<string>, c: char)
    requires |parts| > 0
    requires forall i | 0 <= i < |parts| :: c !in parts[i]
    ensures Split(Join([c], parts), c) == parts
    decreases |parts|
  {
    if |parts| == 1 {
      SplitWithoutSeparator(parts[0], c);
    } else {
      var tail := Join([c], parts[1..]);
      assert Join([c], parts) == parts[0] + [c] + tail;
      SplitAtFirstSeparator(parts[0], tail, c);
      SplitJoin(parts[1..], c);
      assert [parts[0]] + parts[1..] == parts;
    }
  }

  // ---------------------------------------------------------------------------
  // De-duplication

  /** `list(set(xs))`: every element once. Python's set iteration order is
      arbitrary; this keeps each element's first occurrence. */
  function Distinct(xs: seq<string>): (r: seq<string>)
    ensures forall x :: x in r <==> x in xs
    ensures forall i, j | 0 <= i < j < |r| :: r[i] != r[j]
  {
    if xs == [] then []
    else
      var rest := Distinct(xs[..|xs| - 1]);
      var last := xs[|xs| - 1];
      assert forall x :: x in xs <==> x in xs[..|xs| - 1] || x == last;
      if last in rest then rest else rest + [last]
  }
}
