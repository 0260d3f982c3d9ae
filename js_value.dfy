/**
 * The JavaScript values that the helpers receive from callers and from parsed JSON, with
 * the coercions the source applies to them: truthiness (`!!v`, `a || b`), `typeof v ===
 * 'object'`, `Number(v)`, `Number.isFinite(v)`, `String(v)` and property reads.
 */
module JsValue {
  import opened Wrappers
  import opened Text

  /** A JavaScript value. `Num` is a finite number; `NaN` and the infinities are apart. */
  datatype Value =
    | Undefined
    | Null
    | Bool(b: bool)
    | Num(n: real)
    | NaN
    | Infinity(positive: bool)
    | Str(s: string)
    | Obj(fields: map<string, Value>)
    | Arr(items: seq<Value>)

  /** `!!v`. */
  predicate Truthy(v: Value) {
    match v
    case Undefined => false
    case Null => false
    case Bool(b) => b
    case Num(n) => n != 0.0
    case NaN => false
    case Infinity(_) => true
    case Str(s) => s != []
    case Obj(_) => true
    case Arr(_) => true
  }

  /** `a || b`. */
  function Or(a: Value, b: Value): (r: Value)
    ensures Truthy(a) ==> r == a
    ensures !Truthy(a) ==> r == b
  {
    if Truthy(a) then a else b
  }

  /** `v && typeof v === 'object'`: a non-null object or an array. */
  predicate IsObject(v: Value) {
    v.Obj? || v.Arr?
  }

  /** `Number.isFinite(v)`: true only of finite numbers, without coercion. */
  predicate IsFinite(v: Value) {
    v.Num?
  }

  /** `v.key`, for a plain object; other values have none of the fields the source reads. */
  function Get(v: Value, key: string): Value {
    if v.Obj? && key in v.fields then v.fields[key] else Undefined
  }

  /** `Number(v)` when it is finite, `None` when it is NaN or infinite. */
  function ToFinite(v: Value): Option<real> {
    match v
    case Undefined => None
    case Null => Some(0.0)
    case Bool(b) => Some(if b then 1.0 else 0.0)
    case Num(n) => Some(n)
    case NaN => None
    case Infinity(_) => None
    case Str(s) => StringToNumber(s)
    case Obj(_) => None
    case Arr(items) =>
      // `Number` reads an array through `String`: `[7]` is 7, `[]` and `[null]` are 0.
      if |items| == 1 && items[0].Num? then Some(items[0].n) else StringToNumber(Join(items))
  }

  /** `Number(v) === Infinity`: the value itself, or a string or array that reads as it. */
  predicate IsPositiveInfinity(v: Value) {
    match v
    case Infinity(positive) => positive
    case Str(s) => ReadsAsInfinity(s)
    case Arr(items) => !(|items| == 1 && items[0].Num?) && ReadsAsInfinity(Join(items))
    case _ => false
  }

  /** `Number(s) === Infinity` for a string. */
  predicate ReadsAsInfinity(s: string) {
    Trim(s) == "Infinity" || Trim(s) == "+Infinity"
  }

  /** `Number(v) === -Infinity`: the value itself, or a string or array that reads as it. */
  predicate IsNegativeInfinity(v: Value) {
    match v
    case Infinity(positive) => !positive
    case Str(s) => Trim(s) == "-Infinity"
    case Arr(items) => !(|items| == 1 && items[0].Num?) && Trim(Join(items)) == "-Infinity"
    case _ => false
  }

  /** A value that reads as an infinity reads as no finite number, and not as the other infinity. */
  lemma InfinityIsNotFinite(v: Value)
    ensures IsPositiveInfinity(v) ==> ToFinite(v).None? && !IsNegativeInfinity(v)
    ensures IsNegativeInfinity(v) ==> ToFinite(v).None?
  {
    match v
    case Str(s) => InfinityIsNoNumber(s);
    case Arr(items) => InfinityIsNoNumber(Join(items));
    case _ =>
  }

  lemma InfinityIsNoNumber(s: string)
    ensures ReadsAsInfinity(s) || Trim(s) == "-Infinity" ==> StringToNumber(s).None?
  {
    var t := Trim(s);
    if t == "Infinity" {
      assert !IsDigit(t[0]);
    } else if t == "+Infinity" || t == "-Infinity" {
      assert !IsDigit(t[0]) && t[1..][0] == 'I';
      assert !AllDigits(t[1..]);
    }
  }

  /** `v >= m` for a finite number `m`: `v` is coerced by `Number`, and NaN compares false. */
  predicate AtLeast(v: Value, m: real) {
    (ToFinite(v).Some? && ToFinite(v).value >= m) || IsPositiveInfinity(v)
  }

  /** `Number(s)` for the decimal integer literals (optionally signed); blank strings read as 0. */
  function StringToNumber(s: string): Option<real> {
    var t := Trim(s);
    if t == [] then Some(0.0)
    else if AllDigits(t) then Some(DigitsValue(t) as real)
    else if t[0] == '-' && |t| > 1 && AllDigits(t[1..]) then Some(-(DigitsValue(t[1..]) as real))
    else if t[0] == '+' && |t| > 1 && AllDigits(t[1..]) then Some(DigitsValue(t[1..]) as real)
    else None
  }

  /** Decimal rendering of a natural number. */
  function NatToString(n: nat): (r: string)
    ensures r != [] && AllDigits(r)
  {
    if n < 10 then [('0' as int + n) as char]
    else NatToString(n / 10) + [('0' as int + n % 10) as char]
  }

  /** Different numbers have different renderings. */
  lemma {:induction false} NatToStringInjective(a: nat, b: nat)
    requires a != b
    ensures NatToString(a) != NatToString(b)
    decreases a
  {
    var sa, sb := NatToString(a), NatToString(b);
    if a < 10 && b < 10 {
      assert sa[0] != sb[0];
    } else if a < 10 {
      assert |sa| == 1 < |sb|;
    } else if b < 10 {
      assert |sb| == 1 < |sa|;
    } else if a % 10 != b % 10 {
      assert sa[|sa| - 1] != sb[|sb| - 1];
    } else {
      NatToStringInjective(a / 10, b / 10);
      assert sa[..|sa| - 1] == NatToString(a / 10);
      assert sb[..|sb| - 1] == NatToString(b / 10);
    }
  }

  /** Decimal rendering of an integer, with a leading '-' when negative. */
  function IntToString(i: int): (r: string)
    ensures r != []
  {
    if i < 0 then "-" + NatToString(-i) else NatToString(i)
  }

  /** `String(n)` for a finite number (integral numbers only are rendered exactly). */
  function NumberToString(n: real): string {
    IntToString(n.Floor)
  }

  /** `String(v)`. */
  function ToStr(v: Value): string {
    match v
    case Undefined => "undefined"
    case Null => "null"
    case Bool(b) => if b then "true" else "false"
    case Num(n) => NumberToString(n)
    case NaN => "NaN"
    case Infinity(positive) => if positive then "Infinity" else "-Infinity"
    case Str(s) => s
    case Obj(_) => "[object Object]"
    case Arr(items) => Join(items)
  }

  /** `Array.prototype.join(',')` as `String` applies it to arrays: null and undefined render empty. */
  function Join(items: seq<Value>): string
    decreases items
  {
    if items == [] then ""
    else
      var first := if items[0].Undefined? || items[0].Null? then "" else ToStr(items[0]);
      if |items| == 1 then first else first + "," + Join(items[1..])
  }

  /** An array of strings, as a string list is stored. */
  function StringItems(ss: seq<string>): (r: seq<Value>)
    ensures |r| == |ss| && forall i :: 0 <= i < |r| ==> r[i] == Str(ss[i])
  {
    if ss == [] then [] else [Str(ss[0])] + StringItems(ss[1..])
  }

  /**
   * `{ ...v }`: an object's own fields; an array or a string gives one field per index, named
   * by the index (`SpreadIndexes`); other values contribute no fields.
   */
  function Fields(v: Value): (r: map<string, Value>)
    ensures v.Obj? ==> r == v.fields
    ensures !v.Obj? && !v.Arr? && !v.Str? ==> r == map[]
  {
    match v
    case Obj(fields) => fields
    case Arr(items) => Indexed(items)
    case Str(s) => Indexed(CharValues(s))
    case _ => map[]
  }

  /** The one-character strings of `s`, as spreading a string gives them. */
  function CharValues(s: string): (r: seq<Value>)
    ensures |r| == |s| && forall i :: 0 <= i < |s| ==> r[i] == Str([s[i]])
  {
    seq(|s|, i requires 0 <= i < |s| => Str([s[i]]))
  }

  /** The fields `"0"`, `"1"`, … of a spread array, each holding its element. */
  function Indexed(items: seq<Value>): map<string, Value> {
    if items == [] then map[]
    else Indexed(items[..|items| - 1])[NatToString(|items| - 1) := items[|items| - 1]]
  }

  /** Each index of `items` names a field holding its element, and there are no other fields. */
  lemma {:induction false} IndexedSpec(items: seq<Value>)
    ensures forall i :: 0 <= i < |items| ==> NatToString(i) in Indexed(items) && Indexed(items)[NatToString(i)] == items[i]
    ensures forall k :: k in Indexed(items) ==> exists i :: 0 <= i < |items| && k == NatToString(i)
    decreases |items|
  {
    if items != [] {
      var n := |items| - 1;
      IndexedSpec(items[..n]);
      forall i | 0 <= i < n ensures NatToString(i) != NatToString(n) {
        NatToStringInjective(i, n);
      }
    }
  }

  /** Spreading an array or a string gives each element under the name of its index. */
  lemma SpreadIndexes(v: Value)
    ensures v.Arr? ==> forall i :: 0 <= i < |v.items| ==>
      NatToString(i) in Fields(v) && Fields(v)[NatToString(i)] == v.items[i]
    ensures v.Str? ==> forall i :: 0 <= i < |v.s| ==>
      NatToString(i) in Fields(v) && Fields(v)[NatToString(i)] == Str([v.s[i]])
    ensures v.Arr? ==> forall k :: k in Fields(v) ==> exists i :: 0 <= i < |v.items| && k == NatToString(i)
    ensures v.Str? ==> forall k :: k in Fields(v) ==> exists i :: 0 <= i < |v.s| && k == NatToString(i)
  {
    if v.Arr? {
      IndexedSpec(v.items);
    } else if v.Str? {
      IndexedSpec(CharValues(v.s));
    }
  }

  /** `v && typeof v === 'object' ? { ...v } : {}`: a copy of an object's or array's fields. */
  function SpreadObject(v: Value): (r: map<string, Value>)
    ensures IsObject(v) ==> r == Fields(v)
    ensures !IsObject(v) ==> r == map[]
  {
    if Truthy(v) && IsObject(v) then Fields(v) else map[]
  }
}
