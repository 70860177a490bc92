/** JavaScript values as the engine and its rules exchange them, the errors the
    engine throws, and the two coercions the engine relies on: truthiness
    (`a || b`) and conversion to a string (`s + v`). */
module Js {

  datatype Option<T> = None | Some(value: T)

  datatype Result<T> = Ok(value: T) | Err(error: Error)

  /** Everything the engine can throw. */
  datatype Error =
    | RuleNotFound(name: string)  // "No rule named '<name>'" (removeRule and chains)
    | MaxSamplesReached           // "Max sample amount reached" (depth guard)
    | CannotAppend                // "Cannot append boolean or number"
    | TypeError                   // thrown by the runtime: iterating a non-array,
                                  // calling a missing function, a property write on a primitive
    | RangeError                  // thrown by the runtime: an invalid array length

  /** A JavaScript value. Numbers are integers in this model. */
  datatype Value =
    | Undefined
    | Bool(b: bool)
    | Num(n: int)
    | Str(s: string)
    | List(items: seq<Value>)
    | Rec(fields: map<string, Value>)

  /** JavaScript truthiness. */
  predicate Truthy(v: Value)
  {
    match v
    case Undefined => false
    case Bool(b) => b
    case Num(n) => n != 0
    case Str(s) => s != ""
    case List(_) => true
    case Rec(_) => true
  }

  /** `a || b`: the left operand when it is truthy, otherwise the right one. */
  function Or(a: Value, b: Value): (r: Value)
    ensures Truthy(a) ==> r == a
    ensures !Truthy(a) ==> r == b
    ensures r == a || r == b
    ensures Truthy(r) <==> Truthy(a) || Truthy(b)
  {
    if Truthy(a) then a else b
  }

  /** Decimal digits of a natural number. */
  function Digits(n: nat): (r: string)
    ensures |r| > 0
    ensures forall i :: 0 <= i < |r| ==> '0' <= r[i] <= '9'
  {
    var d := [(48 + n % 10) as char];
    if n < 10 then d else Digits(n / 10) + d
  }

  /** `String(v)`, the conversion `+` applies to a non-string operand. */
  function Show(v: Value): string
  {
    match v
    case Undefined => "undefined"
    case Bool(b) => if b then "true" else "false"
    case Num(n) => if n < 0 then "-" + Digits(-n) else Digits(n)
    case Str(s) => s
    case List(xs) => ShowItems(xs)
    case Rec(_) => "[object Object]"
  }

  /** The values `+` converts to text before adding: strings, and the
      objects (lists and records), whose primitive value is text. */
  predicate Textual(v: Value)
  {
    v.Str? || v.List? || v.Rec?
  }

  /** `Number(v)` for a number or a boolean. */
  function Numeric(v: Value): int
    requires v.Num? || v.Bool?
  {
    if v.Bool? then (if v.b then 1 else 0) else v.n
  }

  /** `String(a + b)`: JavaScript's `+` concatenates the texts of its operands
      when either is text or an object, and otherwise adds them as numbers,
      `undefined` making the sum NaN. */
  function ShowPlus(a: Value, b: Value): string
  {
    if Textual(a) || Textual(b) then Show(a) + Show(b)
    else if a.Undefined? || b.Undefined? then "NaN"
    else Show(Num(Numeric(a) + Numeric(b)))
  }

  /** `Array.prototype.join(",")`: undefined elements become empty strings. */
  function ShowItems(xs: seq<Value>): string
  {
    if xs == [] then ""
    else
      var first := if xs[0].Undefined? then "" else Show(xs[0]);
      if |xs| == 1 then first else first + "," + ShowItems(xs[1..])
  }

  /** The value of a string of decimal digits. */
  function DigitValue(s: string): nat
    requires IsDigits(s)
  {
    if s == [] then 0 else DigitValue(s[..|s| - 1]) * 10 + (s[|s| - 1] as int - 48)
  }

  predicate IsDigits(s: string)
  {
    forall i :: 0 <= i < |s| ==> '0' <= s[i] <= '9'
  }

  /** A property key names an array element when it is `String(i)` for an
      index `i` below 2^32 - 1: decimal digits, no leading zero. */
  function ArrayIndex(key: string): (r: Option<nat>)
  {
    if |key| > 0 && IsDigits(key) && (key[0] != '0' || |key| == 1) && DigitValue(key) < 0xFFFF_FFFF
    then Some(DigitValue(key))
    else None
  }

  lemma {:induction false} DigitsLeading(n: nat)
    ensures IsDigits(Digits(n))
    ensures n > 0 ==> Digits(n)[0] != '0'
  {
    if n >= 10 {
      DigitsLeading(n / 10);
    }
  }

  lemma {:induction false} DigitValueOfDigits(n: nat)
    ensures DigitValue(Digits(n)) == n
  {
    var d := [(48 + n % 10) as char];
    if n >= 10 {
      DigitValueOfDigits(n / 10);
      assert (Digits(n / 10) + d)[..|Digits(n / 10) + d| - 1] == Digits(n / 10);
    }
  }

  lemma {:induction false} DigitValuePositive(s: string)
    requires |s| > 0 && IsDigits(s) && s[0] != '0'
    ensures DigitValue(s) > 0
  {
    if |s| > 1 {
      DigitValuePositive(s[..|s| - 1]);
    }
  }

  lemma {:induction false} DigitsOfDigitValue(s: string)
    requires |s| > 0 && IsDigits(s) && (s[0] != '0' || |s| == 1)
    ensures Digits(DigitValue(s)) == s
  {
    if |s| > 1 {
      var init := s[..|s| - 1];
      DigitsOfDigitValue(init);
      DigitValuePositive(init);
      var v := DigitValue(init);
      var d := s[|s| - 1] as int - 48;
      assert DigitValue(s) == v * 10 + d;
      assert (v * 10 + d) / 10 == v && (v * 10 + d) % 10 == d;
      assert s == init + [s[|s| - 1]];
    }
  }

  /** The keys that name array elements are exactly the decimal forms of the
      indices below 2^32 - 1. */
  lemma ArrayIndexIsDigits(key: string, i: nat)
    ensures ArrayIndex(key) == Some(i) <==> key == Digits(i) && i < 0xFFFF_FFFF
  {
    if key == Digits(i) {
      DigitsLeading(i);
      DigitValueOfDigits(i);
    }
    if ArrayIndex(key) == Some(i) {
      DigitsOfDigitValue(key);
    }
  }
}
