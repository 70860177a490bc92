/** The content of an `Output` and what each of its operations does to it,
    as functions of the old content. The `Output` class itself, whose methods
    are proved against these functions, is in module `Engine`. */
module Outputs {
  import opened Js

  /** A call a rule's action makes on the output it is handed. An omitted
      separator is `Undefined`. */
  datatype OutputOp =
    | Append(value: Value, separator: Value)  // output.append(value, separator)
    | SetContent(value: Value)                // output.set(value)
    | SetField(key: string, value: Value)     // output.set(key, value)

  /** `append(v, sep)`: text gains `(sep || " ") + v`, or `"" + v` when the
      text is empty, where `+` adds a number or boolean separator to a number,
      boolean or undefined `v` instead of joining them; a list gains `v` at
      its end; a number or boolean throws; any other content is left alone. */
  function Appended(content: Value, v: Value, sep: Value): Result<Value>
  {
    match content
    case Str(s) => Ok(Str(s + ShowPlus(if |s| > 0 then Or(sep, Str(" ")) else Str(""), v)))
    case List(xs) => Ok(List(xs + [v]))
    case Num(_) => Err(CannotAppend)
    case Bool(_) => Err(CannotAppend)
    case Undefined => Ok(content)
    case Rec(_) => Ok(content)
  }

  /** `blendOutput(other, sep)`: text gains `(sep || "") + other`, even when it
      is empty, with the same `+` as `append`; a list throws, because `Array.prototype.append` does not
      exist; a record takes every field of a record `other`, whose fields win. */
  function Blended(content: Value, other: Value, sep: Value): Result<Value>
  {
    match content
    case Str(s) => Ok(Str(s + ShowPlus(Or(sep, Str("")), other)))
    case List(_) => Err(TypeError)
    case Rec(m) => if other.Rec? then Ok(Rec(m + other.fields)) else Ok(content)
    case Num(_) => Ok(content)
    case Bool(_) => Ok(content)
    case Undefined => Ok(content)
  }

  /** `set(key, v)`. An undefined `v` makes the default parameter apply, so
      the call replaces the whole content by `key`. Otherwise a record gets
      the field; writing a property of a primitive throws, since class bodies
      are strict-mode code; on a list, an index key writes that element and
      `length` resizes the list, while any other key is a named property that
      the list's items do not show. */
  function WithField(content: Value, key: string, v: Value): Result<Value>
  {
    if v.Undefined? then Ok(Str(key))
    else match content
      case Rec(m) => Ok(Rec(m[key := v]))
      case List(xs) => ListWithField(xs, key, v)
      case Str(_) => Err(TypeError)
      case Num(_) => Err(TypeError)
      case Bool(_) => Err(TypeError)
      case Undefined => Err(TypeError)
  }

  /** `xs[key] = v` on an array. */
  function ListWithField(xs: seq<Value>, key: string, v: Value): Result<Value>
  {
    match ArrayIndex(key)
    case Some(i) => Ok(List(StoreAt(xs, i, v)))
    case None =>
      if key != "length" then Ok(List(xs))
      else match NewLength(v)
        case Some(Ok(n)) => Ok(List(Resized(xs, n)))
        case Some(Err(e)) => Err(e)
        case None => Ok(List(xs))
  }

  /** Unset elements of an array. Reading one gives `undefined`, and joining
      or appending treats it as `undefined`, so the model stores `Undefined`. */
  function Holes(n: nat): (r: seq<Value>)
    ensures |r| == n
    ensures forall j :: 0 <= j < n ==> r[j] == Undefined
  {
    if n == 0 then [] else Holes(n - 1) + [Undefined]
  }

  /** `xs[i] = v`: element `i` becomes `v`; past the end, the array grows to
      `i + 1` elements with unset elements in between. */
  function StoreAt(xs: seq<Value>, i: nat, v: Value): (r: seq<Value>)
    ensures |r| == if i < |xs| then |xs| else i + 1
    ensures r[i] == v
    ensures forall j :: 0 <= j < |xs| && j != i ==> r[j] == xs[j]
    ensures forall j :: |xs| <= j < i ==> r[j] == Undefined
  {
    if i < |xs| then xs[i := v] else xs + Holes(i - |xs|) + [v]
  }

  /** `xs.length = n`: the first `n` elements, followed by unset ones when
      `n` is beyond the end. */
  function Resized(xs: seq<Value>, n: nat): (r: seq<Value>)
    ensures |r| == n
    ensures forall j :: 0 <= j < n && j < |xs| ==> r[j] == xs[j]
    ensures forall j :: |xs| <= j < n ==> r[j] == Undefined
  {
    if n <= |xs| then xs[..n] else xs + Holes(n - |xs|)
  }

  /** The length `xs.length = v` sets: a number that is a whole value in
      [0, 2^32 - 1] is one, and a boolean counts as 0 or 1; any other number,
      a record (whose number is NaN) and `undefined` throw. The conversion of
      text and of lists to a number is not modelled (`None`). */
  function NewLength(v: Value): Option<Result<nat>>
  {
    match v
    case Num(n) => Some(if 0 <= n <= 0xFFFF_FFFF then Ok(n) else Err(RangeError))
    case Bool(b) => Some(Ok(if b then 1 else 0))
    case Rec(_) => Some(Err(RangeError))
    case Undefined => Some(Err(RangeError))
    case Str(_) => None
    case List(_) => None
  }

  /** The effect of one output call on the content. */
  function ApplyOp(content: Value, op: OutputOp): Result<Value>
  {
    match op
    case Append(v, sep) => Appended(content, v, sep)
    case SetContent(v) => Ok(v)
    case SetField(k, v) => WithField(content, k, v)
  }

  /** `xs[0] + sep + xs[1] + ... + sep + xs[n-1]`, an independent statement
      of what a series of appends or blends should produce. */
  function Join(xs: seq<string>, sep: string): string
  {
    if |xs| == 0 then ""
    else if |xs| == 1 then xs[0]
    else xs[0] + sep + Join(xs[1..], sep)
  }

  /** Appending the strings `xs`, one call after another, with the same separator. */
  function AppendAll(content: Value, xs: seq<string>, sep: Value): Result<Value>
  {
    if xs == [] then Ok(content)
    else match AppendAll(content, xs[..|xs| - 1], sep)
      case Err(e) => Err(e)
      case Ok(c) => Appended(c, Str(xs[|xs| - 1]), sep)
  }

  /** Blending the outputs `parts` in, one `again` after another. */
  function BlendAll(content: Value, parts: seq<Value>, sep: Value): Result<Value>
  {
    if parts == [] then Ok(content)
    else match BlendAll(content, parts[..|parts| - 1], sep)
      case Err(e) => Err(e)
      case Ok(c) => Blended(c, parts[|parts| - 1], sep)
  }

  lemma {:induction false} JoinSnoc(xs: seq<string>, x: string, sep: string)
    requires |xs| > 0
    ensures Join(xs + [x], sep) == Join(xs, sep) + sep + x
  {
    if |xs| == 1 {
      assert xs + [x] == [xs[0], x];
      assert [xs[0], x][1..] == [x];
    } else {
      assert (xs + [x])[1..] == xs[1..] + [x];
      JoinSnoc(xs[1..], x, sep);
    }
  }

  /** Only numbers and booleans refuse an append, whatever the error mode. */
  lemma AppendFailsExactlyOnScalars(content: Value, v: Value, sep: Value)
    ensures Appended(content, v, sep).Err? <==> (content.Num? || content.Bool?)
    ensures Appended(content, v, sep).Err? ==> Appended(content, v, sep).error == CannotAppend
  {
  }

  /** Appending non-empty strings to empty text puts the separator `sep || " "`
      between them and nowhere else: no leading separator. */
  lemma {:induction false} AppendAllJoins(xs: seq<string>, sep: Value)
    requires forall i :: 0 <= i < |xs| ==> xs[i] != ""
    ensures AppendAll(Str(""), xs, sep) == Ok(Str(Join(xs, Show(Or(sep, Str(" "))))))
  {
    if xs != [] {
      var init := xs[..|xs| - 1];
      var x := xs[|xs| - 1];
      AppendAllJoins(init, sep);
      assert init + [x] == xs;
      AppendText(Join(init, Show(Or(sep, Str(" ")))), x, sep);
      if init != [] {
        JoinSnoc(init, x, Show(Or(sep, Str(" "))));
        assert Join(init, Show(Or(sep, Str(" ")))) != "" by {
          JoinHead(init, Show(Or(sep, Str(" "))));
        }
      } else {
        assert AppendAll(Str(""), init, sep) == Ok(Str(""));
        assert "" + "" + x == x;
      }
    }
  }

  lemma {:induction false} JoinHead(xs: seq<string>, sep: string)
    requires |xs| > 0
    ensures |Join(xs, sep)| >= |xs[0]|
    ensures Join(xs, sep)[..|xs[0]|] == xs[0]
  {
    if |xs| > 1 {
      assert Join(xs, sep) == xs[0] + (sep + Join(xs[1..], sep));
    }
  }

  /** A text output that is blended with the text outputs `parts` one after
      another holds all of them joined by `sep || ""`: the separator is added
      even next to empty text. */
  lemma {:induction false} BlendAllJoins(first: string, parts: seq<string>, sep: Value)
    ensures BlendAll(Str(first), Texts(parts), sep) == Ok(Str(Join([first] + parts, Show(Or(sep, Str(""))))))
  {
    if parts != [] {
      var init := parts[..|parts| - 1];
      var p := parts[|parts| - 1];
      assert Texts(parts)[..|parts| - 1] == Texts(init);
      BlendAllJoins(first, init, sep);
      assert [first] + parts == ([first] + init) + [p];
      JoinSnoc([first] + init, p, Show(Or(sep, Str(""))));
      BlendText(Join([first] + init, Show(Or(sep, Str("")))), p, sep);
    }
  }

  /** The text values of `parts`. */
  function Texts(parts: seq<string>): (r: seq<Value>)
    ensures |r| == |parts|
    ensures forall i :: 0 <= i < |parts| ==> r[i] == Str(parts[i])
  {
    if parts == [] then [] else Texts(parts[..|parts| - 1]) + [Str(parts[|parts| - 1])]
  }

  /** Blending a record: keys from both sides, the new side's values winning. */
  lemma BlendRecordIsShallowMerge(current: map<string, Value>, incoming: map<string, Value>, sep: Value)
    ensures Blended(Rec(current), Rec(incoming), sep).Ok?
    ensures var r := Blended(Rec(current), Rec(incoming), sep).value;
      && r.Rec?
      && (forall k :: k in r.fields <==> k in current || k in incoming)
      && (forall k :: k in incoming ==> r.fields[k] == incoming[k])
      && (forall k :: k in current && k !in incoming ==> r.fields[k] == current[k])
  {
  }

  /** On a list, `set(String(i), v)` writes element `i` for every array
      index `i`, growing the list when `i` is past its end. */
  lemma ListIndexWrite(xs: seq<Value>, i: nat, v: Value)
    requires !v.Undefined? && i < 0xFFFF_FFFF
    ensures WithField(List(xs), Digits(i), v) == Ok(List(StoreAt(xs, i, v)))
  {
    ArrayIndexIsDigits(Digits(i), i);
  }

  /** On a list, `set("length", n)` keeps the first `n` items and pads with
      unset elements beyond the end; a negative or too large length throws. */
  lemma ListLengthWrite(xs: seq<Value>, n: int)
    ensures 0 <= n <= 0xFFFF_FFFF ==> WithField(List(xs), "length", Num(n)) == Ok(List(Resized(xs, n)))
    ensures !(0 <= n <= 0xFFFF_FFFF) ==> WithField(List(xs), "length", Num(n)) == Err(RangeError)
  {
    assert ArrayIndex("length") == None by {
      assert !IsDigits("length") by { assert !('0' <= "length"[0] <= '9'); }
    }
  }

  /** On a list, any key that is neither an array index nor `length` leaves
      the items as they are. */
  lemma ListOtherKey(xs: seq<Value>, key: string, v: Value)
    requires !v.Undefined? && key != "length"
    requires forall i: nat :: i < 0xFFFF_FFFF ==> key != Digits(i)
    ensures WithField(List(xs), key, v) == Ok(List(xs))
  {
    if ArrayIndex(key).Some? {
      var i := ArrayIndex(key).value;
      ArrayIndexIsDigits(key, i);
    }
  }

  /** Text appended to text is joined to it: after the separator `sep || " "`
      when the content is not empty, directly otherwise. */
  lemma AppendText(s: string, t: string, sep: Value)
    ensures Appended(Str(s), Str(t), sep) == Ok(Str(s + (if |s| > 0 then Show(Or(sep, Str(" "))) else "") + t))
  {
    var a := if |s| > 0 then Or(sep, Str(" ")) else Str("");
    assert ShowPlus(a, Str(t)) == Show(a) + t;
    assert s + (Show(a) + t) == s + Show(a) + t;
  }

  /** Text blended into text is joined to it after the separator `sep || ""`. */
  lemma BlendText(s: string, t: string, sep: Value)
    ensures Blended(Str(s), Str(t), sep) == Ok(Str(s + Show(Or(sep, Str(""))) + t))
  {
    var a := Or(sep, Str(""));
    assert ShowPlus(a, Str(t)) == Show(a) + t;
    assert s + (Show(a) + t) == s + Show(a) + t;
  }

  /** A number or boolean separator and a number or boolean value are added
      as numbers before the sum is appended. */
  lemma AppendAddsNumbers(s: string, v: Value, sep: Value)
    requires |s| > 0 && Truthy(sep) && (sep.Num? || sep.Bool?) && (v.Num? || v.Bool?)
    ensures Appended(Str(s), v, sep) == Ok(Str(s + Show(Num(Numeric(sep) + Numeric(v)))))
  {
  }

  /** The same holds when blending: a truthy number or boolean separator is
      added to a number or boolean content of the other output. */
  lemma BlendAddsNumbers(s: string, other: Value, sep: Value)
    requires Truthy(sep) && (sep.Num? || sep.Bool?) && (other.Num? || other.Bool?)
    ensures Blended(Str(s), other, sep) == Ok(Str(s + Show(Num(Numeric(sep) + Numeric(other)))))
  {
  }
}
