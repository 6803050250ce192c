/**
 * The slice of JavaScript semantics that the stream projectors depend on:
 * the values `JSON.parse` yields (plus `undefined`), truthiness, optional
 * chaining, `||` defaults, `Array.isArray`, `for...of` iteration, string
 * coercion by `+`, and the TypeError a property read on `null`/`undefined`
 * raises.
 */
module Js {
  import opened Strings

  /**
   * A JavaScript value. A number is kept as its canonical `String(n)`
   * rendering ("4.5", "0", "-3"), which is all the projectors ever observe of
   * it: its truthiness, its equality and its coercion to a string.
   */
  datatype Value =
    | Undefined
    | Null
    | Bool(b: bool)
    | Num(text: string)
    | Str(s: string)
    | Arr(items: seq<Value>)
    | Obj(props: map<string, Value>)
    | Method(name: string)

  /** The outcome of evaluating JavaScript code that may throw a TypeError. */
  datatype Res<+T> = Ok(value: T) | TypeError {
    predicate IsFailure() {
      TypeError?
    }

    function PropagateFailure<U>(): Res<U>
      requires TypeError?
    {
      TypeError
    }

    function Extract(): T
      requires Ok?
    {
      value
    }
  }

  predicate IsNullish(v: Value) {
    v.Undefined? || v.Null?
  }

  /** JavaScript truthiness: `undefined`, `null`, `false`, `0`, `NaN` and `""` are falsy. */
  predicate Truthy(v: Value) {
    match v
    case Undefined => false
    case Null => false
    case Bool(b) => b
    case Num(t) => t != "0" && t != "NaN"
    case Str(s) => s != ""
    case _ => true
  }

  /** The methods every array inherits from `Array.prototype`. */
  const ArrayMethods: set<string> := {
    "at", "concat", "copyWithin", "entries", "every", "fill", "filter", "find", "findIndex",
    "findLast", "findLastIndex", "flat", "flatMap", "forEach", "includes", "indexOf", "join",
    "keys", "lastIndexOf", "map", "pop", "push", "reduce", "reduceRight", "reverse", "shift",
    "slice", "some", "sort", "splice", "toLocaleString", "toReversed", "toSorted", "toSpliced",
    "toString", "unshift", "values", "with"}

  /**
   * `v?.key`. An object answers with its own property; an array answers to
   * the name of one of its methods with that method (`group.entries` of an
   * array group is `Array.prototype.entries`). The keys read here are never
   * "length", an index, or the name of a method of strings, numbers, booleans
   * or plain objects, so every other value answers `undefined`.
   */
  function Prop(v: Value, key: string): (r: Value)
    ensures IsNullish(v) ==> r == Undefined
    ensures v.Obj? ==> r == if key in v.props then v.props[key] else Undefined
    ensures v.Arr? ==> (r.Method? <==> key in ArrayMethods)
  {
    if v.Obj? && key in v.props then v.props[key]
    else if v.Arr? && key in ArrayMethods then Method(key)
    else Undefined
  }

  /** `v.key`: reading a property of `null` or `undefined` throws. */
  function Member(v: Value, key: string): (r: Res<Value>)
    ensures r.TypeError? <==> IsNullish(v)
    ensures r.Ok? ==> r.value == Prop(v, key)
  {
    if IsNullish(v) then TypeError else Ok(Prop(v, key))
  }

  /** `a || b`. */
  function Or(a: Value, b: Value): (r: Value)
    ensures Truthy(a) ==> r == a
    ensures !Truthy(a) ==> r == b
  {
    if Truthy(a) then a else b
  }

  /** `v?.[0]`. */
  function Index0(v: Value): Value {
    match v
    case Arr(xs) => if xs != [] then xs[0] else Undefined
    case Str(s) => if s != "" then Str([s[0]]) else Undefined
    case Obj(m) => if "0" in m then m["0"] else Undefined
    case _ => Undefined
  }

  /** One string per character, as `for...of` over a string yields them. */
  function Chars(s: string): (r: seq<Value>)
    ensures |r| == |s|
    ensures forall i :: 0 <= i < |s| ==> r[i] == Str([s[i]])
  {
    if s == "" then [] else [Str([s[0]])] + Chars(s[1..])
  }

  /** `for (x of v)` and `...v`: arrays and strings are iterable, anything else throws. */
  function Iterate(v: Value): (r: Res<seq<Value>>)
    ensures r.Ok? <==> v.Arr? || v.Str?
    ensures v.Arr? ==> r == Ok(v.items)
  {
    match v
    case Arr(xs) => Ok(xs)
    case Str(s) => Ok(Chars(s))
    case _ => TypeError
  }

  /**
   * `v.includes(needle)` on a non-nullish value: substring search on a string,
   * element search on an array; other values have no `includes` method.
   */
  function Includes(v: Value, needle: string): Res<bool> {
    match v
    case Str(s) => Ok(IndexOf(s, needle, 0) >= 0)
    case Arr(xs) => Ok(Str(needle) in xs)
    case _ => TypeError
  }

  /** `v.startsWith(prefix)`: only strings have the method. */
  function StartsWith(v: Value, prefix: string): (r: Res<bool>)
    ensures r.Ok? <==> v.Str?
    ensures v.Str? ==> r.value == (prefix <= v.s)
  {
    if v.Str? then Ok(prefix <= v.s) else TypeError
  }

  /** `String(v)`; an array renders as its elements joined by commas, nullish elements as "". */
  function ToString(v: Value): string
    decreases v
  {
    match v
    case Undefined => "undefined"
    case Null => "null"
    case Bool(b) => if b then "true" else "false"
    case Num(t) => t
    case Str(s) => s
    case Obj(_) => "[object Object]"
    case Method(name) => "function " + name + "() { [native code] }"
    case Arr(xs) =>
      Join(",", seq(|xs|, i requires 0 <= i < |xs| => if IsNullish(xs[i]) then "" else ToString(xs[i])))
  }

  /**
   * `a + b` when it concatenates: the result is the string of `a` followed by
   * the string of `b`.
   */
  function Concat(a: Value, b: Value): (r: Value)
    ensures r.Str? && r.s == ToString(a) + ToString(b)
  {
    Str(ToString(a) + ToString(b))
  }

  /**
   * `o[key] = val` in sloppy mode: an object gains or overwrites the key;
   * assigning a property of a primitive does nothing.
   */
  function SetProp(o: Value, key: string, val: Value): (r: Value)
    ensures o.Obj? ==> r.Obj? && r.props == o.props[key := val]
    ensures !o.Obj? ==> r == o
  {
    if o.Obj? then Obj(o.props[key := val]) else o
  }

  /**
   * The items pushed by a `for...of` loop whose body evaluates `f` on each
   * element and pushes what it yields; the first TypeError aborts the loop.
   */
  function FlatMapRes<T, X>(xs: seq<T>, f: T -> Res<seq<X>>): Res<seq<X>>
  {
    if xs == [] then Ok([])
    else
      var acc :- FlatMapRes(xs[..|xs| - 1], f);
      var ys :- f(xs[|xs| - 1]);
      Ok(acc + ys)
  }

  /** One more element of the loop. */
  lemma FlatMapResStep<T, X>(xs: seq<T>, i: nat, f: T -> Res<seq<X>>)
    requires i < |xs|
    ensures FlatMapRes(xs[..i + 1], f) ==
      (match FlatMapRes(xs[..i], f)
       case TypeError => TypeError
       case Ok(acc) => (match f(xs[i]) case TypeError => TypeError case Ok(ys) => Ok(acc + ys)))
  {
    assert xs[..i + 1][..i] == xs[..i];
  }

  /** Once an element has thrown, the whole loop has thrown. */
  lemma {:induction false} FlatMapResThrows<T, X>(xs: seq<T>, k: nat, f: T -> Res<seq<X>>)
    requires k <= |xs| && FlatMapRes(xs[..k], f).TypeError?
    ensures FlatMapRes(xs, f).TypeError?
    decreases |xs| - k
  {
    if k < |xs| {
      FlatMapResStep(xs, k, f);
      FlatMapResThrows(xs, k + 1, f);
    } else {
      assert xs[..k] == xs;
    }
  }

  /** A loop over one element yields what that element yields. */
  lemma FlatMapResOne<T, X>(x: T, f: T -> Res<seq<X>>)
    ensures FlatMapRes([x], f) == f(x)
  {
    assert [x][..0] == [];
    if f(x).Ok? {
      assert [] + f(x).value == f(x).value;
    }
  }

  /** The loop completes exactly when no element throws. */
  lemma {:induction false} FlatMapResOk<T, X>(xs: seq<T>, f: T -> Res<seq<X>>)
    ensures FlatMapRes(xs, f).Ok? <==> forall i :: 0 <= i < |xs| ==> f(xs[i]).Ok?
  {
    if xs != [] {
      var n := |xs| - 1;
      FlatMapResOk(xs[..n], f);
      assert forall i :: 0 <= i < n ==> xs[..n][i] == xs[i];
    }
  }

  /** `xs.map(g)`. */
  function MapSeq<T, X>(xs: seq<T>, g: T -> X): (r: seq<X>)
    ensures |r| == |xs|
    ensures forall i :: 0 <= i < |xs| ==> r[i] == g(xs[i])
  {
    if xs == [] then [] else MapSeq(xs[..|xs| - 1], g) + [g(xs[|xs| - 1])]
  }

  /**
   * A loop whose body pushes exactly one item per element, when it completes,
   * pushes one item per element, in order.
   */
  lemma {:induction false} FlatMapResMap<T, X>(xs: seq<T>, f: T -> Res<seq<X>>, g: T -> X)
    requires forall i :: 0 <= i < |xs| && f(xs[i]).Ok? ==> f(xs[i]).value == [g(xs[i])]
    ensures FlatMapRes(xs, f).Ok? ==> FlatMapRes(xs, f).value == MapSeq(xs, g)
  {
    if xs != [] && FlatMapRes(xs, f).Ok? {
      var n := |xs| - 1;
      assert forall i :: 0 <= i < n ==> xs[..n][i] == xs[i];
      FlatMapResMap(xs[..n], f, g);
      assert f(xs[n]).value == [g(xs[n])];
    }
  }

  /** A loop over a concatenation is the first loop followed by the second. */
  lemma {:induction false} FlatMapResAppend<T, X>(xs: seq<T>, ys: seq<T>, f: T -> Res<seq<X>>)
    requires FlatMapRes(xs, f).Ok? && FlatMapRes(ys, f).Ok?
    ensures FlatMapRes(xs + ys, f) == Ok(FlatMapRes(xs, f).value + FlatMapRes(ys, f).value)
    decreases |ys|
  {
    if ys == [] {
      assert xs + ys == xs;
      assert FlatMapRes(xs, f).value + [] == FlatMapRes(xs, f).value;
    } else {
      var ys' := ys[..|ys| - 1];
      assert (xs + ys)[..|xs + ys| - 1] == xs + ys';
      assert (xs + ys)[|xs + ys| - 1] == ys[|ys| - 1];
      assert FlatMapRes(ys', f).Ok? && f(ys[|ys| - 1]).Ok?;
      FlatMapResAppend(xs, ys', f);
      var a, b, c := FlatMapRes(xs, f).value, FlatMapRes(ys', f).value, f(ys[|ys| - 1]).value;
      assert FlatMapRes(ys, f).value == b + c;
      assert FlatMapRes(xs + ys, f).value == (a + b) + c;
      assert (a + b) + c == a + (b + c);
    }
  }

  /**
   * The loop itself: `for (const x of xs) { ...; out.push(...ys) }` where the
   * body evaluates `f(x)` to the items `ys` it pushes, or throws.
   */
  method ForOfPush<T, X>(xs: seq<T>, f: T -> Res<seq<X>>) returns (r: Res<seq<X>>)
    ensures r == FlatMapRes(xs, f)
  {
    var out: seq<X> := [];
    var i := 0;
    while i < |xs|
      invariant 0 <= i <= |xs|
      invariant FlatMapRes(xs[..i], f) == Ok(out)
    {
      FlatMapResStep(xs, i, f);
      var ys := f(xs[i]);
      if ys.TypeError? {
        FlatMapResThrows(xs, i + 1, f);
        return TypeError;
      }
      out := out + ys.value;
      i := i + 1;
    }
    assert xs[..i] == xs;
    return Ok(out);
  }
}
