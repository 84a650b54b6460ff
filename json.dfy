/**
 * A JSON value as `serde_json::Value` holds it, and the rules by which serde's
 * derived deserializers read a struct's fields out of a JSON object: required
 * fields, `#[serde(default)]`, `Option` fields, `DefaultOnNull`, aliases, and the
 * integer range checks of the numeric types. Text parsing and rendering of JSON
 * are not part of this model; they appear as function parameters where needed.
 */
module Json {
  import opened Wrappers
  import opened Ints

  /** `serde_json::Number`: an integer, or a float shown by the text Rust's `Display` gives it. */
  datatype Number = Int(i: int) | Float(display: string)

  datatype Json =
    | Null
    | Bool(b: bool)
    | Num(n: Number)
    | Str(s: string)
    | Array(items: seq<Json>)
    | Object(fields: map<string, Json>)

  type Fields = map<string, Json>

  /** `Number::as_i64`: the integer when it fits in an `i64`. */
  function AsI64(n: Number): (r: Option<int>)
    ensures r.Some? <==> n.Int? && I64_MIN <= n.i <= I64_MAX
    ensures r.Some? ==> r.value == n.i
  {
    if n.Int? && I64_MIN <= n.i <= I64_MAX then Some(n.i) else None
  }

  /** The field `name` of an object, if present. */
  function Get(fields: Fields, name: string): (r: Option<Json>)
    ensures r.Some? <==> name in fields
    ensures r.Some? ==> r.value == fields[name]
  {
    if name in fields then Some(fields[name]) else None
  }

  /**
   * A field renamed to `name` that also accepts `alias` on input. Both spellings
   * in one object are serde's "duplicate field" error.
   */
  function GetAliased(fields: Fields, name: string, alias: string): (r: Result<Option<Json>, string>)
    requires name != alias
    ensures r.Err? <==> name in fields && alias in fields
    ensures r.Ok? && name in fields ==> r.value == Some(fields[name])
    ensures r.Ok? && alias in fields ==> r.value == Some(fields[alias])
    ensures r.Ok? && name !in fields && alias !in fields ==> r.value == None
  {
    if name in fields && alias in fields then Err("duplicate field `" + name + "`")
    else if name in fields then Ok(Some(fields[name]))
    else if alias in fields then Ok(Some(fields[alias]))
    else Ok(None)
  }

  /** A field without a default: absence is serde's "missing field" error. */
  function Required(v: Option<Json>, name: string): (r: Result<Json, string>)
    ensures r.Ok? <==> v.Some?
    ensures r.Ok? ==> r.value == v.value
  {
    if v.Some? then Ok(v.value) else Err("missing field `" + name + "`")
  }

  // ---------------------------------------------------------------------------
  // Scalars
  // ---------------------------------------------------------------------------

  /** `String`: only a JSON string is accepted. */
  function DecodeString(v: Json): (r: Result<string, string>)
    ensures r.Ok? <==> v.Str?
    ensures r.Ok? ==> r.value == v.s
  {
    if v.Str? then Ok(v.s) else Err("invalid type: expected a string")
  }

  /** An integer type with range [lo, hi]: a JSON integer inside the range. */
  function DecodeInt(v: Json, lo: int, hi: int): (r: Result<int, string>)
    ensures r.Ok? <==> v.Num? && v.n.Int? && lo <= v.n.i <= hi
    ensures r.Ok? ==> r.value == v.n.i
  {
    if !(v.Num? && v.n.Int?) then Err("invalid type: expected an integer")
    else if !(lo <= v.n.i <= hi) then Err("invalid value: integer out of range")
    else Ok(v.n.i)
  }

  function DecodeI32(v: Json): (r: Result<I32, string>)
    ensures r.Ok? <==> v.Num? && v.n.Int? && I32_MIN <= v.n.i <= I32_MAX
    ensures r.Ok? ==> r.value == v.n.i
  {
    match DecodeInt(v, I32_MIN, I32_MAX)
    case Ok(x) => Ok(x)
    case Err(e) => Err(e)
  }

  function DecodeU32(v: Json): (r: Result<U32, string>)
    ensures r.Ok? <==> v.Num? && v.n.Int? && 0 <= v.n.i <= U32_MAX
    ensures r.Ok? ==> r.value == v.n.i
  {
    match DecodeInt(v, 0, U32_MAX)
    case Ok(x) => Ok(x)
    case Err(e) => Err(e)
  }

  /** `Option<String>` with `#[serde(default)]`: absent or null is `None`. */
  function DecodeOptionString(v: Option<Json>): (r: Result<Option<string>, string>)
    ensures r.Ok? <==> v.None? || v.value.Null? || v.value.Str?
    ensures r.Ok? ==> (r.value.Some? <==> v.Some? && v.value.Str?)
    ensures r.Ok? && r.value.Some? ==> r.value.value == v.value.s
  {
    match v
    case None => Ok(None)
    case Some(Null) => Ok(None)
    case Some(Str(s)) => Ok(Some(s))
    case Some(_) => Err("invalid type: expected a string or null")
  }

  function EncodeOptionString(o: Option<string>): Json {
    match o
    case None => Null
    case Some(s) => Str(s)
  }

  lemma OptionStringRoundTrip(o: Option<string>)
    ensures DecodeOptionString(Some(EncodeOptionString(o))) == Ok(o)
  {
  }

  // ---------------------------------------------------------------------------
  // Sequences
  // ---------------------------------------------------------------------------

  /** Decode each element in order; the first failing element fails the whole array. */
  function DecodeArray<T>(items: seq<Json>, elem: Json -> Result<T, string>): (r: Result<seq<T>, string>)
    ensures r.Ok? <==> forall i :: 0 <= i < |items| ==> elem(items[i]).Ok?
    ensures r.Ok? ==> |r.value| == |items|
    ensures r.Ok? ==> forall i :: 0 <= i < |items| ==> r.value[i] == elem(items[i]).value
  {
    if items == [] then Ok([])
    else
      match elem(items[0])
      case Err(e) => Err(e)
      case Ok(x) =>
        match DecodeArray(items[1..], elem)
        case Err(e) => Err(e)
        case Ok(xs) =>
          assert forall i :: 1 <= i < |items| ==> items[i] == items[1..][i - 1];
          Ok([x] + xs)
  }

  /** `Vec<T>` without a default: the value must be an array. */
  function DecodeVec<T>(v: Json, elem: Json -> Result<T, string>): (r: Result<seq<T>, string>)
    ensures v.Array? ==> r == DecodeArray(v.items, elem)
    ensures !v.Array? ==> r.Err?
  {
    if v.Array? then DecodeArray(v.items, elem) else Err("invalid type: expected a sequence")
  }

  /** `Vec<T>` with `#[serde(default)]` and `DefaultOnNull`: absent or null is empty. */
  function DecodeVecDefaultOnNull<T>(v: Option<Json>, elem: Json -> Result<T, string>): (r: Result<seq<T>, string>)
    ensures v.None? || v.value.Null? ==> r == Ok([])
    ensures v.Some? && !v.value.Null? ==> r == DecodeVec(v.value, elem)
  {
    if v.None? || v.value.Null? then Ok([]) else DecodeVec(v.value, elem)
  }

  function EncodeArray<T>(xs: seq<T>, enc: T -> Json): (r: Json)
    ensures r.Array? && |r.items| == |xs|
    ensures forall i :: 0 <= i < |xs| ==> r.items[i] == enc(xs[i])
  {
    Array(seq(|xs|, i requires 0 <= i < |xs| => enc(xs[i])))
  }

  /** An element codec that round-trips lifts to arrays of such elements. */
  lemma ArrayRoundTrip<T>(xs: seq<T>, enc: T -> Json, dec: Json -> Result<T, string>)
    requires forall x :: dec(enc(x)) == Ok(x)
    ensures DecodeVec(EncodeArray(xs, enc), dec) == Ok(xs)
  {
    ArrayTranslate(xs, enc, dec, xs);
  }

  /** Elements written by one codec and read by another translate position by position. */
  lemma ArrayTranslate<S, T>(xs: seq<S>, enc: S -> Json, dec: Json -> Result<T, string>, ys: seq<T>)
    requires |ys| == |xs|
    requires forall i :: 0 <= i < |xs| ==> dec(enc(xs[i])) == Ok(ys[i])
    ensures DecodeVec(EncodeArray(xs, enc), dec) == Ok(ys)
  {
    var v := EncodeArray(xs, enc);
    assert forall i :: 0 <= i < |xs| ==> dec(v.items[i]) == Ok(ys[i]);
    var r := DecodeArray(v.items, dec);
    assert r.Ok?;
    assert r.value == ys;
  }
}
