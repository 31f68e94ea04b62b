/**
 * The values the storage layer stores and the JSON codec it goes through.
 * `JSON.stringify` and `JSON.parse` are library code whose behaviour the model
 * does not fix: a `Codec` object carries them as two uninterpreted functions,
 * and every property below holds for every codec (or states what it needs of it).
 */
module Json {
  import opened Wrappers

  /** A JavaScript value as the storage layer handles it. Numbers are integers here. */
  datatype Value =
    | Null
    | Undefined
    | Bool(b: bool)
    | Num(n: int)
    | Str(s: string)
    | Arr(items: seq<Value>)
    | Obj(fields: seq<(string, Value)>)

  /** `isNullish` of createUtils.ts: `null` or `undefined`. */
  predicate IsNullish(v: Value)
  {
    v == Null || v == Undefined
  }

  /**
   * The global `JSON` object.
   * - `stringify(v)` is `JSON.stringify(v)`.
   * - `parseValueField(raw)` is `JSON.parse('{ "value": ' + raw + ' }').value`,
   *   or `None` when that expression throws.
   */
  class Codec {
    const stringify: Value -> string
    const parseValueField: string -> Option<Value>

    constructor (stringify: Value -> string, parseValueField: string -> Option<Value>)
      ensures this.stringify == stringify && this.parseValueField == parseValueField
    {
      this.stringify := stringify;
      this.parseValueField := parseValueField;
    }
  }

  /** The text a template literal produces for a `string | null`: `null` becomes "null". */
  function Interpolate(raw: Option<string>): string
  {
    match raw
    case None => "null"
    case Some(s) => s
  }

  /**
   * `safeParse`: wrap the raw text as the field of an object literal and parse
   * that; when parsing throws, give back the raw text itself. It never throws.
   */
  function SafeParse(c: Codec, raw: string): (r: Value)
    ensures c.parseValueField(raw) == Some(r) || r == Str(raw)
    ensures c.parseValueField(raw).Some? ==> r == c.parseValueField(raw).value
    ensures c.parseValueField(raw).None? ==> r == Str(raw)
  {
    match c.parseValueField(raw)
    case Some(parsed) => parsed
    case None => Str(raw)
  }

  /**
   * The wrapped parse reads back what `stringify` wrote for `v`: parsing
   * `{ "value": <stringify(v)> }` and taking the field gives `v`. This is an
   * assumption about the codec, `safeParse`'s wrapper included, not something
   * proved here.
   */
  predicate RoundTrips(c: Codec, v: Value)
  {
    c.parseValueField(c.stringify(v)) == Some(v)
  }

  /** The codec parses the literal `null` to `null`, as every JSON parser does. */
  predicate ParsesNullLiteral(c: Codec)
  {
    c.parseValueField("null") == Some(Null)
  }

  /** Decoding what was encoded gives the value back, whenever the codec round-trips it. */
  lemma DecodeEncoded(c: Codec, v: Value)
    requires RoundTrips(c, v)
    ensures SafeParse(c, c.stringify(v)) == v
  {
  }

  /** An absent raw value decodes to `null`: `safeParse(null)` parses `{ "value": null }`. */
  lemma DecodeAbsent(c: Codec)
    requires ParsesNullLiteral(c)
    ensures SafeParse(c, Interpolate(None)) == Null
  {
  }
}
