/** The declared field types of a grok pattern, the typed values extraction
    produces, and the string converters of the cast library, which are opaque. */
module TypeCast {
  import opened Wrappers
  import opened GoText

  newtype Int64 = x: int | -0x8000_0000_0000_0000 <= x < 0x8000_0000_0000_0000

  /** A field's declared type as the denormalizer records it. Unknown holds a
      tag that none of the four type constants name. */
  datatype GType = GTypeStr | GTypeInt | GTypeFloat | GTypeBool | Unknown(tag: GoString)

  /** The dynamic value stored for a field: int64, float64 (as its IEEE 754
      bits), bool, or the raw string. */
  datatype Value = Int64Value(i: Int64) | Float64Value(bits: bv64) | BoolValue(b: bool) | StringValue(s: GoString)

  /** What a cast function returns: the value, and whether it also returned an error. */
  datatype Converted<T> = Converted(value: T, failed: bool)

  /** cast.ToInt64E, cast.ToFloat64E and cast.ToBoolE applied to a string. */
  datatype Casts = Casts(
    toInt64: GoString -> Converted<Int64>,
    toFloat64: GoString -> Converted<bv64>,
    toBool: GoString -> Converted<bool>)
  {
    /** The cast library's convention: a failed conversion returns the zero
        value of its type. */
    ghost predicate ZeroOnFailure() {
      && (forall s :: toInt64(s).failed ==> toInt64(s).value == 0)
      && (forall s :: toFloat64(s).failed ==> toFloat64(s).value == 0)
      && (forall s :: toBool(s).failed ==> !toBool(s).value)
    }
  }

  /** The zero value of a convertible type. */
  function Zero(t: GType): Value
    requires t in {GTypeInt, GTypeFloat, GTypeBool}
  {
    match t
    case GTypeInt => Int64Value(0)
    case GTypeFloat => Float64Value(0)
    case GTypeBool => BoolValue(false)
  }

  /** The value stored for one field whose raw text is `raw` and whose declared
      type is `declared` (None when none was declared), and whether the field
      is recorded as a conversion failure. */
  function CastField(raw: GoString, declared: Option<GType>, casts: Casts): Converted<Value> {
    match declared
    case None => Converted(StringValue(raw), false)
    case Some(GTypeInt) => var c := casts.toInt64(raw); Converted(Int64Value(c.value), c.failed)
    case Some(GTypeFloat) => var c := casts.toFloat64(raw); Converted(Float64Value(c.value), c.failed)
    case Some(GTypeBool) => var c := casts.toBool(raw); Converted(BoolValue(c.value), c.failed)
    case Some(GTypeStr) => Converted(StringValue(raw), false)
    case Some(Unknown(_)) => Converted(StringValue(raw), true)
  }
}
