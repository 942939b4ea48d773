/** `DateTimeUtils.getTimestampValue`: turns the several shapes a stored date can take
    into epoch milliseconds. `None` stands for `NaN`. */
module DateTimeUtils {
  import opened Wrappers

  /** A JavaScript `Date` (its millisecond time), a Firestore timestamp object with
      `seconds` and `nanoseconds`, or any other value. */
  datatype DateField =
    | JsDate(time: int)
    | SecondsObject(seconds: int, nanoseconds: int)
    | OtherValue(raw: string)

  /** `new Date(x).getTime()` for any other value, supplied by the caller. */
  type DateParser = string -> Option<int>

  function GetTimestampValue(field: DateField, parse: DateParser): (t: Option<int>)
    ensures field.JsDate? ==> t == Some(field.time)
    ensures field.SecondsObject? ==> t.Some? && t.value % 1000 == 0 && t.value / 1000 == field.seconds
    ensures field.OtherValue? ==> t == parse(field.raw)
  {
    match field
    case JsDate(time) => Some(time)
    case SecondsObject(seconds, _) => Some(seconds * 1000)
    case OtherValue(raw) => parse(raw)
  }

  /** The nanoseconds of a timestamp object never change the result. */
  lemma NanosecondsIgnored(seconds: int, n1: int, n2: int, parse: DateParser)
    ensures GetTimestampValue(SecondsObject(seconds, n1), parse)
         == GetTimestampValue(SecondsObject(seconds, n2), parse)
  {
  }

  /** For timestamp objects the result strictly increases with `seconds`. */
  lemma SecondsStrictlyIncreasing(s1: int, s2: int, n1: int, n2: int, parse: DateParser)
    requires s1 < s2
    ensures GetTimestampValue(SecondsObject(s1, n1), parse).value
          < GetTimestampValue(SecondsObject(s2, n2), parse).value
  {
  }

  /** A timestamp object and a `Date` for the same whole second map to the same number. */
  lemma TimestampMatchesDate(seconds: int, nanoseconds: int, parse: DateParser)
    ensures GetTimestampValue(SecondsObject(seconds, nanoseconds), parse)
         == GetTimestampValue(JsDate(seconds * 1000), parse)
  {
  }
}
