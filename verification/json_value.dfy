/**
  JavaScript values as they appear in Firestore document data, auth tokens and
  claim maps. Numbers are integers; instants are whole milliseconds or
  seconds-plus-nanoseconds, never read from a clock.
 */
module JsonValue {

  /** Nanoseconds within a second, the range the `Timestamp` constructor accepts. */
  type Nanos = n: int | 0 <= n < 1_000_000_000

  datatype Value =
    | Undefined
    | Null
    | Bool(b: bool)
    | Num(n: int)
    | Str(s: string)
      /** A Firestore `Timestamp`: whole seconds plus nanoseconds in [0, 10^9). */
    | Timestamp(seconds: int, nanoseconds: Nanos)
      /** A JavaScript `Date`, in milliseconds since the epoch. */
    | Date(millis: int)
      /** Some other object with a `toDate()` method, and what that method returns. */
    | DateLike(toDateResult: Value)
      /** A `DocumentReference` stored as a field value. */
    | DocRef(path: string)
    | Arr(items: seq<Value>)
    | Obj(fields: map<string, Value>)

  /** The values `!v` holds for. */
  predicate Falsy(v: Value) {
    v.Undefined? || v.Null? || v == Bool(false) || v == Num(0) || v == Str("")
  }

  /** `data?.[key]` on an object that may be absent: `undefined` for a missing object or key. */
  function Get(data: map<string, Value>, key: string): Value {
    if key in data then data[key] else Undefined
  }

  /** `data[key] === true`: only the boolean `true` passes, not other truthy values. */
  predicate IsTrue(data: map<string, Value>, key: string) {
    Get(data, key) == Bool(true)
  }
}
