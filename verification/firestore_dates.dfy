/**
  `convertFirestoreDates`: replaces, below the top level of a document's data,
  every `Timestamp` (and every value whose `toDate()` yields a `Date`) by that
  `Date`, recursing into nested objects and arrays but not into
  `DocumentReference` values.
 */
module FirestoreDates {
  import opened JsonValue

  /**
    `Timestamp.toDate()`: `new Date(seconds * 1000 + nanoseconds / 10^6)`,
    where `Date` truncates the fractional milliseconds toward zero. The sum
    is taken exactly here; the source first rounds it to a double.
   */
  function ToMillis(seconds: int, nanoseconds: Nanos): (ms: int)
    ensures var exact := (seconds * 1000) as real + nanoseconds as real / 1_000_000.0;
      && (exact >= 0.0 ==> ms as real <= exact < ms as real + 1.0)
      && (exact < 0.0 ==> ms as real - 1.0 < exact <= ms as real)
  {
    var floor := seconds * 1000 + nanoseconds / 1_000_000;
    if floor < 0 && nanoseconds % 1_000_000 != 0 then floor + 1 else floor
  }

  /**
    What a call returns: a value, or the `TypeError` thrown when the loop
    calls a `toDate` property that is not a function.
   */
  datatype Conversion<+T> = Returned(value: T) | TypeError

  /**
    A plain object whose `toDate` property is truthy: `item?.toDate` selects
    the second branch, and `item?.toDate?.()` throws, since no stored value is
    a function.
   */
  predicate TruthyToDate(fields: map<string, Value>) {
    "toDate" in fields && !Falsy(fields["toDate"])
  }

  /**
    `convertFirestoreDates(data)`: falsy data is returned as it is; objects and
    arrays have each entry converted, and the call throws if converting some
    entry throws; any other value is returned unchanged, since its enumerable
    keys (a string's indices, say) hold nothing the loop converts.
   */
  function ConvertFirestoreDates(data: Value): (r: Conversion<Value>)
    ensures Falsy(data) ==> r == Returned(data)
    ensures data.Obj? && r.Returned? ==> r.value.Obj? && r.value.fields.Keys == data.fields.Keys
    ensures data.Arr? && r.Returned? ==> r.value.Arr? && |r.value.items| == |data.items|
    ensures !data.Obj? && !data.Arr? ==> r == Returned(data)
    decreases data, 0
  {
    if Falsy(data) then Returned(data)
    else
      match data
      case Obj(fields) =>
        if exists k :: k in fields && ConvertEntry(fields[k]).TypeError? then TypeError
        else Returned(Obj(map k | k in fields :: ConvertEntry(fields[k]).value))
      case Arr(items) =>
        (match ConvertItems(items)
         case TypeError => TypeError
         case Returned(converted) => Returned(Arr(converted)))
      case _ => Returned(data)
  }

  /** Each array element converted as an entry, in order; the first entry that throws ends the loop. */
  function ConvertItems(items: seq<Value>): (r: Conversion<seq<Value>>)
    ensures r.TypeError? <==> exists i :: 0 <= i < |items| && ConvertEntry(items[i]).TypeError?
    ensures r.Returned? ==> |r.value| == |items| && forall i :: 0 <= i < |items| ==> ConvertEntry(items[i]) == Returned(r.value[i])
    decreases items
  {
    if |items| == 0 then Returned([])
    else
      match ConvertEntry(items[0])
      case TypeError => TypeError
      case Returned(v) =>
        var rest := ConvertItems(items[1..]);
        assert forall i :: 1 <= i < |items| ==> items[1..][i - 1] == items[i];
        match rest
        case TypeError => TypeError
        case Returned(vs) => Returned([v] + vs)
  }

  /** The body of the `for…in` loop, applied to one entry `item`. */
  function ConvertEntry(item: Value): Conversion<Value>
    decreases item, 1
  {
    match item
    case Timestamp(s, ns) => Returned(Date(ToMillis(s, ns)))
    case DateLike(result) => Returned(if result.Date? then result else item)
    case DocRef(_) => Returned(item)
    case Obj(fields) => if TruthyToDate(fields) then TypeError else ConvertFirestoreDates(item)
    case Arr(_) => ConvertFirestoreDates(item)
    case _ => Returned(item)
  }

  /**
    An entry that makes the loop throw: a plain object with a truthy `toDate`,
    or an object or array holding such an entry at some depth.
   */
  predicate BadEntry(item: Value)
    decreases item, 1
  {
    match item
    case Obj(fields) => TruthyToDate(fields) || SomeBadEntry(item)
    case Arr(_) => SomeBadEntry(item)
    case _ => false
  }

  /** Some entry of a container makes the loop throw. */
  predicate SomeBadEntry(data: Value)
    decreases data, 0
  {
    match data
    case Obj(fields) => exists k :: k in fields && BadEntry(fields[k])
    case Arr(items) => exists i :: 0 <= i < |items| && BadEntry(items[i])
    case _ => false
  }

  /** Converting an entry throws exactly for a bad entry. */
  lemma {:induction false} ConvertEntryThrowsIff(item: Value)
    ensures ConvertEntry(item).TypeError? <==> BadEntry(item)
    decreases item, 1
  {
    match item
    case Obj(fields) =>
      if !TruthyToDate(fields) {
        ConvertThrowsIff(item);
      }
    case Arr(_) => ConvertThrowsIff(item);
    case _ =>
  }

  /**
    The call throws exactly when some entry, at a depth the recursion
    reaches, is a plain object with a truthy `toDate`; the data passed in is
    itself never tested for one.
   */
  lemma {:induction false} ConvertThrowsIff(data: Value)
    ensures ConvertFirestoreDates(data).TypeError? <==> SomeBadEntry(data)
    decreases data, 0
  {
    match data
    case Obj(fields) =>
      forall k | k in fields
        ensures ConvertEntry(fields[k]).TypeError? <==> BadEntry(fields[k])
      {
        ConvertEntryThrowsIff(fields[k]);
      }
    case Arr(items) =>
      forall i | 0 <= i < |items|
        ensures ConvertEntry(items[i]).TypeError? <==> BadEntry(items[i])
      {
        ConvertEntryThrowsIff(items[i]);
      }
    case _ =>
  }

  /**
    An entry with nothing left to convert: no `Timestamp`, no `toDate()`
    object that yields a `Date`, and no plain object with a truthy `toDate`,
    at any depth reached by the recursion.
   */
  predicate Resolved(item: Value) {
    match item
    case Timestamp(_, _) => false
    case DateLike(result) => !result.Date?
    case Arr(items) => forall i :: 0 <= i < |items| ==> Resolved(items[i])
    case Obj(fields) => !TruthyToDate(fields) && forall k :: k in fields ==> Resolved(fields[k])
    case _ => true
  }

  /** Every entry of a container has nothing left to convert. */
  predicate EntriesResolved(data: Value) {
    match data
    case Arr(items) => forall i :: 0 <= i < |items| ==> Resolved(items[i])
    case Obj(fields) => forall k :: k in fields ==> Resolved(fields[k])
    case _ => true
  }

  /**
    A converted entry has nothing left to convert, and an entry with nothing
    left to convert is returned as it is.
   */
  lemma {:induction false} ConvertEntryResolves(item: Value)
    ensures ConvertEntry(item).Returned? ==> Resolved(ConvertEntry(item).value)
    ensures Resolved(item) ==> ConvertEntry(item) == Returned(item)
    decreases item, 1
  {
    match item
    case Obj(fields) =>
      if !TruthyToDate(fields) {
        ConvertResolves(item);
        var r := ConvertFirestoreDates(item);
        if r.Returned? {
          if "toDate" in fields {
            assert ConvertEntry(fields["toDate"]) == Returned(fields["toDate"]);
            assert r.value.fields["toDate"] == fields["toDate"];
          }
        }
      }
    case Arr(_) => ConvertResolves(item);
    case _ =>
  }

  /**
    After a conversion that returns, no entry of an object or array holds
    anything to convert, and data whose entries are all resolved comes back
    unchanged.
   */
  lemma {:induction false} ConvertResolves(data: Value)
    ensures ConvertFirestoreDates(data).Returned? ==> EntriesResolved(ConvertFirestoreDates(data).value)
    ensures EntriesResolved(data) ==> ConvertFirestoreDates(data) == Returned(data)
    decreases data, 0
  {
    if !Falsy(data) {
      match data
      case Obj(fields) =>
        forall k | k in fields
          ensures ConvertEntry(fields[k]).Returned? ==> Resolved(ConvertEntry(fields[k]).value)
          ensures Resolved(fields[k]) ==> ConvertEntry(fields[k]) == Returned(fields[k])
        {
          ConvertEntryResolves(fields[k]);
        }
        if EntriesResolved(data) {
          var r := ConvertFirestoreDates(data);
          assert r.value.fields == fields;
        }
      case Arr(items) =>
        forall i | 0 <= i < |items|
          ensures ConvertEntry(items[i]).Returned? ==> Resolved(ConvertEntry(items[i]).value)
          ensures Resolved(items[i]) ==> ConvertEntry(items[i]) == Returned(items[i])
        {
          ConvertEntryResolves(items[i]);
        }
        if EntriesResolved(data) {
          var r := ConvertFirestoreDates(data);
          assert r.value.items == items;
        }
      case _ =>
    }
  }

  /** Converting already-converted data returns it unchanged. */
  lemma ConvertIdempotent(data: Value)
    ensures ConvertFirestoreDates(data).Returned? ==>
      ConvertFirestoreDates(ConvertFirestoreDates(data).value) == ConvertFirestoreDates(data)
  {
    ConvertResolves(data);
    if ConvertFirestoreDates(data).Returned? {
      ConvertResolves(ConvertFirestoreDates(data).value);
    }
  }

  /**
    Entry by entry: a plain object with a truthy `toDate` makes the call
    throw; otherwise a `Timestamp` becomes the `Date` of the same instant, a
    `toDate()` object becomes the `Date` it yields (or stays if it yields
    none), a `DocumentReference` or a primitive stays as it is, and a nested
    object keeps its keys.
   */
  lemma ConvertEntryCases(data: Value, key: string)
    requires data.Obj? && key in data.fields
    ensures var item := data.fields[key];
      item.Obj? && TruthyToDate(item.fields) ==> ConvertFirestoreDates(data) == TypeError
    ensures var item := data.fields[key];
      var r := ConvertFirestoreDates(data);
      r.Returned? ==>
      var out := r.value.fields[key];
      && (item.Timestamp? ==> out == Date(ToMillis(item.seconds, item.nanoseconds)))
      && (item.DateLike? && item.toDateResult.Date? ==> out == item.toDateResult)
      && (item.DateLike? && !item.toDateResult.Date? ==> out == item)
      && (item.DocRef? || item.Date? || Falsy(item) || item.Bool? || item.Num? || item.Str? ==> out == item)
      && (item.Obj? ==> !TruthyToDate(item.fields) && out.Obj? && out.fields.Keys == item.fields.Keys)
      && (item.Obj? || item.Arr? ==> ConvertFirestoreDates(item) == Returned(out))
  {
  }

  /**
    Element by element, the same cases for an array: a plain object with a
    truthy `toDate` makes the call throw; otherwise a `Timestamp` becomes its
    `Date`, a `toDate()` object the `Date` it yields, other leaves stay, and a
    nested object or array becomes its own conversion.
   */
  lemma ConvertItemCases(data: Value, i: int)
    requires data.Arr? && 0 <= i < |data.items|
    ensures var item := data.items[i];
      item.Obj? && TruthyToDate(item.fields) ==> ConvertFirestoreDates(data) == TypeError
    ensures var item := data.items[i];
      var r := ConvertFirestoreDates(data);
      r.Returned? ==>
      var out := r.value.items[i];
      && (item.Timestamp? ==> out == Date(ToMillis(item.seconds, item.nanoseconds)))
      && (item.DateLike? && item.toDateResult.Date? ==> out == item.toDateResult)
      && (item.DateLike? && !item.toDateResult.Date? ==> out == item)
      && (item.DocRef? || item.Date? || Falsy(item) || item.Bool? || item.Num? || item.Str? ==> out == item)
      && (item.Obj? || item.Arr? ==> ConvertFirestoreDates(item) == Returned(out))
  {
  }

  /**
    The cases compose to every depth: in `{a: {b: "x", c: Timestamp}}` the
    nested string stays and the nested `Timestamp` becomes its `Date`.
   */
  lemma NestedEntriesConverted(seconds: int, nanoseconds: Nanos)
    ensures var inner := Obj(map["b" := Str("x"), "c" := Timestamp(seconds, nanoseconds)]);
      var r := ConvertFirestoreDates(Obj(map["a" := inner]));
      && r.Returned?
      && r.value.fields["a"].Obj?
      && r.value.fields["a"].fields.Keys == {"b", "c"}
      && r.value.fields["a"].fields["b"] == Str("x")
      && r.value.fields["a"].fields["c"] == Date(ToMillis(seconds, nanoseconds))
  {
    var inner := Obj(map["b" := Str("x"), "c" := Timestamp(seconds, nanoseconds)]);
    var data := Obj(map["a" := inner]);
    assert !TruthyToDate(inner.fields);
    assert !SomeBadEntry(inner);
    assert !SomeBadEntry(data) by {
      assert !BadEntry(inner);
    }
    ConvertThrowsIff(data);
    ConvertEntryCases(data, "a");
    ConvertEntryCases(inner, "b");
    ConvertEntryCases(inner, "c");
  }
}
