/**
  A Firestore database as the Cloud Functions write it: document path to
  fields, with `set(…, {merge: true})` (nested maps merged field by field,
  `FieldValue.increment` applied to the stored number), `delete()`, and a
  per-write failure flag standing for a rejected write.
 */
module DocumentStore {
  import opened Wrappers
  import opened JsonValue

  type Data = map<string, Value>

  /** Document path (without a leading `'/'`) to its fields. */
  type Store = map<string, Data>

  /** The value written to one field by a merge-set. */
  datatype FieldWrite =
    | Put(value: Value)
      /** `FieldValue.increment(amount)`. */
    | Increment(amount: int)
      /** A nested plain object, merged into the stored map. */
    | MergeMap(fields: map<string, FieldWrite>)

  datatype Write =
    | SetMerge(path: string, data: map<string, FieldWrite>)
    | Delete(path: string)

  /**
    The stored value of a field after writing `w` over `stored`: a put replaces
    it; an increment adds to a stored number and otherwise stores the
    increment itself; a nested map is merged into a stored map, or replaces a
    value that is not one.
   */
  function ApplyField(stored: Option<Value>, w: FieldWrite): (r: Value)
    ensures w.Put? ==> r == w.value
    ensures w.Increment? && stored.Some? && stored.value.Num? ==> r == Num(stored.value.n + w.amount)
    ensures w.Increment? && !(stored.Some? && stored.value.Num?) ==> r == Num(w.amount)
    ensures w.MergeMap? ==> r.Obj? && r.fields.Keys >= w.fields.Keys
    ensures w.MergeMap? && stored.Some? && stored.value.Obj? ==>
      r.Obj? && forall k :: k in stored.value.fields && k !in w.fields ==>
        k in r.fields && r.fields[k] == stored.value.fields[k]
    decreases w, 1
  {
    match w
    case Put(v) => v
    case Increment(amount) => if stored.Some? && stored.value.Num? then Num(stored.value.n + amount) else Num(amount)
    case MergeMap(fields) =>
      Obj(MergeData(if stored.Some? && stored.value.Obj? then stored.value.fields else map[], fields))
  }

  /**
    Merging `data` into stored fields: every named field is written, every
    other stored field is kept as it was.
   */
  function MergeData(stored: Data, data: map<string, FieldWrite>): (r: Data)
    ensures r.Keys == stored.Keys + data.Keys
    ensures forall k :: k in stored && k !in data ==> r[k] == stored[k]
    ensures forall k :: k in data ==> r[k] == ApplyField(if k in stored then Some(stored[k]) else None, data[k])
    decreases FieldWrite.MergeMap(data), 0
  {
    map k | k in stored.Keys + data.Keys ::
      if k in data then ApplyField(if k in stored then Some(stored[k]) else None, data[k]) else stored[k]
  }

  /** A write that may be rejected: a rejected write leaves the store as it was. */
  function Attempt(store: Store, w: Write, fails: bool): Store {
    if fails then store else Apply(store, w)
  }

  function PathOf(w: Write): string {
    match w
    case SetMerge(p, _) => p
    case Delete(p) => p
  }

  /**
    One successful write: a merge-set creates or updates its document, a
    delete removes it (deleting a missing document is not an error), and no
    other document changes.
   */
  function Apply(store: Store, w: Write): (s: Store)
    ensures forall p :: p != PathOf(w) ==> (p in s <==> p in store) && (p in store ==> s[p] == store[p])
    ensures w.SetMerge? ==>
      (w.path in s && s[w.path] == MergeData(if w.path in store then store[w.path] else map[], w.data))
    ensures w.Delete? ==> w.path !in s
  {
    match w
    case SetMerge(p, data) => store[p := MergeData(if p in store then store[p] else map[], data)]
    case Delete(p) => store - {p}
  }

  /**
    Writes issued one after the other, each awaited and each failure caught
    and logged: a failed write changes nothing and the next is still issued.
    Returns the final store and the writes whose failure was logged.
   */
  function RunWrites(store: Store, writes: seq<Write>, fails: seq<bool>): (r: (Store, seq<Write>))
    requires |fails| == |writes|
    ensures |r.1| <= |writes|
    ensures forall p :: (forall i :: 0 <= i < |writes| ==> PathOf(writes[i]) != p) ==>
      (p in r.0 <==> p in store) && (p in store ==> r.0[p] == store[p])
    decreases |writes|
  {
    if |writes| == 0 then (store, [])
    else
      var next := Attempt(store, writes[0], fails[0]);
      var rest := RunWrites(next, writes[1..], fails[1..]);
      assert forall i :: 0 <= i < |writes| - 1 ==> writes[1..][i] == writes[i + 1];
      (rest.0, (if fails[0] then [writes[0]] else []) + rest.1)
  }

  /** With no failures every write is applied in order and nothing is logged. */
  lemma {:induction false} RunWritesNoFailures(store: Store, writes: seq<Write>, fails: seq<bool>)
    requires |fails| == |writes| && forall i :: 0 <= i < |fails| ==> !fails[i]
    ensures RunWrites(store, writes, fails).1 == []
    ensures |writes| >= 1 ==>
      RunWrites(store, writes, fails).0 == RunWrites(Apply(store, writes[0]), writes[1..], fails[1..]).0
    decreases |writes|
  {
    if |writes| > 0 {
      RunWritesNoFailures(Apply(store, writes[0]), writes[1..], fails[1..]);
    }
  }
}
