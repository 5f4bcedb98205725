/**
  `hasChanged` and `hasDocumentChanged`: whether a Firestore write changed a
  document, comparing field values with deep structural equality (lodash
  `isEqual`) over the keys of the data after the write, except `updatedAt`.
 */
module ChangeDetection {
  import opened Wrappers
  import opened JsonValue
  import opened FirestoreRef

  type Data = map<string, Value>

  datatype WriteType = Created | Updated | Deleted

  /** `HasChangedParams`: the written document, its data before and after, and the kind of write. */
  datatype ChangeParams = ChangeParams(
    docRef: Ref,
    beforeData: Option<Data>,
    afterData: Option<Data>,
    writeType: WriteType)

  /** `get(data, key)` for a plain top-level key: `undefined` when the data or the key is missing. */
  function GetField(data: Option<Data>, key: string): Value {
    match data
    case None => Undefined
    case Some(d) => Get(d, key)
  }

  /**
    `hasChanged(params, key)`: the values at `key` after and before are not
    structurally equal. Datatype equality on `Value` is that deep equality:
    object fields compare as maps, so key order does not matter.
   */
  predicate HasChanged(params: ChangeParams, key: string) {
    GetField(params.afterData, key) != GetField(params.beforeData, key)
  }

  /** The one key never compared, because writing it would retrigger the write forever. */
  const IgnoredKey := "updatedAt"

  /** `Object.keys(afterData || {})` without `updatedAt`. */
  function KeysToCheck(params: ChangeParams): set<string> {
    (if params.afterData.Some? then params.afterData.value.Keys else {}) - {IgnoredKey}
  }

  /** `hasDocumentChanged`: a creation, or some checked key whose value changed. */
  predicate HasDocumentChanged(params: ChangeParams) {
    || params.writeType == Created
    || exists key :: key in KeysToCheck(params) && HasChanged(params, key)
  }

  /**
    The function as written: return `true` for a creation, otherwise run
    `.some(hasChanged)` over `Object.keys(afterData)` (in their enumeration
    order `keys`) with `updatedAt` filtered out, stopping at the first change.
   */
  method HasDocumentChangedScan(params: ChangeParams, keys: seq<string>) returns (changed: bool)
    requires forall k :: k in keys <==> params.afterData.Some? && k in params.afterData.value
    ensures changed <==> HasDocumentChanged(params)
  {
    if params.writeType == Created {
      return true;
    }
    changed := false;
    var i := 0;
    while i < |keys|
      invariant 0 <= i <= |keys|
      invariant !changed
      invariant forall j :: 0 <= j < i && keys[j] != IgnoredKey ==> !HasChanged(params, keys[j])
    {
      if keys[i] != IgnoredKey && HasChanged(params, keys[i]) {
        changed := true;
        assert keys[i] in keys;
        assert keys[i] in KeysToCheck(params);
        return;
      }
      i := i + 1;
    }
    assert forall k :: k in KeysToCheck(params) ==> !HasChanged(params, k) by {
      forall k | k in KeysToCheck(params) ensures !HasChanged(params, k) {
        assert k in params.afterData.value;
        var j :| 0 <= j < |keys| && keys[j] == k;
      }
    }
  }

  /** A creation reports a change whatever the data. */
  lemma CreatedAlwaysChanged(params: ChangeParams)
    requires params.writeType == Created
    ensures HasDocumentChanged(params)
  {
  }

  /** A write that only sets `updatedAt` reports no change. */
  lemma OnlyUpdatedAtChanged(docRef: Ref, before: Data, stamp: Value, writeType: WriteType)
    requires writeType != Created
    ensures !HasDocumentChanged(ChangeParams(docRef, Some(before), Some(before[IgnoredKey := stamp]), writeType))
  {
  }

  /**
    Keys present only before the write are not compared: whatever they held,
    the verdict is the one for data without them.
   */
  lemma BeforeOnlyKeysIgnored(params: ChangeParams, key: string, prior: Value)
    requires params.afterData.Some? && key !in params.afterData.value
    requires params.beforeData.Some?
    ensures HasDocumentChanged(params.(beforeData := Some(params.beforeData.value[key := prior])))
        == HasDocumentChanged(params)
  {
    var p2 := params.(beforeData := Some(params.beforeData.value[key := prior]));
    assert forall k :: k in KeysToCheck(params) ==> (HasChanged(p2, k) <==> HasChanged(params, k));
  }

  /** A non-creating write without data after it (a delete) reports no change. */
  lemma MissingAfterDataNoChange(params: ChangeParams)
    requires params.writeType != Created && params.afterData.None?
    ensures !HasDocumentChanged(params)
  {
  }

  /**
    For writes other than creations, a change is reported exactly when some
    key of the new data other than `updatedAt` holds a value structurally
    different from the old one (a missing old key counting as `undefined`).
   */
  lemma ChangedIffSomeKeyDiffers(params: ChangeParams)
    requires params.writeType != Created && params.afterData.Some?
    ensures HasDocumentChanged(params) <==>
      exists key :: key in params.afterData.value && key != IgnoredKey &&
        params.afterData.value[key] != GetField(params.beforeData, key)
  {
    var after := params.afterData.value;
    if HasDocumentChanged(params) {
      var key :| key in KeysToCheck(params) && HasChanged(params, key);
      assert key in after && key != IgnoredKey;
    }
    if exists key :: key in after && key != IgnoredKey && after[key] != GetField(params.beforeData, key) {
      var key :| key in after && key != IgnoredKey && after[key] != GetField(params.beforeData, key);
      assert key in KeysToCheck(params) && HasChanged(params, key);
    }
  }

  /** Rewriting identical data reports no change unless it is a creation. */
  lemma IdenticalDataNoChange(params: ChangeParams)
    requires params.writeType != Created && params.afterData == params.beforeData
    ensures !HasDocumentChanged(params)
  {
  }
}
