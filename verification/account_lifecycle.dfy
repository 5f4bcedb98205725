/**
  The account-lifecycle functions: the Auth `onCreate` and `onDelete`
  triggers and the two blocking identity hooks. Each is a fixed sequence of
  awaited merge-sets and deletes whose failures are caught and logged, so
  none of them ever fails; the blocking hooks also build a response.
 */
module AccountLifecycle {
  import opened Wrappers
  import opened JsonValue
  import opened DocumentStore

  /** The Auth user record (`UserRecord`, or `event.data` of a blocking event). */
  datatype AuthUser = AuthUser(
    uid: string,
    displayName: Option<string>,
    email: Option<string>,
    photoURL: Option<string>,
    emailVerified: Option<bool>,
    customClaims: Option<map<string, Value>>,
    disabled: Option<bool>)

  /** `BeforeCreateResponse` / `BeforeSignInResponse`: absent fields stay absent. */
  datatype BlockingResponse = BlockingResponse(
    displayName: string,
    photoURL: Option<string>,
    emailVerified: Option<bool>,
    customClaims: Option<map<string, Value>>,
    disabled: Option<bool>)

  /** `private/user/{uid}/details`; the `'/'`-prefixed spelling addresses the same document. */
  function DetailsPath(uid: string): string { "private/user/" + uid + "/details" }

  /** `private/auth/permissions/{uid}`. */
  function PermissionsPath(uid: string): string { "private/auth/permissions/" + uid }

  /** The counters document `private/user`. */
  const CountersPath: string := "private/user"

  /** `value ?? null` for an optional profile string. */
  function OrNull(o: Option<string>): Value {
    match o
    case None => Null
    case Some(s) => Str(s)
  }

  /** The three documents the handlers write are distinct, for every uid. */
  lemma PathsDistinct(uid: string)
    ensures DetailsPath(uid) != PermissionsPath(uid)
    ensures DetailsPath(uid) != CountersPath
    ensures PermissionsPath(uid) != CountersPath
  {
    assert DetailsPath(uid)[8] == 'u';
    assert PermissionsPath(uid)[8] == 'a';
    assert |DetailsPath(uid)| > |CountersPath|;
  }

  /** Fields of a details document, and of the permissions record. */
  const DetailsKeys: set<string> := {"uid", "created", "modified", "displayName", "email", "photoURL"}
  const PermissionsKeys: set<string> := {"createdAt", "displayName", "email", "permissions", "uid"}

  /** The details record: uid, both timestamps, and the profile fields or null. */
  function DetailsRecord(user: AuthUser, created: int, modified: int): (d: map<string, FieldWrite>)
    ensures d.Keys == DetailsKeys
  {
    map[
      "uid" := Put(Str(user.uid)),
      "created" := Put(Date(created)),
      "displayName" := Put(OrNull(user.displayName)),
      "email" := Put(OrNull(user.email)),
      "modified" := Put(Date(modified)),
      "photoURL" := Put(OrNull(user.photoURL))
    ]
  }

  /** The permissions record: `isAdmin` false, uid, creation time, and email/name or null. */
  function PermissionsRecord(user: AuthUser, createdAt: int): (d: map<string, FieldWrite>)
    ensures d.Keys == PermissionsKeys
  {
    map[
      "createdAt" := Put(Date(createdAt)),
      "displayName" := Put(OrNull(user.displayName)),
      "email" := Put(OrNull(user.email)),
      "permissions" := MergeMap(map["isAdmin" := Put(Bool(false))]),
      "uid" := Put(Str(user.uid))
    ]
  }

  /** The counters update: both counters moved by `amount`, `modified` stamped. */
  function CounterUpdate(countKey: string, amount: int, modified: int): map<string, FieldWrite> {
    map[
      countKey := Increment(amount),
      "totalUsers" := Increment(amount),
      "modified" := Put(Date(modified))
    ]
  }

  /** A document holds the details of `user` written at the given times. */
  predicate DetailsHeld(doc: Data, user: AuthUser, created: int, modified: int) {
    && DetailsKeys <= doc.Keys
    && doc["uid"] == Str(user.uid)
    && doc["created"] == Date(created)
    && doc["modified"] == Date(modified)
    && (doc["displayName"] == Null <==> user.displayName.None?)
    && (user.displayName.Some? ==> doc["displayName"] == Str(user.displayName.value))
    && (doc["email"] == Null <==> user.email.None?)
    && (user.email.Some? ==> doc["email"] == Str(user.email.value))
    && (doc["photoURL"] == Null <==> user.photoURL.None?)
    && (user.photoURL.Some? ==> doc["photoURL"] == Str(user.photoURL.value))
  }

  /** Fields of `prior` outside `written` survive into `doc` unchanged. */
  predicate KeepsOthers(prior: Option<Data>, doc: Data, written: set<string>) {
    prior.Some? ==> forall k :: k in prior.value && k !in written ==> k in doc && doc[k] == prior.value[k]
  }

  function Lookup(store: Store, path: string): Option<Data> {
    if path in store then Some(store[path]) else None
  }

  /** The value an increment by `amount` leaves in field `key`: added to a stored number, else `amount`. */
  function Bumped(prior: Option<Data>, key: string, amount: int): Value {
    if prior.Some? && key in prior.value && prior.value[key].Num? then Num(prior.value[key].n + amount)
    else Num(amount)
  }

  /** A merge-set of a record over the document at `path`, on its own. */
  lemma MergedDocument(store: Store, path: string, data: map<string, FieldWrite>)
    ensures var s := Apply(store, SetMerge(path, data));
      && path in s
      && s[path].Keys == (if path in store then store[path].Keys else {}) + data.Keys
      && KeepsOthers(Lookup(store, path), s[path], data.Keys)
      && (forall k :: k in data && data[k].Put? ==> s[path][k] == data[k].value)
      && (forall k :: k in data && data[k].Increment? ==> s[path][k] == Bumped(Lookup(store, path), k, data[k].amount))
  {
    var prior := if path in store then store[path] else map[];
    var doc := MergeData(prior, data);
    assert Apply(store, SetMerge(path, data))[path] == doc;
    forall k | k in data
      ensures data[k].Put? ==> doc[k] == data[k].value
      ensures data[k].Increment? ==> doc[k] == Bumped(Lookup(store, path), k, data[k].amount)
    {
      assert doc[k] == ApplyField(if k in prior then Some(prior[k]) else None, data[k]);
    }
  }

  /** The details write took effect on `final`, or, when rejected, left the document as it was. */
  predicate DetailsEffect(store: Store, final: Store, user: AuthUser, created: int, modified: int, failed: bool) {
    var p := DetailsPath(user.uid);
    && (failed ==> Lookup(final, p) == Lookup(store, p))
    && (!failed ==> p in final && DetailsHeld(final[p], user, created, modified)
                    && KeepsOthers(Lookup(store, p), final[p], DetailsKeys))
  }

  /** The permissions write took effect (`isAdmin` false, other permissions kept), or was rejected. */
  predicate PermissionsEffect(store: Store, final: Store, user: AuthUser, createdAt: int, failed: bool) {
    var p := PermissionsPath(user.uid);
    && (failed ==> Lookup(final, p) == Lookup(store, p))
    && (!failed ==> p in final && PermissionsKeys <= final[p].Keys
                    && final[p]["uid"] == Str(user.uid)
                    && final[p]["createdAt"] == Date(createdAt)
                    && final[p]["email"] == OrNull(user.email)
                    && final[p]["displayName"] == OrNull(user.displayName)
                    && final[p]["permissions"].Obj?
                    && "isAdmin" in final[p]["permissions"].fields
                    && final[p]["permissions"].fields["isAdmin"] == Bool(false)
                    && (Lookup(store, p).Some? && "permissions" in store[p] && store[p]["permissions"].Obj? ==>
                          forall k :: k in store[p]["permissions"].fields && k != "isAdmin" ==>
                            k in final[p]["permissions"].fields
                            && final[p]["permissions"].fields[k] == store[p]["permissions"].fields[k])
                    && KeepsOthers(Lookup(store, p), final[p], PermissionsKeys))
  }

  /** The counters write moved `countKey` and `totalUsers` by `amount` and stamped `modified`, or was rejected. */
  predicate CountersEffect(store: Store, final: Store, countKey: string, amount: int, modified: int, failed: bool) {
    var p := CountersPath;
    && (failed ==> Lookup(final, p) == Lookup(store, p))
    && (!failed ==> p in final && {countKey, "totalUsers", "modified"} <= final[p].Keys
                    && final[p][countKey] == Bumped(Lookup(store, p), countKey, amount)
                    && final[p]["totalUsers"] == Bumped(Lookup(store, p), "totalUsers", amount)
                    && final[p]["modified"] == Date(modified)
                    && KeepsOthers(Lookup(store, p), final[p], {countKey, "totalUsers", "modified"}))
  }

  lemma DetailsWrite(store: Store, user: AuthUser, created: int, modified: int, failed: bool)
    ensures DetailsEffect(store, Attempt(store, SetMerge(DetailsPath(user.uid), DetailsRecord(user, created, modified)), failed),
                          user, created, modified, failed)
  {
    var d := DetailsRecord(user, created, modified);
    MergedDocument(store, DetailsPath(user.uid), d);
    DetailsRecordFields(user, created, modified);
  }

  /** Each field of the details record is a plain put of the expected value. */
  lemma DetailsRecordFields(user: AuthUser, created: int, modified: int)
    ensures var d := DetailsRecord(user, created, modified);
      && d["uid"] == Put(Str(user.uid))
      && d["created"] == Put(Date(created))
      && d["modified"] == Put(Date(modified))
      && d["displayName"] == Put(OrNull(user.displayName))
      && d["email"] == Put(OrNull(user.email))
      && d["photoURL"] == Put(OrNull(user.photoURL))
  {
  }

  lemma PermissionsWrite(store: Store, user: AuthUser, createdAt: int, failed: bool)
    ensures PermissionsEffect(store, Attempt(store, SetMerge(PermissionsPath(user.uid), PermissionsRecord(user, createdAt)), failed),
                              user, createdAt, failed)
  {
    var p := PermissionsPath(user.uid);
    var data := PermissionsRecord(user, createdAt);
    MergedDocument(store, p, data);
    PermissionsRecordFields(user, createdAt);
    if !failed {
      var final := Apply(store, SetMerge(p, data));
      var prior := if p in store then store[p] else map[];
      assert final[p] == MergeData(prior, data);
      assert final[p]["permissions"] == ApplyField(if "permissions" in prior then Some(prior["permissions"]) else None, data["permissions"]);
    }
  }

  /** Each field of the permissions record, with `permissions` a nested map. */
  lemma PermissionsRecordFields(user: AuthUser, createdAt: int)
    ensures var d := PermissionsRecord(user, createdAt);
      && d["uid"] == Put(Str(user.uid))
      && d["createdAt"] == Put(Date(createdAt))
      && d["displayName"] == Put(OrNull(user.displayName))
      && d["email"] == Put(OrNull(user.email))
      && d["permissions"] == MergeMap(map["isAdmin" := Put(Bool(false))])
  {
  }

  lemma CountersWrite(store: Store, countKey: string, amount: int, modified: int, failed: bool)
    requires countKey != "totalUsers" && countKey != "modified"
    ensures CountersEffect(store, Attempt(store, SetMerge(CountersPath, CounterUpdate(countKey, amount, modified)), failed),
                           countKey, amount, modified, failed)
  {
    MergedDocument(store, CountersPath, CounterUpdate(countKey, amount, modified));
  }

  /** A write to another document leaves the effect at `p` as it was. */
  lemma AttemptElsewhere(store: Store, w: Write, failed: bool, p: string)
    requires PathOf(w) != p
    ensures Lookup(Attempt(store, w, failed), p) == Lookup(store, p)
  {
  }

  /**
    The writes `UserOnCreate` issues, in order: details, permissions,
    counters. All three are merges, each to its own document.
   */
  function OnCreateWrites(user: AuthUser, now: seq<int>): (ws: seq<Write>)
    requires |now| == 4
    ensures |ws| == 3
    ensures forall i :: 0 <= i < |ws| ==> ws[i].SetMerge?
    ensures PathOf(ws[0]) == DetailsPath(user.uid)
    ensures PathOf(ws[1]) == PermissionsPath(user.uid)
    ensures PathOf(ws[2]) == CountersPath
    ensures forall i, j :: 0 <= i < j < |ws| ==> PathOf(ws[i]) != PathOf(ws[j])
  {
    PathsDistinct(user.uid);
    [ SetMerge(DetailsPath(user.uid), DetailsRecord(user, now[0], now[1])),
      SetMerge(PermissionsPath(user.uid), PermissionsRecord(user, now[2])),
      SetMerge(CountersPath, CounterUpdate("OnCreateCount", 1, now[3])) ]
  }

  /** The store after three writes attempted one after the other. */
  function AttemptThree(store: Store, ws: seq<Write>, fails: seq<bool>): Store
    requires |ws| == 3 && |fails| == 3
  {
    Attempt(Attempt(Attempt(store, ws[0], fails[0]), ws[1], fails[1]), ws[2], fails[2])
  }

  /**
    `UserOnCreate`: merge the details record, then the permissions record,
    then bump `OnCreateCount` and `totalUsers`. `now` holds the four clock
    readings in the order the source takes them; `fails[i]` says whether the
    i-th write is rejected. The result is the store and the logged writes.
   */
  function UserOnCreate(store: Store, user: AuthUser, now: seq<int>, fails: seq<bool>): (r: (Store, seq<Write>))
    requires |now| == 4 && |fails| == 3
    ensures forall p :: p != DetailsPath(user.uid) && p != PermissionsPath(user.uid) && p != CountersPath ==>
      Lookup(r.0, p) == Lookup(store, p)
    ensures DetailsEffect(store, r.0, user, now[0], now[1], fails[0])
    ensures PermissionsEffect(store, r.0, user, now[2], fails[1])
    ensures CountersEffect(store, r.0, "OnCreateCount", 1, now[3], fails[2])
    ensures r.1 == [] <==> !fails[0] && !fails[1] && !fails[2]
  {
    var ws := OnCreateWrites(user, now);
    RunThree(store, ws, fails);
    OnCreateElsewhere(store, user, now, fails);
    OnCreateDetails(store, user, now, fails);
    OnCreatePermissions(store, user, now, fails);
    OnCreateCounters(store, user, now, fails);
    RunWrites(store, ws, fails)
  }

  lemma OnCreateElsewhere(store: Store, user: AuthUser, now: seq<int>, fails: seq<bool>)
    requires |now| == 4 && |fails| == 3
    ensures forall p :: p != DetailsPath(user.uid) && p != PermissionsPath(user.uid) && p != CountersPath ==>
      Lookup(AttemptThree(store, OnCreateWrites(user, now), fails), p) == Lookup(store, p)
  {
    var ws := OnCreateWrites(user, now);
    var s1 := Attempt(store, ws[0], fails[0]);
    var s2 := Attempt(s1, ws[1], fails[1]);
    forall p | p != DetailsPath(user.uid) && p != PermissionsPath(user.uid) && p != CountersPath
      ensures Lookup(AttemptThree(store, ws, fails), p) == Lookup(store, p)
    {
      AttemptElsewhere(store, ws[0], fails[0], p);
      AttemptElsewhere(s1, ws[1], fails[1], p);
      AttemptElsewhere(s2, ws[2], fails[2], p);
    }
  }

  lemma OnCreateDetails(store: Store, user: AuthUser, now: seq<int>, fails: seq<bool>)
    requires |now| == 4 && |fails| == 3
    ensures DetailsEffect(store, AttemptThree(store, OnCreateWrites(user, now), fails), user, now[0], now[1], fails[0])
  {
    var ws := OnCreateWrites(user, now);
    var s1 := Attempt(store, ws[0], fails[0]);
    var s2 := Attempt(s1, ws[1], fails[1]);
    PathsDistinct(user.uid);
    DetailsWrite(store, user, now[0], now[1], fails[0]);
    AttemptElsewhere(s1, ws[1], fails[1], DetailsPath(user.uid));
    AttemptElsewhere(s2, ws[2], fails[2], DetailsPath(user.uid));
  }

  lemma OnCreatePermissions(store: Store, user: AuthUser, now: seq<int>, fails: seq<bool>)
    requires |now| == 4 && |fails| == 3
    ensures PermissionsEffect(store, AttemptThree(store, OnCreateWrites(user, now), fails), user, now[2], fails[1])
  {
    var ws := OnCreateWrites(user, now);
    var s1 := Attempt(store, ws[0], fails[0]);
    var s2 := Attempt(s1, ws[1], fails[1]);
    PathsDistinct(user.uid);
    AttemptElsewhere(store, ws[0], fails[0], PermissionsPath(user.uid));
    PermissionsWrite(s1, user, now[2], fails[1]);
    AttemptElsewhere(s2, ws[2], fails[2], PermissionsPath(user.uid));
  }

  lemma OnCreateCounters(store: Store, user: AuthUser, now: seq<int>, fails: seq<bool>)
    requires |now| == 4 && |fails| == 3
    ensures CountersEffect(store, AttemptThree(store, OnCreateWrites(user, now), fails), "OnCreateCount", 1, now[3], fails[2])
  {
    var ws := OnCreateWrites(user, now);
    var s1 := Attempt(store, ws[0], fails[0]);
    var s2 := Attempt(s1, ws[1], fails[1]);
    PathsDistinct(user.uid);
    AttemptElsewhere(store, ws[0], fails[0], CountersPath);
    AttemptElsewhere(s1, ws[1], fails[1], CountersPath);
    CountersWrite(s2, "OnCreateCount", 1, now[3], fails[2]);
  }

  /** Three writes run one after the other: each attempted on the previous result. */
  lemma RunThree(store: Store, ws: seq<Write>, fails: seq<bool>)
    requires |ws| == 3 && |fails| == 3
    ensures var r := RunWrites(store, ws, fails);
      && r.0 == AttemptThree(store, ws, fails)
      && (r.1 == [] <==> !fails[0] && !fails[1] && !fails[2])
  {
    var s1 := Attempt(store, ws[0], fails[0]);
    var s2 := Attempt(s1, ws[1], fails[1]);
    var s3 := Attempt(s2, ws[2], fails[2]);
    var last := RunWrites(s2, ws[2..], fails[2..]);
    assert ws[2..][0] == ws[2] && fails[2..][0] == fails[2];
    assert ws[2..][1..] == [] && fails[2..][1..] == [];
    assert RunWrites(s3, ws[2..][1..], fails[2..][1..]) == (s3, []);
    assert last == (s3, (if fails[2] then [ws[2]] else []) + []);
    assert ws[1..][1..] == ws[2..] && fails[1..][1..] == fails[2..];
    var mid := RunWrites(s1, ws[1..], fails[1..]);
    assert mid == (s3, (if fails[1] then [ws[1]] else []) + last.1);
    assert RunWrites(store, ws, fails) == (s3, (if fails[0] then [ws[0]] else []) + mid.1);
  }

  /** Two writes run one after the other. */
  lemma RunTwo(store: Store, ws: seq<Write>, fails: seq<bool>)
    requires |ws| == 2 && |fails| == 2
    ensures var r := RunWrites(store, ws, fails);
      && r.0 == Attempt(Attempt(store, ws[0], fails[0]), ws[1], fails[1])
      && (r.1 == [] <==> !fails[0] && !fails[1])
  {
    var s1 := Attempt(store, ws[0], fails[0]);
    var s2 := Attempt(s1, ws[1], fails[1]);
    var last := RunWrites(s1, ws[1..], fails[1..]);
    assert ws[1..][0] == ws[1] && fails[1..][0] == fails[1];
    assert ws[1..][1..] == [] && fails[1..][1..] == [];
    assert RunWrites(s2, ws[1..][1..], fails[1..][1..]) == (s2, []);
    assert last == (s2, (if fails[1] then [ws[1]] else []) + []);
    assert RunWrites(store, ws, fails) == (s2, (if fails[0] then [ws[0]] else []) + last.1);
  }

  /**
    The writes `UserOnDelete` issues, in order: the details delete, then the
    counters merge. Neither touches the permissions document.
   */
  function OnDeleteWrites(uid: string, now: int): (ws: seq<Write>)
    ensures |ws| == 2
    ensures ws[0] == Delete(DetailsPath(uid))
    ensures ws[1].SetMerge? && PathOf(ws[1]) == CountersPath
    ensures forall i :: 0 <= i < |ws| ==> PathOf(ws[i]) != PermissionsPath(uid)
  {
    PathsDistinct(uid);
    [ Delete(DetailsPath(uid)),
      SetMerge(CountersPath, CounterUpdate("OnDeleteCount", -1, now)) ]
  }

  /**
    `UserOnDelete`: delete the details document, then move `OnDeleteCount`
    and `totalUsers` down by one. A rejected delete is logged and the
    counters are still updated; the permissions document is never touched.
   */
  function UserOnDelete(store: Store, uid: string, now: int, fails: seq<bool>): (r: (Store, seq<Write>))
    requires |fails| == 2
    ensures forall p :: p != DetailsPath(uid) && p != CountersPath ==> Lookup(r.0, p) == Lookup(store, p)
    ensures Lookup(r.0, PermissionsPath(uid)) == Lookup(store, PermissionsPath(uid))
    ensures fails[0] ==> Lookup(r.0, DetailsPath(uid)) == Lookup(store, DetailsPath(uid))
    ensures !fails[0] ==> DetailsPath(uid) !in r.0
    ensures CountersEffect(store, r.0, "OnDeleteCount", -1, now, fails[1])
    ensures r.1 == [] <==> !fails[0] && !fails[1]
  {
    var ws := OnDeleteWrites(uid, now);
    RunTwo(store, ws, fails);
    OnDeleteEffects(store, uid, now, fails);
    RunWrites(store, ws, fails)
  }

  lemma OnDeleteEffects(store: Store, uid: string, now: int, fails: seq<bool>)
    requires |fails| == 2
    ensures var ws := OnDeleteWrites(uid, now);
      var final := Attempt(Attempt(store, ws[0], fails[0]), ws[1], fails[1]);
      && (forall p :: p != DetailsPath(uid) && p != CountersPath ==> Lookup(final, p) == Lookup(store, p))
      && (fails[0] ==> Lookup(final, DetailsPath(uid)) == Lookup(store, DetailsPath(uid)))
      && (!fails[0] ==> DetailsPath(uid) !in final)
      && CountersEffect(store, final, "OnDeleteCount", -1, now, fails[1])
  {
    var ws := OnDeleteWrites(uid, now);
    var s1 := Attempt(store, ws[0], fails[0]);
    PathsDistinct(uid);
    AttemptElsewhere(s1, ws[1], fails[1], DetailsPath(uid));
    AttemptElsewhere(store, ws[0], fails[0], CountersPath);
    CountersWrite(s1, "OnDeleteCount", -1, now, fails[1]);
  }

  /**
    A user created and then deleted leaves `totalUsers` as it was, when it
    held a number and both counter writes went through, whatever happened
    to the other writes.
   */
  lemma CreateThenDeleteKeepsTotal(store: Store, user: AuthUser, createdAt: seq<int>, createFails: seq<bool>,
                                   deletedAt: int, deleteFails: seq<bool>)
    requires |createdAt| == 4 && |createFails| == 3 && |deleteFails| == 2
    requires !createFails[2] && !deleteFails[1]
    requires CountersPath in store && "totalUsers" in store[CountersPath] && store[CountersPath]["totalUsers"].Num?
    ensures var created := UserOnCreate(store, user, createdAt, createFails).0;
      var deleted := UserOnDelete(created, user.uid, deletedAt, deleteFails).0;
      CountersPath in deleted && "totalUsers" in deleted[CountersPath]
      && deleted[CountersPath]["totalUsers"] == store[CountersPath]["totalUsers"]
  {
    var created := UserOnCreate(store, user, createdAt, createFails).0;
    TotalMoved(store, created, "OnCreateCount", 1, createdAt[3]);
    var deleted := UserOnDelete(created, user.uid, deletedAt, deleteFails).0;
    TotalMoved(created, deleted, "OnDeleteCount", -1, deletedAt);
  }

  /** A counters write that went through moves a numeric `totalUsers` by `amount`. */
  lemma TotalMoved(store: Store, final: Store, countKey: string, amount: int, modified: int)
    requires CountersEffect(store, final, countKey, amount, modified, false)
    requires CountersPath in store && "totalUsers" in store[CountersPath] && store[CountersPath]["totalUsers"].Num?
    ensures CountersPath in final && "totalUsers" in final[CountersPath]
    ensures final[CountersPath]["totalUsers"] == Num(store[CountersPath]["totalUsers"].n + amount)
  {
  }

  /**
    After a create and a delete that both went through, the details
    document is gone but the permissions record written at creation remains.
   */
  lemma DeleteKeepsPermissionsRecord(store: Store, user: AuthUser, createdAt: seq<int>, deletedAt: int)
    requires |createdAt| == 4
    ensures var created := UserOnCreate(store, user, createdAt, [false, false, false]).0;
      var deleted := UserOnDelete(created, user.uid, deletedAt, [false, false]).0;
      && DetailsPath(user.uid) !in deleted
      && PermissionsPath(user.uid) in deleted
      && deleted[PermissionsPath(user.uid)]["permissions"].Obj?
      && deleted[PermissionsPath(user.uid)]["permissions"].fields["isAdmin"] == Bool(false)
  {
    var created := UserOnCreate(store, user, createdAt, [false, false, false]).0;
    assert PermissionsEffect(store, created, user, createdAt[2], false);
  }

  /**
    The shared body of the two blocking hooks: merge the details record
    (two clock readings in `now`; `failed` for a rejected write, which is
    logged) and answer with the fixed display name and the event's own
    `photoURL`, `emailVerified`, `customClaims` and `disabled`.
   */
  function BlockingHook(store: Store, user: AuthUser, now: seq<int>, failed: bool, displayName: string): (r: (Store, BlockingResponse))
    requires |now| == 2
    ensures forall p :: p != DetailsPath(user.uid) ==> Lookup(r.0, p) == Lookup(store, p)
    ensures DetailsEffect(store, r.0, user, now[0], now[1], failed)
    ensures r.1.displayName == displayName
    ensures && r.1.photoURL == user.photoURL && r.1.emailVerified == user.emailVerified
            && r.1.customClaims == user.customClaims && r.1.disabled == user.disabled
  {
    DetailsWrite(store, user, now[0], now[1], failed);
    var written := Attempt(store, SetMerge(DetailsPath(user.uid), DetailsRecord(user, now[0], now[1])), failed);
    (written, BlockingResponse(displayName, user.photoURL, user.emailVerified, user.customClaims, user.disabled))
  }

  /** The display name `beforeUserCreated` answers with. */
  const CreatedDisplayName: string := "bRUNKO kERTESZ"

  /** The display name `beforeUserSignedIn` answers with. */
  const SignedInDisplayName: string := "BLOCKING TEST"

  /** `beforeUserCreated`: details upsert, then the response. */
  function BeforeUserCreated(store: Store, user: AuthUser, now: seq<int>, failed: bool): (r: (Store, BlockingResponse))
    requires |now| == 2
    ensures forall p :: p != DetailsPath(user.uid) ==> Lookup(r.0, p) == Lookup(store, p)
    ensures DetailsEffect(store, r.0, user, now[0], now[1], failed)
    ensures r.1.displayName == CreatedDisplayName
    ensures && r.1.photoURL == user.photoURL && r.1.emailVerified == user.emailVerified
            && r.1.customClaims == user.customClaims && r.1.disabled == user.disabled
  {
    BlockingHook(store, user, now, failed, CreatedDisplayName)
  }

  /** `beforeUserSignedIn`: the same upsert, answering with another display name. */
  function BeforeUserSignedIn(store: Store, user: AuthUser, now: seq<int>, failed: bool): (r: (Store, BlockingResponse))
    requires |now| == 2
    ensures forall p :: p != DetailsPath(user.uid) ==> Lookup(r.0, p) == Lookup(store, p)
    ensures DetailsEffect(store, r.0, user, now[0], now[1], failed)
    ensures r.1.displayName == SignedInDisplayName
    ensures && r.1.photoURL == user.photoURL && r.1.emailVerified == user.emailVerified
            && r.1.customClaims == user.customClaims && r.1.disabled == user.disabled
  {
    BlockingHook(store, user, now, failed, SignedInDisplayName)
  }

  /**
    The response does not depend on the store, the clock or whether the
    details write went through: a failed write is swallowed and the same
    response is returned, and the user's own display name is never echoed.
   */
  lemma BlockingResponseIgnoresWrite(s1: Store, s2: Store, user: AuthUser, now1: seq<int>, now2: seq<int>, f1: bool, f2: bool)
    requires |now1| == 2 && |now2| == 2
    ensures BeforeUserCreated(s1, user, now1, f1).1 == BeforeUserCreated(s2, user, now2, f2).1
    ensures BeforeUserSignedIn(s1, user, now1, f1).1 == BeforeUserSignedIn(s2, user, now2, f2).1
    ensures BeforeUserCreated(s1, user, now1, f1).1 != BeforeUserSignedIn(s2, user, now2, f2).1
  {
    assert CreatedDisplayName[0] != SignedInDisplayName[0];
  }
}
