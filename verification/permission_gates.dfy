/**
  The permission gates of the Cloud Functions: claim checks for callable
  functions and HTTP requests (only the boolean `true` grants), and the
  Firestore-trigger gate that, for a changed document, checks the uid against
  the document's path, looks the user up, and on a missing permission records
  an error on the document before throwing.
 */
module PermissionGates {
  import opened Wrappers
  import opened JsonValue
  import opened FirestoreRef
  import opened ChangeDetection
  import opened DocumentStore

  /** `UserPermissionEnum`: the one permission key. */
  datatype Permission = IsAdmin {
    function Key(): string { "isAdmin" }
  }

  /** The `HttpsError` codes the gates throw. */
  datatype ErrorCode = FailedPrecondition | PermissionDenied

  /** The signed-in caller of a callable function: uid and decoded token claims. */
  datatype CallerAuth = CallerAuth(uid: string, token: map<string, Value>)

  /** `CallableContext`: `auth` is absent for an unauthenticated call. */
  datatype CallableContext = CallableContext(auth: Option<CallerAuth>)

  /** `context?.auth?.token?.[key] === true`. */
  predicate TokenGrants(context: CallableContext, key: string) {
    context.auth.Some? && IsTrue(context.auth.value.token, key)
  }

  /** `throwIfNotAdmin`: throws `failed-precondition` unless the token's `isAdmin` is `true`. */
  function ThrowIfNotAdmin(context: CallableContext): (r: Outcome<ErrorCode>)
    ensures r.Pass? <==> context.auth.Some? && Get(context.auth.value.token, "isAdmin") == Bool(true)
    ensures r.Fail? ==> r.error == FailedPrecondition
  {
    if TokenGrants(context, "isAdmin") then Pass else Fail(FailedPrecondition)
  }

  /** `throwIfNoPermissionCallable`: throws `permission-denied` unless the token grants `permission`. */
  function ThrowIfNoPermissionCallable(context: CallableContext, permission: Permission): (r: Outcome<ErrorCode>)
    ensures r.Pass? <==> context.auth.Some? && Get(context.auth.value.token, permission.Key()) == Bool(true)
    ensures r.Fail? ==> r.error == PermissionDenied
  {
    if TokenGrants(context, permission.Key()) then Pass else Fail(PermissionDenied)
  }

  /**
    Truthy values other than `true` do not pass: a token whose `isAdmin` is
    the string `"true"` or the number `1` is rejected, as are a missing auth,
    `false` and `null`.
   */
  lemma OnlyTrueGrants(uid: string)
    ensures ThrowIfNotAdmin(CallableContext(None)).Fail?
    ensures ThrowIfNotAdmin(CallableContext(Some(CallerAuth(uid, map["isAdmin" := Str("true")])))).Fail?
    ensures ThrowIfNotAdmin(CallableContext(Some(CallerAuth(uid, map["isAdmin" := Num(1)])))).Fail?
    ensures ThrowIfNotAdmin(CallableContext(Some(CallerAuth(uid, map["isAdmin" := Bool(false)])))).Fail?
    ensures ThrowIfNotAdmin(CallableContext(Some(CallerAuth(uid, map["isAdmin" := Null])))).Fail?
    ensures ThrowIfNotAdmin(CallableContext(Some(CallerAuth(uid, map["isAdmin" := Bool(true)])))).Pass?
  {
  }

  /** An Express request; `user` is the decoded token (uid and claims) when present. */
  datatype DecodedToken = DecodedToken(uid: string, claims: map<string, Value>)
  datatype HttpRequest = HttpRequest(user: Option<DecodedToken>)

  /** What the handler does to the Express response. */
  datatype ResponseCall = Status(code: int) | Send(body: string) | End

  /** The body sent with the 403; `uid` is `"undefined"` without a user. */
  function RequestDeniedBody(permission: Permission, user: Option<DecodedToken>): string {
    "Request not authorized, user must have \"" + permission.Key()
    + "\" permission to call this function. UID: "
    + (if user.Some? then user.value.uid else "undefined")
  }

  /**
    `hasPermissionOnRequest`: `true` with the response untouched when the
    user's `permission` is `true`; otherwise status 403, the message, end of
    response, and `false`.
   */
  function HasPermissionOnRequest(request: HttpRequest, permission: Permission): (r: (bool, seq<ResponseCall>))
    ensures r.0 <==> request.user.Some? && IsTrue(request.user.value.claims, permission.Key())
    ensures r.0 ==> r.1 == []
    ensures !r.0 ==> |r.1| == 3 && r.1[0] == Status(403) && r.1[1].Send? && r.1[2] == End
  {
    if request.user.Some? && IsTrue(request.user.value.claims, permission.Key()) then (true, [])
    else (false, [Status(403), Send(RequestDeniedBody(permission, request.user)), End])
  }

  /**
    The admin gate is the `isAdmin` permission gate with another error code:
    the two pass on exactly the same contexts.
   */
  lemma AdminGateIsPermissionGate(context: CallableContext)
    ensures ThrowIfNotAdmin(context).Pass? <==> ThrowIfNoPermissionCallable(context, IsAdmin).Pass?
    ensures ThrowIfNotAdmin(context).Fail? ==>
      ThrowIfNotAdmin(context).error == FailedPrecondition &&
      ThrowIfNoPermissionCallable(context, IsAdmin).error == PermissionDenied
  {
  }

  /** The callable context carrying the same uid and claims as an HTTP request's user. */
  function ContextOfRequest(request: HttpRequest): (c: CallableContext)
    ensures c.auth.Some? <==> request.user.Some?
    ensures request.user.Some? ==>
      c.auth.value.uid == request.user.value.uid && c.auth.value.token == request.user.value.claims
  {
    match request.user
    case None => CallableContext(None)
    case Some(u) => CallableContext(Some(CallerAuth(u.uid, u.claims)))
  }

  /**
    The HTTP gate and the callable gate agree: a request passes exactly when a
    callable call with the same user and claims would, and a refused request
    is answered with a 403 instead of a thrown error.
   */
  lemma RequestGateAgreesWithCallable(request: HttpRequest, permission: Permission)
    ensures HasPermissionOnRequest(request, permission).0 <==>
      ThrowIfNoPermissionCallable(ContextOfRequest(request), permission).Pass?
    ensures !HasPermissionOnRequest(request, permission).0 ==>
      HasPermissionOnRequest(request, permission).1[0] == Status(403)
  {
  }

  /** The user record `getUserRecordByUid` returns; `customClaims` may be absent. */
  datatype UserRecord = UserRecord(uid: string, customClaims: Option<map<string, Value>>)

  /** The ways the trigger gate can end abnormally. */
  datatype GateError =
    | Thrown(code: ErrorCode, message: string)
      /** `auth.getUser` rejected (no such user): its error propagates. */
    | LookupFailed
      /** The error-record write rejected: its error propagates instead. */
    | ErrorWriteFailed

  /** The outcome of the trigger gate, the store after it, and whether it looked the user up. */
  datatype GateResult = GateResult(outcome: Outcome<GateError>, store: Store, lookedUp: bool)

  /**
    `docRef.parent?.parent?.parent?.parent?.parent.id`: the id of the fifth
    ancestor, or `undefined` when the chain is shorter.
   */
  function FifthAncestorId(docRef: Ref): Option<string> {
    match Ancestor(docRef, 5)
    case None => None
    case Some(a) => Some(a.Id())
  }

  /** The message thrown for a missing permission, also written to the document. */
  function MissingPermissionMessage(permission: Permission, record: UserRecord): string {
    "Request not authorized, user must have \"" + permission.Key()
    + "\" permission to call this function. " + record.uid
  }

  /** The fields merged into the document when the permission is missing. */
  function ErrorRecord(message: string, now: int, docRef: Ref): map<string, FieldWrite> {
    map[
      "error" := Put(Str(message)),
      "updatedAt" := Put(Date(now)),
      "docRef" := MergeMap(map["id" := Put(Str(docRef.Id())), "path" := Put(Str(docRef.Path()))])
    ]
  }

  /**
    `throwIfNoPermissionFirestoreTrigger`: `lookup` is what `auth.getUser(uid)`
    resolves to (absent when it rejects), `now` the clock reading for
    `updatedAt`, and `writeFails` whether the error-record write rejects.
   */
  function FirestoreTriggerGate(
    store: Store, params: ChangeParams, uid: string, permission: Permission,
    lookup: Option<UserRecord>, now: int, writeFails: bool): (r: GateResult)
    ensures !HasDocumentChanged(params) ==> r == GateResult(Pass, store, false)
    ensures HasDocumentChanged(params) && FifthAncestorId(params.docRef) != Some(uid) ==>
      r.outcome.Fail? && r.outcome.error.Thrown? && r.outcome.error.code == FailedPrecondition
      && r.store == store && !r.lookedUp
    ensures r.outcome.Pass? <==>
      || !HasDocumentChanged(params)
      || (FifthAncestorId(params.docRef) == Some(uid) && lookup.Some?
          && lookup.value.customClaims.Some? && IsTrue(lookup.value.customClaims.value, permission.Key()))
    ensures r.outcome.Pass? ==> r.store == store
    ensures r.store != store ==>
      lookup.Some? && r.outcome == Fail(Thrown(FailedPrecondition, MissingPermissionMessage(permission, lookup.value)))
  {
    if !HasDocumentChanged(params) then GateResult(Pass, store, false)
    else if FifthAncestorId(params.docRef) != Some(uid) then
      GateResult(Fail(Thrown(FailedPrecondition, "Mismatch between provided uid and parent uid")), store, false)
    else
      match lookup
      case None => GateResult(Fail(LookupFailed), store, true)
      case Some(record) =>
        if record.customClaims.Some? && IsTrue(record.customClaims.value, permission.Key()) then
          GateResult(Pass, store, true)
        else
          var message := MissingPermissionMessage(permission, record);
          if writeFails then GateResult(Fail(ErrorWriteFailed), store, true)
          else
            var w := SetMerge(params.docRef.Path(), ErrorRecord(message, now, params.docRef));
            GateResult(Fail(Thrown(FailedPrecondition, message)), Apply(store, w), true)
  }

  /**
    The gate rejects every document fewer than six segments deep: there is
    no fifth ancestor to match the uid, so, for instance, a changed
    `private/auth/permissions/{uid}` document always fails.
   */
  lemma ShallowDocumentsAlwaysRejected(
    store: Store, params: ChangeParams, uid: string, permission: Permission,
    lookup: Option<UserRecord>, now: int, writeFails: bool)
    requires |params.docRef.segments| >= 1 && |params.docRef.segments| < 6
    requires HasDocumentChanged(params)
    ensures FirestoreTriggerGate(store, params, uid, permission, lookup, now, writeFails).outcome.Fail?
    ensures !FirestoreTriggerGate(store, params, uid, permission, lookup, now, writeFails).lookedUp
  {
    AncestorSpec(params.docRef, 5);
  }

  /** With the uid matching, a denied lookup yields the merge of the error record. */
  lemma DeniedGateResult(
    store: Store, params: ChangeParams, uid: string, permission: Permission,
    record: UserRecord, now: int)
    requires |params.docRef.segments| >= 6
    requires params.docRef.segments[|params.docRef.segments| - 6] == uid
    requires HasDocumentChanged(params)
    requires !(record.customClaims.Some? && IsTrue(record.customClaims.value, permission.Key()))
    ensures FirestoreTriggerGate(store, params, uid, permission, Some(record), now, false)
      == GateResult(Fail(Thrown(FailedPrecondition, MissingPermissionMessage(permission, record))),
                    Apply(store, SetMerge(params.docRef.Path(), ErrorRecord(MissingPermissionMessage(permission, record), now, params.docRef))),
                    true)
  {
    var docRef := params.docRef;
    var n := |docRef.segments|;
    AncestorSpec(docRef, 5);
    assert Ancestor(docRef, 5).value.segments == docRef.segments[..n - 5];
    assert FifthAncestorId(docRef) == Some(uid);
  }

  /**
    The uid checked is the sixth-from-last segment of the document path, and
    a denied user's error record lands on the document itself, keeping its
    other fields, with the message, the time and the document's id and path.
   */
  lemma DeniedWritesErrorRecord(
    store: Store, params: ChangeParams, uid: string, permission: Permission,
    record: UserRecord, now: int)
    requires |params.docRef.segments| >= 6
    requires params.docRef.segments[|params.docRef.segments| - 6] == uid
    requires HasDocumentChanged(params)
    requires !(record.customClaims.Some? && IsTrue(record.customClaims.value, permission.Key()))
    ensures var r := FirestoreTriggerGate(store, params, uid, permission, Some(record), now, false);
      var path := params.docRef.Path();
      && r.lookedUp && r.outcome.Fail?
      && path in r.store
      && r.store[path]["error"] == Str(MissingPermissionMessage(permission, record))
      && r.store[path]["updatedAt"] == Date(now)
      && (forall k :: path in store && k in store[path] && k !in {"error", "updatedAt", "docRef"} ==>
            k in r.store[path] && r.store[path][k] == store[path][k])
  {
    DeniedGateResult(store, params, uid, permission, record, now);
    ErrorRecordMerged(store, MissingPermissionMessage(permission, record), now, params.docRef);
  }

  /** Merging the error record sets its fields and keeps the document's others. */
  lemma ErrorRecordMerged(store: Store, message: string, now: int, docRef: Ref)
    ensures var s := Apply(store, SetMerge(docRef.Path(), ErrorRecord(message, now, docRef)));
      var path := docRef.Path();
      && path in s
      && s[path]["error"] == Str(message)
      && s[path]["updatedAt"] == Date(now)
      && (forall k :: path in store && k in store[path] && k !in {"error", "updatedAt", "docRef"} ==>
            k in s[path] && s[path][k] == store[path][k])
  {
    var path := docRef.Path();
    var data := ErrorRecord(message, now, docRef);
    var stored := if path in store then store[path] else map[];
    var merged := MergeData(stored, data);
    assert Apply(store, SetMerge(path, data))[path] == merged;
    ErrorRecordFields(message, now, docRef);
  }

  /** The error record writes exactly `error`, `updatedAt` and `docRef`, the first two as plain puts. */
  lemma ErrorRecordFields(message: string, now: int, docRef: Ref)
    ensures var data := ErrorRecord(message, now, docRef);
      && data.Keys == {"error", "updatedAt", "docRef"}
      && data["error"] == Put(Str(message))
      && data["updatedAt"] == Put(Date(now))
  {
  }
}
