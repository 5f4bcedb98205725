# typed-firestore core, modelled in Dafny

This project models the sequential logic inside the typed-firestore admin console (an Angular front end over Firebase) and its Cloud Functions. It covers five parts:

- **Path handling in the database browser.**
  - `validReferenceFromPath` trims the path, strips one trailing `'/'` and classifies it by the parity of its `'/'`-split. It yields a collection or document reference, or none for the root.
  - The `path$` cursor handler normalises a value, re-emits it in canonical form or lists it, and fills a never-evicting cache of nodes.
  - Two views are built from that cache: the breadcrumb list and the three-level `nodes` view.
  - `convertFirestoreDates` is also modelled, as a transform over a JSON-like value tree.
- **Change detection and permission gates.**
  - `hasChanged` and `hasDocumentChanged` are modelled.
  - The callable and HTTP claim checks are modelled; only the boolean `true` grants.
  - The Firestore-trigger gate is modelled: it matches the uid against the document path, looks the user up and writes an error record.
- **Batched collection deletion.** `deleteCollection` runs rounds of at most 500 documents until a query comes back empty.
- **Account lifecycle.** The Auth `onCreate` and `onDelete` triggers and the two blocking identity hooks are modelled. Their writes run over an abstract document store with merge-set, nested-map merge, increment and delete.
- **The snackbar service.** It is a FIFO of pending messages guarded by a lock.

Modules follow the program's structure:

| module | file | models |
|---|---|---|
| `Wrappers` | wrappers.dfy | `Option`, `Outcome` |
| `JsString` | js_string.dfy | JavaScript `split`, `join`, `trim` on strings |
| `FirestoreRef` | firestore_ref.dfy | collection and document references, `parent`, ancestor chains |
| `JsonValue` | json_value.dfy | the JavaScript values stored in documents and claims |
| `PathClassifier` | path_classifier.dfy | `validReferenceFromPath` |
| `FirestoreDates` | firestore_dates.dfy | `convertFirestoreDates` |
| `DatabaseService` | database_service.dfy | the cursor, its handler, `listCollections`, `listDocuments`, the cache |
| `PathComponent` | path_component.dfy | `PathValidator`, breadcrumbs, cursor and text-field wiring |
| `DatabaseComponent` | database_component.dfy | the `nodes` getter |
| `ChangeDetection` | change_detection.dfy | `hasChanged`, `hasDocumentChanged` |
| `DocumentStore` | document_store.dfy | Firestore merge-set, increment, delete, and failing writes |
| `PermissionGates` | permission_gates.dfy | the four permission checks |
| `DeleteCollection` | delete_collection.dfy | `deleteCollection` / `deleteQueryBatch` |
| `AccountLifecycle` | account_lifecycle.dfy | `UserOnCreate`, `UserOnDelete`, `beforeUserCreated`, `beforeUserSignedIn` |
| `Snackbar` | snackbar.dfy | `queueSnackbar`, `showSnackbar`, dismissal |

The SDK calls are abstract inputs:

- **Listings:** `listCollections` and `getDocs` are a `Backend` value. It maps a path to its listed collections or document ids, and names the paths whose listing rejects.
- **User lookup:** `auth.getUser` is an optional user record.
- **Failures:** a rejected write is a boolean per write, and a failing deletion round is a round number.
- **Clock:** each `new Date()` reading is an integer parameter.

Asynchronous steps run one after the other, in the order the code awaits them.

## Model

| member | source | states |
|---|---|---|
| JsString.Split | src/app/services/firebase.service.ts:142-147 | `split('/')` keeps empty pieces: one more piece than there are separators, and no piece contains the separator |
| JsString.JoinSplit | src/app/services/firebase.service.ts:144 | joining the pieces of a split with the separator gives back the original string |
| JsString.SplitJoin | src/app/services/firebase.service.ts:144 | splitting a join of separator-free pieces gives back those pieces |
| JsString.TrimStart | src/app/services/firebase.service.ts:140 | removes exactly the leading whitespace: the result is a suffix that starts with no whitespace, and everything dropped was whitespace |
| JsString.TrimEnd | src/app/services/firebase.service.ts:140 | removes exactly the trailing whitespace: the result is a prefix that ends with no whitespace, and everything dropped was whitespace |
| JsString.TrimSpec | src/app/services/firebase.service.ts:140 | `trim()` yields a contiguous slice of the input with only whitespace outside it |
| JsString.TrimEndWithin | src/app/services/firebase.service.ts:140 | trimming the end of a suffix keeps a slice of the original that is followed only by whitespace |
| JsString.TrimEndKeepsStart | src/app/services/firebase.service.ts:140 | trimming the end of a string that starts without whitespace leaves no outer whitespace |
| JsString.TrimNoOuterWhitespace | src/app/services/firebase.service.ts:140 | `trim()` leaves a string unchanged exactly when it has no leading or trailing whitespace, in both directions |
| FirestoreRef.ParentWellKinded | src/app/firebase/path/path.component.ts:88-92 | a document's parent is a collection one segment shorter; a collection's parent is a document, and only a top-level collection has none |
| FirestoreRef.AncestorChain | src/app/firebase/path/path.component.ts:83-92 | the chain ends with the reference, starts with a parentless reference, and each element is the parent of the next |
| FirestoreRef.AncestorChainIsPrefixes | src/app/firebase/path/path.component.ts:83-92 | for a well-formed reference the chain has one entry per segment, and entry i addresses the first i+1 segments with the kind their parity gives |
| FirestoreRef.AncestorSpec | functions/src/helpers/isAdmin.helper.ts:74 | the n-th `parent` exists exactly when more than n segments remain, and it addresses the path with the last n segments dropped |
| PathClassifier.ValidReferenceFromPath | src/app/services/firebase.service.ts:138-178 | trims the raw path, drops one trailing `'/'`, and classifies it by the parity of its split, with a reference for every path but the root; its contract is carried by the rows NormaliseSpec, KindByParity, RootIsAlsoCollection and RefIffNotRoot |
| PathClassifier.NormaliseSpec | src/app/services/firebase.service.ts:140 | `validatedPath` is the trimmed input with one trailing `'/'` removed when there is one, and otherwise the trimmed input |
| PathClassifier.KindByParity | src/app/services/firebase.service.ts:142-156 | `isDocumentPath` holds iff the path has an odd number of `'/'` (an even number of pieces), `isCollectionPath` iff even; exactly one holds |
| PathClassifier.RootIsAlsoCollection | src/app/services/firebase.service.ts:150-160 | `isRootPath` iff `validatedPath` is empty, and then `isCollectionPath` is also true and `isDocumentPath` false |
| PathClassifier.CanonicalCollectionPath | src/app/services/firebase.service.ts:150-160 | a canonical, non-empty path with an even number of `'/'` is a collection path and not the root |
| PathClassifier.RefIffNotRoot | src/app/services/firebase.service.ts:162-169 | `ref` is absent exactly for the root; otherwise it is a document for document paths and a collection for collection paths, over the split segments, with path equal to `validatedPath` |
| PathClassifier.NormaliseFixpoint | src/app/services/firebase.service.ts:140 | normalising leaves a path unchanged iff it has no outer whitespace and no trailing `'/'` |
| PathClassifier.NormaliseIdempotent | src/app/services/firebase.service.ts:140 | re-normalising a result that ends in neither `'/'` nor whitespace changes nothing, and yields the same classification and reference |
| PathClassifier.NormaliseNotIdempotentExample | src/app/services/firebase.service.ts:140 | `"a /"` normalises to `"a "`, which does not end in `'/'` yet normalises further to `"a"` |
| PathClassifier.NormaliseShrinks | src/app/services/firebase.service.ts:140 | normalising never lengthens a path and strictly shortens any path it changes |
| FirestoreDates.ToMillis | src/app/services/firebase.service.ts:302-303 | `Timestamp.toDate()` gives the exact sum of seconds and nanoseconds in milliseconds, truncated toward zero (the source rounds the sum to a double first) |
| FirestoreDates.ConvertFirestoreDates | src/app/services/firebase.service.ts:294-316 | falsy data comes back unchanged; a call that returns keeps an object's keys and an array's length; a value that is neither comes back unchanged |
| FirestoreDates.ConvertItems | src/app/services/firebase.service.ts:299-313 | an array throws iff converting one of its entries throws; otherwise each entry is converted in place, position by position |
| FirestoreDates.ConvertEntry | src/app/services/firebase.service.ts:299-313 | one pass of the loop body over an entry: a Timestamp becomes its Date, a Date-yielding `toDate()` is applied, a truthy non-function `toDate` throws, objects and arrays become their own recursive conversion, references stay; its contract is carried by the rows ConvertEntryThrowsIff, ConvertEntryResolves, ConvertEntryCases and ConvertItemCases |
| FirestoreDates.ConvertEntryThrowsIff | src/app/services/firebase.service.ts:302-312 | converting an entry throws a `TypeError` exactly when it is a plain object with a truthy, non-function `toDate`, or holds one at a depth the recursion reaches |
| FirestoreDates.ConvertThrowsIff | src/app/services/firebase.service.ts:294-316 | the call throws exactly when some entry at a reached depth has a truthy `toDate` that is not a function; the top-level value is never tested for one |
| FirestoreDates.ConvertEntryResolves | src/app/services/firebase.service.ts:302-312 | a converted entry holds no Timestamp and no date-like value that yields a Date, at any depth except inside references; already resolved entries are unchanged |
| FirestoreDates.ConvertResolves | src/app/services/firebase.service.ts:294-316 | after a call that returns, no entry at any depth is a Timestamp, a value whose `toDate()` yields a Date, or one with a truthy `toDate`; data already resolved is returned unchanged |
| FirestoreDates.ConvertIdempotent | src/app/services/firebase.service.ts:294-316 | when the call returns, converting its result again returns the same result |
| FirestoreDates.ConvertEntryCases | src/app/services/firebase.service.ts:299-313 | per key: a plain object with a truthy `toDate` makes the call throw; otherwise a Timestamp becomes its Date, a `toDate()` that yields a Date is replaced by it, any other date-like value, a reference, a Date or a primitive is left alone, and a nested object or array becomes its own recursive conversion |
| FirestoreDates.ConvertItemCases | src/app/services/firebase.service.ts:299-313 | the same cases element by element for an array, a nested object or array becoming its own recursive conversion |
| FirestoreDates.NestedEntriesConverted | src/app/services/firebase.service.ts:299-313 | the cases compose below the first level: in `{a: {b: "x", c: Timestamp}}` the string stays and the Timestamp becomes its Date |
| DatabaseService.Take | src/app/firebase/database.service.ts:130-133 | `limit(10)` returns the first min(n, 10) documents, in order |
| DatabaseService.ListCollections | src/app/firebase/database.service.ts:99-122 | a path with no reference that is not the root, or one whose callable rejects, leaves the cache as it is; otherwise only the entry at `validatedPath` is overwritten, with `ref` and one collection reference per listed path, in order |
| DatabaseService.CollectionRefs | src/app/firebase/database.service.ts:112-115 | one collection reference per listed path, in order, whose path is that path |
| DatabaseService.ListDocuments | src/app/firebase/database.service.ts:123-143 | a rejected query leaves the cache as it is; otherwise only the entry at `validatedPath` is overwritten, and its children are at most 10 documents, the first ones of the collection in order, each a child of the listed collection |
| DatabaseService.DocumentRefs | src/app/firebase/database.service.ts:136 | one document reference per returned document, in order, under the collection |
| DatabaseService.ListDocumentsCheckAlwaysFires | src/app/firebase/database.service.ts:125-135 | for every collection path the handler passes, the check reports an invalid path; because the `return` is commented out, the path still gets an entry unless the query rejects |
| DatabaseService.ListCollectionsExitNeverTaken | src/app/firebase/database.service.ts:100-111 | the early return is never taken, since every path without a reference is the root; the path gets an entry exactly when it had one or the callable does not reject |
| DatabaseService.Dispatch | src/app/firebase/database.service.ts:38-50 | a value differing from its non-empty canonical path is re-emitted as that path, which is strictly shorter; otherwise root and document paths list collections and the rest list documents |
| DatabaseService.Next | src/app/firebase/database.service.ts:18-50 | the cache only grows; before subscription only the cursor moves; a value equal to the last handled one only moves the cursor |
| DatabaseService.Handle | src/app/firebase/database.service.ts:37-52 | handling a value never removes a cache entry and leaves the session subscribed |
| DatabaseService.HandleCollections | src/app/firebase/database.service.ts:46-47 | the branch is taken only for root and document paths; cursor and last handled value stay; on rejection the cache is unchanged, otherwise only the entry at the normalised path is overwritten, with the path's reference and one child per listed collection, in order, each a collection reference whose path is the listed one |
| DatabaseService.HandleDocuments | src/app/firebase/database.service.ts:48-50 | the branch is taken only for non-root collection paths; cursor and last handled value stay; on rejection the cache is unchanged, otherwise only the entry at the normalised path is overwritten, with at most 10 children, each a document under that collection |
| DatabaseService.ListedDocumentsPath | src/app/firebase/database.service.ts:46-50 | a value whose documents are listed is a non-root collection path |
| DatabaseService.NormaliseFixpointOfListed | src/app/firebase/database.service.ts:46-50 | a listed path validates exactly as the value it came from |
| DatabaseService.NextSettles | src/app/firebase/database.service.ts:36-44 | re-emissions end: after any push the session rests on the root or a canonical path, which is the last handled value |
| DatabaseService.HandleSettles | src/app/firebase/database.service.ts:37-52 | handling a value leaves the session at rest |
| DatabaseService.SignIn | src/app/firebase/database.service.ts:24-37 | after sign-in the handler is subscribed, the session is at rest, and the cache changes at most at the normalised value the cursor ends on |
| DatabaseService.SignInSettles | src/app/firebase/database.service.ts:24-37 | after sign-in the handler is subscribed and the session is at rest |
| DatabaseService.SignInCursor | src/app/firebase/database.service.ts:18-29 | for a uid without `'/'` or trailing whitespace, sign-in moves the cursor from `''` to `private/user/{uid}` and lists its documents |
| DatabaseService.UserPathIsCollection | src/app/firebase/database.service.ts:29 | `private/user/{uid}` is canonical, a collection path and not the root |
| DatabaseService.UserPathCanonical | src/app/firebase/database.service.ts:29 | `private/user/{uid}` is non-empty and unchanged by normalising, for a uid with no `'/'` and no trailing whitespace |
| DatabaseService.UserPathSeparators | src/app/firebase/database.service.ts:29 | `private/user/{uid}` holds exactly two `'/'` when the uid holds none |
| JsString.CountAppend | src/app/services/firebase.service.ts:144 | separators in a concatenation are those of each part |
| JsString.CountZero | src/app/services/firebase.service.ts:144 | a string without the separator has none to count |
| DatabaseService.RepeatedValueHandledOnce | src/app/firebase/database.service.ts:36 | pushing the same canonical value twice in a row handles it once; the second push changes nothing |
| DatabaseService.ReEmitListsNothing | src/app/firebase/database.service.ts:41-44 | a non-canonical value lists nothing itself: the outcome is that of pushing its canonical path |
| DatabaseService.NextChangesOneEntry | src/app/firebase/database.service.ts:36-50 | a push, re-emissions included, changes the cache at most at the normalised value the cursor ends on; every other entry keeps its node and none is removed |
| DatabaseService.HandleChangesOneEntry | src/app/firebase/database.service.ts:37-52 | handling a value changes the cache at most at the normalised value the cursor ends on |
| PathComponent.ContainsDoubleSlash | src/app/firebase/path/path.component.ts:143 | `includes('//')` is true iff two adjacent characters are both `'/'` |
| PathComponent.PathValidator | src/app/firebase/path/path.component.ts:141-147 | an error, with its fixed message, exactly when the value contains `'//'` |
| PathComponent.ValidatorRejectsEmptyInnerPieces | src/app/firebase/path/path.component.ts:141-147 | the validator rejects a value iff its `'/'`-split has an empty piece strictly inside; a leading or trailing `'/'` passes |
| PathComponent.SlashHeadStep | src/app/firebase/path/path.component.ts:141-147 | a leading `'/'` adds an empty first piece and makes `'//'` appear iff the next character is `'/'` or the rest contains one |
| PathComponent.OtherHeadStep | src/app/firebase/path/path.component.ts:141-147 | any other first character changes neither the presence of `'//'` nor that of an empty inner piece |
| PathComponent.FirstPieceEmpty | src/app/firebase/path/path.component.ts:141-147 | the first piece of a split is empty iff the string is empty or starts with `'/'` |
| PathComponent.Breadcrumbs | src/app/firebase/path/path.component.ts:74-93 | the breadcrumbs for a cursor value: empty for the root, otherwise the ancestor chain of its reference; its contract is carried by the rows BreadcrumbsSpec and BreadcrumbsNeverKeepStale |
| PathComponent.BuildBreadcrumbs | src/app/firebase/path/path.component.ts:81-92 | the loop builds nothing for no reference, and otherwise the ancestor chain of the reference |
| PathComponent.BreadcrumbsSpec | src/app/firebase/path/path.component.ts:74-93 | the root gives no breadcrumbs; otherwise one per segment, root-first, entry i addressing the first i+1 segments, each the parent of the next, the last the cursor's reference |
| PathComponent.BreadcrumbsNeverKeepStale | src/app/firebase/path/path.component.ts:76-79 | the early return that would keep the old list is never taken |
| PathComponent.OnCursorChange | src/app/firebase/path/path.component.ts:109-113 | a cursor change is copied into the text field without producing a cursor write; the breadcrumbs are empty iff the value is the root, and otherwise are the ancestor chain of its reference, one per segment, ending at that reference |
| PathComponent.OnCursorChangeForgetsOldRefs | src/app/firebase/path/path.component.ts:109-113 | the breadcrumbs after a change depend on the new value alone, never on those shown before |
| PathComponent.EditedCursorValue | src/app/firebase/path/path.component.ts:102-107 | an absent or empty edit moves the cursor to `''`; any other edit is written as it is |
| DatabaseComponent.NodesAsWritten | src/app/firebase/database/database.component.ts:40-57 | the getter as written, looking parents up under `x?.ref?.parent?.path!` even when that is `undefined`; its behaviour is carried by the rows NodesAsWrittenShowsUndefinedCollection and NodesAgreeWithoutUndefinedKey |
| DatabaseComponent.NodesAsWrittenShowsUndefinedCollection | src/app/firebase/database/database.component.ts:45-53 | as written, a cached top-level collection named `undefined` appears twice above the root node |
| DatabaseComponent.Present | src/app/firebase/database/database.component.ts:53 | the filter keeps exactly the present nodes; with none missing it keeps all of them in order |
| DatabaseComponent.PresentAppend | src/app/firebase/database/database.component.ts:53 | filtering a concatenation filters each part and keeps their order |
| DatabaseComponent.Nodes | src/app/firebase/database/database.component.ts:40-57 | empty iff the cursor has no entry; otherwise 1 to 3 nodes ending with the current one, each the cached parent of the next, and shorter than 3 only when the first has no cached parent |
| DatabaseComponent.NodesAgreeWithoutUndefinedKey | src/app/firebase/database/database.component.ts:45-53 | when no entry is keyed `"undefined"`, the getter as written and the corrected one agree (own keys only; inherited members are left out) |
| ChangeDetection.HasChanged | functions/src/helpers/hasChanged.helper.ts:11-16 | the value after and the value before at a key differ structurally, a missing document or key reading as `undefined`; its contract is carried by the rows ChangedIffSomeKeyDiffers and IdenticalDataNoChange |
| ChangeDetection.HasDocumentChanged | functions/src/helpers/hasChanged.helper.ts:18-31 | a creation, or some after-data key other than `updatedAt` whose value changed; its contract is carried by the rows HasDocumentChangedScan, CreatedAlwaysChanged, OnlyUpdatedAtChanged, BeforeOnlyKeysIgnored and MissingAfterDataNoChange |
| ChangeDetection.HasDocumentChangedScan | functions/src/helpers/hasChanged.helper.ts:18-31 | scanning the after-data keys with `some` reports a change iff the document-level definition does |
| ChangeDetection.CreatedAlwaysChanged | functions/src/helpers/hasChanged.helper.ts:19-21 | a `created` write always reports a change |
| ChangeDetection.OnlyUpdatedAtChanged | functions/src/helpers/hasChanged.helper.ts:24-28 | a non-created write that changes only `updatedAt` reports no change |
| ChangeDetection.BeforeOnlyKeysIgnored | functions/src/helpers/hasChanged.helper.ts:26-28 | adding or changing a before-only key leaves the verdict unchanged |
| ChangeDetection.MissingAfterDataNoChange | functions/src/helpers/hasChanged.helper.ts:26 | a non-created write without after-data reports no change |
| ChangeDetection.ChangedIffSomeKeyDiffers | functions/src/helpers/hasChanged.helper.ts:11-16 | a non-created write changed iff some after-data key other than `updatedAt` has a before value that is not structurally equal |
| ChangeDetection.IdenticalDataNoChange | functions/src/helpers/hasChanged.helper.ts:11-30 | identical before and after data on a non-created write reports no change |
| DocumentStore.ApplyField | functions/src/api/auth/user.OnCreate.ts:35-37 | a put replaces the field; an increment adds to a stored number and otherwise stores the amount; a nested map is merged, keeping stored keys it does not name |
| DocumentStore.MergeData | functions/src/api/auth/user.OnCreate.ts:24-26 | a merge-set keeps every stored field it does not name and writes every field it names |
| DocumentStore.Apply | functions/src/api/auth/user.OnDelete.ts:12-17 | one write changes only its own document: a merge creates or merges it, a delete removes it |
| DocumentStore.RunWrites | functions/src/api/auth/user.OnCreate.ts:24-60 | caught writes run in order; documents no write names are untouched |
| DocumentStore.RunWritesNoFailures | functions/src/api/auth/user.OnCreate.ts:24-60 | with no rejected write nothing is logged and the first write is applied before the rest |
| PermissionGates.ThrowIfNotAdmin | functions/src/helpers/isAdmin.helper.ts:14-21 | passes iff there is auth and its token's `isAdmin` is `true`; otherwise fails with `failed-precondition` |
| PermissionGates.ThrowIfNoPermissionCallable | functions/src/helpers/isAdmin.helper.ts:23-33 | passes iff the token's value for the permission is `true`; otherwise fails with `permission-denied` |
| PermissionGates.OnlyTrueGrants | functions/src/helpers/isAdmin.helper.ts:15 | missing auth, `false`, `null`, `"true"` and `1` are rejected; only `true` passes |
| PermissionGates.HasPermissionOnRequest | functions/src/helpers/isAdmin.helper.ts:35-55 | returns true with no response calls iff the user's value for the permission is `true`; otherwise status 403, a message, end, and false |
| PermissionGates.AdminGateIsPermissionGate | functions/src/helpers/isAdmin.helper.ts:14-33 | the admin gate and the `isAdmin` permission gate pass on exactly the same contexts, and differ only in their error code |
| PermissionGates.RequestGateAgreesWithCallable | functions/src/helpers/isAdmin.helper.ts:23-55 | an HTTP request passes exactly when a callable call with the same user and claims would; a refused request gets a 403 |
| PermissionGates.FirestoreTriggerGate | functions/src/helpers/isAdmin.helper.ts:62-101 | an unchanged document passes with no lookup or write; a uid that does not match the fifth ancestor's id fails with `failed-precondition` before any lookup or write; it passes iff the looked-up claims grant the permission; only a denial changes the store |
| PermissionGates.ShallowDocumentsAlwaysRejected | functions/src/helpers/isAdmin.helper.ts:73-80 | a changed document fewer than six segments deep is always rejected, without a lookup |
| PermissionGates.DeniedGateResult | functions/src/helpers/isAdmin.helper.ts:82-99 | with the uid matching and the permission missing, the gate merges the error record into the document and then fails |
| PermissionGates.DeniedWritesErrorRecord | functions/src/helpers/isAdmin.helper.ts:84-99 | the error record lands on the document itself, with the message and time, and the document's other fields are kept |
| PermissionGates.ErrorRecordMerged | functions/src/helpers/isAdmin.helper.ts:87-97 | merging the error record sets `error` and `updatedAt` and keeps every field it does not name |
| PermissionGates.ErrorRecordFields | functions/src/helpers/isAdmin.helper.ts:87-97 | the error record writes exactly `error`, `updatedAt` and `docRef`, the first two as plain values |
| DeleteCollection.Query | functions/src/api/callable/deleteCollection.ts:6-7 | the query returns the first min(n, 500) documents of the collection |
| DeleteCollection.DeleteCollection | functions/src/api/callable/deleteCollection.ts:3-43 | never resolves `false`; resolves `true` iff no round up to ceil(n/500) fails; then ceil(n/500) batches of 1 to 500 documents have deleted every document in order; a failure in round k leaves it unsettled after k commits; other collections are untouched |
| DeleteCollection.FlattenAppend | functions/src/api/callable/deleteCollection.ts:31-36 | the documents deleted after one more batch are those before it followed by the batch |
| DeleteCollection.RoundStep | functions/src/api/callable/deleteCollection.ts:22-42 | a round that finds documents left is within ceil(n/500) rounds, and deletes up to 500 more of them |
| DeleteCollection.LastRound | functions/src/api/callable/deleteCollection.ts:22-28 | once every document is deleted within ceil(n/500) rounds, exactly ceil(n/500) rounds have run |
| AccountLifecycle.PathsDistinct | functions/src/api/auth/user.OnCreate.ts:25-49 | the details, permissions and counters documents are distinct for every uid |
| AccountLifecycle.DetailsRecord | functions/src/api/auth/user.OnCreate.ts:15-22 | the details record names exactly uid, created, modified, displayName, email and photoURL |
| AccountLifecycle.PermissionsRecord | functions/src/api/auth/user.OnCreate.ts:31-39 | the permissions record names exactly createdAt, displayName, email, permissions and uid |
| AccountLifecycle.MergedDocument | functions/src/api/auth/user.OnCreate.ts:24-26 | after a merge-set the document exists, keeps its other fields, holds each put value, and each incremented field is bumped |
| AccountLifecycle.DetailsWrite | functions/src/api/auth/user.OnCreate.ts:15-29 | the details write stores the profile with null for absent fields, or leaves the document alone when rejected |
| AccountLifecycle.PermissionsWrite | functions/src/api/auth/user.OnCreate.ts:31-46 | the permissions write sets `isAdmin` false and keeps the document's other permissions, or changes nothing when rejected |
| AccountLifecycle.DetailsRecordFields | functions/src/api/auth/user.OnCreate.ts:15-22 | each details field is a plain put of the uid, the two times, or the profile value or null |
| AccountLifecycle.PermissionsRecordFields | functions/src/api/auth/user.OnCreate.ts:31-39 | each permissions field is a plain put, and `permissions` is the nested map setting `isAdmin` false |
| AccountLifecycle.CountersWrite | functions/src/api/auth/user.OnCreate.ts:48-60 | the counters write moves the count and `totalUsers` by the amount, or by nothing when rejected |
| AccountLifecycle.AttemptElsewhere | functions/src/api/auth/user.OnCreate.ts:24-60 | a write leaves other documents as they were |
| AccountLifecycle.UserOnCreate | functions/src/api/auth/user.OnCreate.ts:10-61 | each of the three writes takes effect or, when rejected, leaves its document alone, independently of the others; nothing else changes; nothing is logged iff no write is rejected |
| AccountLifecycle.OnCreateElsewhere | functions/src/api/auth/user.OnCreate.ts:24-60 | `UserOnCreate` changes no document other than its three |
| AccountLifecycle.OnCreateDetails | functions/src/api/auth/user.OnCreate.ts:15-29 | the details effect survives the later writes |
| AccountLifecycle.OnCreatePermissions | functions/src/api/auth/user.OnCreate.ts:31-46 | the permissions effect survives the other writes |
| AccountLifecycle.OnCreateCounters | functions/src/api/auth/user.OnCreate.ts:48-60 | the counters effect survives the earlier writes |
| AccountLifecycle.RunThree | functions/src/api/auth/user.OnCreate.ts:24-60 | three caught writes apply one after the other, and none is logged iff none is rejected |
| AccountLifecycle.RunTwo | functions/src/api/auth/user.OnDelete.ts:12-31 | two caught writes apply one after the other, and none is logged iff none is rejected |
| AccountLifecycle.OnCreateWrites | functions/src/api/auth/user.OnCreate.ts:24-57 | `UserOnCreate` issues three merges, in order to the details, permissions and counters documents, no two to the same document |
| AccountLifecycle.OnDeleteWrites | functions/src/api/auth/user.OnDelete.ts:12-27 | `UserOnDelete` deletes the details document, then merges into the counters document, and never writes the permissions document |
| AccountLifecycle.UserOnDelete | functions/src/api/auth/user.OnDelete.ts:7-32 | the details document is deleted unless the delete is rejected; the counters are still moved down by one; the permissions document and all others are untouched |
| AccountLifecycle.OnDeleteEffects | functions/src/api/auth/user.OnDelete.ts:12-31 | the delete and the counters update each take effect independently |
| AccountLifecycle.CreateThenDeleteKeepsTotal | functions/src/api/auth/user.OnDelete.ts:24 | a create followed by a delete leaves a numeric `totalUsers` as it was |
| AccountLifecycle.TotalMoved | functions/src/api/auth/user.OnCreate.ts:48-60 | a counters write that went through moves a numeric `totalUsers` by the amount |
| AccountLifecycle.DeleteKeepsPermissionsRecord | functions/src/api/auth/user.OnDelete.ts:7-32 | after a create and a delete, the details are gone and the permissions record, with `isAdmin` false, remains |
| AccountLifecycle.BlockingHook | functions/src/api/identity/beforeUserCreated.ts:16-46 | the details are written as on creation, or left alone when the write is rejected; the response carries the fixed display name and copies `photoURL`, `emailVerified`, `customClaims` and `disabled` |
| AccountLifecycle.BeforeUserCreated | functions/src/api/identity/beforeUserCreated.ts:16-46 | details upserted; the response display name is always `bRUNKO kERTESZ`; the other response fields are copied from the event |
| AccountLifecycle.BeforeUserSignedIn | functions/src/api/identity/beforeUserSignedIn.ts:14-44 | details upserted; the response display name is always `BLOCKING TEST`; the other response fields are copied from the event |
| AccountLifecycle.BlockingResponseIgnoresWrite | functions/src/api/identity/beforeUserCreated.ts:30-45 | the response does not depend on the store, the clock or a failed write, and the two hooks answer differently |
| Snackbar.Config | src/app/services/snackbar.service.ts:49-52 | the widget gets the message and action, the duration or 6000, and the panel classes or none |
| Snackbar.Show | src/app/services/snackbar.service.ts:44-58 | showing nothing changes nothing; showing a message locks and opens its configuration; the queue is untouched |
| Snackbar.WithDefaultAction | src/app/services/snackbar.service.ts:65-67 | a missing or empty action becomes `Dismiss`, a given one is kept, and no other field changes |
| Snackbar.Queue | src/app/services/snackbar.service.ts:60-76 | queueing nothing changes nothing; overwrite makes the queue exactly the message, otherwise it is appended; the head is opened iff the service was not locked or the message overwrites |
| Snackbar.Dismissed | src/app/services/snackbar.service.ts:31-56 | dismissal drops the head and unlocks; the unlock opens the new head, re-locking, when there is one |
| Snackbar.NoneStrandedPreserved | src/app/services/snackbar.service.ts:31-76 | from the start and under every event, a non-empty queue means the service is locked |
| Snackbar.Configs | src/app/services/snackbar.service.ts:49-52 | one configuration per message, the i-th built from the i-th message |
| Snackbar.WithDefaultActions | src/app/services/snackbar.service.ts:65-67 | one message per message, the i-th being the i-th with its default action filled in |
| Snackbar.QueueWhileLocked | src/app/services/snackbar.service.ts:69-75 | while locked, queueing without overwrite only appends, opening nothing |
| Snackbar.DismissAll | src/app/services/snackbar.service.ts:31-36 | dismissing once per queued message opens the rest of the queue in order and ends unlocked and empty |
| Snackbar.QueueOnIdle | src/app/services/snackbar.service.ts:60-76 | queueing on an idle service without overwrite opens the message at once and locks |
| Snackbar.QueueAllOnIdle | src/app/services/snackbar.service.ts:60-76 | queueing messages without overwrite on an idle service opens the first and queues all of them in order |
| Snackbar.ConfigsCons | src/app/services/snackbar.service.ts:49-52 | opening the head and then the rest of a queue opens the configurations of the whole queue |
| Snackbar.WithDefaultActionsCons | src/app/services/snackbar.service.ts:60-72 | appending the defaulted head and then the rest of a list appends the defaulted list |
| Snackbar.FirstInFirstOut | src/app/services/snackbar.service.ts:31-76 | on an idle service, messages queued without overwrite are opened exactly once each, in the order queued |

## Findings

| source | as written | input that shows it | evidently intended | confidence | as-written member | corrected member |
|---|---|---|---|---|---|---|
| src/app/firebase/database/database.component.ts:47-50 | a missing node, reference or parent makes `x?.ref?.parent?.path!` `undefined`, and `database[undefined]` reads the entry keyed `"undefined"` | a cache with the root and a top-level collection named `undefined`, cursor `''`: the getter returns that collection twice above the root | a missing parent contributes no ancestor | not executed; low impact, it needs a collection named `undefined` | DatabaseComponent.NodesAsWritten (shown by DatabaseComponent.NodesAsWrittenShowsUndefinedCollection) | DatabaseComponent.Nodes |

## Left out

- The permission-reconciliation trigger (`onWrite.private.auth.permissions.{uid}`) is not part of this model.
- Firebase SDK behaviour is not modelled. This covers `listCollections`, `getDocs`, `batch.commit` and `auth.getUser`, which are inputs.
  - The SDK's own path validation is not modelled either: it rejects empty segments and drops a leading `'/'`.
  - A reference's path is taken to be the validated path itself.
  - Paths written with a leading `'/'` (`/private/user/{uid}/details`) address the same document as without it.
- PathClassifier.RefIffNotRoot: states the reference a valid path yields, and assumes the SDK accepts it; `doc()` and `collection()` throw on empty segments, and that is left out.
- Only the parity of a path is modelled; a value containing `'//'` is classified and listed like any other. In the source the validator does not stop the text field from emitting, so such a value reaches the cursor. There `doc()` or `collection()` throws inside `validReferenceFromPath`, which rejects the `switchMap` callback and ends the handler's subscription, so no later cursor value is listed. The model keeps handling later values.
- Message texts are abbreviated. The HTTP 403 body, the trigger-gate denial and its error record keep the permission name and uid. The callable errors carry only their code, and the uid-mismatch message is shortened.
- Every `new Date()` is an integer clock reading passed in.
  - The two readings inside a details record are separate parameters.
  - Timestamps are whole seconds plus nanoseconds. There are no floating-point dates and no NaN, and document numbers are integers.
- rxjs scheduling is not modelled: `switchMap` cancellation, `takeUntil` and `process.nextTick`. Each emission is handled to completion before the next, including re-emitted paths.
- DeleteCollection.DeleteCollection: concurrent writers to the collection are not modelled. The ceil(n/500) count holds only without them. A failing query and a failing commit are one failure kind, since both leave the promise unsettled with that round's documents in place.
- lodash `get` dotted paths in `hasChanged` are treated as plain top-level keys, and `isEqual` as structural equality of the value datatype.
- Snackbar.Dismissed: the widget is an external event source, and which open snackbar was dismissed is not tracked. Every dismissal event shifts the queue once. That includes the one the widget raises when a new snackbar replaces an open one.
- The Angular UI components, theme handling, style injection (`generateClasses`), local storage (Dexie), the lazy service locator and the environment config are plumbing and are not modelled.
- Storage upload and download, the Google sign-in popup and `httpsCallable` are not modelled. The thin callable wrappers in `functions/src/index.ts` are left out; their gate is `PermissionGates`.
- FirestoreDates.ConvertFirestoreDates: the source converts in place, so entries converted before the `TypeError` stay converted in the caller's object. The model returns only the error.
- DatabaseService.Backend: whether a listing rejects is an input, per validated path. It stands for the callable's admin check and for transport failures; the caller's claims are not threaded through. The listing is not awaited, so a rejection is an unhandled promise rejection: the cache keeps what it had and the cursor pipeline carries on.
- FirestoreDates.ToMillis: `toMillis()` computes `seconds * 1000 + nanoseconds / 10^6` as a double, which is rounded to nearest before `Date` truncates it. The model truncates the exact sum, so near a millisecond boundary the source's Date can be up to 1 ms later: `(1700000000, 999999999)` gives 1700000001000 in the source and 1700000000999 here.
- DatabaseComponent.NodesAsWritten: the cache is a plain object, so the source's `database[key]` also finds members inherited from `Object.prototype`. With cursor `constructor` and no own entry, the getter returns the inherited `Object` function. Writing the key `__proto__` replaces the prototype instead of adding an entry. Keys that name `Object.prototype` members are not modelled; every lookup sees own entries only.
- DatabaseComponent.NodesAgreeWithoutUndefinedKey: holds for own-key lookups only, for the reason above; a cursor that names an inherited member is outside it.
- `console.error` and `console.debug` logging is represented only by the list of failed writes returned by the lifecycle handlers.
