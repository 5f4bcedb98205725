/**
  `DatabaseService`: the navigation cursor (`path$`) and the tree cache
  (`database`). Every distinct cursor value is classified; a value that is not
  in canonical form is replaced by its canonical path, a root or document path
  lists its sub-collections, and a collection path lists its first documents.
  A listing that does not reject overwrites the cache entry at the validated
  path; no listing removes an entry.
 */
module DatabaseService {
  import opened Wrappers
  import opened JsString
  import opened FirestoreRef
  import opened PathClassifier

  /** `DatabaseNode`: a cached listing. */
  datatype Node = Node(children: seq<Ref>, ref: Option<Ref>)

  /** `database`: validated path to node. */
  type Cache = map<string, Node>

  /**
    What the two remote listings return: the `listCollections` callable gives
    the collection paths under a path, and a query gives the document ids of a
    collection in query order. A path the backend does not know lists nothing.
    `rejected` holds the validated paths whose listing request rejects: the
    callable refuses a caller without the admin claim, and either request can
    fail in transit. The awaited promise then throws before the cache is
    written.
   */
  datatype Backend = Backend(
    collectionPaths: map<string, seq<string>>,
    documentIds: map<string, seq<string>>,
    rejected: set<string>)
  {
    function CollectionsUnder(path: string): seq<string> {
      if path in collectionPaths then collectionPaths[path] else []
    }
    function DocumentsOf(path: string): seq<string> {
      if path in documentIds then documentIds[path] else []
    }
  }

  /** `limit(10)` on the document query. */
  const PageSize: nat := 10

  /** The first `n` elements of `s`, or all of them. */
  function Take<T>(s: seq<T>, n: nat): (r: seq<T>)
    ensures |r| == if |s| < n then |s| else n
    ensures r == s[..|r|]
  {
    if |s| < n then s else s[..n]
  }

  /** Cache `cache'` is `cache` with an entry at `key` and every other entry kept. */
  predicate OverwritesOnly(cache: Cache, cache': Cache, key: string) {
    && cache'.Keys == cache.Keys + {key}
    && forall k :: k in cache && k != key ==> cache'[k] == cache[k]
  }

  /** Cache `cache'` differs from `cache` at most in the entry at `key`, and lost none. */
  predicate ChangesAtMost(cache: Cache, cache': Cache, key: string) {
    && cache.Keys <= cache'.Keys <= cache.Keys + {key}
    && forall k :: k in cache && k != key ==> cache'[k] == cache[k]
  }

  /**
    `listCollections(rawPath)`: unless the path has no reference and is not
    the root, or the callable rejects, store a node at the validated path whose
    children are the collection references of the listed paths, in order, and
    whose `ref` is the path's reference (none for the root).
   */
  function ListCollections(cache: Cache, rawPath: string, backend: Backend): (c: Cache)
    ensures var v := ValidReferenceFromPath(rawPath);
      && (v.ref.None? && !v.isRootPath ==> c == cache)
      && (v.validatedPath in backend.rejected ==> c == cache)
      && ((v.ref.Some? || v.isRootPath) && v.validatedPath !in backend.rejected ==>
            && OverwritesOnly(cache, c, v.validatedPath)
            && c[v.validatedPath].ref == v.ref
            && var listed := backend.CollectionsUnder(v.validatedPath);
               && |c[v.validatedPath].children| == |listed|
               && forall i :: 0 <= i < |listed| ==>
                    c[v.validatedPath].children[i].Coll? &&
                    c[v.validatedPath].children[i].Path() == listed[i])
  {
    var v := ValidReferenceFromPath(rawPath);
    if v.ref.None? && !v.isRootPath then cache
    else if v.validatedPath in backend.rejected then cache
    else
      var listed := backend.CollectionsUnder(v.validatedPath);
      var children := CollectionRefs(listed);
      cache[v.validatedPath := Node(children, v.ref)]
  }

  /** `paths.map(p => collection(db, p))`. */
  function CollectionRefs(paths: seq<string>): (refs: seq<Ref>)
    ensures |refs| == |paths|
    ensures forall i :: 0 <= i < |paths| ==> refs[i].Coll? && refs[i].Path() == paths[i]
  {
    if |paths| == 0 then []
    else
      JoinSplit(paths[0], '/');
      [Coll(Split(paths[0], '/'))] + CollectionRefs(paths[1..])
  }

  /**
    The check at the head of `listDocuments`: it reports an invalid path when
    there is no reference or the path is not a document path.
   */
  predicate ListDocumentsCheckFails(rawPath: string) {
    var v := ValidReferenceFromPath(rawPath);
    v.ref.None? || !v.isDocumentPath
  }

  /**
    `listDocuments(rawPath)` on a collection path (the only kind the cursor
    handler passes, and the only kind `collection()` accepts): store a node at
    the validated path whose children are the references of at most ten
    documents of that collection, in query order. Each child is a document
    whose parent is the listed collection. A rejected query leaves the cache
    as it was.
   */
  function ListDocuments(cache: Cache, rawPath: string, backend: Backend): (c: Cache)
    requires ValidReferenceFromPath(rawPath).isCollectionPath
    requires !ValidReferenceFromPath(rawPath).isRootPath
    ensures ValidReferenceFromPath(rawPath).validatedPath in backend.rejected ==> c == cache
    ensures ValidReferenceFromPath(rawPath).validatedPath !in backend.rejected ==>
      OverwritesOnly(cache, c, ValidReferenceFromPath(rawPath).validatedPath)
    ensures ValidReferenceFromPath(rawPath).validatedPath !in backend.rejected ==>
      var v := ValidReferenceFromPath(rawPath);
      var ids := backend.DocumentsOf(v.validatedPath);
      var node := c[v.validatedPath];
      && node.ref == v.ref
      && |node.children| <= PageSize
      && |node.children| == (if |ids| < PageSize then |ids| else PageSize)
      && forall i :: 0 <= i < |node.children| ==>
           && node.children[i].Doc?
           && node.children[i].Id() == ids[i]
           && node.children[i].Parent() == v.ref
  {
    var v := ValidReferenceFromPath(rawPath);
    RefIffNotRoot(rawPath);
    if v.validatedPath in backend.rejected then cache
    else
      var ids := Take(backend.DocumentsOf(v.validatedPath), PageSize);
      cache[v.validatedPath := Node(DocumentRefs(v.ref.value.segments, ids), v.ref)]
  }

  /** `docs.map(d => d.ref)` for the documents `ids` of the collection at `segments`. */
  function DocumentRefs(segments: seq<string>, ids: seq<string>): (refs: seq<Ref>)
    ensures |refs| == |ids|
    ensures forall i :: 0 <= i < |ids| ==>
      refs[i].Doc? && refs[i].Id() == ids[i] && refs[i].segments == segments + [ids[i]]
  {
    if |ids| == 0 then [] else [Doc(segments + [ids[0]])] + DocumentRefs(segments, ids[1..])
  }

  /**
    The head check of `listDocuments` fires for every path the cursor handler
    sends there, yet, its `return` being disabled, the cache is written
    anyway unless the query rejects.
   */
  lemma ListDocumentsCheckAlwaysFires(rawPath: string, cache: Cache, backend: Backend)
    requires ValidReferenceFromPath(rawPath).isCollectionPath
    requires !ValidReferenceFromPath(rawPath).isRootPath
    ensures ListDocumentsCheckFails(rawPath)
    ensures var p := ValidReferenceFromPath(rawPath).validatedPath;
      p in ListDocuments(cache, rawPath, backend) <==> p in cache || p !in backend.rejected
  {
    KindByParity(rawPath);
  }

  /**
    The early exit of `listCollections` (no reference, not the root) is never
    taken: every path without a reference is the root. So the validated path
    gets an entry exactly when the callable does not reject (or it had one).
   */
  lemma ListCollectionsExitNeverTaken(rawPath: string, cache: Cache, backend: Backend)
    ensures var v := ValidReferenceFromPath(rawPath); v.ref.Some? || v.isRootPath
    ensures var p := ValidReferenceFromPath(rawPath).validatedPath;
      p in ListCollections(cache, rawPath, backend) <==> p in cache || p !in backend.rejected
  {
    RefIffNotRoot(rawPath);
    RootIsAlsoCollection(rawPath);
  }

  /** What the cursor handler does with one value. */
  datatype Action =
    | ReEmit(path: string)
    | ListCollectionsAt(path: string)
    | ListDocumentsAt(path: string)

  /**
    The body of the `switchMap` callback: a value that differs from its
    reference's (non-empty) path is replaced by that path and nothing is
    listed; otherwise root and document paths list collections and
    everything else lists documents.
   */
  function Dispatch(rawPath: string): (a: Action)
    ensures var v := ValidReferenceFromPath(rawPath);
      && (a.ReEmit? <==> v.validatedPath != "" && rawPath != v.validatedPath)
      && (a.ReEmit? ==> a.path == Normalise(rawPath) && |a.path| < |rawPath|)
      && (a.ListCollectionsAt? <==> !a.ReEmit? && (v.isRootPath || v.isDocumentPath))
      && (a.ListDocumentsAt? <==> !a.ReEmit? && !v.isRootPath && v.isCollectionPath)
      && (!a.ReEmit? ==> a.path == v.validatedPath)
  {
    var v := ValidReferenceFromPath(rawPath);
    RefIffNotRoot(rawPath);
    RootIsAlsoCollection(rawPath);
    KindByParity(rawPath);
    NormaliseShrinks(rawPath);
    if v.ref.Some? && rawPath != v.ref.value.Path() && v.ref.value.Path() != "" then
      ReEmit(v.ref.value.Path())
    else if v.isDocumentPath || v.isRootPath then
      ListCollectionsAt(v.validatedPath)
    else
      ListDocumentsAt(v.validatedPath)
  }

  /**
    The service: the cursor value, the last value that passed
    `distinctUntilChanged` (none before the subscription), whether the
    handler is subscribed (from sign-in on), and the cache.
   */
  datatype Session = Session(
    cursor: string,
    lastHandled: Option<string>,
    subscribed: bool,
    cache: Cache)

  /** `path$` starts at `''`, unsubscribed, with an empty cache. */
  const Initial: Session := Session("", None, false, map[])

  /**
    `path$.next(rawPath)`: the cursor takes the value; once subscribed, a value
    equal to the last handled one is dropped, and any other one is handled.
   */
  function Next(s: Session, rawPath: string, backend: Backend): (s': Session)
    ensures s.cache.Keys <= s'.cache.Keys
    ensures s'.subscribed == s.subscribed
    ensures !s.subscribed ==> s' == s.(cursor := rawPath)
    ensures s.subscribed && s.lastHandled == Some(rawPath) ==> s' == s.(cursor := rawPath)
    decreases |rawPath|
  {
    var s1 := s.(cursor := rawPath);
    if !s.subscribed || s.lastHandled == Some(rawPath) then s1
    else Handle(s1.(lastHandled := Some(rawPath)), rawPath, backend)
  }

  /** Runs the handler on `rawPath`; a re-emitted path goes through `next` again. */
  function Handle(s: Session, rawPath: string, backend: Backend): (s': Session)
    requires s.subscribed
    ensures s.cache.Keys <= s'.cache.Keys
    ensures s'.subscribed
    decreases |rawPath|, 0
  {
    match Dispatch(rawPath)
    case ReEmit(p) => Next(s, p, backend)
    case ListCollectionsAt(p) => HandleCollections(s, rawPath, backend)
    case ListDocumentsAt(p) => HandleDocuments(s, rawPath, backend)
  }

  /**
    The collection-listing branch of the handler, taken for root and document
    paths: only the cache changes, and only at the normalised path, which gets
    the listed collections unless the callable rejects.
   */
  function HandleCollections(s: Session, rawPath: string, backend: Backend): (s': Session)
    requires s.subscribed && Dispatch(rawPath).ListCollectionsAt?
    ensures s'.cursor == s.cursor && s'.lastHandled == s.lastHandled && s'.subscribed
    ensures ChangesAtMost(s.cache, s'.cache, Normalise(rawPath))
    ensures var v := ValidReferenceFromPath(rawPath);
      var p := Normalise(rawPath);
      && (v.isRootPath || v.isDocumentPath)
      && (p in backend.rejected ==> s'.cache == s.cache)
      && (p !in backend.rejected ==>
            && OverwritesOnly(s.cache, s'.cache, p)
            && s'.cache[p].ref == v.ref
            && |s'.cache[p].children| == |backend.CollectionsUnder(p)|
            && forall i :: 0 <= i < |backend.CollectionsUnder(p)| ==>
                 s'.cache[p].children[i].Coll? &&
                 s'.cache[p].children[i].Path() == backend.CollectionsUnder(p)[i])
  {
    NormaliseFixpointOfListed(rawPath);
    ListCollectionsExitNeverTaken(rawPath, s.cache, backend);
    s.(cache := ListCollections(s.cache, Dispatch(rawPath).path, backend))
  }

  /**
    The document-listing branch of the handler, taken for non-root collection
    paths: only the cache changes, and only at the normalised path, which gets
    at most ten documents of the collection unless the query rejects.
   */
  function HandleDocuments(s: Session, rawPath: string, backend: Backend): (s': Session)
    requires s.subscribed && Dispatch(rawPath).ListDocumentsAt?
    ensures s'.cursor == s.cursor && s'.lastHandled == s.lastHandled && s'.subscribed
    ensures ChangesAtMost(s.cache, s'.cache, Normalise(rawPath))
    ensures var v := ValidReferenceFromPath(rawPath);
      var p := Normalise(rawPath);
      && v.isCollectionPath && !v.isRootPath
      && (p in backend.rejected ==> s'.cache == s.cache)
      && (p !in backend.rejected ==>
            && OverwritesOnly(s.cache, s'.cache, p)
            && s'.cache[p].ref == v.ref
            && |s'.cache[p].children| <= PageSize
            && forall i :: 0 <= i < |s'.cache[p].children| ==>
                 s'.cache[p].children[i].Doc? && s'.cache[p].children[i].Parent() == v.ref)
  {
    ListedDocumentsPath(rawPath);
    NormaliseFixpointOfListed(rawPath);
    s.(cache := ListDocuments(s.cache, Dispatch(rawPath).path, backend))
  }

  /** A path the handler lists documents of is a collection path other than the root. */
  lemma ListedDocumentsPath(rawPath: string)
    requires Dispatch(rawPath).ListDocumentsAt?
    ensures ValidReferenceFromPath(Dispatch(rawPath).path).isCollectionPath
    ensures !ValidReferenceFromPath(Dispatch(rawPath).path).isRootPath
  {
    NormaliseFixpointOfListed(rawPath);
  }

  /** A path the handler lists is its own validated path, so re-validating it agrees. */
  lemma NormaliseFixpointOfListed(rawPath: string)
    requires !Dispatch(rawPath).ReEmit?
    ensures ValidReferenceFromPath(Dispatch(rawPath).path) == ValidReferenceFromPath(rawPath)
  {
    var v := ValidReferenceFromPath(rawPath);
    if v.validatedPath != "" {
      assert rawPath == v.validatedPath;
    } else {
      assert Normalise("") == "";
    }
  }

  /**
    The path of the signed-in user's own collection, which the cursor moves to
    once the user is authenticated.
   */
  function UserPath(uid: string): string {
    "private/user/" + uid
  }

  /**
    Authentication: the cursor is set to the user's path, and then the handler
    subscribes, receiving that current value at once. The session ends
    subscribed and at rest, and the cache changes at most at the normalised
    value the cursor ends on.
   */
  function SignIn(s: Session, uid: string, backend: Backend): (s': Session)
    requires !s.subscribed
    ensures s'.subscribed && Settled(s')
    ensures ChangesAtMost(s.cache, s'.cache, Normalise(s'.cursor))
  {
    var s0 := s.(cursor := UserPath(uid), subscribed := true, lastHandled := None);
    HandleSettles(s0.(lastHandled := Some(UserPath(uid))), UserPath(uid), backend);
    NextChangesOneEntry(s0, UserPath(uid), backend);
    var s1 := s.(cursor := UserPath(uid), subscribed := true);
    Next(s1.(lastHandled := None), UserPath(uid), backend)
  }

  /**
    A session at rest: once subscribed, the last handled value is the cursor,
    and the cursor is the root or its own canonical path.
   */
  predicate Settled(s: Session) {
    s.subscribed ==> s.lastHandled == Some(s.cursor) && AtRest(s.cursor)
  }

  /** A value the handler lists without re-emitting: the root, or a canonical path. */
  predicate AtRest(path: string) {
    Normalise(path) == "" || Normalise(path) == path
  }

  /**
    Whatever value is pushed, the chain of re-emissions ends: the session
    comes to rest with the cursor on the canonical form of the pushed value
    (or on a root value) and that value handled.
   */
  lemma {:induction false} NextSettles(s: Session, rawPath: string, backend: Backend)
    requires s.subscribed ==> s.lastHandled.Some?
    requires s.lastHandled == Some(rawPath) ==> AtRest(rawPath)
    ensures Settled(Next(s, rawPath, backend))
    decreases |rawPath|
  {
    if s.subscribed && s.lastHandled != Some(rawPath) {
      var s1 := s.(cursor := rawPath, lastHandled := Some(rawPath));
      HandleSettles(s1, rawPath, backend);
    }
  }

  lemma {:induction false} HandleSettles(s: Session, rawPath: string, backend: Backend)
    requires s.subscribed && s.cursor == rawPath && s.lastHandled == Some(rawPath)
    ensures Settled(Handle(s, rawPath, backend))
    decreases |rawPath|, 0
  {
    match Dispatch(rawPath)
    case ReEmit(p) =>
      assert p != rawPath;
      NextSettles(s, p, backend);
    case ListCollectionsAt(p) =>
    case ListDocumentsAt(p) =>
  }

  /** Signing in leaves the session at rest. */
  lemma SignInSettles(s: Session, uid: string, backend: Backend)
    requires !s.subscribed
    ensures Settled(SignIn(s, uid, backend))
    ensures SignIn(s, uid, backend).subscribed
  {
    var s1 := s.(cursor := UserPath(uid), subscribed := true, lastHandled := None);
    HandleSettles(s1.(lastHandled := Some(UserPath(uid))), UserPath(uid), backend);
  }

  /**
    For a well-formed user id (non-empty, not ending in whitespace, without
    `'/'`), signing in puts the cursor on `private/user/{uid}` and lists the
    documents of that collection.
   */
  lemma SignInCursor(s: Session, uid: string, backend: Backend)
    requires !s.subscribed
    requires |uid| > 0 && !IsWhitespace(uid[|uid| - 1]) && '/' !in uid
    ensures var s' := SignIn(s, uid, backend);
      var v := ValidReferenceFromPath(UserPath(uid));
      && s'.cursor == UserPath(uid)
      && v.isCollectionPath && !v.isRootPath
      && s'.cache == ListDocuments(s.cache, UserPath(uid), backend)
  {
    var p := UserPath(uid);
    UserPathIsCollection(uid);
    var s0 := s.(cursor := p, subscribed := true).(lastHandled := None);
    var s2 := s0.(cursor := p, lastHandled := Some(p));
    assert Next(s0, p, backend) == Handle(s2, p, backend);
    assert Dispatch(p) == ListDocumentsAt(p);
    assert Handle(s2, p, backend) == s2.(cache := ListDocuments(s2.cache, p, backend));
  }

  /** `private/user/{uid}` is a canonical, non-root collection path. */
  lemma UserPathIsCollection(uid: string)
    requires |uid| > 0 && !IsWhitespace(uid[|uid| - 1]) && '/' !in uid
    ensures Normalise(UserPath(uid)) == UserPath(uid)
    ensures ValidReferenceFromPath(UserPath(uid)).isCollectionPath
    ensures !ValidReferenceFromPath(UserPath(uid)).isRootPath
  {
    UserPathCanonical(uid);
    UserPathSeparators(uid);
    CanonicalCollectionPath(UserPath(uid));
  }

  /** The user's path neither carries outer whitespace nor ends in `'/'`. */
  lemma UserPathCanonical(uid: string)
    requires |uid| > 0 && !IsWhitespace(uid[|uid| - 1]) && '/' !in uid
    ensures Normalise(UserPath(uid)) == UserPath(uid) != ""
  {
    var p := UserPath(uid);
    assert p[|p| - 1] == uid[|uid| - 1];
    assert !HasOuterWhitespace(p) by {
      assert p[0] == 'p';
    }
    assert !EndsWithSlash(p) by {
      assert uid[|uid| - 1] in uid;
    }
    NormaliseFixpoint(p);
  }

  /** The user's path holds exactly the two separators of its prefix. */
  lemma UserPathSeparators(uid: string)
    requires '/' !in uid
    ensures Count(UserPath(uid), '/') == 2
  {
    CountAppend("private/user/", uid, '/');
    CountZero(uid, '/');
  }

  /**
    `distinctUntilChanged`: pushing a canonical value twice in a row handles
    it once; the second push changes nothing.
   */
  lemma RepeatedValueHandledOnce(s: Session, rawPath: string, backend: Backend)
    requires Settled(s) && s.subscribed
    requires Normalise(rawPath) == rawPath
    ensures Next(Next(s, rawPath, backend), rawPath, backend) == Next(s, rawPath, backend)
  {
    var s1 := Next(s, rawPath, backend);
    NextSettles(s, rawPath, backend);
    if s.lastHandled != Some(rawPath) {
      var d := Dispatch(rawPath);
      assert !d.ReEmit?;
    }
  }

  /**
    A value that is not canonical triggers no listing of its own: the
    result is exactly that of pushing its canonical path.
   */
  lemma ReEmitListsNothing(s: Session, rawPath: string, backend: Backend)
    requires s.subscribed && s.lastHandled != Some(rawPath)
    requires Dispatch(rawPath).ReEmit?
    ensures Next(s, rawPath, backend) ==
      Next(s.(cursor := rawPath, lastHandled := Some(rawPath)), Normalise(rawPath), backend)
  {
  }

  /**
    Pushing a value changes the cache at most at the normalised form of the
    value the cursor ends on: every other entry keeps its node, and none is
    removed.
   */
  lemma {:induction false} NextChangesOneEntry(s: Session, rawPath: string, backend: Backend)
    ensures var s' := Next(s, rawPath, backend);
      ChangesAtMost(s.cache, s'.cache, Normalise(s'.cursor))
    decreases |rawPath|
  {
    if s.subscribed && s.lastHandled != Some(rawPath) {
      var s1 := s.(cursor := rawPath, lastHandled := Some(rawPath));
      HandleChangesOneEntry(s1, rawPath, backend);
    }
  }

  lemma {:induction false} HandleChangesOneEntry(s: Session, rawPath: string, backend: Backend)
    requires s.subscribed && s.cursor == rawPath
    ensures var s' := Handle(s, rawPath, backend);
      ChangesAtMost(s.cache, s'.cache, Normalise(s'.cursor))
    decreases |rawPath|, 0
  {
    match Dispatch(rawPath)
    case ReEmit(p) =>
      NextChangesOneEntry(s, p, backend);
    case ListCollectionsAt(p) =>
    case ListDocumentsAt(p) =>
  }
}
