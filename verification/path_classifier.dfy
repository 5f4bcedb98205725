/**
  `validReferenceFromPath`: trims a raw path, drops one trailing `'/'`, and
  classifies the result by the parity of its `'/'`-split. The empty path is the
  root; it has no reference, yet its split has one piece, so it also counts as
  a collection path.
 */
module PathClassifier {
  import opened Wrappers
  import opened JsString
  import opened FirestoreRef

  /** What `validReferenceFromPath` returns. */
  datatype Validation = Validation(
    isDocumentPath: bool,
    isCollectionPath: bool,
    isRootPath: bool,
    validatedPath: string,
    ref: Option<Ref>)

  predicate EndsWithSlash(s: string) {
    |s| > 0 && s[|s| - 1] == '/'
  }

  /** `s.replace(/\/$/, '')`: one `'/'` at the very end is removed. */
  function StripTrailingSlash(s: string): string {
    if EndsWithSlash(s) then s[..|s| - 1] else s
  }

  /** `rawPath.trim().replace(/\/$/, '')`. */
  function Normalise(raw: string): string {
    StripTrailingSlash(Trim(raw))
  }

  /** The split of `path` has an even number of pieces. */
  predicate IsDocumentPath(path: string) {
    |Split(path, '/')| % 2 == 0
  }

  /** The split of `path` has an odd number of pieces. */
  predicate IsCollectionPath(path: string) {
    |Split(path, '/')| % 2 == 1
  }

  function ValidReferenceFromPath(raw: string): Validation {
    var path := Normalise(raw);
    var isRoot := path == "";
    var ref :=
      if isRoot then None
      else if IsDocumentPath(path) then Some(Doc(Split(path, '/')))
      else if IsCollectionPath(path) then Some(Coll(Split(path, '/')))
      else None;
    Validation(IsDocumentPath(path), IsCollectionPath(path), isRoot, path, ref)
  }

  /**
    The validated path is the trimmed input with at most one trailing `'/'`
    removed, and nothing else changed.
   */
  lemma NormaliseSpec(raw: string)
    ensures var v := ValidReferenceFromPath(raw).validatedPath;
      && (EndsWithSlash(Trim(raw)) ==> Trim(raw) == v + "/")
      && (!EndsWithSlash(Trim(raw)) ==> Trim(raw) == v)
  {
  }

  /**
    A path is a document path exactly when it holds an odd number of `'/'`
    separators, a collection path exactly when it holds an even number, so
    every input is exactly one of the two.
   */
  lemma KindByParity(raw: string)
    ensures var v := ValidReferenceFromPath(raw);
      && (v.isDocumentPath <==> Count(v.validatedPath, '/') % 2 == 1)
      && (v.isCollectionPath <==> Count(v.validatedPath, '/') % 2 == 0)
      && v.isDocumentPath != v.isCollectionPath
  {
  }

  /**
    The root flag holds exactly for the empty validated path, and then the
    collection flag holds too while the document flag does not.
   */
  lemma RootIsAlsoCollection(raw: string)
    ensures var v := ValidReferenceFromPath(raw);
      && (v.isRootPath <==> v.validatedPath == "")
      && (v.isRootPath ==> v.isCollectionPath && !v.isDocumentPath)
  {
    var path := Normalise(raw);
    if path == "" {
      assert Split(path, '/') == [""];
    }
  }

  /**
    A canonical, non-empty path with an even number of separators is a
    collection path and not the root.
   */
  lemma CanonicalCollectionPath(p: string)
    requires Normalise(p) == p != ""
    requires Count(p, '/') % 2 == 0
    ensures ValidReferenceFromPath(p).isCollectionPath && !ValidReferenceFromPath(p).isRootPath
  {
    KindByParity(p);
  }

  /**
    There is no reference exactly for the root; otherwise the reference is a
    document for an even split and a collection for an odd one, built from
    the pieces of the split, and its `path` is the validated path again.
   */
  lemma RefIffNotRoot(raw: string)
    ensures var v := ValidReferenceFromPath(raw);
      && (v.ref.None? <==> v.validatedPath == "")
      && (v.ref.Some? ==>
            && v.ref.value.Doc? == v.isDocumentPath
            && v.ref.value.segments == Split(v.validatedPath, '/')
            && v.ref.value.Path() == v.validatedPath
            && WellKinded(v.ref.value))
  {
    var v := ValidReferenceFromPath(raw);
    JoinSplit(v.validatedPath, '/');
  }

  /**
    Normalising changes nothing exactly when the path neither starts nor
    ends with whitespace and does not end with `'/'`.
   */
  lemma NormaliseFixpoint(s: string)
    ensures Normalise(s) == s <==> !HasOuterWhitespace(s) && !EndsWithSlash(s)
  {
    TrimSpec(s);
    if !HasOuterWhitespace(s) {
      TrimNoOuterWhitespace(s);
    }
  }

  /**
    Normalising twice is normalising once, provided the first result ends
    neither in `'/'` nor in whitespace.
   */
  lemma NormaliseIdempotent(raw: string)
    requires !EndsWithSlash(Normalise(raw))
    requires |Normalise(raw)| == 0 || !IsWhitespace(Normalise(raw)[|Normalise(raw)| - 1])
    ensures Normalise(Normalise(raw)) == Normalise(raw)
    ensures ValidReferenceFromPath(Normalise(raw)) == ValidReferenceFromPath(raw)
  {
    var t := Trim(raw);
    var n := Normalise(raw);
    TrimSpec(raw);
    if |n| > 0 {
      assert n[0] == t[0];
    }
    NormaliseFixpoint(n);
  }

  /**
    Ending without `'/'` is not enough for idempotence: `"a /"` normalises to
    `"a "`, which normalises to `"a"`.
   */
  lemma NormaliseNotIdempotentExample()
    ensures Normalise("a /") == "a " && !EndsWithSlash("a ")
    ensures Normalise("a ") == "a"
  {
    assert IsWhitespace(' ');
    assert TrimStart("a /") == "a /";
    assert TrimEnd("a /") == "a /";
    assert TrimStart("a ") == "a ";
    assert TrimEnd("a ") == TrimEnd("a");
    assert TrimEnd("a") == "a";
  }

  /** When normalising changes a path it makes it strictly shorter. */
  lemma NormaliseShrinks(s: string)
    ensures |Normalise(s)| <= |s|
    ensures Normalise(s) != s ==> |Normalise(s)| < |s|
  {
    TrimSpec(s);
  }
}
