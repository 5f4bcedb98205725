/**
  `PathComponent`: the editable path bar. It validates edited text for double
  slashes, writes edits to the cursor, copies every cursor value back into the
  text field without emitting, and rebuilds the breadcrumb references from
  each cursor value.
 */
module PathComponent {
  import opened Wrappers
  import opened JsString
  import opened FirestoreRef
  import opened PathClassifier

  /** The message `PathValidator` reports. */
  const DoubleSlashError := "Path cannot contain double slashes"

  /** `value.includes('//')`, scanning left to right. */
  function ContainsDoubleSlash(value: string): (found: bool)
    ensures found <==> HasAdjacentPair(value, '/')
    decreases |value|
  {
    if |value| < 2 then false
    else if value[0] == '/' && value[1] == '/' then true
    else
      var found := ContainsDoubleSlash(value[1..]);
      assert found ==> HasAdjacentPair(value, '/') by {
        if found {
          var i :| 0 <= i < |value[1..]| - 1 && value[1..][i] == '/' && value[1..][i + 1] == '/';
          assert value[i + 1] == '/' && value[i + 2] == '/';
        }
      }
      assert HasAdjacentPair(value, '/') ==> found by {
        if HasAdjacentPair(value, '/') {
          var i :| 0 <= i < |value| - 1 && value[i] == '/' && value[i + 1] == '/';
          assert i != 0;
          assert value[1..][i - 1] == '/' && value[1..][i] == '/';
        }
      }
      found
  }

  /** `PathValidator`: an error exactly when the value contains `'//'`. */
  function PathValidator(value: string): (error: Option<string>)
    ensures error.Some? <==> HasAdjacentPair(value, '/')
    ensures error.Some? ==> error.value == DoubleSlashError
  {
    if ContainsDoubleSlash(value) then Some(DoubleSlashError) else None
  }

  /** Some piece of the split other than the first and the last is empty. */
  predicate HasEmptyInnerPiece(s: string) {
    exists i :: 0 < i < |Split(s, '/')| - 1 && Split(s, '/')[i] == ""
  }

  /**
    The validator rejects exactly the paths whose split has an empty piece
    strictly inside; an empty first or last piece (a leading or trailing
    `'/'`) passes.
   */
  lemma {:induction false} ValidatorRejectsEmptyInnerPieces(s: string)
    ensures PathValidator(s).Some? <==> HasEmptyInnerPiece(s)
    decreases |s|
  {
    if |s| > 0 {
      var rest := s[1..];
      ValidatorRejectsEmptyInnerPieces(rest);
      FirstPieceEmpty(rest);
      if s[0] == '/' {
        SlashHeadStep(s);
      } else {
        OtherHeadStep(s);
      }
    }
  }

  /** Some piece of the split other than the last is empty. */
  predicate HasEmptyLeadingPiece(s: string) {
    exists j :: 0 <= j < |Split(s, '/')| - 1 && Split(s, '/')[j] == ""
  }

  /** A leading `'/'` adds an empty first piece and one more place for a `'//'`. */
  lemma SlashHeadStep(s: string)
    requires |s| > 0 && s[0] == '/'
    ensures HasAdjacentPair(s, '/') <==> (|s| > 1 && s[1] == '/') || HasAdjacentPair(s[1..], '/')
    ensures HasEmptyInnerPiece(s) <==> HasEmptyLeadingPiece(s[1..])
  {
    var rest := s[1..];
    var p := Split(rest, '/');
    var ps := Split(s, '/');
    assert ps == [""] + p;
    if HasAdjacentPair(s, '/') {
      var i :| 0 <= i < |s| - 1 && s[i] == '/' && s[i + 1] == '/';
      if i > 0 { assert rest[i - 1] == '/' && rest[i] == '/'; }
    }
    if HasAdjacentPair(rest, '/') {
      var i :| 0 <= i < |rest| - 1 && rest[i] == '/' && rest[i + 1] == '/';
      assert s[i + 1] == '/' && s[i + 2] == '/';
    }
    if HasEmptyInnerPiece(s) {
      var i :| 0 < i < |ps| - 1 && ps[i] == "";
      assert p[i - 1] == "";
    }
    if HasEmptyLeadingPiece(rest) {
      var j :| 0 <= j < |p| - 1 && p[j] == "";
      assert ps[j + 1] == "";
    }
  }

  /** Any other first character joins the first piece and changes neither property. */
  lemma OtherHeadStep(s: string)
    requires |s| > 0 && s[0] != '/'
    ensures HasAdjacentPair(s, '/') <==> HasAdjacentPair(s[1..], '/')
    ensures HasEmptyInnerPiece(s) <==> HasEmptyInnerPiece(s[1..])
  {
    var rest := s[1..];
    var p := Split(rest, '/');
    var ps := Split(s, '/');
    assert ps == [[s[0]] + p[0]] + p[1..];
    if HasAdjacentPair(s, '/') {
      var i :| 0 <= i < |s| - 1 && s[i] == '/' && s[i + 1] == '/';
      assert rest[i - 1] == '/' && rest[i] == '/';
    }
    if HasAdjacentPair(rest, '/') {
      var i :| 0 <= i < |rest| - 1 && rest[i] == '/' && rest[i + 1] == '/';
      assert s[i + 1] == '/' && s[i + 2] == '/';
    }
    if HasEmptyInnerPiece(s) {
      var i :| 0 < i < |ps| - 1 && ps[i] == "";
      assert p[i] == "";
    }
    if HasEmptyInnerPiece(rest) {
      var i :| 0 < i < |p| - 1 && p[i] == "";
      assert ps[i] == "";
    }
  }

  /** The first piece of a split is empty exactly when the string is empty or starts with `'/'`. */
  lemma FirstPieceEmpty(s: string)
    ensures Split(s, '/')[0] == "" <==> |s| == 0 || s[0] == '/'
    ensures |s| > 0 && s[0] == '/' ==> |Split(s, '/')| >= 2
  {
  }

  /**
    The breadcrumb list for a cursor value: unchanged when the value is
    neither the root nor resolvable, empty for the root, and otherwise the
    reference's chain of parents, root-first, ending with the reference.
   */
  function Breadcrumbs(refs: seq<Ref>, cursor: string): seq<Ref> {
    var v := ValidReferenceFromPath(cursor);
    if v.ref.None? && !v.isRootPath then refs
    else if v.ref.None? then []
    else AncestorChain(v.ref.value)
  }

  /**
    The breadcrumb loop: push the reference, then put each `parent` in front
    until there is none.
   */
  method BuildBreadcrumbs(ref: Option<Ref>) returns (refs: seq<Ref>)
    ensures ref.None? ==> refs == []
    ensures ref.Some? ==> refs == AncestorChain(ref.value)
  {
    refs := [];
    if ref.Some? {
      refs := [ref.value];
    }
    var parent := if ref.Some? then ref.value.Parent() else None;
    while parent.Some?
      invariant ref.None? ==> refs == [] && parent.None?
      invariant ref.Some? && parent.Some? ==> AncestorChain(parent.value) + refs == AncestorChain(ref.value)
      invariant ref.Some? && parent.None? ==> refs == AncestorChain(ref.value)
      decreases if parent.Some? then |parent.value.segments| + 1 else 0
    {
      var p := parent.value;
      if p.Parent().Some? {
        assert AncestorChain(p) == AncestorChain(p.Parent().value) + [p];
      }
      refs := [p] + refs;
      parent := p.Parent();
    }
  }

  /**
    For a non-root cursor value the breadcrumbs hold one reference per path
    segment: entry `i` addresses the first `i + 1` segments (a collection for
    odd counts, a document for even), each is the parent of the next, and the
    last is the cursor's own reference. The root gives no breadcrumbs.
   */
  lemma BreadcrumbsSpec(refs: seq<Ref>, cursor: string)
    ensures var v := ValidReferenceFromPath(cursor);
      var b := Breadcrumbs(refs, cursor);
      var segments := Split(v.validatedPath, '/');
      && (v.isRootPath ==> b == [])
      && (!v.isRootPath ==>
            && |b| == |segments|
            && b[|b| - 1] == v.ref.value
            && (forall i :: 0 <= i < |b| ==> b[i] == FromSegments(segments[..i + 1]))
            && (forall i :: 0 <= i < |b| - 1 ==> b[i + 1].Parent() == Some(b[i])))
  {
    var v := ValidReferenceFromPath(cursor);
    RefIffNotRoot(cursor);
    RootIsAlsoCollection(cursor);
    if !v.isRootPath {
      AncestorChainIsPrefixes(v.ref.value);
    }
  }

  /** The early return for an unresolvable non-root value is never taken. */
  lemma BreadcrumbsNeverKeepStale(refs: seq<Ref>, cursor: string)
    ensures var v := ValidReferenceFromPath(cursor);
      v.ref.Some? || v.isRootPath
  {
    RefIffNotRoot(cursor);
    RootIsAlsoCollection(cursor);
  }

  /** The path bar: the text field's value and the breadcrumb references. */
  datatype PathView = PathView(control: string, refs: seq<Ref>)

  /**
    A cursor value reaches the bar: the text field takes it with
    `emitEvent: false`, so no cursor write results, and the breadcrumbs are
    rebuilt: none for the root, otherwise the chain of ancestors ending at
    the cursor's reference, one per segment.
   */
  function OnCursorChange(view: PathView, cursor: string): (r: (PathView, Option<string>))
    ensures r.0.control == cursor
    ensures r.1.None?
    ensures var v := ValidReferenceFromPath(cursor);
      && (v.isRootPath <==> r.0.refs == [])
      && (!v.isRootPath ==>
            && v.ref.Some?
            && r.0.refs == AncestorChain(v.ref.value)
            && |r.0.refs| == |Split(v.validatedPath, '/')|
            && r.0.refs[|r.0.refs| - 1] == v.ref.value)
  {
    BreadcrumbsNeverKeepStale(view.refs, cursor);
    BreadcrumbsSpec(view.refs, cursor);
    (PathView(cursor, Breadcrumbs(view.refs, cursor)), None)
  }

  /**
    The breadcrumbs shown after a cursor change depend on the new value
    alone: whatever the bar showed before is never kept.
   */
  lemma OnCursorChangeForgetsOldRefs(view: PathView, view': PathView, cursor: string)
    ensures OnCursorChange(view, cursor) == OnCursorChange(view', cursor)
  {
  }

  /**
    An edited value (emitted on blur) becomes the next cursor value,
    `path || ''`: an absent or empty value moves the cursor to the root, and
    the validator's verdict does not stop the write.
   */
  function EditedCursorValue(edited: Option<string>): (cursor: string)
    ensures cursor == "" <==> edited.None? || edited == Some("")
    ensures edited.Some? ==> cursor == edited.value
  {
    match edited
    case None => ""
    case Some(text) => if text == "" then "" else text
  }
}
