/**
  The SDK's `CollectionReference` and `DocumentReference`, reduced to what the
  console uses: the segments of the referenced path, the kind, `path`, `id`
  and `parent`.
 */
module FirestoreRef {
  import opened Wrappers
  import opened JsString

  /** A reference to the collection or document at the path `segments`. */
  datatype Ref = Coll(segments: seq<string>) | Doc(segments: seq<string>) {

    /** `ref.path`: the segments joined with `'/'`. */
    function Path(): string {
      Join(segments, '/')
    }

    /** `ref.id`: the last segment. */
    function Id(): string {
      if |segments| == 0 then "" else segments[|segments| - 1]
    }

    /**
      `ref.parent`: a document's parent is its collection; a collection's
      parent is the document holding it, and a top-level collection has none.
     */
    function Parent(): Option<Ref> {
      if |segments| < 2 then None
      else
        var init := segments[..|segments| - 1];
        if Doc? then Some(Coll(init)) else Some(Doc(init))
    }
  }

  /** A reference the SDK can build: collections have an odd number of segments, documents an even one. */
  predicate WellKinded(r: Ref) {
    |r.segments| >= 1 && (r.Coll? <==> |r.segments| % 2 == 1)
  }

  /** `doc(db, path)` for an even number of segments, `collection(db, path)` for an odd one. */
  function FromSegments(segments: seq<string>): Ref {
    if |segments| % 2 == 0 then Doc(segments) else Coll(segments)
  }

  /**
    The parent of a well-kinded reference is a well-kinded reference of the
    other kind, one segment shorter, and only top-level collections have none.
   */
  lemma ParentWellKinded(r: Ref)
    requires WellKinded(r)
    ensures r.Parent().None? <==> (r.Coll? && |r.segments| == 1)
    ensures r.Parent().Some? ==>
      && WellKinded(r.Parent().value)
      && r.Parent().value.Coll? == r.Doc?
      && r.Parent().value.segments == r.segments[..|r.segments| - 1]
  {
  }

  /**
    The chain of `parent` links above `r`, root-first, ending with `r` itself:
    the list the breadcrumb bar shows.
   */
  function AncestorChain(r: Ref): (chain: seq<Ref>)
    ensures |chain| >= 1 && chain[|chain| - 1] == r
    ensures chain[0].Parent().None?
    ensures forall i :: 0 <= i < |chain| - 1 ==> chain[i + 1].Parent() == Some(chain[i])
    decreases |r.segments|
  {
    match r.Parent()
    case None => [r]
    case Some(p) => AncestorChain(p) + [r]
  }

  /**
    For a well-kinded reference the chain has one entry per segment, and the
    entry at position `i` is the reference to the first `i + 1` segments.
   */
  lemma {:induction false} AncestorChainIsPrefixes(r: Ref)
    requires WellKinded(r)
    ensures |AncestorChain(r)| == |r.segments|
    ensures forall i :: 0 <= i < |r.segments| ==>
      AncestorChain(r)[i] == FromSegments(r.segments[..i + 1])
    decreases |r.segments|
  {
    var n := |r.segments|;
    assert r == FromSegments(r.segments[..n]) by {
      assert r.segments[..n] == r.segments;
    }
    match r.Parent()
    case None =>
    case Some(p) =>
      ParentWellKinded(r);
      AncestorChainIsPrefixes(p);
      var chain := AncestorChain(r);
      assert chain == AncestorChain(p) + [r];
      forall i | 0 <= i < n
        ensures chain[i] == FromSegments(r.segments[..i + 1])
      {
        if i < n - 1 {
          assert p.segments[..i + 1] == r.segments[..i + 1];
        }
      }
  }

  /** The `n`-th ancestor of `r` (`r.parent.parent…`, `n` times), if the chain is that long. */
  function Ancestor(r: Ref, n: nat): (a: Option<Ref>)
    ensures a.Some? ==> |a.value.segments| == |r.segments| - n
    decreases n
  {
    if n == 0 then Some(r)
    else
      match r.Parent()
      case None => None
      case Some(p) => Ancestor(p, n - 1)
  }

  /**
    The `n`-th ancestor exists exactly when more than `n` segments remain, and
    it addresses the path with the last `n` segments dropped.
   */
  lemma {:induction false} AncestorSpec(r: Ref, n: nat)
    requires |r.segments| >= 1
    ensures Ancestor(r, n).Some? <==> n < |r.segments|
    ensures Ancestor(r, n).Some? ==>
      Ancestor(r, n).value.segments == r.segments[..|r.segments| - n]
    decreases n
  {
    if n > 0 {
      match r.Parent()
      case None =>
      case Some(p) =>
        AncestorSpec(p, n - 1);
        var m := |r.segments|;
        if n < m {
          assert p.segments[..|p.segments| - (n - 1)] == r.segments[..m - n];
        }
    }
  }
}
