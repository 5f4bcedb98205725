/**
  The JavaScript string built-ins the path handling relies on:
  `String.prototype.split` with a one-character separator, the inverse join,
  `String.prototype.trim`, and `String.prototype.includes` for a two-character needle.
 */
module JsString {

  /** Characters removed by `trim`: the WhiteSpace and LineTerminator code points. */
  predicate IsWhitespace(c: char) {
    || c == ' ' || c == '\t' || c == '\n' || c == '\r'
    || c == '\U{000B}' || c == '\U{000C}' || c == '\U{00A0}' || c == '\U{1680}'
    || ('\U{2000}' <= c <= '\U{200A}')
    || c == '\U{2028}' || c == '\U{2029}' || c == '\U{202F}' || c == '\U{205F}'
    || c == '\U{3000}' || c == '\U{FEFF}'
  }

  /** Number of occurrences of `c` in `s`. */
  function Count(s: string, c: char): nat {
    if |s| == 0 then 0 else (if s[0] == c then 1 else 0) + Count(s[1..], c)
  }

  /** Occurrences in a concatenation are those of each part. */
  lemma {:induction false} CountAppend(a: string, b: string, c: char)
    ensures Count(a + b, c) == Count(a, c) + Count(b, c)
    decreases |a|
  {
    if |a| > 0 {
      assert (a + b)[1..] == a[1..] + b;
      CountAppend(a[1..], b, c);
    } else {
      assert a + b == b;
    }
  }

  /** A string without `c` holds no occurrence of it. */
  lemma {:induction false} CountZero(s: string, c: char)
    requires c !in s
    ensures Count(s, c) == 0
    decreases |s|
  {
    if |s| > 0 {
      assert s[0] in s;
      assert c !in s[1..] by { assert forall x :: x in s[1..] ==> x in s; }
      CountZero(s[1..], c);
    }
  }

  /**
    `s.split(sep)`: every separator ends one piece and starts the next, and
    empty pieces are kept, so `k` separators give `k + 1` pieces.
   */
  function Split(s: string, sep: char): (pieces: seq<string>)
    ensures |pieces| == Count(s, sep) + 1
    ensures forall i :: 0 <= i < |pieces| ==> sep !in pieces[i]
    decreases |s|
  {
    if |s| == 0 then [""]
    else
      var rest := Split(s[1..], sep);
      if s[0] == sep then [""] + rest
      else [[s[0]] + rest[0]] + rest[1..]
  }

  /** `pieces.join(sep)`. */
  function Join(pieces: seq<string>, sep: char): string
    decreases |pieces|
  {
    if |pieces| == 0 then ""
    else if |pieces| == 1 then pieces[0]
    else pieces[0] + [sep] + Join(pieces[1..], sep)
  }

  /** Joining the pieces of a split gives back the string. */
  lemma {:induction false} JoinSplit(s: string, sep: char)
    ensures Join(Split(s, sep), sep) == s
    decreases |s|
  {
    if |s| > 0 {
      var rest := Split(s[1..], sep);
      JoinSplit(s[1..], sep);
      if s[0] == sep {
        assert Split(s, sep) == [""] + rest;
        assert s == [s[0]] + s[1..];
      } else {
        var ps := Split(s, sep);
        assert ps == [[s[0]] + rest[0]] + rest[1..];
        if |rest| == 1 {
          assert s == [s[0]] + s[1..];
        } else {
          assert ps[1..] == rest[1..];
          assert Join(rest, sep) == rest[0] + [sep] + Join(rest[1..], sep);
          assert s == [s[0]] + s[1..];
        }
      }
    }
  }

  /** Splitting a join of separator-free pieces gives back the pieces. */
  lemma {:induction false} SplitJoin(pieces: seq<string>, sep: char)
    requires |pieces| >= 1
    requires forall i :: 0 <= i < |pieces| ==> sep !in pieces[i]
    ensures Split(Join(pieces, sep), sep) == pieces
    decreases |pieces|, |pieces[0]|
  {
    var p := pieces[0];
    if |pieces| == 1 {
      SplitNoSep(p, sep);
    } else if |p| == 0 {
      var tail := Join(pieces[1..], sep);
      SplitJoin(pieces[1..], sep);
      assert Join(pieces, sep) == [sep] + tail;
      assert ([sep] + tail)[1..] == tail;
      assert pieces == [""] + pieces[1..];
    } else {
      var shorter := [p[1..]] + pieces[1..];
      assert shorter[1..] == pieces[1..];
      assert forall i :: 0 <= i < |shorter| ==> sep !in shorter[i] by {
        forall i | 0 <= i < |shorter| ensures sep !in shorter[i] {
          if i == 0 {
            assert forall c :: c in p[1..] ==> c in p;
          } else {
            assert shorter[i] == pieces[i];
          }
        }
      }
      SplitJoin(shorter, sep);
      var whole := Join(pieces, sep);
      assert whole == [p[0]] + Join(shorter, sep) by {
        assert Join(shorter, sep) == p[1..] + [sep] + Join(pieces[1..], sep);
        assert p == [p[0]] + p[1..];
      }
      assert whole[0] == p[0] && whole[1..] == Join(shorter, sep);
      assert p[0] != sep by { assert p[0] in p; }
      assert [p[0]] + shorter[0] == p;
      assert pieces == [p] + pieces[1..];
      assert pieces == [[p[0]] + shorter[0]] + shorter[1..];
    }
  }

  /** A string without the separator splits into itself. */
  lemma {:induction false} SplitNoSep(s: string, sep: char)
    requires sep !in s
    ensures Split(s, sep) == [s]
    decreases |s|
  {
    if |s| > 0 {
      assert sep !in s[1..] by { assert forall c :: c in s[1..] ==> c in s; }
      SplitNoSep(s[1..], sep);
      assert s[0] in s;
      assert s == [s[0]] + s[1..];
    }
  }

  /** `s` with its leading whitespace removed (`trimStart`). */
  function TrimStart(s: string): (r: string)
    ensures |r| <= |s| && r == s[|s| - |r|..]
    ensures forall i :: 0 <= i < |s| - |r| ==> IsWhitespace(s[i])
    ensures |r| == 0 || !IsWhitespace(r[0])
    decreases |s|
  {
    if |s| > 0 && IsWhitespace(s[0]) then TrimStart(s[1..]) else s
  }

  /** `s` with its trailing whitespace removed (`trimEnd`). */
  function TrimEnd(s: string): (r: string)
    ensures |r| <= |s| && r == s[..|r|]
    ensures forall i :: |r| <= i < |s| ==> IsWhitespace(s[i])
    ensures |r| == 0 || !IsWhitespace(r[|r| - 1])
    decreases |s|
  {
    if |s| > 0 && IsWhitespace(s[|s| - 1]) then TrimEnd(s[..|s| - 1]) else s
  }

  /** `s.trim()`. */
  function Trim(s: string): string {
    TrimEnd(TrimStart(s))
  }

  /** `s` begins or ends with a whitespace character. */
  predicate HasOuterWhitespace(s: string) {
    |s| > 0 && (IsWhitespace(s[0]) || IsWhitespace(s[|s| - 1]))
  }

  /**
    What `trim` returns: a contiguous part of `s` with only whitespace cut away
    on either side, itself starting and ending with a non-whitespace character.
   */
  lemma TrimSpec(s: string)
    ensures var r := Trim(s);
      var i := |s| - |TrimStart(s)|;
      && i + |r| <= |s|
      && (forall k :: 0 <= k < |r| ==> r[k] == s[i + k])
      && (forall k :: 0 <= k < i ==> IsWhitespace(s[k]))
      && (forall k :: i + |r| <= k < |s| ==> IsWhitespace(s[k]))
      && !HasOuterWhitespace(r)
  {
    var t := TrimStart(s);
    TrimEndWithin(s, |s| - |t|);
    TrimEndKeepsStart(t);
  }

  /** Trimming the end of the suffix `s[i..]` cuts a slice of `s` followed only by whitespace. */
  lemma TrimEndWithin(s: string, i: nat)
    requires i <= |s|
    ensures var r := TrimEnd(s[i..]);
      && i + |r| <= |s|
      && (forall k :: 0 <= k < |r| ==> r[k] == s[i + k])
      && (forall k :: i + |r| <= k < |s| ==> IsWhitespace(s[k]))
  {
    var t := s[i..];
    var r := TrimEnd(t);
    assert r == t[..|r|];
    forall k | i + |r| <= k < |s|
      ensures IsWhitespace(s[k])
    {
      assert s[k] == t[k - i];
    }
  }

  /** Trimming the end of a string that starts with no whitespace leaves no outer whitespace. */
  lemma TrimEndKeepsStart(t: string)
    requires |t| == 0 || !IsWhitespace(t[0])
    ensures !HasOuterWhitespace(TrimEnd(t))
  {
    var r := TrimEnd(t);
    if |r| > 0 {
      assert r[0] == t[0];
    }
  }

  /** Trimming changes nothing exactly when there is no outer whitespace to remove. */
  lemma TrimNoOuterWhitespace(s: string)
    ensures Trim(s) == s <==> !HasOuterWhitespace(s)
  {
    TrimSpec(s);
  }

  /** `s.includes(c + c)`: `c` occurs twice in a row somewhere in `s`. */
  predicate HasAdjacentPair(s: string, c: char) {
    exists i :: 0 <= i < |s| - 1 && s[i] == c && s[i + 1] == c
  }
}
