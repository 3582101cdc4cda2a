/**
 Joining of route prefixes and paths.  A path means a sequence of non-empty segments, and
 normalisation is proved to be concatenation of segments: canonical, and associative.
 */
module RoutePath {

  // ----- The string rewriting of the source -----

  function DropTrailingSlash(s: string): string {
    if s != "" && s[|s| - 1] == '/' then s[..|s| - 1] else s
  }

  function DropLeadingSlash(s: string): string {
    if s != "" && s[0] == '/' then s[1..] else s
  }

  /** Every run of slashes becomes one slash. */
  function CollapseSlashes(s: string): string {
    if s == "" then ""
    else if s[0] == '/' && |s| > 1 && s[1] == '/' then CollapseSlashes(s[1..])
    else [s[0]] + CollapseSlashes(s[1..])
  }

  function Normalize(prefix: string, routePath: string): string {
    var joined := DropTrailingSlash(prefix) + "/" + DropLeadingSlash(routePath);
    var path := DropTrailingSlash(CollapseSlashes(joined));
    if path == "" then "/" else path
  }

  // ----- What a path means -----

  function Piece(s: string): seq<string> {
    if s == "" then [] else [s]
  }

  /** The non-empty segments of `s`, when `piece` has been read already. */
  function SegmentsAfter(piece: string, s: string): seq<string>
    decreases |s|
  {
    if s == "" then Piece(piece)
    else if s[0] == '/' then Piece(piece) + SegmentsAfter("", s[1..])
    else SegmentsAfter(piece + [s[0]], s[1..])
  }

  function Segments(s: string): seq<string> {
    SegmentsAfter("", s)
  }

  /** An empty prefix counts as rooted: joining puts a slash after it. */
  predicate IsRooted(s: string) {
    s == "" || s[0] == '/'
  }

  function JoinSegments(segments: seq<string>): string {
    if segments == [] then "" else "/" + segments[0] + JoinSegments(segments[1..])
  }

  /** The canonical text of a path. */
  function Render(rooted: bool, segments: seq<string>): string {
    if segments == [] then "/"
    else if rooted then JoinSegments(segments)
    else JoinSegments(segments)[1..]
  }

  predicate IsSegment(s: string) {
    s != "" && '/' !in s
  }

  // ----- Canonical texts are determined by their meaning -----

  /** No two slashes in a row, and none at the end. */
  predicate IsTidy(s: string) {
    && (forall k :: 0 <= k < |s| - 1 ==> !(s[k] == '/' && s[k + 1] == '/'))
    && (s != "" ==> s[|s| - 1] != '/')
  }

  lemma {:induction false} SegmentsOfConcat(piece: string, s: string, t: string)
    ensures SegmentsAfter(piece, s + "/" + t) == SegmentsAfter(piece, s) + Segments(t)
    decreases |s|
  {
    if s == "" {
      assert s + "/" + t == "/" + t;
      assert ("/" + t)[1..] == t;
    } else {
      assert (s + "/" + t)[1..] == s[1..] + "/" + t;
      if s[0] == '/' {
        SegmentsOfConcat("", s[1..], t);
      } else {
        SegmentsOfConcat(piece + [s[0]], s[1..], t);
      }
    }
  }

  lemma SegmentsDropTrailing(s: string)
    ensures Segments(DropTrailingSlash(s)) == Segments(s)
  {
    if s != "" && s[|s| - 1] == '/' {
      var t := s[..|s| - 1];
      assert s == t + "/" + "";
      SegmentsOfConcat("", t, "");
    }
  }

  lemma SegmentsDropLeading(s: string)
    ensures Segments(DropLeadingSlash(s)) == Segments(s)
  {
  }

  lemma {:induction false} SegmentsCollapse(piece: string, s: string)
    ensures SegmentsAfter(piece, CollapseSlashes(s)) == SegmentsAfter(piece, s)
    decreases |s|
  {
    if s == "" {
    } else if s[0] == '/' && |s| > 1 && s[1] == '/' {
      SegmentsCollapse(piece, s[1..]);
      assert s[1..][0] == '/';
      assert SegmentsAfter("", s[1..]) == Segments(s[1..][1..]);
      assert SegmentsAfter(piece, s[1..]) == Piece(piece) + Segments(s[1..][1..]);
    } else {
      var rest := CollapseSlashes(s[1..]);
      assert ([s[0]] + rest)[1..] == rest;
      if s[0] == '/' {
        SegmentsCollapse("", s[1..]);
      } else {
        SegmentsCollapse(piece + [s[0]], s[1..]);
      }
    }
  }

  lemma {:induction false} CollapseHasNoDoubleSlash(s: string)
    ensures s != "" ==> CollapseSlashes(s) != "" && CollapseSlashes(s)[0] == s[0]
    ensures var c := CollapseSlashes(s); forall k :: 0 <= k < |c| - 1 ==> !(c[k] == '/' && c[k + 1] == '/')
    decreases |s|
  {
    if s == "" {
    } else {
      CollapseHasNoDoubleSlash(s[1..]);
    }
  }

  /** A tidy text, read back from its segments.  `piece` is a segment under way. */
  lemma {:induction false} TidyIsJoined(piece: string, s: string)
    requires IsTidy(s) && piece != "" && '/' !in piece
    ensures SegmentsAfter(piece, s) != []
    ensures "/" + piece + s == JoinSegments(SegmentsAfter(piece, s))
    decreases |s|
  {
    if s == "" {
      assert [piece][1..] == [];
      assert "/" + piece + "" == "/" + piece;
    } else if s[0] == '/' {
      assert |s| > 1 && s[1] != '/';
      var t := s[2..];
      assert s[1..][1..] == t && "" + [s[1..][0]] == [s[1]];
      TidyIsJoined([s[1]], t);
      var tail := SegmentsAfter([s[1]], t);
      assert SegmentsAfter(piece, s) == [piece] + tail;
      assert ([piece] + tail)[1..] == tail;
      assert s == "/" + [s[1]] + t;
      assert "/" + piece + s == "/" + piece + JoinSegments(tail);
    } else {
      TidyIsJoined(piece + [s[0]], s[1..]);
      assert piece + [s[0]] + s[1..] == piece + s;
      assert "/" + (piece + [s[0]]) + s[1..] == "/" + piece + s;
    }
  }

  /** A tidy non-empty text is the canonical text of its meaning. */
  lemma TidyIsRendered(s: string)
    requires IsTidy(s) && s != ""
    ensures s == Render(IsRooted(s), Segments(s))
  {
    if s[0] == '/' {
      assert |s| > 1 && s[1] != '/';
      assert s[1..][0] == s[1] && "" + [s[1]] == [s[1]] && s[1..][1..] == s[2..];
      TidyIsJoined([s[1]], s[2..]);
      assert s == "/" + [s[1]] + s[2..];
      assert Piece("") + SegmentsAfter("", s[1..]) == SegmentsAfter("", s[1..]);
    } else {
      assert "" + [s[0]] == [s[0]];
      TidyIsJoined([s[0]], s[1..]);
      assert ("/" + [s[0]] + s[1..])[1..] == s;
    }
  }

  // ----- Normalisation is concatenation of segments -----

  lemma JoinedMeaning(prefix: string, routePath: string)
    ensures var joined := DropTrailingSlash(prefix) + "/" + DropLeadingSlash(routePath);
            Segments(joined) == Segments(prefix) + Segments(routePath)
  {
    SegmentsOfConcat("", DropTrailingSlash(prefix), DropLeadingSlash(routePath));
    SegmentsDropTrailing(prefix);
    SegmentsDropLeading(routePath);
  }

  /** A text that starts with another character than a slash has a segment. */
  lemma UnrootedHasSegment(s: string)
    requires !IsRooted(s)
    ensures Segments(s) != []
  {
    assert "" + [s[0]] == [s[0]];
    SomeSegment([s[0]], s[1..]);
  }

  lemma {:induction false} SomeSegment(piece: string, s: string)
    requires piece != ""
    ensures SegmentsAfter(piece, s) != []
    decreases |s|
  {
    if s != "" && s[0] != '/' {
      SomeSegment(piece + [s[0]], s[1..]);
    }
  }

  /** The reference meaning: the segments of the prefix, then those of the path, in canonical form. */
  lemma NormalizeMeaning(prefix: string, routePath: string)
    ensures Normalize(prefix, routePath)
         == Render(IsRooted(prefix), Segments(prefix) + Segments(routePath))
  {
    var joined := DropTrailingSlash(prefix) + "/" + DropLeadingSlash(routePath);
    var collapsed := CollapseSlashes(joined);
    var path := DropTrailingSlash(collapsed);
    JoinedMeaning(prefix, routePath);
    SegmentsCollapse("", joined);
    SegmentsDropTrailing(collapsed);
    CollapseHasNoDoubleSlash(joined);
    assert IsTidy(path);
    assert collapsed[0] == joined[0];
    assert !IsRooted(prefix) ==> joined[0] == prefix[0] != '/';
    if path == "" {
      assert collapsed == "/";
    } else {
      TidyIsRendered(path);
      assert path[0] == joined[0];
      assert IsRooted(path) == IsRooted(prefix);
    }
  }

  lemma {:induction false} SegmentsAreSegments(piece: string, s: string)
    requires '/' !in piece
    ensures forall seg :: seg in SegmentsAfter(piece, s) ==> IsSegment(seg)
    decreases |s|
  {
    if s == "" {
    } else {
      if s[0] == '/' {
        SegmentsAreSegments("", s[1..]);
      } else {
        SegmentsAreSegments(piece + [s[0]], s[1..]);
      }
    }
  }

  lemma {:induction false} SegmentsOfSegment(piece: string, seg: string, rest: string)
    requires '/' !in seg
    ensures SegmentsAfter(piece, seg + rest) == SegmentsAfter(piece + seg, rest)
    decreases |seg|
  {
    if seg == "" {
      assert seg + rest == rest && piece + seg == piece;
    } else {
      assert (seg + rest)[1..] == seg[1..] + rest;
      SegmentsOfSegment(piece + [seg[0]], seg[1..], rest);
      assert piece + [seg[0]] + seg[1..] == piece + seg;
    }
  }

  lemma {:induction false} SegmentsOfJoined(piece: string, segments: seq<string>)
    requires forall seg :: seg in segments ==> IsSegment(seg)
    ensures SegmentsAfter(piece, JoinSegments(segments)) == Piece(piece) + segments
    decreases |segments|
  {
    if segments == [] {
    } else {
      var rest := JoinSegments(segments[1..]);
      assert IsSegment(segments[0]);
      assert ("/" + segments[0] + rest)[1..] == segments[0] + rest;
      SegmentsOfSegment("", segments[0], rest);
      assert "" + segments[0] == segments[0];
      SegmentsOfJoined(segments[0], segments[1..]);
      assert Piece(segments[0]) + segments[1..] == segments;
    }
  }

  lemma SegmentsOfRendered(rooted: bool, segments: seq<string>)
    requires forall seg :: seg in segments ==> IsSegment(seg)
    ensures Segments(Render(rooted, segments)) == segments
    ensures IsRooted(Render(rooted, segments)) <==> rooted || segments == []
  {
    if segments == [] {
      assert Segments("/") == Piece("") + Segments("/"[1..]);
    } else {
      SegmentsOfJoined("", segments);
      assert IsSegment(segments[0]);
      var text := JoinSegments(segments);
      assert text[1..] == segments[0] + JoinSegments(segments[1..]);
      assert Piece("") + segments == segments;
      assert Segments(text) == Piece("") + Segments(text[1..]) == Segments(text[1..]);
    }
  }

  /** The result means the concatenation, and is rooted exactly when the prefix is. */
  lemma NormalizeSegments(prefix: string, routePath: string)
    ensures Segments(Normalize(prefix, routePath)) == Segments(prefix) + Segments(routePath)
    ensures IsRooted(Normalize(prefix, routePath)) <==> IsRooted(prefix)
  {
    NormalizeMeaning(prefix, routePath);
    SegmentsAreSegments("", prefix);
    SegmentsAreSegments("", routePath);
    SegmentsOfRendered(IsRooted(prefix), Segments(prefix) + Segments(routePath));
    if !IsRooted(prefix) {
      UnrootedHasSegment(prefix);
    }
  }

  lemma NormalizeLeft(p: string, q: string, r: string)
    ensures Normalize(Normalize(p, q), r)
         == Render(IsRooted(p), Segments(p) + (Segments(q) + Segments(r)))
  {
    var pq := Normalize(p, q);
    NormalizeSegments(p, q);
    NormalizeMeaning(pq, r);
    Associative(Segments(p), Segments(q), Segments(r));
  }

  lemma Associative<T>(a: seq<T>, b: seq<T>, c: seq<T>)
    ensures a + b + c == a + (b + c)
  {
  }

  lemma NormalizeRight(p: string, q: string, r: string)
    ensures Normalize(p, Normalize(q, r))
         == Render(IsRooted(p), Segments(p) + (Segments(q) + Segments(r)))
  {
    var qr := Normalize(q, r);
    NormalizeSegments(q, r);
    NormalizeMeaning(p, qr);
  }

  /** Joining is associative, so the prefix of a chain of mounts does not depend on how it is grouped. */
  lemma NormalizeAssociative(p: string, q: string, r: string)
    ensures Normalize(Normalize(p, q), r) == Normalize(p, Normalize(q, r))
  {
    NormalizeLeft(p, q, r);
    NormalizeRight(p, q, r);
  }

  /** The result is in canonical form. */
  lemma NormalizeTidy(prefix: string, routePath: string)
    ensures Normalize(prefix, routePath) == "/" || IsTidy(Normalize(prefix, routePath))
  {
    CollapseHasNoDoubleSlash(DropTrailingSlash(prefix) + "/" + DropLeadingSlash(routePath));
  }

  lemma SlashHasNoSegments()
    ensures Segments("/") == []
  {
    assert Segments("/") == Piece("") + Segments("/"[1..]);
  }

  /** Mounting at "/" leaves a normalised path alone. */
  lemma NormalizeUnit(prefix: string, routePath: string)
    ensures Normalize(Normalize(prefix, routePath), "/") == Normalize(prefix, routePath)
  {
    var path := Normalize(prefix, routePath);
    NormalizeSegments(prefix, routePath);
    NormalizeMeaning(prefix, routePath);
    NormalizeMeaning(path, "/");
    SlashHasNoSegments();
    assert Segments(path) + [] == Segments(path);
  }
}
