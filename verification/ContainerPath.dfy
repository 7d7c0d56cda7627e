/** Which entry names a container may hold. */
module ContainerPath {
  import opened Wrappers
  import opened Texts

  datatype PathError = InvalidPath | PathTraversal

  predicate IsLetter(c: char) {
    'A' <= c <= 'Z' || 'a' <= c <= 'z'
  }

  predicate HasDrive(path: string) {
    |path| >= 2 && IsLetter(path[0]) && path[1] == ':'
  }

  predicate Empty(segment: string) { |segment| == 0 }
  predicate Dot(segment: string) { |segment| == 1 && segment[0] == '.' }
  predicate DotDot(segment: string) { |segment| == 2 && segment[0] == '.' && segment[1] == '.' }

  predicate GoodSegment(segment: string) {
    !Empty(segment) && !Dot(segment) && !DotDot(segment)
  }

  predicate GoodPath(path: string) {
    && '\0' !in path && '\\' !in path && !HasDrive(path)
    && AllGood(Pieces(path, '/'))
  }

  /** The first bad segment is a `..`. */
  predicate ClimbsFirst(segments: seq<string>) {
    exists k :: (0 <= k < |segments| && DotDot(segments[k]) && forall j :: 0 <= j < k ==> GoodSegment(segments[j]))
  }

  predicate AllGood(segments: seq<string>) {
    forall k :: 0 <= k < |segments| ==> GoodSegment(segments[k])
  }

  method CheckSegments(segments: seq<string>) returns (r: Result<(), PathError>)
    ensures r.Ok? <==> AllGood(segments)
    ensures r == Err(PathTraversal) <==> ClimbsFirst(segments)
  {
    var k := 0;
    while k < |segments|
      invariant k <= |segments|
      invariant forall j :: 0 <= j < k ==> GoodSegment(segments[j])
    {
      if Empty(segments[k]) { return Err(InvalidPath); }
      if Dot(segments[k]) { return Err(InvalidPath); }
      if DotDot(segments[k]) { return Err(PathTraversal); }
      k := k + 1;
    }
    return Ok(());
  }

  lemma FirstSegment(path: string)
    requires path == "" || path[0] == '/'
    ensures Empty(Pieces(path, '/')[0]) && !AllGood(Pieces(path, '/'))
  {
    assert Empty(Pieces(path, '/')[0]);
  }

  method CheckContainerPath(path: string) returns (r: Result<(), PathError>)
    ensures r.Ok? <==> GoodPath(path)
    ensures r == Err(PathTraversal) <==>
            && path != "" && '\0' !in path && '\\' !in path
            && (path[0] == '/' || HasDrive(path) || ClimbsFirst(Pieces(path, '/')))
  {
    hide Pieces, AllGood, ClimbsFirst;
    if path == "" {
      FirstSegment(path);
      return Err(InvalidPath);
    }
    if '\0' in path { return Err(InvalidPath); }
    if '\\' in path { return Err(InvalidPath); }
    if path[0] == '/' {
      FirstSegment(path);
      return Err(PathTraversal);
    }
    if HasDrive(path) { return Err(PathTraversal); }
    r := CheckSegments(Pieces(path, '/'));
  }

  // ------------------------------------------------------ the rule, said outright

  /** A segment that names something: not empty, not the two dot names, and without a separator. */
  predicate NamesSomething(segment: string) {
    segment != "" && segment != "." && segment != ".." && '/' !in segment
  }

  /** A letter and a colon. */
  predicate StartsWithDrive(path: string) {
    |path| >= 2 && path[1] == ':' &&
    (path[0] in "ABCDEFGHIJKLMNOPQRSTUVWXYZ" || path[0] in "abcdefghijklmnopqrstuvwxyz")
  }

  lemma SegmentAgrees(segment: string)
    ensures GoodSegment(segment) <==> segment != "" && segment != "." && segment != ".."
  {
  }

  lemma DriveAgrees(path: string)
    ensures HasDrive(path) <==> StartsWithDrive(path)
  {
    if |path| >= 2 {
      UpperLetters(path[0]);
      LowerLetters(path[0]);
    }
  }

  /** The accepted paths are names joined by slashes, without NUL, backslash or drive letter. */
  lemma GoodPathExactly(path: string)
    ensures GoodPath(path) <==>
            && '\0' !in path && '\\' !in path && !StartsWithDrive(path)
            && exists segments: seq<string> ::
                 |segments| >= 1 && Join(segments, '/') == path && forall k :: 0 <= k < |segments| ==> NamesSomething(segments[k])
  {
    DriveAgrees(path);
    forall s: string ensures GoodSegment(s) <==> s != "" && s != "." && s != ".." {
      SegmentAgrees(s);
    }
    hide GoodSegment, HasDrive, StartsWithDrive, Pieces;
    if AllGood(Pieces(path, '/')) {
      PiecesJoin(path, '/');
      PiecesPlain(path, '/');
      assert Join(Pieces(path, '/'), '/') == path;
    }
    forall segments: seq<string> | |segments| >= 1 && Join(segments, '/') == path &&
                                   forall k :: 0 <= k < |segments| ==> NamesSomething(segments[k])
      ensures AllGood(Pieces(path, '/')) {
      JoinPieces(segments, '/');
    }
  }

  // ----------------------------------------------------- what the rule is for

  /** Where a path leads from `here` when `.`, `..` and empty segments mean what they mean to a filesystem. */
  function Resolve(here: seq<string>, segments: seq<string>): seq<string>
    decreases |segments|
  {
    if segments == [] then here
    else
      var s := segments[0];
      var next := if Empty(s) || Dot(s) then here
                  else if DotDot(s) then (if here == [] then [] else here[..|here| - 1])
                  else here + [s];
      Resolve(next, segments[1..])
  }

  lemma {:induction false} ResolveBelow(here: seq<string>, segments: seq<string>)
    requires forall k :: 0 <= k < |segments| ==> GoodSegment(segments[k])
    ensures Resolve(here, segments) == here + segments
    decreases |segments|
  {
    if segments == [] {
      assert here + segments == here;
    } else {
      ResolveBelow(here + [segments[0]], segments[1..]);
      assert here + [segments[0]] + segments[1..] == here + segments;
    }
  }

  /**
   * Wherever a container is extracted, an accepted path stays strictly below that
   * directory, and two accepted paths never land on the same file.
   */
  lemma NeverEscapes(root: seq<string>, p: string, q: string)
    requires GoodPath(p) && GoodPath(q)
    ensures root < Resolve(root, Pieces(p, '/'))
    ensures Resolve(root, Pieces(p, '/')) == Resolve(root, Pieces(q, '/')) ==> p == q
  {
    ResolveBelow(root, Pieces(p, '/'));
    ResolveBelow(root, Pieces(q, '/'));
    var a, b := root + Pieces(p, '/'), root + Pieces(q, '/');
    assert a[|root|..] == Pieces(p, '/') && b[|root|..] == Pieces(q, '/');
    PiecesJoin(p, '/');
    PiecesJoin(q, '/');
  }
}
