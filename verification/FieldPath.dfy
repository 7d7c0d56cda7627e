/**
 * Mongo dot-paths translated into bound SQLite JSON paths, with the decoder
 * SQLite applies to them.
 */
module FieldPath {
  import opened Wrappers
  import opened Texts

  /** One hop of a JSON path; `Index` keeps the decimal text it was written with. */
  datatype Step = Key(name: string) | Index(digits: string)

  datatype Rejected = Rejected

  predicate AllDigits(s: string) {
    s != "" && Digital(s)
  }

  /** Characters that would end or escape the quoted form of a JSON path. */
  predicate Escapes(c: char) {
    c as int < 0x20 || c == '"' || c == '\\'
  }

  predicate GoodSegment(s: string) {
    s != "" && forall k :: 0 <= k < |s| ==> !Escapes(s[k])
  }

  /** The segments between dots. */
  function Split(s: string): (r: seq<string>)
    ensures |r| >= 1
  {
    Pieces(s, '.')
  }

  predicate GoodSegments(segments: seq<string>) {
    forall k :: 0 <= k < |segments| ==> GoodSegment(segments[k])
  }

  function SegmentPath(segment: string): string {
    if AllDigits(segment) then "[" + segment + "]" else ".\"" + segment + "\""
  }

  function SegmentsPath(segments: seq<string>): string {
    if segments == [] then "" else SegmentPath(segments[0]) + SegmentsPath(segments[1..])
  }

  lemma {:induction false} SegmentsPathAppend(segments: seq<string>, last: string)
    ensures SegmentsPath(segments + [last]) == SegmentsPath(segments) + SegmentPath(last)
  {
    if segments != [] {
      assert (segments + [last])[1..] == segments[1..] + [last];
      SegmentsPathAppend(segments[1..], last);
    }
  }

  predicate Accepted(field: string) {
    field != "" && field[0] != '$' && GoodSegments(Split(field))
  }

  /** Neither dots without a name between them, nor a dot at the end. */
  predicate DotsApart(s: string) {
    (s != "" ==> s[|s| - 1] != '.') && forall k :: 0 <= k < |s| - 1 ==> !(s[k] == '.' && s[k + 1] == '.')
  }

  lemma {:induction false} NamesBetweenDots(s: string)
    ensures Split(s)[0] != "" <==> s != "" && s[0] != '.'
    ensures (forall k :: 1 <= k < |Split(s)| ==> Split(s)[k] != "") <==> DotsApart(s)
  {
    if s != "" {
      var t, r := s[1..], Split(s[1..]);
      NamesBetweenDots(t);
      assert forall k :: 0 <= k < |t| ==> t[k] == s[k + 1];
      assert DotsApart(s) <==> DotsApart(t) && !(s[0] == '.' && (t == "" || t[0] == '.')) by {
        assert forall k :: 1 <= k < |s| - 1 ==> s[k] == t[k - 1] && s[k + 1] == t[k];
      }
      if s[0] == '.' {
        assert Split(s) == [""] + r;
        assert forall k :: 1 <= k < |Split(s)| ==> Split(s)[k] == r[k - 1];
        assert forall k :: 0 <= k < |r| ==> r[k] == Split(s)[k + 1];
      } else {
        var q := Split(s);
        assert q == [[s[0]] + r[0]] + r[1..];
        assert |q| == |r| && forall k :: 1 <= k < |q| ==> q[k] == r[k];
        assert DotsApart(s) <==> DotsApart(t);
      }
    }
  }

  lemma {:induction false} CharactersBetweenDots(s: string)
    ensures (forall k, j :: 0 <= k < |Split(s)| && 0 <= j < |Split(s)[k]| ==> !Escapes(Split(s)[k][j])) <==>
            (forall j :: 0 <= j < |s| ==> !Escapes(s[j]))
  {
    if s != "" {
      var r, q := Split(s[1..]), Split(s);
      CharactersBetweenDots(s[1..]);
      assert forall j :: 1 <= j < |s| ==> s[j] == s[1..][j - 1];
      assert forall j :: 0 <= j < |s| - 1 ==> s[1..][j] == s[j + 1];
      hide Escapes;
      assert !Escapes('.') by { DotStays(); }
      if s[0] == '.' {
        assert q == [""] + r;
        assert forall k :: 1 <= k < |q| ==> q[k] == r[k - 1];
        assert forall k :: 0 <= k < |r| ==> r[k] == q[k + 1];
      } else {
        assert q == [[s[0]] + r[0]] + r[1..];
        assert q[0][0] == s[0] && forall j :: 0 <= j < |r[0]| ==> r[0][j] == q[0][j + 1];
        assert forall k :: 1 <= k < |q| ==> q[k] == r[k];
      }
    }
  }

  lemma DotStays()
    ensures !Escapes('.')
  {
  }

  /**
   * The fields accepted: names separated by single dots, the first not led by a dollar
   * sign, of characters from the space on other than quotes and backslashes.
   */
  lemma AcceptedExactly(field: string)
    ensures Accepted(field) <==>
            && field != "" && field[0] != '$' && field[0] != '.' && DotsApart(field)
            && forall j :: 0 <= j < |field| ==> field[j] >= ' ' && field[j] !in {'"', '\\'}
  {
    NamesBetweenDots(field);
    CharactersBetweenDots(field);
    assert forall j :: 0 <= j < |field| ==> (Escapes(field[j]) <==> !(field[j] >= ' ' && field[j] !in {'"', '\\'}));
    hide Escapes, Split, DotsApart;
    assert GoodSegments(Split(field)) <==>
           (forall k :: 0 <= k < |Split(field)| ==> Split(field)[k] != "") &&
           (forall k, j :: 0 <= k < |Split(field)| && 0 <= j < |Split(field)[k]| ==> !Escapes(Split(field)[k][j]));
  }

  /** A segment of digits is written as an array index, any other as a quoted key. */
  lemma SegmentWritten(segment: string)
    ensures SegmentPath(segment) ==
            if segment != "" && forall j :: 0 <= j < |segment| ==> '0' <= segment[j] <= '9'
            then "[" + segment + "]" else ".\"" + segment + "\""
  {
  }

  /** The bound JSON path of an accepted field. */
  function PathOf(field: string): string {
    "$" + SegmentsPath(Split(field))
  }

  function StepOf(segment: string): Step {
    if AllDigits(segment) then Index(segment) else Key(segment)
  }

  function StepsOf(segments: seq<string>): (r: seq<Step>)
    ensures |r| == |segments|
  {
    seq(|segments|, k requires 0 <= k < |segments| => StepOf(segments[k]))
  }

  /** The source's inner loop over one segment's characters. */
  method CheckSegment(segment: string) returns (good: bool)
    ensures good <==> GoodSegment(segment)
  {
    if segment == "" {
      return false;
    }
    for j := 0 to |segment|
      invariant forall k :: 0 <= k < j ==> !Escapes(segment[k])
    {
      if Escapes(segment[j]) {
        return false;
      }
    }
    return true;
  }

  method SegmentsToPath(segments: seq<string>) returns (r: Result<string, Rejected>)
    ensures r.Ok? <==> GoodSegments(segments)
    ensures r.Ok? ==> r.value == SegmentsPath(segments)
  {
    var path := "";
    hide GoodSegment, SegmentPath;
    for i := 0 to |segments|
      invariant forall k :: 0 <= k < i ==> GoodSegment(segments[k])
      invariant path == SegmentsPath(segments[..i])
    {
      var good := CheckSegment(segments[i]);
      if !good {
        return Err(Rejected);
      }
      SegmentsPathAppend(segments[..i], segments[i]);
      assert segments[..i + 1] == segments[..i] + [segments[i]];
      path := path + SegmentPath(segments[i]);
    }
    assert segments[..|segments|] == segments;
    r := Ok(path);
  }

  /** `fieldPath`: refuses an empty or `$` field, then builds the path left to right. */
  method FieldPath(field: string) returns (r: Result<string, Rejected>)
    ensures r.Ok? <==> Accepted(field)
    ensures r.Ok? ==> r.value == PathOf(field)
  {
    if field == "" || field[0] == '$' {
      return Err(Rejected);
    }
    r := SegmentsToPath(Split(field));
    if r.Ok? {
      r := Ok("$" + r.value);
    }
  }

  // ------------------------------------------------------------- SQLite side

  /** First position at or after `from` holding `c`, or the length. */
  function Find(s: string, c: char, from: nat): (k: nat)
    requires from <= |s|
    ensures from <= k <= |s|
    ensures forall m :: from <= m < k ==> s[m] != c
    ensures k < |s| ==> s[k] == c
    decreases |s| - from
  {
    if from == |s| || s[from] == c then from else Find(s, c, from + 1)
  }

  /** SQLite's reading of what follows the `$` of a JSON path. */
  function DecodeSteps(t: string): Option<seq<Step>> {
    if t == "" then Some([])
    else if |t| >= 2 && t[0] == '.' && t[1] == '"' then
      var close := Find(t, '"', 2);
      if close == |t| then None
      else match DecodeSteps(t[close + 1..])
        case None => None
        case Some(rest) => Some([Key(t[2..close])] + rest)
    else if t[0] == '[' then
      var close := Find(t, ']', 1);
      if close == |t| || !AllDigits(t[1..close]) then None
      else match DecodeSteps(t[close + 1..])
        case None => None
        case Some(rest) => Some([Index(t[1..close])] + rest)
    else None
  }

  function Decode(path: string): Option<seq<Step>> {
    if path == "" || path[0] != '$' then None else DecodeSteps(path[1..])
  }

  lemma DecodeIndex(s: string, rest: string)
    requires AllDigits(s)
    ensures var t := SegmentPath(s) + rest;
            DecodeSteps(t) == match DecodeSteps(rest)
              case None => None
              case Some(steps) => Some([Index(s)] + steps)
  {
    var t := SegmentPath(s) + rest;
    forall m | 1 <= m < 1 + |s| ensures t[m] != ']' {
      assert t[m] == s[m - 1];
    }
    assert t[1 + |s|] == ']';
    var close := Find(t, ']', 1);
    assert close == 1 + |s|;
    assert t[1..close] == s && t[close + 1..] == rest;
  }

  lemma DecodeKey(s: string, rest: string)
    requires GoodSegment(s) && !AllDigits(s)
    ensures var t := SegmentPath(s) + rest;
            DecodeSteps(t) == match DecodeSteps(rest)
              case None => None
              case Some(steps) => Some([Key(s)] + steps)
  {
    var t := SegmentPath(s) + rest;
    assert t == ['.', '"'] + s + (['"'] + rest);
    assert '"' !in s;
    hide Find, AllDigits, SegmentPath, Escapes;
    FindsQuote(['.', '"'], s, rest);
    var close := Find(t, '"', 2);
    assert t[2..close] == s && t[close + 1..] == rest;
  }

  lemma FindsQuote(head: string, s: string, rest: string)
    requires '"' !in s
    ensures Find(head + s + (['"'] + rest), '"', |head|) == |head| + |s|
  {
    var t := head + s + (['"'] + rest);
    hide Find;
    forall m | |head| <= m < |head| + |s| ensures t[m] != '"' {
      assert t[m] == s[m - |head|];
    }
    assert t[|head| + |s|] == '"';
  }

  lemma StepsOfHead(segments: seq<string>)
    requires segments != []
    ensures StepsOf(segments) == [StepOf(segments[0])] + StepsOf(segments[1..])
  {
    hide AllDigits;
  }

  /** One segment is read back as one step. */
  lemma DecodeStep(segment: string, rest: string)
    requires GoodSegment(segment)
    ensures DecodeSteps(SegmentPath(segment) + rest) == match DecodeSteps(rest)
              case None => None
              case Some(steps) => Some([StepOf(segment)] + steps)
  {
    hide DecodeSteps, SegmentPath, AllDigits, GoodSegment;
    if AllDigits(segment) {
      DecodeIndex(segment, rest);
    } else {
      DecodeKey(segment, rest);
    }
  }

  lemma {:induction false} DecodeSegments(segments: seq<string>)
    requires GoodSegments(segments)
    ensures DecodeSteps(SegmentsPath(segments)) == Some(StepsOf(segments))
  {
    if segments != [] {
      hide DecodeSteps, SegmentPath, StepOf, StepsOf, GoodSegment;
      DecodeSegments(segments[1..]);
      StepsOfHead(segments);
      DecodeStep(segments[0], SegmentsPath(segments[1..]));
    }
  }

  /** SQLite reads an emitted path back as exactly the field's segments. */
  lemma DecodePath(field: string)
    requires Accepted(field)
    ensures Decode(PathOf(field)) == Some(StepsOf(Split(field)))
  {
    DecodeSegments(Split(field));
    assert PathOf(field)[1..] == SegmentsPath(Split(field));
  }

  /** The decoded segments give back the field, so no two fields share a path. */
  lemma PathInjective(f: string, g: string)
    requires Accepted(f) && Accepted(g) && PathOf(f) == PathOf(g)
    ensures f == g
  {
    DecodePath(f);
    DecodePath(g);
    var a, b := Split(f), Split(g);
    assert |a| == |StepsOf(a)| == |StepsOf(b)| == |b|;
    forall k | 0 <= k < |a| ensures a[k] == b[k] {
      assert StepsOf(a)[k] == StepsOf(b)[k];
    }
    assert a == b;
    PiecesJoin(f, '.');
    PiecesJoin(g, '.');
  }
}
