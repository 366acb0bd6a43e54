/**
 The C adapter's URI parser: fixed buffers, a cursor over the text, and what it shares
 with the registry's parser.

 A C string is the sequence of its characters before the terminating NUL.
 */
module CParser {
  import opened Text
  import Uri

  const MAX_SEGMENTS: nat := 8
  const MAX_TEXT: nat := 64

  // ------------------------------------------------------ the functional split

  datatype Split3 = Split3(package: string, target: string, segments: seq<string>)

  predicate PathEnd(p: string) { p == "" || p[0] == '?' || p[0] == '#' }

  /** Slash-separated pieces up to the end of the path; an empty last one is not counted. */
  function Segments(p: string): seq<string>
    decreases |p|
  {
    if PathEnd(p) then []
    else
      var n := Uri.Span(p, "/?#");
      [p[..n]] + if PathEnd(p[n..]) then [] else Segments(p[n + 1..])
  }

  /** The path of what follows the authority. */
  function PathSegments(after: string): seq<string> {
    if after != "" && after[0] == '/' then Segments(after[1..]) else []
  }

  function SplitUri(uri: string): Option<Split3> {
    match SchemeEnd(uri)
    case None => None
    case Some(e) =>
      var rest := uri[e + 3..];
      var t := Uri.Span(rest, "/?#");
      if e == 0 || t == 0 then None
      else Some(Split3(uri[..e], rest[..t], PathSegments(rest[t..])))
  }

  predicate Fits(x: Split3) {
    && |x.package| < MAX_TEXT && |x.target| < MAX_TEXT && |x.segments| <= MAX_SEGMENTS
    && AllShort(x.segments)
  }

  // ------------------------------------------------------------ the C program

  /** The text held in a fixed buffer. */
  ghost predicate Holds(a: array<char>, s: string)
    reads a
  {
    a.Length == MAX_TEXT && |s| < MAX_TEXT && a[..|s|] == s && a[|s|] == '\0'
  }

  class Descriptor {
    const packageName: array<char>
    const target: array<char>
    const segments: seq<array<char>>
    var segmentCount: nat

    ghost predicate Valid() {
      && packageName.Length == MAX_TEXT && target.Length == MAX_TEXT
      && |segments| == MAX_SEGMENTS
      && (forall i :: 0 <= i < MAX_SEGMENTS ==> segments[i].Length == MAX_TEXT)
      && packageName != target
      && (forall i :: 0 <= i < MAX_SEGMENTS ==> segments[i] != packageName && segments[i] != target)
      && (forall i, j :: 0 <= i < j < MAX_SEGMENTS ==> segments[i] != segments[j])
    }

    ghost function Buffers(): set<object> {
      {packageName, target} + (set i | 0 <= i < |segments| :: segments[i])
    }

    constructor ()
      ensures Valid() && fresh(Buffers()) && segmentCount == 0
    {
      var p, t := new char[MAX_TEXT], new char[MAX_TEXT];
      var segs: seq<array<char>> := [];
      while |segs| < MAX_SEGMENTS
        invariant |segs| <= MAX_SEGMENTS
        invariant forall i :: 0 <= i < |segs| ==> fresh(segs[i]) && segs[i].Length == MAX_TEXT && segs[i] != p && segs[i] != t
        invariant forall i, j :: 0 <= i < j < |segs| ==> segs[i] != segs[j]
      {
        var s := new char[MAX_TEXT];
        segs := segs + [s];
      }
      packageName, target, segments, segmentCount := p, t, segs, 0;
    }

    /** What the descriptor says. */
    ghost predicate Says(x: Split3)
      requires Valid()
      reads this, Buffers()
    {
      && Holds(packageName, x.package) && Holds(target, x.target)
      && segmentCount == |x.segments| <= MAX_SEGMENTS && Filled(segments, x.segments)
    }
  }

  /** `copy_token`: a token that does not fit with its NUL is refused. */
  method CopyToken(dst: array<char>, src: string, start: nat, len: nat) returns (ok: bool)
    requires dst.Length == MAX_TEXT && start + len <= |src|
    modifies dst
    ensures ok <==> len < MAX_TEXT
    ensures ok ==> Holds(dst, src[start..start + len])
    ensures !ok ==> dst[..] == old(dst[..])
  {
    if len >= MAX_TEXT {
      return false;
    }
    forall i | 0 <= i < len {
      dst[i] := src[start + i];
    }
    dst[len] := '\0';
    assert dst[..len] == src[start..start + len];
    return true;
  }

  method IsPathEnd(uri: string, p: nat) returns (r: bool)
    requires p <= |uri|
    ensures r <==> PathEnd(uri[p..])
  {
    r := p == |uri| || uri[p] == '?' || uri[p] == '#';
  }

  /** Walk to the next delimiter. */
  method Walk(uri: string, p: nat) returns (e: nat)
    requires p <= |uri|
    ensures e == p + Uri.Span(uri[p..], "/?#") <= |uri|
  {
    e := p;
    while e < |uri| && uri[e] != '/' && uri[e] != '?' && uri[e] != '#'
      invariant p <= e <= |uri|
      invariant forall k :: p <= k < e ==> uri[k] !in "/?#"
    {
      e := e + 1;
    }
    assert forall k :: 0 <= k < e - p ==> uri[p..][k] == uri[p + k];
    Uri.SpanIs(uri[p..], "/?#", e - p);
  }

  /** `parse_target`: the delimiter after the target, or none. */
  method ParseTarget(uri: string, p: nat, out: Descriptor) returns (end: Option<nat>)
    requires p <= |uri| && out.Valid()
    modifies out.target
    ensures var t := Uri.Span(uri[p..], "/?#");
            if t == 0 || t >= MAX_TEXT then end == None
            else end == Some(p + t) && Holds(out.target, uri[p..p + t])
  {
    var e := Walk(uri, p);
    if e == p {
      return None;
    }
    var ok := CopyToken(out.target, uri, p, e - p);
    return if ok then Some(e) else None;
  }

  /** Store one segment in its slot; an empty one is a lone NUL. */
  method StoreSegment(slot: array<char>, uri: string, p: nat, next: nat) returns (ok: bool)
    requires slot.Length == MAX_TEXT && p <= next <= |uri|
    modifies slot
    ensures ok <==> next - p < MAX_TEXT
    ensures ok ==> Holds(slot, uri[p..next])
  {
    if next != p {
      ok := CopyToken(slot, uri, p, next - p);
    } else {
      slot[0] := '\0';
      ok := true;
    }
  }

  /** The slots so far hold these texts. */
  ghost predicate Filled(slots: seq<array<char>>, done: seq<string>)
    reads slots
  {
    |done| <= |slots| && forall i :: 0 <= i < |done| ==> Holds(slots[i], done[i])
  }

  /** At most eight segments, and nothing longer than 63 characters. */
  lemma {:induction false} FitsReads(x: Split3)
    ensures Fits(x) <==>
            && |x.package| <= 63 && |x.target| <= 63 && |x.segments| <= 8
            && forall s :: s in x.segments ==> |s| <= 63
  {
  }

  predicate AllShort(segs: seq<string>) {
    forall i :: 0 <= i < |segs| ==> |segs[i]| < MAX_TEXT
  }

  /** One more segment into the next slot. */
  method StoreNext(uri: string, p: nat, next: nat, out: Descriptor, ghost done: seq<string>) returns (ok: bool)
    requires out.Valid() && p <= next <= |uri| && out.segmentCount == |done| < MAX_SEGMENTS && Filled(out.segments, done)
    modifies out, out.segments
    ensures ok <==> next - p < MAX_TEXT
    ensures ok ==> out.segmentCount == |done| + 1 && Filled(out.segments, done + [uri[p..next]])
  {
    hide Holds;
    var slot := out.segments[out.segmentCount];
    ok := StoreSegment(slot, uri, p, next);
    if ok {
      out.segmentCount := out.segmentCount + 1;
      forall i | 0 <= i < |done| ensures Holds(out.segments[i], done[i]) {
        assert out.segments[i] != slot;
      }
    }
  }

  /** `parse_segments`. */
  method ParseSegments(uri: string, p0: nat, out: Descriptor) returns (ok: bool)
    requires p0 <= |uri| && out.Valid()
    modifies out, out.segments
    ensures ok <==> |Segments(uri[p0..])| <= MAX_SEGMENTS && AllShort(Segments(uri[p0..]))
    ensures ok ==> out.segmentCount == |Segments(uri[p0..])| && Filled(out.segments, Segments(uri[p0..]))
  {
    hide Holds, Segments, Uri.Span, PathEnd, Filled;
    EmptyFilled(out.segments);
    out.segmentCount := 0;
    ghost var done: seq<string> := [];
    ghost var all := Segments(uri[p0..]);
    var p := p0;
    while true
      invariant p <= |uri| && out.segmentCount == |done| <= MAX_SEGMENTS
      invariant done + Segments(uri[p..]) == all
      invariant Filled(out.segments, done) && AllShort(done)
      decreases |uri| - p
    {
      var end := IsPathEnd(uri, p);
      if end {
        NoSegments(uri[p..]);
        break;
      }
      SegmentsStep(uri, p);
      if out.segmentCount >= MAX_SEGMENTS {
        return false;
      }
      var next := Walk(uri, p);
      assert all[|done|] == uri[p..next];
      var stored := StoreNext(uri, p, next, out, done);
      if !stored {
        return false;
      }
      done := done + [uri[p..next]];
      end := IsPathEnd(uri, next);
      if end {
        p := next;
        NoSegments(uri[p..]);
        break;
      }
      EndsHere(uri, next);
      p := next + 1;
    }
    assert all == done;
    return true;
  }

  lemma {:induction false} EmptyFilled(slots: seq<array<char>>)
    ensures Filled(slots, [])
  {
  }

  lemma {:induction false} EndsHere(uri: string, p: nat)
    requires p <= |uri|
    ensures !PathEnd(uri[p..]) ==> p < |uri|
  {
  }

  lemma {:induction false} NoSegments(p: string)
    requires PathEnd(p)
    ensures Segments(p) == []
  {
  }

  lemma {:induction false} SegmentsStep(uri: string, p: nat)
    requires p <= |uri| && !PathEnd(uri[p..])
    ensures var n := p + Uri.Span(uri[p..], "/?#");
            && n <= |uri|
            && Segments(uri[p..]) == [uri[p..n]] + (if PathEnd(uri[n..]) then [] else Segments(uri[n + 1..]))
  {
    hide Uri.Span, Segments;
    var rest := uri[p..];
    var n := Uri.Span(rest, "/?#");
    SegmentsUnfold(rest);
    assert rest[n..] == uri[p + n..] && rest[..n] == uri[p..p + n];
    if !PathEnd(rest[n..]) {
      assert rest[n + 1..] == uri[p + n + 1..];
    }
  }

  lemma {:induction false} SegmentsUnfold(s: string)
    requires !PathEnd(s)
    ensures var n := Uri.Span(s, "/?#");
            Segments(s) == [s[..n]] + (if PathEnd(s[n..]) then [] else Segments(s[n + 1..]))
  {
    hide Uri.Span;
  }

  /** Everything after the target. */
  method ParsePath(uri: string, p: nat, out: Descriptor) returns (ok: bool)
    requires p <= |uri| && out.Valid()
    modifies out, out.segments
    ensures ok <==> |PathSegments(uri[p..])| <= MAX_SEGMENTS && AllShort(PathSegments(uri[p..]))
    ensures ok ==> out.segmentCount == |PathSegments(uri[p..])| && Filled(out.segments, PathSegments(uri[p..]))
  {
    hide Segments;
    if p == |uri| || uri[p] != '/' {
      out.segmentCount := 0;
      return true;
    }
    assert uri[p..][1..] == uri[p + 1..];
    ok := ParseSegments(uri, p + 1, out);
  }

  /** `urirun_parse`: succeeds exactly when the split exists and fits, and then says it. */
  method UrirunParse(uri: string, out: Descriptor) returns (ok: bool)
    requires out.Valid()
    modifies out, out.Buffers()
    ensures ok <==> SplitUri(uri).Some? && Fits(SplitUri(uri).value)
    ensures ok ==> out.Says(SplitUri(uri).value)
  {
    hide Segments, Filled, AllShort, PathSegments;
    var schemeEnd := SchemeEnd(uri);
    if schemeEnd.None? || schemeEnd.value == 0 {
      return false;
    }
    var e := schemeEnd.value;
    var ok1 := CopyToken(out.packageName, uri, 0, e);
    if !ok1 {
      return false;
    }
    var end := ParseTarget(uri, e + 3, out);
    if end.None? {
      return false;
    }
    ghost var t := end.value - (e + 3);
    assert uri[e + 3..][..t] == uri[e + 3..end.value] && uri[e + 3..][t..] == uri[end.value..];
    assert uri[0..e] == uri[..e];
    assert SplitUri(uri) == Some(Split3(uri[..e], uri[e + 3..end.value], PathSegments(uri[end.value..])));
    ok := ParsePath(uri, end.value, out);
  }

  // ------------------------------------------------------- parsing what was printed

  function Print(x: Split3): string {
    x.package + "://" + x.target + "/" + Join(x.segments, '/')
  }

  /** A package without "://" in it ends at the first one printed. */
  lemma {:induction false} PackageEnds(package: string, rest: string)
    requires SchemeEnd(package).None?
    ensures SchemeEnd(package + "://" + rest) == Some(|package|)
  {
    var s, n := package + "://" + rest, |package|;
    assert MarkAt(s, n);
    forall k: nat | k < n ensures !MarkAt(s, k) {
      if k + 3 <= n {
        assert !MarkAt(package, k);
      }
    }
  }

  predicate Plain(s: string) {
    forall i :: 0 <= i < |s| ==> s[i] !in "/?#"
  }

  /** What splitting keeps of printed segments: all but an empty last one. */
  function Kept(segs: seq<string>): seq<string> {
    if segs != [] && segs[|segs| - 1] == "" then segs[..|segs| - 1] else segs
  }

  lemma {:induction false} LoneSegment(s: string)
    requires Plain(s)
    ensures Segments(s) == if s == "" then [] else [s]
  {
    Uri.SpanIs(s, "/?#", |s|);
    if s != "" {
      assert s[0] !in "/?#" && s[..|s|] == s && s[|s|..] == "";
    }
  }

  lemma {:induction false} SegmentThen(s: string, rest: string)
    requires Plain(s)
    ensures Segments(s + "/" + rest) == [s] + Segments(rest)
  {
    var all := s + "/" + rest;
    assert all[|s|] == '/' && forall k :: 0 <= k < |s| ==> all[k] == s[k];
    Uri.SpanIs(all, "/?#", |s|);
    assert !PathEnd(all) by {
      if s != "" {
        assert all[0] == s[0] && s[0] !in "/?#";
      }
    }
    assert all[..|s|] == s && all[|s|..][0] == '/' && all[|s| + 1..] == rest;
  }

  lemma {:induction false} SegmentsOfJoin(segs: seq<string>)
    requires forall i :: 0 <= i < |segs| ==> Plain(segs[i])
    ensures Segments(Join(segs, '/')) == Kept(segs)
    decreases |segs|
  {
    hide Segments, Plain;
    if segs == [] {
      NoSegments("");
    } else if |segs| == 1 {
      LoneSegment(segs[0]);
    } else {
      var s, rest := segs[0], segs[1..];
      assert s + ['/'] + Join(rest, '/') == s + "/" + Join(rest, '/');
      SegmentThen(s, Join(rest, '/'));
      SegmentsOfJoin(rest);
      assert segs == [s] + rest;
      assert [s] + Kept(rest) == Kept(segs);
    }
  }

  /**
   Parsing inverts printing for segments without delimiters, except that an empty
   last segment is not seen; it inverts it exactly when there is none.
   */
  lemma {:induction false} PrintRoundTrip(x: Split3)
    requires x.package != "" && SchemeEnd(x.package).None? && x.target != "" && Plain(x.target)
    requires forall i :: 0 <= i < |x.segments| ==> Plain(x.segments[i])
    ensures SplitUri(Print(x)) == Some(x.(segments := Kept(x.segments)))
    ensures SplitUri(Print(x)) == Some(x) <==> x.segments == [] || x.segments[|x.segments| - 1] != ""
  {
    hide SchemeEnd, Segments, Join, Uri.Span;
    var path := "/" + Join(x.segments, '/');
    var rest := x.target + path;
    assert Print(x) == x.package + "://" + rest;
    PackageEnds(x.package, rest);
    var uri, e := Print(x), |x.package|;
    assert uri[..e] == x.package && uri[e + 3..] == rest;
    assert forall i :: 0 <= i < |x.target| ==> rest[i] == x.target[i];
    assert rest[|x.target|] == '/';
    Uri.SpanIs(rest, "/?#", |x.target|);
    assert rest[..|x.target|] == x.target && rest[|x.target|..] == path && path[1..] == Join(x.segments, '/');
    SegmentsOfJoin(x.segments);
  }

  // ------------------------------------------------ against the registry's parser

  lemma {:induction false} SlashSpan(p: string, n: nat)
    requires n < |p| && p[n] == '/' && Plain(p[..n])
    ensures Uri.Span(p, "?#") == n + 1 + Uri.Span(p[n + 1..], "?#")
    ensures Uri.Span(p, "/?#") == n && '/' !in p[..n]
  {
    var head, p1 := p[..n], p[n + 1..];
    var m := Uri.Span(p1, "?#");
    forall k | 0 <= k < n ensures p[k] !in "/?#" {
      assert p[k] == head[k];
    }
    forall k | 0 <= k < n + 1 + m ensures p[k] !in "?#" {
      if k > n {
        assert p[k] == p1[k - n - 1];
      }
    }
    if n + 1 + m < |p| {
      assert p[n + 1 + m] == p1[m];
    }
    Uri.SpanIs(p, "?#", n + 1 + m);
    Uri.SpanIs(p, "/?#", n);
  }

  lemma {:induction false} SlashPiece(p: string, n: nat)
    requires n < |p| && p[n] == '/' && Plain(p[..n])
    ensures var m := Uri.Span(p[n + 1..], "?#");
            && n + 1 + m <= |p| && Uri.Span(p, "?#") == n + 1 + m && Uri.Span(p, "/?#") == n
            && p[..n + 1 + m] == p[..n] + "/" + p[n + 1..][..m]
            && '/' !in p[..n] && !PathEnd(p)
  {
    hide Uri.Span;
    SlashSpan(p, n);
    if n > 0 {
      assert p[0] == p[..n][0];
    }
  }

  lemma {:induction false} LastPiece(p: string, n: nat)
    requires n == Uri.Span(p, "/?#") && (n < |p| ==> p[n] != '/') && !PathEnd(p)
    ensures Uri.Span(p, "?#") == n && '/' !in p[..n] && Segments(p) == [p[..n]]
  {
    Uri.SpanIs(p, "?#", n);
    assert PathEnd(p[n..]);
  }

  /** Both parsers see the same non-empty pieces of a path. */
  lemma {:induction false} SamePieces(p: string)
    ensures Uri.NonEmptyParts(Split(p[..Uri.Span(p, "?#")], '/')) == Uri.NonEmptyParts(Segments(p))
    decreases |p|
  {
    hide Split, Segments, Uri.Span, Uri.NonEmptyParts;
    if PathEnd(p) {
      NothingSplit(p);
    } else {
      var n := Uri.Span(p, "/?#");
      Uri.SpanEnds(p, "/?#");
      if n < |p| && p[n] == '/' {
        var p1 := p[n + 1..];
        SamePieces(p1);
        SlashPiece(p, n);
        var q := p1[..Uri.Span(p1, "?#")];
        Uri.SplitHead(p[..n], q);
        OnePiece(p[..n], Split(q, '/'), Segments(p1));
        PieceFirst(p, n);
      } else {
        LastPiece(p, n);
        Uri.SplitHead(p[..n], "");
      }
    }
  }

  lemma {:induction false} PieceFirst(p: string, n: nat)
    requires !PathEnd(p) && n == Uri.Span(p, "/?#") < |p| && p[n] == '/'
    ensures Segments(p) == [p[..n]] + Segments(p[n + 1..])
  {
    hide Uri.Span;
    assert p[n..][0] == '/';
  }

  lemma {:induction false} NothingSplit(p: string)
    requires PathEnd(p)
    ensures Uri.NonEmptyParts(Split(p[..Uri.Span(p, "?#")], '/')) == Uri.NonEmptyParts(Segments(p))
  {
    assert p[..Uri.Span(p, "?#")] == "";
    Uri.SplitHead("", "");
    assert [""][1..] == [];
  }

  lemma {:induction false} OnePiece(head: string, a: seq<string>, b: seq<string>)
    requires Uri.NonEmptyParts(a) == Uri.NonEmptyParts(b)
    ensures Uri.NonEmptyParts([head] + a) == Uri.NonEmptyParts([head] + b)
  {
    assert ([head] + a)[1..] == a && ([head] + b)[1..] == b;
  }

  lemma {:induction false} UnquoteNothing(parts: seq<string>)
    requires forall i :: 0 <= i < |parts| ==> '%' !in parts[i]
    ensures Uri.UnquoteAll(parts) == parts
  {
    forall i | 0 <= i < |parts| ensures Uri.Unquote(parts[i]) == parts[i] {
      Uri.NoPercentUnquote(parts[i]);
    }
  }

  lemma {:induction false} PiecesWithoutPercent(p: string)
    requires '%' !in p
    ensures forall i :: 0 <= i < |Uri.NonEmptyParts(Segments(p))| ==> '%' !in Uri.NonEmptyParts(Segments(p))[i]
    decreases |p|
  {
    if !PathEnd(p) {
      var n := Uri.Span(p, "/?#");
      var tail := if PathEnd(p[n..]) then [] else Segments(p[n + 1..]);
      if !PathEnd(p[n..]) {
        PiecesWithoutPercent(p[n + 1..]);
      }
      assert Segments(p) == [p[..n]] + tail && ([p[..n]] + tail)[1..] == tail;
      assert Uri.NonEmptyParts(Segments(p)) == (if p[..n] == "" then [] else [p[..n]]) + Uri.NonEmptyParts(tail);
    }
  }

  /** Cutting at the first colon and at the first "://" is the same for legal schemes. */
  lemma {:induction false} SameScheme(uri: string)
    ensures Uri.LegalScheme(uri[..IndexOf(uri, ':')]) && MarkAt(uri, IndexOf(uri, ':')) <==>
            SchemeEnd(uri).Some? && Uri.LegalScheme(uri[..SchemeEnd(uri).value])
    ensures SchemeEnd(uri).Some? && Uri.LegalScheme(uri[..SchemeEnd(uri).value]) ==> SchemeEnd(uri).value == IndexOf(uri, ':')
  {
    var i := IndexOf(uri, ':');
    if SchemeEnd(uri).Some? && Uri.LegalScheme(uri[..SchemeEnd(uri).value]) {
      var e := SchemeEnd(uri).value;
      forall k | 0 <= k < e ensures uri[k] != ':' {
        assert uri[k] == uri[..e][k] && uri[..e][k] in uri[..e];
      }
      IndexOfIs(uri, ':', e);
    }
  }

  lemma {:induction false} IndexOfIs(s: string, c: char, n: nat)
    requires n < |s| && s[n] == c && forall k :: 0 <= k < n ==> s[k] != c
    ensures IndexOf(s, c) == n
  {
  }

  predicate OneLine(s: string) { '\n' !in s }

  /** What follows the path never matters to either parser on one line. */
  lemma {:induction false} TailIsOk(tail: string)
    requires OneLine(tail)
    ensures Uri.TailOk(tail)
  {
  }

  /** After a legal scheme the two parsers cut the rest at the same places. */
  lemma {:induction false} SameRest(scheme: string, rest: string)
    requires Uri.CutRest(scheme, rest).Some?
    ensures var x, t := Uri.CutRest(scheme, rest).value, Uri.Span(rest, "/?#");
            && t > 0 && x.target == rest[..t]
            && Uri.NonEmptyParts(Split(x.path, '/')) == Uri.NonEmptyParts(PathSegments(rest[t..]))
  {
    hide Split, Uri.NonEmptyParts, Uri.Span, Segments;
    var t := Uri.Span(rest, "/?#");
    var after := rest[t..];
    if after != "" && after[0] == '/' {
      SlashPiece(after, 0);
      SamePieces(after[1..]);
      var q := after[1..][..Uri.Span(after[1..], "?#")];
      Uri.SplitHead("", q);
      assert "" + "/" + q == after[..0] + "/" + q;
      LeadingEmpty(Split(q, '/'));
    } else {
      NoPath();
      assert after[..0] == "";
    }
  }

  lemma {:induction false} LeadingEmpty(parts: seq<string>)
    ensures Uri.NonEmptyParts([""] + parts) == Uri.NonEmptyParts(parts)
  {
    assert ([""] + parts)[1..] == parts;
  }

  lemma {:induction false} NoPath()
    ensures Uri.NonEmptyParts(Split("", '/')) == Uri.NonEmptyParts([])
  {
    Uri.SplitHead("", "");
    assert [""][1..] == [];
  }

  lemma {:induction false} CutByMark(uri: string)
    ensures Uri.Cut(uri) ==
            if SchemeEnd(uri).Some? && Uri.LegalScheme(uri[..SchemeEnd(uri).value])
            then Uri.CutRest(uri[..SchemeEnd(uri).value], uri[SchemeEnd(uri).value + 3..])
            else None
  {
    hide SchemeEnd, IndexOf, Uri.LegalScheme, Uri.CutRest;
    SameScheme(uri);
    var i := IndexOf(uri, ':');
    MarkSlice(uri, i);
  }

  lemma {:induction false} MarkSlice(s: string, k: nat)
    ensures MarkAt(s, k) <==> k + 3 <= |s| && s[k..k + 3] == "://"
  {
    if k + 3 <= |s| {
      assert s[k..k + 3] == [s[k], s[k + 1], s[k + 2]];
    }
  }

  lemma {:induction false} NoEmpties(parts: seq<string>)
    ensures Uri.NonEmptyParts(parts) == parts <==> "" !in parts
    ensures |Uri.NonEmptyParts(parts)| <= |parts|
    decreases |parts|
  {
    if parts != [] {
      NoEmpties(parts[1..]);
      assert parts == [parts[0]] + parts[1..];
    }
  }

  lemma {:induction false} CutRestTail(scheme: string, rest: string)
    requires OneLine(rest) && '%' !in rest && Uri.CutRest(scheme, rest).Some?
    ensures var x, t := Uri.CutRest(scheme, rest).value, Uri.Span(rest, "/?#");
            && Uri.TailOk(x.tail) && x.scheme == scheme && Uri.Unquote(x.target) == rest[..t]
            && Uri.UnquoteAll(Uri.NonEmptyParts(Split(x.path, '/'))) == Uri.NonEmptyParts(PathSegments(rest[t..]))
  {
    hide Split, Uri.NonEmptyParts, Uri.Span, Uri.Unquote, Uri.UnquoteAll, Segments, Uri.TailOk;
    SameRest(scheme, rest);
    var x, t := Uri.CutRest(scheme, rest).value, Uri.Span(rest, "/?#");
    TailIsOk(x.tail);
    Uri.NoPercentUnquote(x.target);
    var after := rest[t..];
    if after != "" && after[0] == '/' {
      PiecesWithoutPercent(after[1..]);
      UnquoteNothing(Uri.NonEmptyParts(Segments(after[1..])));
    } else {
      NoParts();
      UnquoteNothing([]);
    }
  }

  lemma {:induction false} NoParts()
    ensures Uri.NonEmptyParts([]) == []
  {
  }

  /**
   On one-line URIs without escapes: the registry's parser accepts exactly what the
   C split accepts with a legal scheme, both name the same package and target, and
   the segments differ only in empty ones, which C keeps inside the path.
   */
  lemma {:induction false} AgreesWithRegistry(uri: string)
    requires OneLine(uri) && '%' !in uri
    ensures Uri.ParseUri(uri).Some? <==> SplitUri(uri).Some? && Uri.LegalScheme(SplitUri(uri).value.package)
    ensures Uri.ParseUri(uri).Some? ==>
              var x := SplitUri(uri).value;
              && Uri.ParseUri(uri) == Some(Uri.Descriptor(x.package, x.target, Uri.NonEmptyParts(x.segments)))
              && (Uri.ParseUri(uri).value.segments == x.segments <==> "" !in x.segments)
  {
    hide Split, Uri.NonEmptyParts, Uri.Span, Uri.Unquote, Uri.UnquoteAll, Uri.Cut, PathSegments, SchemeEnd, Uri.TailOk;
    CutByMark(uri);
    if SchemeEnd(uri).Some? {
      var e := SchemeEnd(uri).value;
      var rest := uri[e + 3..];
      var t := Uri.Span(rest, "/?#");
      assert Uri.LegalScheme(uri[..e]) ==> e != 0;
      if Uri.Cut(uri).Some? {
        CutRestTail(uri[..e], rest);
        NoEmpties(PathSegments(rest[t..]));
      }
    }
  }
}
