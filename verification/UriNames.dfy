/**
 When two URIs have one normal form.  The normal form keeps the target decoded, so a
 slash in a target reads like one more segment.
 */
module UriNames {
  import opened Text
  import opened Uri

  /** What parsing a URI of octets gives. */
  ghost predicate WellFormed(d: Descriptor) {
    && LegalScheme(d.package) && d.target != "" && Octets(d.target) && Pieced(d.segments)
  }

  ghost predicate Pieced(parts: seq<string>) {
    AllOctets(parts) && forall i :: 0 <= i < |parts| ==> parts[i] != ""
  }

  /** The longer target is the shorter one with further segments written out after it. */
  ghost predicate ExtendsBy(longer: string, shorter: string, pieces: seq<string>) {
    pieces != [] && Pieced(pieces) && longer == shorter + "/" + Join(QuoteAll(pieces), '/')
  }

  ghost predicate Extends(longer: string, shorter: string) {
    exists pieces :: ExtendsBy(longer, shorter, pieces)
  }

  /** Decoded targets under which one normal form has two readings. */
  ghost predicate Collide(a: string, b: string) {
    Extends(a, b) || Extends(b, a)
  }

  lemma {:induction false} ParsedWellFormed(uri: string)
    requires Octets(uri) && ParseUri(uri).Some?
    ensures WellFormed(ParseUri(uri).value)
  {
    hide Split, NonEmptyParts, LegalScheme, TailOk;
    ParsedParts(uri);
    CutTarget(uri);
  }

  lemma {:induction false} CutTarget(uri: string)
    requires Octets(uri) && Cut(uri).Some?
    ensures Octets(Cut(uri).value.target)
  {
    hide LegalScheme;
  }

  // ------------------------------------------------------------------ injective

  lemma {:induction false} QuotedPieces(parts: seq<string>)
    requires Pieced(parts)
    ensures forall i :: 0 <= i < |parts| ==> '/' !in QuoteAll(parts)[i] && QuoteAll(parts)[i] != ""
  {
    hide Quote;
    forall i | 0 <= i < |parts| ensures '/' !in QuoteAll(parts)[i] && QuoteAll(parts)[i] != "" {
      QuoteIsClean(parts[i]);
    }
  }

  /** Printed segments determine the segments. */
  lemma {:induction false} JoinInjective(a: seq<string>, b: seq<string>)
    requires Pieced(a) && Pieced(b) && a != [] && b != []
    requires Join(QuoteAll(a), '/') == Join(QuoteAll(b), '/')
    ensures a == b
  {
    QuotedPieces(a);
    QuotedPieces(b);
    hide Quote, Unquote, Split, Join;
    SplitJoin(QuoteAll(a));
    SplitJoin(QuoteAll(b));
    forall i | 0 <= i < |a| ensures a[i] == b[i] {
      assert QuoteAll(a)[i] == QuoteAll(b)[i];
      UnquoteQuote(a[i]);
      UnquoteQuote(b[i]);
    }
  }

  lemma {:induction false} JoinAppend(a: seq<string>, b: seq<string>)
    requires a != [] && b != []
    ensures Join(a + b, '/') == Join(a, '/') + "/" + Join(b, '/')
    decreases |a|
  {
    if |a| == 1 {
      assert (a + b)[1..] == b;
    } else {
      assert (a + b)[1..] == a[1..] + b;
      JoinAppend(a[1..], b);
      assert a[0] + ['/'] + (Join(a[1..], '/') + "/" + Join(b, '/')) == a[0] + ['/'] + Join(a[1..], '/') + "/" + Join(b, '/');
    }
  }

  lemma {:induction false} JoinOne(part: string)
    ensures Join([part], '/') == part
  {
  }

  lemma {:induction false} JoinMore(parts: seq<string>)
    requires |parts| > 1
    ensures Join(parts, '/') == parts[0] + "/" + Join(parts[1..], '/')
  {
  }

  /** Cutting a join at a slash cuts the list. */
  lemma {:induction false} JoinCut(parts: seq<string>, head: string, rest: string) returns (k: nat)
    requires parts != [] && forall i :: 0 <= i < |parts| ==> '/' !in parts[i]
    requires Join(parts, '/') == head + "/" + rest
    ensures 0 < k < |parts| && head == Join(parts[..k], '/') && rest == Join(parts[k..], '/')
    decreases |parts|
  {
    hide Join;
    var p, all := parts[0], Join(parts, '/');
    assert all[|head|] == '/' && forall i :: 0 <= i < |p| ==> p[i] != '/';
    JoinOne(p);
    assert |parts| == 1 ==> parts == [p];
    JoinMore(parts);
    var tail := Join(parts[1..], '/');
    assert forall i :: 0 <= i < |p| ==> all[i] == p[i];
    assert |head| >= |p|;
    if |head| == |p| {
      k := 1;
      assert head == all[..|head|] == p && rest == all[|head| + 1..] == tail;
      JoinOne(p);
      assert parts[..1] == [p];
    } else {
      var more := head[|p| + 1..];
      assert all[|p|] == '/' == head[|p|] && head[..|p|] == all[..|p|] == p;
      assert head == p + "/" + more;
      assert tail == all[|p| + 1..] == more + "/" + rest;
      var j := JoinCut(parts[1..], more, rest);
      k := j + 1;
      assert parts[..k] == [p] + parts[1..][..j] && parts[..k][1..] == parts[1..][..j] && parts[1..][j..] == parts[k..];
      JoinMore(parts[..k]);
    }
  }

  // -------------------------------------------------------------- one normal form

  lemma {:induction false} SameScheme(a: Descriptor, b: Descriptor)
    requires WellFormed(a) && WellFormed(b) && Normalized(a) == Normalized(b)
    ensures a.package == b.package
    ensures a.target + "/" + Join(QuoteAll(a.segments), '/') == b.target + "/" + Join(QuoteAll(b.segments), '/')
  {
    hide Quote, QuoteAll, Join, LegalScheme;
    var x, y := a.target + "/" + Join(QuoteAll(a.segments), '/'), b.target + "/" + Join(QuoteAll(b.segments), '/');
    assert Normalized(a) == a.package + "://" + x && Normalized(b) == b.package + "://" + y;
    CutScheme(a.package, x);
    CutScheme(b.package, y);
  }

  /** The longer of two targets with one normal form extends the shorter. */
  lemma {:induction false} LongerExtends(a: Descriptor, b: Descriptor)
    requires WellFormed(a) && WellFormed(b) && a.segments != [] && b.segments != []
    requires Normalized(a) == Normalized(b) && |a.target| > |b.target|
    ensures Extends(a.target, b.target)
  {
    hide Quote, Join, Normalized;
    SameScheme(a, b);
    var p, q := Join(QuoteAll(a.segments), '/'), Join(QuoteAll(b.segments), '/');
    var n := |b.target|;
    var whole := b.target + "/" + q;
    assert whole[..n] == b.target && whole[n] == '/' && whole[n + 1..] == q;
    assert a.target == whole[..|a.target|] && whole[|a.target|] == '/' && p == whole[|a.target| + 1..];
    var middle := a.target[n + 1..];
    assert a.target == b.target + "/" + middle;
    assert q == middle + "/" + p;
    QuotedPieces(b.segments);
    var k := JoinCut(QuoteAll(b.segments), middle, p);
    var pieces := b.segments[..k];
    assert QuoteAll(b.segments)[..k] == QuoteAll(pieces);
    assert ExtendsBy(a.target, b.target, pieces);
  }

  lemma {:induction false} NeverExtendsItself(t: string)
    ensures !Collide(t, t)
  {
    forall pieces ensures !ExtendsBy(t, t, pieces) {
      if Pieced(pieces) {
        assert |t + "/" + Join(QuoteAll(pieces), '/')| > |t|;
      }
    }
  }

  lemma {:induction false} SameHead(a: string, b: string, p: string, q: string)
    requires a + p == b + q
    ensures |a| == |b| ==> a == b
  {
    assert (a + p)[..|a|] == a && (b + q)[..|b|] == b;
  }

  /** Under one normal form two readings are the same if and only if their decoded targets do not collide. */
  lemma {:induction false} NamedAlike(a: Descriptor, b: Descriptor)
    requires WellFormed(a) && WellFormed(b) && a.segments != [] && b.segments != []
    requires Normalized(a) == Normalized(b)
    ensures a == b <==> a.target == b.target
    ensures a == b <==> !Collide(a.target, b.target)
  {
    hide Quote, Join, Normalized, Extends;
    SameScheme(a, b);
    var p, q := Join(QuoteAll(a.segments), '/'), Join(QuoteAll(b.segments), '/');
    assert a.target + ("/" + p) == a.target + "/" + p && b.target + ("/" + q) == b.target + "/" + q;
    SameHead(a.target, b.target, "/" + p, "/" + q);
    if a.target == b.target {
      var n := |a.target|;
      assert (a.target + "/" + p)[n + 1..] == p && (b.target + "/" + q)[n + 1..] == q;
      JoinInjective(a.segments, b.segments);
      NeverExtendsItself(a.target);
    } else if |a.target| > |b.target| {
      LongerExtends(a, b);
    } else {
      LongerExtends(b, a);
    }
  }

  /** Colliding takes a slash in one of the targets. */
  lemma {:induction false} CollisionHasSlash(a: string, b: string)
    requires Collide(a, b)
    ensures '/' in a || '/' in b
  {
    if Extends(a, b) {
      var pieces :| ExtendsBy(a, b, pieces);
      assert a[|b|] == '/';
    } else {
      var pieces :| ExtendsBy(b, a, pieces);
      assert b[|a|] == '/';
    }
  }

  /** Segments moved into the target leave the normal form as it was. */
  lemma {:induction false} MovedSegments(package: string, longer: string, shorter: string, pieces: seq<string>, tail: seq<string>)
    requires ExtendsBy(longer, shorter, pieces) && Pieced(tail) && tail != []
    ensures Pieced(pieces + tail)
    ensures Normalized(Descriptor(package, longer, tail)) == Normalized(Descriptor(package, shorter, pieces + tail))
  {
    hide Quote, Join;
    JoinAppend(QuoteAll(pieces), QuoteAll(tail));
    assert QuoteAll(pieces + tail) == QuoteAll(pieces) + QuoteAll(tail);
    var m, q := Join(QuoteAll(pieces), '/'), Join(QuoteAll(tail), '/');
    assert package + "://" + (shorter + "/" + m) + "/" + q == package + "://" + shorter + "/" + (m + "/" + q);
  }

  // ---------------------------------------------------------------- idempotence

  /** A plain head followed by segments written out after slashes. */
  ghost predicate WrittenOut(target: string, head: string, pieces: seq<string>) {
    head != "" && PlainTarget(head) && ExtendsBy(target, head, pieces)
  }

  /** The decoded target is plain, or a plain head with segments written out and others behind it. */
  ghost predicate Settled(d: Descriptor) {
    PlainTarget(d.target) || (d.segments != [] && exists head, pieces :: WrittenOut(d.target, head, pieces))
  }

  ghost predicate IsNormal(n: string) {
    ParseUri(n).Some? && WellFormed(ParseUri(n).value) && Normalized(ParseUri(n).value) == n
  }

  /**
   Normalizing a second time changes nothing if and only if the decoded target is settled,
   in particular if it holds no delimiter and no percent sign.
   */
  lemma {:induction false} NormalizeIdempotent(uri: string)
    requires Octets(uri) && ParseUri(uri).Some?
    ensures WellFormed(ParseUri(uri).value)
    ensures IsNormal(Normalized(ParseUri(uri).value)) <==> Settled(ParseUri(uri).value)
    ensures NoDelimiter(ParseUri(uri).value.target) && '%' !in ParseUri(uri).value.target ==> Settled(ParseUri(uri).value)
  {
    ParsedWellFormed(uri);
    if '%' !in ParseUri(uri).value.target {
      NoPercentUnquote(ParseUri(uri).value.target);
    }
    hide ParseUri, NoDelimiter, Unquote, Normalized, LegalScheme, ExtendsBy, PlainTarget, Pieced;
    var d := ParseUri(uri).value;
    if Settled(d) {
      SettledIsNormal(d);
    } else if IsNormal(Normalized(d)) {
      NormalIsSettled(d, ParseUri(Normalized(d)).value);
    }
  }

  lemma {:induction false} PiecesParse(d: Descriptor)
    requires WellFormed(d)
    ensures ParseUri(Normalized(d)) == Some(d) <==> PlainTarget(d.target)
  {
    hide ParseUri, Normalized, LegalScheme, PlainTarget;
    PrintedParses(d);
  }

  lemma {:induction false} SettledIsNormal(d: Descriptor)
    requires WellFormed(d) && Settled(d)
    ensures IsNormal(Normalized(d))
  {
    hide ParseUri, Normalized, LegalScheme, PlainTarget, Join, Quote;
    PiecesParse(d);
    if !PlainTarget(d.target) {
      var head, pieces :| WrittenOut(d.target, head, pieces);
      MovedSegments(d.package, d.target, head, pieces, d.segments);
      var e := Descriptor(d.package, head, pieces + d.segments);
      assert d == Descriptor(d.package, d.target, d.segments);
      assert Octets(head) by {
        forall i | 0 <= i < |head| ensures head[i] as int < 256 {
          assert head[i] == d.target[i];
        }
      }
      PiecesParse(e);
    }
  }

  /** A reading of a normal form as one whose target is plain. */
  lemma {:induction false} NormalIsSettled(d: Descriptor, e: Descriptor)
    requires WellFormed(d) && WellFormed(e) && Normalized(d) == Normalized(e)
    requires ParseUri(Normalized(e)) == Some(e)
    ensures Settled(d)
  {
    hide ParseUri, Normalized, LegalScheme, Join, Quote, Extends, Unquote;
    PiecesParse(e);
    SameScheme(d, e);
    SameLength(d, e);
    if |d.target| > |e.target| {
      LongerHasBoth(d, e);
      LongerExtends(d, e);
      Extending(d.target, e.target);
    }
  }

  lemma {:induction false} Extending(longer: string, shorter: string)
    requires Extends(longer, shorter) && shorter != "" && PlainTarget(shorter)
    ensures exists head, pieces :: WrittenOut(longer, head, pieces)
  {
    hide ExtendsBy, PlainTarget;
    var pieces :| ExtendsBy(longer, shorter, pieces);
    assert WrittenOut(longer, shorter, pieces);
  }

  /** A plain target is not the longer one, and one as long is the same. */
  lemma {:induction false} SameLength(d: Descriptor, e: Descriptor)
    requires Pieced(d.segments) && Pieced(e.segments) && PlainTarget(e.target)
    requires d.target + "/" + Join(QuoteAll(d.segments), '/') == e.target + "/" + Join(QuoteAll(e.segments), '/')
    ensures |d.target| >= |e.target|
    ensures |d.target| == |e.target| ==> d.target == e.target
  {
    hide Join, Quote, Unquote;
    var p, q := Join(QuoteAll(d.segments), '/'), Join(QuoteAll(e.segments), '/');
    var whole := e.target + "/" + q;
    assert whole == d.target + "/" + p;
    assert whole[|d.target|] == '/' && whole[..|d.target|] == d.target && whole[..|e.target|] == e.target;
    assert forall k :: 0 <= k < |e.target| ==> whole[k] == e.target[k] && !Delimiter(whole[k]);
  }

  /** The longer target leaves segments behind it, and so does the shorter one. */
  lemma {:induction false} LongerHasBoth(d: Descriptor, e: Descriptor)
    requires Pieced(d.segments) && Pieced(e.segments) && |d.target| > |e.target|
    requires d.target + "/" + Join(QuoteAll(d.segments), '/') == e.target + "/" + Join(QuoteAll(e.segments), '/')
    ensures d.segments != [] && e.segments != []
  {
    hide Quote;
    var p, q := Join(QuoteAll(d.segments), '/'), Join(QuoteAll(e.segments), '/');
    assert |d.target + "/" + p| == |e.target + "/" + q|;
    if d.segments == [] {
      assert (d.target + "/")[|d.target|] == '/';
      assert (e.target + "/" + q)[|d.target|] == q[|q| - 1];
      LastIsNoSlash(e.segments);
    }
  }

  lemma {:induction false} LastIsNoSlash(parts: seq<string>)
    requires Pieced(parts) && parts != []
    ensures var q := Join(QuoteAll(parts), '/'); q != "" && q[|q| - 1] != '/'
    decreases |parts|
  {
    hide Quote;
    QuotedPieces(parts);
    if |parts| == 1 {
      JoinOne(Quote(parts[0]));
      assert QuoteAll(parts) == [Quote(parts[0])];
      assert QuoteAll(parts)[0] == Quote(parts[0]);
    } else {
      assert QuoteAll(parts)[1..] == QuoteAll(parts[1..]);
      JoinMore(QuoteAll(parts));
      LastIsNoSlash(parts[1..]);
    }
  }

  // ------------------------------------------------------------------- spelling

  /** A URI that reads as the descriptor, whatever is in its target. */
  function Spell(d: Descriptor): string
    requires WellFormed(d)
  {
    d.package + "://" + Quote(d.target) + "/" + Join(QuoteAll(d.segments), '/')
  }

  lemma {:induction false} SpelledParses(d: Descriptor)
    requires WellFormed(d)
    ensures ParseUri(Spell(d)) == Some(d)
  {
    hide Cut, Split, NonEmptyParts, Quote, Unquote, Join, UnquoteAll, QuoteAll, LegalScheme;
    var target, path := Quote(d.target), "/" + Join(QuoteAll(d.segments), '/');
    QuoteIsClean(d.target);
    UnquoteQuote(d.target);
    PrintedPath(d.segments);
    assert Spell(d) == d.package + "://" + target + path;
    forall k | 0 <= k < |target| ensures target[k] !in "/?#" {
      assert Unreserved(target[k]) || target[k] == '%';
    }
    SpanIs(target, "/?#", |target|);
    CutPrinted(d.package, target, path);
    assert TailOk("");
  }

  lemma {:induction false} SpelledOctets(d: Descriptor)
    requires WellFormed(d)
    ensures Octets(Spell(d)) && Octets(Normalized(d))
  {
    hide Quote, Join;
    QuoteIsClean(d.target);
    assert Octets(d.package) by {
      forall i | 0 <= i < |d.package| ensures d.package[i] as int < 256 {
        assert d.package[i] in d.package;
      }
    }
    assert Octets("://") && Octets("/");
    CleanOctets(Quote(d.target));
    JoinOctets(d.segments);
    hide Octets;
    var path := Join(QuoteAll(d.segments), '/');
    OctetsPlus(d.package, "://");
    OctetsPlus(d.package + "://", Quote(d.target));
    OctetsPlus(d.package + "://" + Quote(d.target), "/");
    OctetsPlus(d.package + "://" + Quote(d.target) + "/", path);
    OctetsPlus(d.package + "://", d.target);
    OctetsPlus(d.package + "://" + d.target, "/");
    OctetsPlus(d.package + "://" + d.target + "/", path);
  }

  lemma {:induction false} OctetsPlus(a: string, b: string)
    requires Octets(a) && Octets(b)
    ensures Octets(a + b)
  {
  }

  lemma {:induction false} CleanOctets(s: string)
    requires Clean(s)
    ensures Octets(s)
  {
  }

  lemma {:induction false} JoinOctets(segments: seq<string>)
    requires Pieced(segments)
    ensures Octets(Join(QuoteAll(segments), '/'))
  {
    hide Quote, Join;
    forall i | 0 <= i < |segments| ensures Clean(QuoteAll(segments)[i]) {
      QuoteIsClean(segments[i]);
    }
    JoinClean(QuoteAll(segments));
  }
}
