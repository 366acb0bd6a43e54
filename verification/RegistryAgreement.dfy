/**
 The resolver's fast path against the tree it speeds up, request by request: the index
 is asked for the normal form of the request, the tree for the route it translates to.
 */
module RegistryAgreement {
  import opened Text
  import opened Json
  import Uri
  import opened UriNames
  import opened Registry

  // ---------------------------------------------------- sources and requests

  /** A package that is no scheme is one only up to its colon; the rest of it goes into the target. */
  function SchemeIn(package: string): string {
    var i := IndexOf(package, ':');
    if Uri.LegalScheme(package) || i + 3 > |package| then package else package[..i]
  }

  function TargetIn(package: string, target: string): string {
    var i := IndexOf(package, ':');
    if Uri.LegalScheme(package) || i + 3 > |package| then target else package[i + 3..] + "://" + target
  }

  /** What a source says it is: what its URI reads as, or its parts as they are given. */
  function Given(item: Item): Uri.Descriptor
    requires ItemOctets(item) && Coerce(item).Some?
  {
    match item
    case ByUri(uri, _, _) => Uri.ParseUri(uri).value
    case ByParts(p, r, o, target, _, _) => Uri.Descriptor(SchemeIn(p), TargetIn(p, target), [r, o])
  }

  /** The name a source is indexed under is the normal form of what it says it is. */
  lemma {:induction false} SourceIsNamed(item: Item)
    requires ItemOctets(item) && Coerce(item).Some?
    ensures var d := Given(item);
            WellFormed(d) && |d.segments| >= 2 && Coerce(item).value.uri == Uri.Normalized(d)
  {
    hide Uri.ParseUri, Uri.Quote, Uri.LegalScheme, NormalizeRouteEntry;
    match item
    case ByUri(uri, _, _) => ParsedWellFormed(uri);
    case ByParts(p, r, o, target, _, _) =>
      PartsGiven(p, r, o, target);
      PartsAreNormal(SchemeIn(p), r, o, TargetIn(p, target));
  }

  /** Parts that can be read name a scheme and a target. */
  lemma {:induction false} PartsGiven(p: string, r: string, o: string, target: string)
    requires Uri.Octets(p) && Uri.Octets(r) && Uri.Octets(o) && Uri.Octets(target)
    requires Uri.ParseUri(Uri.PartsUri(p, r, o, target)).Some?
    ensures Uri.LegalScheme(SchemeIn(p)) && Uri.Octets(TargetIn(p, target)) && TargetIn(p, target) != ""
    ensures Uri.PartsUri(p, r, o, target) == Uri.PartsUri(SchemeIn(p), r, o, TargetIn(p, target))
  {
    hide Uri.Quote, Uri.LegalScheme, Uri.ParseUri, Uri.Extra, Uri.Span, Uri.OneLine, Uri.Open;
    var rest := target + "/" + Uri.Quote(r) + "/" + Uri.Quote(o);
    assert Uri.PartsUri(p, r, o, target) == p + "://" + rest;
    PackageScheme(p, rest);
    var s, t := SchemeIn(p), TargetIn(p, target);
    SplitPackage(p, target);
    TargetOctets(p, target);
    assert Uri.PartsUri(s, r, o, t) == s + "://" + t + "/" + Uri.Quote(r) + "/" + Uri.Quote(o);
    Uri.PartsRead(s, r, o, t);
    hide Uri.PartsUri, SchemeIn, TargetIn;
    Uri.SpanEnds(t, "/?#");
  }

  lemma {:induction false} SplitPackage(p: string, target: string)
    requires !Uri.LegalScheme(p) ==> var i := IndexOf(p, ':'); i + 3 <= |p| && p[i..i + 3] == "://"
    ensures SchemeIn(p) + "://" + TargetIn(p, target) == p + "://" + target
  {
    hide Uri.LegalScheme, IndexOf;
    var i := IndexOf(p, ':');
    if !Uri.LegalScheme(p) {
      assert p == p[..i] + "://" + p[i + 3..];
    }
  }

  lemma {:induction false} TargetOctets(p: string, target: string)
    requires Uri.Octets(p) && Uri.Octets(target)
    ensures Uri.Octets(TargetIn(p, target))
  {
    hide Uri.LegalScheme, IndexOf;
  }

  lemma {:induction false} ParsedScheme(uri: string)
    requires Uri.ParseUri(uri).Some?
    ensures var i := IndexOf(uri, ':');
            Uri.LegalScheme(uri[..i]) && i + 3 <= |uri| && uri[i] == ':' && uri[i + 1] == '/' && uri[i + 2] == '/'
  {
    hide Uri.LegalScheme, Uri.CutRest, Uri.TailOk, Uri.UnquoteAll, Uri.Unquote, IndexOf;
    var i := IndexOf(uri, ':');
    assert uri[i..i + 3] == "://";
    assert uri[i..i + 3][0] == uri[i] && uri[i..i + 3][1] == uri[i + 1] && uri[i..i + 3][2] == uri[i + 2];
  }

  lemma {:induction false} PackageScheme(p: string, rest: string)
    requires Uri.ParseUri(p + "://" + rest).Some?
    ensures Uri.LegalScheme(SchemeIn(p))
    ensures !Uri.LegalScheme(p) ==> var i := IndexOf(p, ':'); i + 3 <= |p| && p[i..i + 3] == "://"
  {
    hide Uri.LegalScheme, Uri.ParseUri, IndexOf;
    var uri := p + "://" + rest;
    ParsedScheme(uri);
    var i := IndexOf(uri, ':');
    assert uri[|p|] == ':' && uri[..|p|] == p;
    assert forall k :: 0 <= k < |p| ==> uri[k] == p[k];
    if i < |p| {
      FirstColon(p, i);
      assert uri[..i] == p[..i];
      assert p[i..i + 3] == [p[i], p[i + 1], p[i + 2]];
    }
  }

  lemma {:induction false} FirstColon(p: string, i: nat)
    requires i < |p| && p[i] == ':' && forall k :: 0 <= k < i ==> p[k] != ':'
    ensures IndexOf(p, ':') == i
  {
    hide IndexOf;
  }

  lemma {:induction false} PartsAreNormal(p: string, r: string, o: string, target: string)
    requires Uri.Octets(r) && Uri.Octets(o)
    ensures Uri.AllOctets([r, o])
    ensures Uri.PartsUri(p, r, o, target) == Uri.Normalized(Uri.Descriptor(p, target, [r, o]))
  {
    hide Uri.Quote;
    assert Uri.QuoteAll([r, o]) == [Uri.Quote(r), Uri.Quote(o)];
    JoinMore([Uri.Quote(r), Uri.Quote(o)]);
    JoinOne(Uri.Quote(o));
    assert [Uri.Quote(r), Uri.Quote(o)][1..] == [Uri.Quote(o)];
  }

  /** A source is stored under the route it says it is. */
  predicate Straight(item: Item)
    requires ItemOctets(item) && Coerce(item).Some?
  {
    |Given(item).segments| >= 2 && Coerce(item).value.key == KeyOf(Given(item))
  }

  /**
   A source by URI is stored under its own route; one by parts if and only if its target
   keeps the names in front of what it writes into the path.
   */
  lemma {:induction false} StraightExact(item: Item)
    requires ItemOctets(item) && Coerce(item).Some?
    ensures item.ByUri? ==> Straight(item)
    ensures item.ByParts? ==> (Straight(item) <==> Uri.NamesFirst(item.resource, item.operation, Given(item).target))
  {
    hide Uri.ParseUri, Uri.Quote, Uri.LegalScheme, NormalizeRouteEntry, Uri.NamesFirst;
    SourceIsNamed(item);
    if item.ByParts? {
      PartsGiven(item.package, item.resource, item.operation, item.target);
      Uri.PartsRoundTrip(SchemeIn(item.package), item.resource, item.operation, TargetIn(item.package, item.target));
      SchemeOctets(item.package);
      PartsScheme(item);
    }
  }

  lemma {:induction false} SchemeOctets(package: string)
    requires Uri.Octets(package)
    ensures Uri.Octets(SchemeIn(package))
  {
    hide Uri.LegalScheme;
  }

  lemma {:induction false} PartsScheme(item: Item)
    requires item.ByParts? && ItemOctets(item) && Coerce(item).Some?
    ensures Coerce(item).value.key.0 == SchemeIn(item.package)
  {
    hide Uri.ParseUri, Uri.PartsUri, Uri.Quote, Uri.LegalScheme, NormalizeRouteEntry, Uri.Extra, Uri.Open, Uri.OneLine;
    hide SchemeIn, TargetIn, Uri.Unquote, Uri.Span;
    PartsGiven(item.package, item.resource, item.operation, item.target);
    Uri.PartsRead(SchemeIn(item.package), item.resource, item.operation, TargetIn(item.package, item.target));
  }

  /** A target that can be given by parts and then leads to another route. */
  predicate Strays(target: string) {
    && Uri.Span(target, "/?#") > 0 && Uri.OneLine(target)
    && if Uri.Open(target) then Uri.Extra(target) != [] else |Uri.Extra(target)| >= 2
  }

  /** What does not stray is stored straight; that is so without a slash. */
  lemma {:induction false} UnstrayedIsStraight(item: Item)
    requires ItemOctets(item) && Coerce(item).Some?
    ensures !Strays(Given(item).target) ==> Straight(item)
    ensures '/' !in Given(item).target ==> !Strays(Given(item).target)
  {
    hide Coerce, Given, Uri.NamesFirst, Strays, Straight, Writes;
    StraightExact(item);
    if '/' !in Given(item).target {
      SlashFreeUnstrayed(Given(item).target);
    }
    if item.ByParts? && !Strays(Given(item).target) {
      PartsWrite(item);
      UnstrayedNames(item.resource, item.operation, Given(item).target);
    }
  }

  predicate Writes(resource: string, operation: string, target: string) {
    && Uri.Span(target, "/?#") > 0 && Uri.OneLine(target)
    && |Uri.Extra(target) + if Uri.Open(target) then [resource, operation] else []| >= 2
  }

  lemma {:induction false} PartsWrite(item: Item)
    requires item.ByParts? && ItemOctets(item) && Coerce(item).Some?
    ensures Writes(item.resource, item.operation, Given(item).target)
  {
    hide Uri.ParseUri, Uri.PartsUri, Uri.Quote, Uri.LegalScheme, NormalizeRouteEntry, Uri.Extra, Uri.Open, Uri.OneLine, Uri.Span;
    hide SchemeIn, TargetIn, Uri.Unquote;
    PartsGiven(item.package, item.resource, item.operation, item.target);
    Uri.PartsRead(SchemeIn(item.package), item.resource, item.operation, TargetIn(item.package, item.target));
  }

  lemma {:induction false} UnstrayedNames(resource: string, operation: string, target: string)
    requires Writes(resource, operation, target) && !Strays(target)
    ensures Uri.NamesFirst(resource, operation, target)
  {
    hide Uri.Extra, Uri.Open, Uri.OneLine, Uri.Span;
    assert [] + [resource, operation] == [resource, operation];
  }

  lemma {:induction false} SlashFreeUnstrayed(target: string)
    requires '/' !in target
    ensures Uri.Extra(target) == [] && !Strays(target)
  {
    hide Uri.Span, Split, Uri.NonEmptyParts;
    Uri.SpanEnds(target, "/?#");
    Uri.SpanEnds(target, "?#");
    Uri.ClosedSegments(target);
    var e := Uri.Span(target, "/?#");
    Uri.SpanIs(target, "?#", e);
    assert target[e..e] == "";
    Uri.OnlySlashes("");
  }

  /** A registry's sources can all be read. */
  ghost predicate Sources(items: seq<Item>) {
    AllOctets(items) && Coercible(items)
  }

  /** A request the resolver can be asked for, and how it reads. */
  ghost predicate Request(uri: string, d: Uri.Descriptor) {
    Uri.Octets(uri) && Uri.ParseUri(uri) == Some(d) && |d.segments| >= 2
  }

  /** The tree walk for a request ends at this entry. */
  ghost predicate WalksTo(tree: Tree, route: Key, e: Dict) {
    exists key, params :: Reached(tree, route, key, params) && Lookup(tree, key) == Some(e)
  }

  lemma {:induction false} StoredWalk(tree: Tree, route: Key, e: Dict)
    requires Lookup(tree, route).Some?
    ensures WalksTo(tree, route, e) <==> Lookup(tree, route) == Some(e)
  {
    hide Reached, Lookup;
    if WalksTo(tree, route, e) {
      var key, params :| Reached(tree, route, key, params) && Lookup(tree, key) == Some(e);
      StoredIsReached(tree, route, key, params);
    }
    StoredIsReached(tree, route, route, map[]);
  }

  /** A source indexed under the normal form of a request. */
  ghost predicate ListedAs(items: seq<Item>, i: nat, d: Uri.Descriptor) {
    Sources(items) && WellFormed(d) && |d.segments| >= 2 && i < |items| && Routes(items)[i].uri == Uri.Normalized(d)
  }

  ghost predicate ListedUnder(items: seq<Item>, i: nat, d: Uri.Descriptor, source: string) {
    ListedAs(items, i, d) && Given(items[i]).target == source
  }

  /** A source listed under a request's name says the same exactly when their decoded targets do not collide. */
  lemma {:induction false} ListedReading(items: seq<Item>, i: nat, d: Uri.Descriptor)
    requires ListedAs(items, i, d)
    ensures Given(items[i]) == d <==> Given(items[i]).target == d.target
    ensures Given(items[i]) == d <==> !Collide(Given(items[i]).target, d.target)
    ensures Given(items[i]) == d && Straight(items[i]) ==> Routes(items)[i].key == KeyOf(d)
  {
    hide Collide, Uri.Normalized, Given, Coerce;
    assert items[i] in items;
    SourceIsNamed(items[i]);
    NamedAlike(Given(items[i]), d);
  }

  // ------------------------------------------------------------- error mode

  ghost predicate AgreesIn(doc: Document, d: Uri.Descriptor)
    requires WellFormed(d) && |d.segments| >= 2
  {
    IndexEntry(doc, Uri.Normalized(d)).Some? && WalksTo(doc.tree, KeyOf(d), IndexEntry(doc, Uri.Normalized(d)).value)
  }

  /** Source `j` is stored where the walk for the request ends, with the entry of source `i`. */
  ghost predicate Backs(tree: Tree, routes: seq<Route>, d: Uri.Descriptor, i: nat, j: nat)
    requires |d.segments| >= 2 && i < |routes|
  {
    j < |routes| && routes[j].entry == routes[i].entry && exists params :: Reached(tree, KeyOf(d), routes[j].key, params)
  }

  /**
   In error mode, for every request whose normal form is indexed: index and tree agree if
   and only if some source stored where the walk ends carries the indexed entry.  A source
   stored under the request's own route decides it alone.
   */
  lemma {:induction false} ErrorAgreement(items: seq<Item>, uri: string, d: Uri.Descriptor, i: nat)
    requires Sources(items) && Build(Routes(items), Error).Some? && Request(uri, d) && ListedAs(items, i, d)
    ensures var doc, routes := Build(Routes(items), Error).value, Routes(items);
            && (AgreesIn(doc, d) <==> exists j :: Backs(doc.tree, routes, d, i, j))
            && forall j :: 0 <= j < |routes| && routes[j].key == KeyOf(d) ==>
                 (AgreesIn(doc, d) <==> routes[j].entry == routes[i].entry)
  {
    hide Uri.Normalized, Build, Reached, Uri.ParseUri, IndexEntry, Lookup;
    var routes := Routes(items);
    var doc := Build(routes, Error).value;
    var e := routes[i].entry;
    SourceIsStored(routes, routes[i]);
    ErrorExact(routes);
    if AgreesIn(doc, d) {
      var key, params :| Reached(doc.tree, KeyOf(d), key, params) && Lookup(doc.tree, key) == Some(e);
      assert HasKey(routes, key, e);
      var r :| r in routes && r.key == key && r.entry == e;
      var j: nat :| j < |routes| && routes[j] == r;
      assert Backs(doc.tree, routes, d, i, j);
    }
    if j: nat :| Backs(doc.tree, routes, d, i, j) {
      SourceIsStored(routes, routes[j]);
    }
    forall j | 0 <= j < |routes| && routes[j].key == KeyOf(d)
      ensures AgreesIn(doc, d) <==> routes[j].entry == routes[i].entry
    {
      SourceIsStored(routes, routes[j]);
      StoredWalk(doc.tree, KeyOf(d), e);
    }
  }

  /**
   So they agree if a source listed under the name of the request is stored straight and
   its decoded target does not collide with that of the request: the walk then ends where
   the index points, binding nothing.
   */
  lemma {:induction false} IndexAgreesWithTree(items: seq<Item>, uri: string, d: Uri.Descriptor, i: nat)
    requires Sources(items) && Build(Routes(items), Error).Some? && Request(uri, d) && ListedAs(items, i, d)
    requires Straight(items[i]) && !Collide(Given(items[i]).target, d.target)
    ensures var doc := Build(Routes(items), Error).value;
            && IndexEntry(doc, Uri.Normalized(d)) == Lookup(doc.tree, KeyOf(d)) == Some(Routes(items)[i].entry)
            && forall key, params :: Reached(doc.tree, KeyOf(d), key, params) <==> key == KeyOf(d) && params == map[]
  {
    hide Collide, Given, Straight, Uri.Normalized, Build, Reached, Uri.ParseUri;
    ListedReading(items, i, d);
    SourceIsStored(Routes(items), Routes(items)[i]);
  }

  /** The situation of a request: its name is indexed, and only by sources with one target. */
  ghost predicate Situation(items: seq<Item>, uri: string, d: Uri.Descriptor, source: string, target: string) {
    && Sources(items) && Build(Routes(items), Error).Some?
    && Request(uri, d) && d.target == target
    && (exists i :: ListedAs(items, i, d))
    && forall i :: ListedAs(items, i, d) ==> ListedUnder(items, i, d, source)
  }

  /** In the registry built in error mode, index and tree give a request the same entry. */
  ghost predicate Agrees(items: seq<Item>, d: Uri.Descriptor) {
    && Sources(items) && Build(Routes(items), Error).Some? && WellFormed(d) && |d.segments| >= 2
    && AgreesIn(Build(Routes(items), Error).value, d)
  }

  /** Index and tree agree in every such situation. */
  ghost predicate AlwaysAgree(source: string, target: string) {
    forall items, uri, d :: Situation(items, uri, d, source, target) ==> Agrees(items, d)
  }

  lemma {:induction false} SituationAgrees(items: seq<Item>, uri: string, d: Uri.Descriptor, source: string, target: string)
    requires Situation(items, uri, d, source, target) && !Collide(source, target) && !(source == target && Strays(source))
    ensures Agrees(items, d)
  {
    hide Collide, Given, Straight, Strays, Build, Reached, ListedAs, Lookup, IndexEntry, Routes, Sources, Request, WellFormed, Uri.Normalized;
    var i: nat :| ListedAs(items, i, d);
    assert ListedUnder(items, i, d, source);
    Listed(items, i, d);
    ListedReading(items, i, d);
    UnstrayedIsStraight(items[i]);
    IndexAgreesWithTree(items, uri, d, i);
    StoredWalk(Build(Routes(items), Error).value.tree, KeyOf(d), Routes(items)[i].entry);
  }

  lemma {:induction false} Listed(items: seq<Item>, i: nat, d: Uri.Descriptor)
    requires ListedAs(items, i, d)
    ensures Sources(items) && WellFormed(d) && |d.segments| >= 2 && i < |items| && ItemOctets(items[i]) && Coerce(items[i]).Some?
  {
    assert items[i] in items;
  }

  /** The URI a source is listed under reads as what it says it is if and only if its decoded target is plain. */
  lemma {:induction false} ListedUriReads(item: Item)
    requires ItemOctets(item) && Coerce(item).Some?
    ensures Request(Coerce(item).value.uri, Given(item)) <==> Uri.PlainTarget(Given(item).target)
  {
    hide Uri.ParseUri, Uri.Normalized, Given, Coerce, Pieced, Uri.LegalScheme;
    SourceIsNamed(item);
    var d := Given(item);
    SpelledOctets(d);
    PiecesParse(d);
  }

  // ---------------------------------------------------------- the collision

  const FIRST: Dict := map["ref" := Str("first")]
  const SECOND: Dict := map["ref" := Str("second")]

  lemma {:induction false} EntriesDiffer()
    ensures NormalizeRouteEntry(FIRST) != NormalizeRouteEntry(SECOND)
  {
    assert Get(NormalizeRouteEntry(FIRST), "ref") == Str("first");
    assert Get(NormalizeRouteEntry(SECOND), "ref") == Str("second");
  }

  /** Registering a URI spelled from a reading. */
  lemma {:induction false} Registered(d: Uri.Descriptor, entry: Dict)
    requires WellFormed(d) && |d.segments| >= 2
    ensures var item := ByUri(Spell(d), entry, map[]);
            && ItemOctets(item) && Coerce(item).Some? && Given(item) == d
            && Coerce(item).value.uri == Uri.Normalized(d) && Coerce(item).value.key == KeyOf(d)
            && Coerce(item).value.entry == NormalizeRouteEntry(entry)
  {
    hide Uri.ParseUri, Uri.Normalized, NormalizeRouteEntry;
    SpelledParses(d);
    SpelledOctets(d);
    assert Spell(d) != "" by { assert Spell(d)[|d.package|] == ':'; }
  }

  function Pair(a: Uri.Descriptor, e1: Dict, b: Uri.Descriptor, e2: Dict): seq<Item>
    requires WellFormed(a) && WellFormed(b)
  {
    [ByUri(Spell(a), e1, map[]), ByUri(Spell(b), e2, map[])]
  }

  lemma {:induction false} PairRoutes(a: Uri.Descriptor, e1: Dict, b: Uri.Descriptor, e2: Dict)
    requires WellFormed(a) && WellFormed(b) && |a.segments| >= 2 && |b.segments| >= 2
    ensures var items := Pair(a, e1, b, e2);
            && Sources(items) && Given(items[0]) == a && Given(items[1]) == b
            && Routes(items)[0].uri == Uri.Normalized(a) && Routes(items)[0].key == KeyOf(a)
            && Routes(items)[0].entry == NormalizeRouteEntry(e1)
            && Routes(items)[1].uri == Uri.Normalized(b) && Routes(items)[1].key == KeyOf(b)
            && Routes(items)[1].entry == NormalizeRouteEntry(e2)
            && Routes(items) == [Routes(items)[0], Routes(items)[1]]
  {
    hide Uri.Normalized, NormalizeRouteEntry, Spell, Given, Coerce, WellFormed;
    Registered(a, e1);
    Registered(b, e2);
    var items := Pair(a, e1, b, e2);
    assert AllOctets(items) && Coercible(items);
  }

  /** A readable source, its name, its route and its entry. */
  ghost predicate Enters(item: Item, uri: string, key: Key, entry: Dict) {
    && ItemOctets(item) && Coerce(item).Some?
    && Coerce(item).value.uri == uri && Coerce(item).value.key == key && Coerce(item).value.entry == NormalizeRouteEntry(entry)
  }

  /** The index gives the request the one entry, the tree the other. */
  ghost predicate Differing(items: seq<Item>, d: Uri.Descriptor, index: Dict, tree: Dict) {
    && Sources(items) && Build(Routes(items), Error).Some? && WellFormed(d) && |d.segments| >= 2
    && IndexEntry(Build(Routes(items), Error).value, Uri.Normalized(d)) == Some(index)
    && Lookup(Build(Routes(items), Error).value.tree, KeyOf(d)) == Some(tree)
  }

  /**
   Two sources under different names and routes build in error mode; if the first is
   listed under the name of a request and the second stored under its route, the index
   gives one entry and the tree the other.
   */
  lemma {:induction false} TwoSourcesDisagree(a: Item, b: Item, keyA: Key, nameB: string, d: Uri.Descriptor)
    requires WellFormed(d) && |d.segments| >= 2
    requires Enters(a, Uri.Normalized(d), keyA, FIRST) && Enters(b, nameB, KeyOf(d), SECOND)
    requires nameB != Uri.Normalized(d) && keyA != KeyOf(d)
    ensures Situation([a, b], Spell(d), d, Given(a).target, d.target) && !Agrees([a, b], d)
    ensures Differing([a, b], d, NormalizeRouteEntry(FIRST), NormalizeRouteEntry(SECOND))
  {
    hide Build, Uri.Normalized, Uri.ParseUri, NormalizeRouteEntry, Spell, Given, Coerce, Reached, Lookup, IndexEntry;
    hide Pieced, Uri.LegalScheme, ItemOctets;
    var items := [a, b];
    assert AllOctets(items) && Coercible(items);
    EntriesDiffer();
    SpelledParses(d);
    SpelledOctets(d);
    var ra, rb := Routes(items)[0], Routes(items)[1];
    assert Routes(items) == [ra, rb];
    TwoBuild(ra, rb);
    assert ListedAs(items, 0, d);
    StoredWalk(Build([ra, rb], Error).value.tree, KeyOf(d), ra.entry);
  }

  /** Two sources by URI. */
  lemma {:induction false} TwoReadingsDisagree(a: Uri.Descriptor, b: Uri.Descriptor, d: Uri.Descriptor)
    requires WellFormed(a) && WellFormed(b) && WellFormed(d) && |a.segments| >= 2 && |b.segments| >= 2 && |d.segments| >= 2
    requires Uri.Normalized(a) == Uri.Normalized(d) != Uri.Normalized(b)
    requires KeyOf(b) == KeyOf(d) != KeyOf(a)
    ensures var items := Pair(a, FIRST, b, SECOND);
            && Situation(items, Spell(d), d, a.target, d.target) && !Agrees(items, d)
            && Differing(items, d, NormalizeRouteEntry(FIRST), NormalizeRouteEntry(SECOND))
  {
    hide Uri.Normalized, Uri.ParseUri, NormalizeRouteEntry, Spell, Given, Coerce, Situation, Agrees, Differing, Uri.LegalScheme;
    Registered(a, FIRST);
    Registered(b, SECOND);
    TwoSourcesDisagree(ByUri(Spell(a), FIRST, map[]), ByUri(Spell(b), SECOND, map[]), KeyOf(a), Uri.Normalized(b), d);
  }

  lemma {:induction false} TwoBuild(a: Route, b: Route)
    requires a.uri != b.uri && a.key != b.key
    ensures Build([a, b], Error).Some?
    ensures IndexEntry(Build([a, b], Error).value, a.uri) == Some(a.entry)
    ensures Lookup(Build([a, b], Error).value.tree, b.key) == Some(b.entry)
  {
    hide Build, Lookup, IndexEntry;
    assert Consistent([a, b]);
    ErrorExact([a, b]);
    SourceIsStored([a, b], a);
    SourceIsStored([a, b], b);
  }

  /** A reading stored under a given route and named longer than a given name. */
  function Elsewhere(d: Uri.Descriptor): Uri.Descriptor
    requires Uri.AllOctets(d.segments) && |d.segments| >= 2
  {
    Uri.Descriptor(d.package, Uri.Normalized(d), [d.segments[0], d.segments[1]])
  }

  lemma {:induction false} ElsewhereDiffers(d: Uri.Descriptor)
    requires WellFormed(d) && |d.segments| >= 2
    ensures var e := Elsewhere(d);
            WellFormed(e) && |e.segments| == 2 && KeyOf(e) == KeyOf(d) && Uri.Normalized(e) != Uri.Normalized(d)
  {
    hide Uri.Quote, Join;
    SpelledOctets(d);
    var e := Elsewhere(d);
    assert |Uri.Normalized(e)| > |e.target|;
    assert Uri.Normalized(d) != "" by { assert Uri.Normalized(d)[|d.package|] == ':'; }
  }

  /** Names for the rest of a route, the first of them another than a given one. */
  function Tail(other: string): seq<string> { [other + "0", "o"] }

  lemma {:induction false} TailPieced(other: string)
    requires Uri.Octets(other)
    ensures Pieced(Tail(other)) && Tail(other)[0] != other
  {
    assert Uri.Octets(other + "0") && Uri.Octets("o");
    assert |Tail(other)[0]| == |other| + 1;
  }

  lemma {:induction false} SchemeX()
    ensures Uri.LegalScheme("x")
  {
  }

  /** Colliding decoded targets are enough for a registry and a request that disagree. */
  lemma {:induction false} CollisionDisagrees(source: string, target: string)
    returns (items: seq<Item>, uri: string, d: Uri.Descriptor)
    requires source != "" && target != "" && Uri.Octets(source) && Uri.Octets(target) && Collide(source, target)
    ensures Situation(items, uri, d, source, target) && !Agrees(items, d)
  {
    hide Situation, Agrees, Uri.Normalized, Uri.LegalScheme, Spell, Elsewhere, Pair;
    SchemeX();
    if Extends(source, target) {
      var pieces :| ExtendsBy(source, target, pieces);
      var tail := Tail(pieces[0]);
      TailPieced(pieces[0]);
      MovedSegments("x", source, target, pieces, tail);
      d := Uri.Descriptor("x", target, pieces + tail);
      assert d.segments[0] == pieces[0];
      items, uri := Disagreeing(Uri.Descriptor("x", source, tail), d);
    } else {
      var pieces :| ExtendsBy(target, source, pieces);
      var tail := Tail(pieces[0]);
      TailPieced(pieces[0]);
      MovedSegments("x", target, source, pieces, tail);
      d := Uri.Descriptor("x", target, tail);
      var a := Uri.Descriptor("x", source, pieces + tail);
      assert a.segments[0] == pieces[0];
      items, uri := Disagreeing(a, d);
    }
  }

  lemma {:induction false} Disagreeing(a: Uri.Descriptor, d: Uri.Descriptor) returns (items: seq<Item>, uri: string)
    requires WellFormed(a) && WellFormed(d) && |a.segments| >= 2 && |d.segments| >= 2
    requires Uri.Normalized(a) == Uri.Normalized(d) && KeyOf(a) != KeyOf(d)
    ensures Situation(items, uri, d, a.target, d.target) && !Agrees(items, d)
  {
    hide Situation, Agrees, Uri.Normalized, Spell, Pair, Elsewhere, Build, IndexEntry, Lookup, Routes, NormalizeRouteEntry;
    ElsewhereDiffers(d);
    TwoReadingsDisagree(a, Elsewhere(d), d);
    items, uri := Pair(a, FIRST, Elsewhere(d), SECOND), Spell(d);
  }

  /** A straying target given by parts, and a request for what it says. */
  lemma {:induction false} StrayingDisagrees(target: string) returns (items: seq<Item>, uri: string, d: Uri.Descriptor)
    requires target != "" && Uri.Octets(target) && Strays(target)
    ensures Situation(items, uri, d, target, target) && !Agrees(items, d)
  {
    hide Situation, Agrees, Differing, Strays, Uri.Normalized, Uri.LegalScheme, Spell, Elsewhere, Pair, NormalizeRouteEntry, Coerce;
    SchemeX();
    var n := Uri.OtherName(target);
    var a := ByParts("x", n, n, target, FIRST, map[]);
    d := Uri.Descriptor("x", target, [n, n]);
    var keyA := StrayingEnters(n, target);
    ElsewhereDiffers(d);
    Registered(Elsewhere(d), SECOND);
    var b := ByUri(Spell(Elsewhere(d)), SECOND, map[]);
    TwoSourcesDisagree(a, b, keyA, Uri.Normalized(Elsewhere(d)), d);
    items, uri := [a, b], Spell(d);
  }

  lemma {:induction false} UnderX(target: string)
    ensures Uri.Octets("x") && SchemeIn("x") == "x" && TargetIn("x", target) == target
  {
    SchemeX();
    hide Uri.LegalScheme;
  }

  lemma {:induction false} PartsRoute(p: string, r: string, o: string, target: string, segments: seq<string>)
    requires Uri.LegalScheme(p) && Uri.Octets(r) && Uri.Octets(o) && r != "" && o != ""
    requires Uri.Span(target, "/?#") > 0 && Uri.OneLine(target)
    requires segments == Uri.Extra(target) + (if Uri.Open(target) then [r, o] else []) && |segments| >= 2
    ensures var t := Uri.RouteFromParts(p, r, o, target);
            t.Some? && t.value.package == p && t.value.resource == segments[0] && t.value.operation == segments[1]
  {
    hide Uri.ParseUri, Uri.PartsUri, Uri.LegalScheme, Uri.Extra, Uri.Open, Uri.OneLine, Uri.Span, Uri.Unquote, Uri.Octets;
    Uri.PartsRead(p, r, o, target);
    assert Uri.Named(r, o) == [r, o];
  }

  /** What a by-parts source under the scheme `x` becomes. */
  lemma {:induction false} PartsEnter(r: string, o: string, target: string, entry: Dict, segments: seq<string>)
    requires Uri.Octets(r) && Uri.Octets(o) && Uri.Octets(target) && r != "" && o != ""
    requires Uri.Span(target, "/?#") > 0 && Uri.OneLine(target)
    requires segments == Uri.Extra(target) + (if Uri.Open(target) then [r, o] else []) && |segments| >= 2
    ensures var a, d := ByParts("x", r, o, target, entry, map[]), Uri.Descriptor("x", target, [r, o]);
            && Pieced(d.segments) && Enters(a, Uri.Normalized(d), ("x", segments[0], segments[1]), entry) && Given(a) == d
  {
    SchemeX();
    UnderX(target);
    var p := "x";
    hide Uri.Normalized, Uri.ParseUri, NormalizeRouteEntry, Uri.PartsUri, Uri.LegalScheme, Uri.Extra, Uri.Open, Uri.OneLine, Uri.Span;
    hide Uri.Octets, IndexOf, SchemeIn, TargetIn, Uri.RouteFromParts;
    PartsAreNormal(p, r, o, target);
    PartsRoute(p, r, o, target, segments);
  }

  lemma {:induction false} StrayingEnters(n: string, target: string) returns (key: Key)
    requires Uri.Octets(target) && Strays(target) && Uri.Octets(n) && n != ""
    requires Uri.Extra(target) != [] ==> n != Uri.Extra(target)[0]
    ensures var a, d := ByParts("x", n, n, target, FIRST, map[]), Uri.Descriptor("x", target, [n, n]);
            && Pieced(d.segments) && Enters(a, Uri.Normalized(d), key, FIRST) && key != KeyOf(d) && Given(a).target == target
  {
    hide Uri.Normalized, Uri.Extra, Uri.Open, Uri.OneLine, Uri.Span, Enters, Given;
    var segments := Uri.Extra(target) + if Uri.Open(target) then [n, n] else [];
    assert |segments| >= 2 && segments[0] == Uri.Extra(target)[0];
    PartsEnter(n, n, target, FIRST, segments);
    key := ("x", segments[0], segments[1]);
    EntersReads(ByParts("x", n, n, target, FIRST, map[]), Uri.Normalized(Uri.Descriptor("x", target, [n, n])), key, FIRST);
  }

  lemma {:induction false} EntersReads(item: Item, uri: string, key: Key, entry: Dict)
    requires Enters(item, uri, key, entry)
    ensures ItemOctets(item) && Coerce(item).Some?
  {
  }

  /**
   Index and tree agree on every request with the one decoded target, in every error-mode
   registry that lists it under sources with the other, if and only if the two do not
   collide (neither is the other with written-out segments after a slash) and are not one
   and the same straying target (which a source by parts could give).
   */
  lemma {:induction false} AgreementExact(source: string, target: string)
    requires source != "" && target != "" && Uri.Octets(source) && Uri.Octets(target)
    ensures AlwaysAgree(source, target) <==> !Collide(source, target) && !(source == target && Strays(source))
  {
    hide Situation, Agrees, Collide, Strays;
    if Collide(source, target) {
      var items, uri, d := CollisionDisagrees(source, target);
      assert Situation(items, uri, d, source, target) && !Agrees(items, d);
    } else if source == target && Strays(source) {
      var items, uri, d := StrayingDisagrees(source);
      assert Situation(items, uri, d, source, target) && !Agrees(items, d);
    } else {
      forall items, uri, d | Situation(items, uri, d, source, target) ensures Agrees(items, d) {
        SituationAgrees(items, uri, d, source, target);
      }
    }
  }

  /** In particular they agree whenever neither target holds a slash. */
  lemma {:induction false} SlashFreeAgree(source: string, target: string)
    requires source != "" && target != "" && Uri.Octets(source) && Uri.Octets(target)
    requires '/' !in source && '/' !in target
    ensures AlwaysAgree(source, target)
  {
    AgreementExact(source, target);
    SlashFreeUnstrayed(source);
    if Collide(source, target) {
      CollisionHasSlash(source, target);
    }
  }

  // -------------------------------------------------------- a failing request

  const SLASHED := Uri.Descriptor("x", "a/b", ["r", "o"])
  const STORED := Uri.Descriptor("x", "a", ["b", "r"])
  const ASKED := Uri.Descriptor("x", "a", ["b", "r", "o"])

  lemma {:induction false} TwoLetters(a: char, b: char)
    requires Uri.Letter(a) && Uri.Letter(b)
    ensures Pieced([[a], [b]]) && Join(Uri.QuoteAll([[a], [b]]), '/') == [a, '/', b]
  {
    OneLetter(a);
    OneLetter(b);
    hide Uri.Quote, Join;
    assert Uri.QuoteAll([[a], [b]]) == [[a], [b]] && [[a], [b]][1..] == [[b]];
    JoinMore([[a], [b]]);
    JoinOne([b]);
  }

  lemma {:induction false} ThreeLetters(a: char, b: char, c: char)
    requires Uri.Letter(a) && Uri.Letter(b) && Uri.Letter(c)
    ensures Pieced([[a], [b], [c]]) && Join(Uri.QuoteAll([[a], [b], [c]]), '/') == [a, '/', b, '/', c]
  {
    OneLetter(a);
    TwoLetters(b, c);
    OneLetter(b);
    OneLetter(c);
    hide Uri.Quote, Join;
    assert Uri.QuoteAll([[b], [c]]) == [[b], [c]];
    assert Uri.QuoteAll([[a], [b], [c]]) == [[a], [b], [c]] && [[a], [b], [c]][1..] == [[b], [c]];
    JoinMore([[a], [b], [c]]);
  }

  lemma {:induction false} SlashQuoted()
    ensures Uri.Octets("a/b") && Uri.Quote("a/b") == "a%2Fb"
  {
    OneLetter('a');
    OneLetter('b');
    QuoteCons('/', ['b']);
    QuoteCons('a', ['/'] + ['b']);
    hide Uri.Quote;
    assert Uri.QuoteChar('/') == ['%', '2', 'F'] && Uri.QuoteChar('a') == ['a'];
    assert ['a'] + (['/'] + ['b']) == "a/b" && ['a'] + (['%', '2', 'F'] + ['b']) == "a%2Fb";
  }

  /** A one-letter target spells as it is. */
  lemma {:induction false} LetterTarget(t: char, segments: seq<string>)
    requires Uri.Letter(t) && Pieced(segments)
    ensures var d := Uri.Descriptor("x", [t], segments);
            && WellFormed(d) && Spell(d) == Uri.Normalized(d) == "x://" + [t] + "/" + Join(Uri.QuoteAll(segments), '/')
  {
    SchemeX();
    OneLetter(t);
    hide Uri.Quote, Join;
  }

  lemma {:induction false} SlashedSpelling()
    ensures WellFormed(SLASHED) && Spell(SLASHED) == "x://a%2Fb/r/o" && Uri.Normalized(SLASHED) == "x://a/b/r/o"
  {
    SchemeX();
    SlashQuoted();
    TwoLetters('r', 'o');
    hide Uri.Quote, Uri.QuoteAll, Join;
    assert "x" + "://" + "a%2Fb" + "/" + "r/o" == "x://a%2Fb/r/o";
  }

  lemma {:induction false} StoredSpelling()
    ensures WellFormed(STORED) && Spell(STORED) == Uri.Normalized(STORED) == "x://a/b/r"
  {
    TwoLetters('b', 'r');
    LetterTarget('a', ["b", "r"]);
    hide WellFormed, Spell, Uri.Normalized, Join;
  }

  lemma {:induction false} AskedSpelling()
    ensures WellFormed(ASKED) && Spell(ASKED) == Uri.Normalized(ASKED) == "x://a/b/r/o"
  {
    ThreeLetters('b', 'r', 'o');
    LetterTarget('a', ["b", "r", "o"]);
    hide WellFormed, Spell, Uri.Normalized, Join;
  }

  lemma {:induction false} QuoteCons(c: char, s: string)
    requires c as int < 256 && Uri.Octets(s)
    ensures Uri.Octets([c] + s) && Uri.Quote([c] + s) == Uri.QuoteChar(c) + Uri.Quote(s)
  {
    assert ([c] + s)[1..] == s;
  }

  lemma {:induction false} OneLetter(c: char)
    requires Uri.Letter(c)
    ensures Uri.Octets([c]) && Uri.Quote([c]) == [c]
  {
    assert [c][1..] == "";
  }

  /**
   The sources `x://a%2Fb/r/o` and `x://a/b/r` build in error mode, and for the request
   `x://a/b/r/o` the index gives the entry of the one and the tree that of the other.
   */
  lemma {:induction false} DecodedSlashDisagrees()
    ensures var items := [ByUri("x://a%2Fb/r/o", FIRST, map[]), ByUri("x://a/b/r", SECOND, map[])];
            && Request("x://a/b/r/o", ASKED) && Sources(items) && Build(Routes(items), Error).Some? && !Agrees(items, ASKED)
            && IndexEntry(Build(Routes(items), Error).value, "x://a/b/r/o") == Some(NormalizeRouteEntry(FIRST))
            && Lookup(Build(Routes(items), Error).value.tree, ("x", "b", "r")) == Some(NormalizeRouteEntry(SECOND))
  {
    SlashedSpelling();
    StoredSpelling();
    AskedSpelling();
    hide Agrees, WellFormed, Spell, Uri.Normalized, NormalizeRouteEntry, Build, Lookup, IndexEntry, Sources, Request, Routes, Situation;
    TwoReadingsDisagree(SLASHED, STORED, ASKED);
    FromSituation(Pair(SLASHED, FIRST, STORED, SECOND), Spell(ASKED), ASKED, "a/b", "a");
  }

  /**
   The one source with target `a/b`, resource `r` and operation `o` builds in error mode.
   It says what the request `x://a%2Fb/r/o` says; the index answers that request, while
   the walk along its route reaches nothing, the source being stored under (x, b, r).
   */
  lemma {:induction false} PartsSlashDisagrees()
    ensures var items := [ByParts("x", "r", "o", "a/b", FIRST, map[])];
            && Request("x://a%2Fb/r/o", SLASHED) && Sources(items) && Build(Routes(items), Error).Some?
            && Given(items[0]) == SLASHED && !Straight(items[0]) && !Agrees(items, SLASHED)
            && IndexEntry(Build(Routes(items), Error).value, "x://a/b/r/o") == Some(NormalizeRouteEntry(FIRST))
            && Lookup(Build(Routes(items), Error).value.tree, ("x", "b", "r")) == Some(NormalizeRouteEntry(FIRST))
            && forall key, params :: !Reached(Build(Routes(items), Error).value.tree, ("x", "r", "o"), key, params)
  {
    SlashedSpelling();
    SpelledParses(SLASHED);
    SpelledOctets(SLASHED);
    PartsSlashEnters();
    hide Uri.Normalized, Uri.ParseUri, Uri.Octets, Spell, NormalizeRouteEntry, WellFormed, Given, Build, Reached, Lookup, IndexEntry;
    hide Agrees, Straight, Enters, Sources, ItemOctets, Coerce, Routes;
    LoneSource(ByParts("x", "r", "o", "a/b", FIRST, map[]), "x://a/b/r/o", ("x", "b", "r"), SLASHED);
  }

  /** A lone source stored under another resource than it says. */
  lemma {:induction false} LoneSource(a: Item, uri: string, key: Key, d: Uri.Descriptor)
    requires Enters(a, uri, key, FIRST) && Given(a) == d && |d.segments| >= 2
    requires key.0 == d.package && key.1 != d.segments[0] && !IsTemplate(key.1)
    ensures Sources([a]) && Build(Routes([a]), Error).Some? && !Straight(a) && !Agrees([a], d)
    ensures IndexEntry(Build(Routes([a]), Error).value, uri) == Some(NormalizeRouteEntry(FIRST))
    ensures Lookup(Build(Routes([a]), Error).value.tree, key) == Some(NormalizeRouteEntry(FIRST))
    ensures forall k, params :: !Reached(Build(Routes([a]), Error).value.tree, KeyOf(d), k, params)
  {
    hide NormalizeRouteEntry, WellFormed, Given, Build, Reached, Lookup, IndexEntry, Coerce, Agrees, Straight, IsTemplate;
    assert AllOctets([a]) && Coercible([a]);
    var route := Routes([a])[0];
    assert Routes([a]) == [route];
    OneBuilds(route, KeyOf(d));
    UnreachedDisagrees([a], d);
    AwayIsNotStraight(a, d);
  }

  lemma {:induction false} UnreachedDisagrees(items: seq<Item>, d: Uri.Descriptor)
    requires Sources(items) && Build(Routes(items), Error).Some? && |d.segments| >= 2
    requires forall key, params :: !Reached(Build(Routes(items), Error).value.tree, KeyOf(d), key, params)
    ensures !Agrees(items, d)
  {
    hide Build, Reached, Lookup, IndexEntry, Coerce, WellFormed;
  }

  lemma {:induction false} AwayIsNotStraight(item: Item, d: Uri.Descriptor)
    requires ItemOctets(item) && Coerce(item).Some? && Given(item) == d && |d.segments| >= 2 && Coerce(item).value.key != KeyOf(d)
    ensures !Straight(item)
  {
    hide Coerce, Given;
  }

  lemma {:induction false} PartsSlashEnters()
    ensures var a := ByParts("x", "r", "o", "a/b", FIRST, map[]);
            Enters(a, "x://a/b/r/o", ("x", "b", "r"), FIRST) && Given(a) == SLASHED
  {
    SlashedSpelling();
    SlashWrites();
    OneLetter('r');
    OneLetter('o');
    SlashQuoted();
    hide Uri.Normalized, Uri.Extra, Uri.Open, Uri.OneLine, Uri.Span, Enters, Given, Spell, WellFormed;
    assert ["b"] + ["r", "o"] == ["b", "r", "o"];
    PartsEnter("r", "o", "a/b", FIRST, ["b", "r", "o"]);
    EntersReads(ByParts("x", "r", "o", "a/b", FIRST, map[]), "x://a/b/r/o", ("x", "b", "r"), FIRST);
  }

  lemma {:induction false} SlashSpans()
    ensures Uri.Span("a/b", "/?#") == 1 && Uri.Span("a/b", "?#") == 3 && "a/b"[1..3] == "" + "/" + "b"
  {
    Uri.SpanIs("a/b", "/?#", 1);
    Uri.SpanIs("a/b", "?#", 3);
  }

  lemma {:induction false} SlashWrites()
    ensures Uri.Span("a/b", "/?#") == 1 && Uri.Open("a/b") && Uri.OneLine("a/b") && Uri.Extra("a/b") == ["b"]
  {
    SlashSpans();
    var target := "a/b";
    hide Uri.Span, Split, Uri.NonEmptyParts, Uri.Extra, Uri.OneLine, Uri.Unquote;
    Uri.LineOfTail(target);
    Uri.ClosedSegments(target);
    Uri.SplitHead("", "b");
    Uri.SplitHead("b", "");
    Uri.NonEmptyPair("", "b");
    LetterUnquoted();
    assert [] + ["b"] == ["b"];
    assert Uri.UnquoteAll(["b"]) == ["b"];
  }

  lemma {:induction false} LetterUnquoted()
    ensures Uri.Unquote("b") == "b"
  {
    assert "b"[1..] == "";
  }

  lemma {:induction false} OneBuilds(r: Route, other: Key)
    ensures Build([r], Error).Some? && IndexEntry(Build([r], Error).value, r.uri) == Some(r.entry)
    ensures Lookup(Build([r], Error).value.tree, r.key) == Some(r.entry)
    ensures r.key.0 == other.0 && r.key.1 != other.1 && !IsTemplate(r.key.1) ==>
              forall key, params :: !Reached(Build([r], Error).value.tree, other, key, params)
  {
    assert [r][..0] == [];
    NothingBuilt(Error);
    assert Build([r], Error) == AddSource(EMPTY, r, Error);
    hide Build, IsTemplate;
  }

  lemma {:induction false} FromSituation(items: seq<Item>, uri: string, d: Uri.Descriptor, source: string, target: string)
    requires Situation(items, uri, d, source, target)
    ensures Request(uri, d) && Sources(items) && Build(Routes(items), Error).Some?
  {
  }

  // ------------------------------------------------------ keep and replace mode

  /**
   In keep mode, for every request whose normal form is indexed: index and tree agree if
   and only if the walk ends at a route whose first source carries the same entry as the
   first source of the name; if the request's own route is stored, that is the route.
   */
  lemma {:induction false} KeepAgreement(items: seq<Item>, uri: string, d: Uri.Descriptor, i: nat)
    requires Request(uri, d) && ListedAs(items, i, d)
    ensures var routes := Routes(items);
            && Build(routes, Keep).Some?
            && var doc, first := Build(routes, Keep).value, FirstForUri(routes, Uri.Normalized(d));
            && (AgreesIn(doc, d) <==> exists key, params :: Reached(doc.tree, KeyOf(d), key, params) && FirstForKey(routes, key) == first)
            && (FirstForKey(routes, KeyOf(d)).Some? ==> (AgreesIn(doc, d) <==> FirstForKey(routes, KeyOf(d)) == first))
  {
    hide Uri.Normalized, Build, Reached, Lookup, IndexEntry, Uri.ParseUri, FirstForUri, FirstForKey;
    var routes := Routes(items);
    KeepIsFirst(routes);
    FirstExists(routes, i);
    var doc := Build(routes, Keep).value;
    AgreesWhereWritten(doc, d, FirstForUri(routes, Uri.Normalized(d)), FirstForKey(routes, KeyOf(d)));
  }

  /** In replace mode the same holds of the last sources. */
  lemma {:induction false} ReplaceAgreement(items: seq<Item>, uri: string, d: Uri.Descriptor, i: nat)
    requires Request(uri, d) && ListedAs(items, i, d)
    ensures var routes := Routes(items);
            && Build(routes, Replace).Some?
            && var doc, last := Build(routes, Replace).value, LastForUri(routes, Uri.Normalized(d));
            && (AgreesIn(doc, d) <==> exists key, params :: Reached(doc.tree, KeyOf(d), key, params) && LastForKey(routes, key) == last)
            && (LastForKey(routes, KeyOf(d)).Some? ==> (AgreesIn(doc, d) <==> LastForKey(routes, KeyOf(d)) == last))
  {
    hide Uri.Normalized, Build, Reached, Lookup, IndexEntry, Uri.ParseUri, LastForUri, LastForKey;
    var routes := Routes(items);
    ReplaceIsLast(routes);
    LastExists(routes, i);
    var doc := Build(routes, Replace).value;
    AgreesWhereWritten(doc, d, LastForUri(routes, Uri.Normalized(d)), LastForKey(routes, KeyOf(d)));
  }

  lemma {:induction false} AgreesWhereWritten(doc: Document, d: Uri.Descriptor, named: Option<Dict>, own: Option<Dict>)
    requires WellFormed(d) && |d.segments| >= 2
    requires IndexEntry(doc, Uri.Normalized(d)) == named && named.Some? && Lookup(doc.tree, KeyOf(d)) == own
    ensures AgreesIn(doc, d) <==> exists key, params :: Reached(doc.tree, KeyOf(d), key, params) && Lookup(doc.tree, key) == named
    ensures own.Some? ==> (AgreesIn(doc, d) <==> own == named)
  {
    hide Uri.Normalized, Reached, Lookup, IndexEntry;
    if own.Some? {
      StoredWalk(doc.tree, KeyOf(d), named.value);
    }
  }

  lemma {:induction false} FirstExists(routes: seq<Route>, i: nat)
    requires i < |routes|
    ensures FirstForUri(routes, routes[i].uri).Some? && FirstForKey(routes, routes[i].key).Some?
    decreases i
  {
    if i > 0 {
      FirstExists(routes[1..], i - 1);
    }
  }

  lemma {:induction false} LastExists(routes: seq<Route>, i: nat)
    requires i < |routes|
    ensures LastForUri(routes, routes[i].uri).Some? && LastForKey(routes, routes[i].key).Some?
    decreases |routes|
  {
    if i < |routes| - 1 {
      LastExists(routes[..|routes| - 1], i);
    }
  }

  lemma {:induction false} TwoKept(a: Route, b: Route)
    requires a.key == b.key && a.uri != b.uri
    ensures Build([a, b], Keep).Some?
    ensures IndexEntry(Build([a, b], Keep).value, b.uri) == Some(b.entry)
    ensures Lookup(Build([a, b], Keep).value.tree, b.key) == Some(a.entry)
  {
    hide Build, Lookup, IndexEntry;
    KeepIsFirst([a, b]);
    assert [a, b][1..] == [b];
    assert FirstForUri([b], b.uri) == Some(b.entry);
  }

  /** In keep mode the index gives a request the one entry and the tree the other. */
  ghost predicate KeptApart(items: seq<Item>, uri: string, d: Uri.Descriptor, index: Dict, tree: Dict) {
    && Sources(items) && Request(uri, d) && WellFormed(d) && Build(Routes(items), Keep).Some?
    && IndexEntry(Build(Routes(items), Keep).value, Uri.Normalized(d)) == Some(index)
    && Lookup(Build(Routes(items), Keep).value.tree, KeyOf(d)) == Some(tree)
  }

  /**
   Two targets of one route: in keep mode the second resolves by index to its own entry,
   by tree to the first one's.
   */
  lemma {:induction false} KeepMayDisagree(a: Uri.Descriptor, b: Uri.Descriptor, e1: Dict, e2: Dict)
    requires WellFormed(a) && WellFormed(b) && |a.segments| >= 2 && |b.segments| >= 2
    requires KeyOf(a) == KeyOf(b) && Uri.Normalized(a) != Uri.Normalized(b)
    ensures KeptApart(Pair(a, e1, b, e2), Spell(b), b, NormalizeRouteEntry(e2), NormalizeRouteEntry(e1))
  {
    SpelledParses(b);
    SpelledOctets(b);
    hide Build, Uri.Normalized, NormalizeRouteEntry, Spell, Given, Lookup, IndexEntry, Routes, Sources, Pair;
    PairRoutes(a, e1, b, e2);
    var items := Pair(a, e1, b, e2);
    TwoKept(Routes(items)[0], Routes(items)[1]);
  }

  const ON_A := Uri.Descriptor("x", "a", ["r", "o"])
  const ON_B := Uri.Descriptor("x", "b", ["r", "o"])

  /** For instance the sources `x://a/r/o` and `x://b/r/o`, asked for the second. */
  lemma {:induction false} KeepExample()
    ensures var items := [ByUri("x://a/r/o", FIRST, map[]), ByUri("x://b/r/o", SECOND, map[])];
            KeptApart(items, "x://b/r/o", ON_B, NormalizeRouteEntry(SECOND), NormalizeRouteEntry(FIRST))
    ensures NormalizeRouteEntry(FIRST) != NormalizeRouteEntry(SECOND)
  {
    EntriesDiffer();
    OnASpelling();
    OnBSpelling();
    hide WellFormed, Spell, Uri.Normalized, KeptApart, NormalizeRouteEntry;
    DifferAtFour();
    KeepMayDisagree(ON_A, ON_B, FIRST, SECOND);
    assert Pair(ON_A, FIRST, ON_B, SECOND) == [ByUri("x://a/r/o", FIRST, map[]), ByUri("x://b/r/o", SECOND, map[])];
  }

  lemma {:induction false} OnASpelling()
    ensures WellFormed(ON_A) && Spell(ON_A) == Uri.Normalized(ON_A) == "x://a/r/o"
  {
    TwoLetters('r', 'o');
    LetterTarget('a', ["r", "o"]);
    hide WellFormed, Spell, Uri.Normalized, Join;
  }

  lemma {:induction false} OnBSpelling()
    ensures WellFormed(ON_B) && Spell(ON_B) == Uri.Normalized(ON_B) == "x://b/r/o"
  {
    TwoLetters('r', 'o');
    LetterTarget('b', ["r", "o"]);
    hide WellFormed, Spell, Uri.Normalized, Join;
  }

  lemma {:induction false} DifferAtFour()
    ensures "x://a/r/o" != "x://b/r/o"
  {
    assert "x://a/r/o"[4] != "x://b/r/o"[4];
  }
}
