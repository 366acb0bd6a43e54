/**
 The route registry: a tree of routes and an index of URIs, built together under a
 conflict policy, and the resolver that prefers the index.

 The index is keyed by the URI itself, the hash of a URI being taken as injective.
 */
module Registry {
  import opened Text
  import opened Json
  import Uri

  // ------------------------------------------------------------ route entries

  const ENTRY_KEYS: set<string> := {"kind", "adapter", "config", "ref", "python", "policy", "meta"}

  const ADAPTERS: map<string, string> := map[
    "artifact" := "spawn", "cli" := "spawn", "event" := "local-function", "function" := "local-function",
    "http" := "fetch", "mqtt" := "mqtt-publish", "process" := "spawn", "shell" := "shell-template"]

  function DefaultAdapter(kind: Value): Value {
    if kind.Str? && kind.s in ADAPTERS then Str(ADAPTERS[kind.s]) else kind
  }

  /** Keep the known keys; fill in kind, adapter and config. */
  function NormalizeRouteEntry(src: Dict): Dict {
    var entry := map k | k in src && k in ENTRY_KEYS :: src[k];
    var kind := Or(Get(entry, "kind"), Or(Get(src, "type"), Str("function")));
    var adapter := Or(Get(entry, "adapter"), DefaultAdapter(kind));
    entry["kind" := kind]["adapter" := adapter]["config" := Obj(Fields(Get(entry, "config")))]
  }

  /** Normalizing an entry twice is normalizing it once. */
  lemma {:induction false} NormalizeTwice(src: Dict)
    ensures NormalizeRouteEntry(NormalizeRouteEntry(src)) == NormalizeRouteEntry(src)
  {
    var once := NormalizeRouteEntry(src);
    assert forall k :: k in once ==> k in ENTRY_KEYS;
    assert (map k | k in once && k in ENTRY_KEYS :: once[k]) == once;
    assert Truthy(once["kind"]);
    assert Truthy(DefaultAdapter(once["kind"]));
  }

  /** A field that is there and that Python takes for true. */
  predicate Given(src: Dict, k: string) { k in src && !Falsy(src[k]) }

  /** What an entry runs on when nothing else is said. */
  predicate RunsOn(kind: Value, adapter: Value) {
    if kind == Str("artifact") || kind == Str("cli") || kind == Str("process") then adapter == Str("spawn")
    else if kind == Str("event") || kind == Str("function") then adapter == Str("local-function")
    else if kind == Str("http") then adapter == Str("fetch")
    else if kind == Str("mqtt") then adapter == Str("mqtt-publish")
    else if kind == Str("shell") then adapter == Str("shell-template")
    else adapter == kind
  }

  /** What is kept of an entry, field by field. */
  lemma {:induction false} EntryReads(src: Dict)
    ensures var e := NormalizeRouteEntry(src);
            && e.Keys == {"kind", "adapter", "config"} + (src.Keys * {"ref", "python", "policy", "meta"})
            && (forall k :: k in src && k in {"ref", "python", "policy", "meta"} ==> e[k] == src[k])
            && e["kind"] == (if Given(src, "kind") then src["kind"] else if Given(src, "type") then src["type"] else Str("function"))
            && (if Given(src, "adapter") then e["adapter"] == src["adapter"] else RunsOn(e["kind"], e["adapter"]))
            && e["config"] == (if "config" in src && src["config"].Obj? then src["config"] else Obj(map[]))
  {
    FieldReads(src, "kind");
    FieldReads(src, "type");
    FieldReads(src, "adapter");
    FieldReads(src, "config");
    EntryKept(src);
    hide Truthy, Falsy, Get, ENTRY_KEYS;
    var kind := NormalizeRouteEntry(src)["kind"];
    AdapterReads(kind);
  }

  /** The known keys, and what `kind`, `adapter` and `config` are made from. */
  lemma {:induction false} EntryKept(src: Dict)
    ensures var e := NormalizeRouteEntry(src);
            && e.Keys == {"kind", "adapter", "config"} + (src.Keys * {"ref", "python", "policy", "meta"})
            && (forall k :: k in src && k in {"ref", "python", "policy", "meta"} ==> e[k] == src[k])
            && e["kind"] == Or(Get(src, "kind"), Or(Get(src, "type"), Str("function")))
            && e["adapter"] == Or(Get(src, "adapter"), DefaultAdapter(e["kind"]))
            && e["config"] == Obj(Fields(Get(src, "config")))
  {
    hide Or, DefaultAdapter;
    var entry := map k | k in src && k in ENTRY_KEYS :: src[k];
    assert Get(entry, "kind") == Get(src, "kind") && Get(entry, "adapter") == Get(src, "adapter") && Get(entry, "config") == Get(src, "config");
    assert entry.Keys == src.Keys * {"kind", "adapter", "config", "ref", "python", "policy", "meta"};
  }

  lemma {:induction false} AdapterReads(kind: Value)
    ensures RunsOn(kind, DefaultAdapter(kind))
  {
  }

  lemma {:induction false} FieldReads(src: Dict, k: string)
    ensures Truthy(Get(src, k)) <==> Given(src, k)
    ensures k in src ==> Get(src, k) == src[k]
    ensures k !in src ==> Get(src, k) == Null
  {
    if k in src {
      FalsyIsFalse(src[k]);
    }
    FalsyIsFalse(Null);
  }

  // ------------------------------------------------------------------ sources

  type Key = (string, string, string)

  /** A route source after coercion. */
  datatype Route = Route(uri: string, key: Key, target: string, entry: Dict, source: Dict)

  /** An item to register, by URI or by parts. */
  datatype Item =
    | ByUri(uri: string, entry: Dict, source: Dict)
    | ByParts(package: string, resource: string, operation: string, target: string, entry: Dict, source: Dict)

  function RouteOf(uri: string, t: Uri.Translation, entry: Dict, source: Dict): Route {
    Route(uri, (t.package, t.resource, t.operation), t.target, NormalizeRouteEntry(entry), source)
  }

  predicate ItemOctets(item: Item) {
    match item
    case ByUri(uri, _, _) => Uri.Octets(uri)
    case ByParts(p, r, o, t, _, _) => Uri.Octets(p) && Uri.Octets(r) && Uri.Octets(o) && Uri.Octets(t)
  }

  /** `coerce_route_source`: none when the item cannot be read as a route. */
  function Coerce(item: Item): Option<Route>
    requires ItemOctets(item)
  {
    match item
    case ByUri(uri, entry, source) =>
      if uri == "" || Uri.ParseUri(uri).None? then None
      else
        Uri.ParsedParts(uri);
        var d := Uri.ParseUri(uri).value;
        if Uri.Translate(d).None? then None
        else Some(RouteOf(Uri.Normalized(d), Uri.Translate(d).value, entry, source))
    case ByParts(p, r, o, target, entry, source) =>
      if p == "" || r == "" || o == "" || Uri.RouteFromParts(p, r, o, target).None? then None
      else Some(RouteOf(Uri.PartsUri(p, r, o, target), Uri.RouteFromParts(p, r, o, target).value, entry, source))
  }

  /** An item is read by its URI, or else by its parts, none of which may be missing. */
  lemma {:induction false} CoerceReads(item: Item)
    requires ItemOctets(item)
    ensures Coerce(item).Some? ==>
              && Coerce(item).value.source == item.source && Coerce(item).value.entry == NormalizeRouteEntry(item.entry)
              && (item.ByUri? ==> item.uri != "")
              && (item.ByParts? ==> item.package != "" && item.resource != "" && item.operation != "")
  {
    hide Uri.ParseUri, Uri.Normalized, Uri.PartsUri, NormalizeRouteEntry;
  }

  ghost predicate AllOctets(items: seq<Item>) {
    forall item :: item in items ==> ItemOctets(item)
  }

  /** Every item can be read as a route. */
  ghost predicate Coercible(items: seq<Item>)
    requires AllOctets(items)
  {
    forall i :: 0 <= i < |items| ==> Coerce(items[i]).Some?
  }

  function Routes(items: seq<Item>): (routes: seq<Route>)
    requires AllOctets(items) && Coercible(items)
    ensures |routes| == |items| && forall i :: 0 <= i < |items| ==> Coerce(items[i]) == Some(routes[i])
  {
    seq(|items|, i requires 0 <= i < |items| => Coerce(items[i]).value)
  }

  // ----------------------------------------------------------------- the tree

  datatype Policy = Error | Keep | Replace

  type Tree = map<string, map<string, map<string, Dict>>>

  function Resources(tree: Tree, p: string): map<string, map<string, Dict>> {
    if p in tree then tree[p] else map[]
  }

  function Operations(tree: Tree, p: string, r: string): map<string, Dict> {
    if r in Resources(tree, p) then Resources(tree, p)[r] else map[]
  }

  function Lookup(tree: Tree, key: Key): Option<Dict> {
    if key.2 in Operations(tree, key.0, key.1) then Some(Operations(tree, key.0, key.1)[key.2]) else None
  }

  function Store(tree: Tree, key: Key, entry: Dict): Tree {
    tree[key.0 := Resources(tree, key.0)[key.1 := Operations(tree, key.0, key.1)[key.2 := entry]]]
  }

  /** `setdefault` on both levels creates them even when the entry is not stored. */
  function Touch(tree: Tree, key: Key): Tree {
    tree[key.0 := Resources(tree, key.0)[key.1 := Operations(tree, key.0, key.1)]]
  }

  function AddRoute(tree: Tree, key: Key, entry: Dict, policy: Policy): Option<Tree> {
    var existing := Lookup(tree, key);
    if existing.Some? && existing.value != entry then
      match policy
      case Replace => Some(Store(tree, key, entry))
      case Keep => Some(Touch(tree, key))
      case Error => None
    else Some(Store(tree, key, entry))
  }

  lemma {:induction false} StoreLookup(tree: Tree, key: Key, entry: Dict, other: Key)
    ensures Lookup(Store(tree, key, entry), other) == if other == key then Some(entry) else Lookup(tree, other)
    ensures Lookup(Touch(tree, key), other) == Lookup(tree, other)
  {
  }

  // ------------------------------------------------------------- the document

  datatype Meta = Meta(uri: string, key: Key, target: string, entry: Dict, source: Dict)

  datatype Document = Document(tree: Tree, index: map<string, Meta>, sources: seq<Dict>)

  const EMPTY := Document(map[], map[], [])

  function MetaOf(r: Route): Meta { Meta(r.uri, r.key, r.target, r.entry, r.source) }

  function NoteSource(sources: seq<Dict>, source: Dict): seq<Dict> {
    if source == map[] || source in sources then sources else sources + [source]
  }

  function Enter(doc: Document, r: Route): Document {
    doc.(index := doc.index[r.uri := MetaOf(r)], sources := NoteSource(doc.sources, r.source))
  }

  /** One source: first the tree, then the index. */
  function AddSource(doc: Document, r: Route, policy: Policy): Option<Document> {
    match AddRoute(doc.tree, r.key, r.entry, policy)
    case None => None
    case Some(tree) =>
      var doc1 := doc.(tree := tree);
      if r.uri in doc.index && doc.index[r.uri].entry != r.entry then
        match policy
        case Replace => Some(Enter(doc1, r))
        case Keep => Some(doc1)
        case Error => None
      else Some(Enter(doc1, r))
  }

  function Build(routes: seq<Route>, policy: Policy): Option<Document>
    decreases |routes|
  {
    if routes == [] then Some(EMPTY)
    else
      match Build(routes[..|routes| - 1], policy)
      case None => None
      case Some(doc) => AddSource(doc, routes[|routes| - 1], policy)
  }

  /** An index entry is that of one of the sources, whole. */
  ghost predicate IndexedFrom(doc: Document, routes: seq<Route>) {
    forall uri :: uri in doc.index ==>
      exists r :: r in routes && r.uri == uri && doc.index[uri] == Meta(r.uri, r.key, r.target, r.entry, r.source)
  }

  /** The origins listed: each once, none empty, each of a source, and all of them unless sources may be passed over. */
  ghost predicate OriginsOf(doc: Document, routes: seq<Route>, policy: Policy) {
    && (forall i, j :: 0 <= i < j < |doc.sources| ==> doc.sources[i] != doc.sources[j])
    && (forall origin :: origin in doc.sources ==> origin != map[] && exists r :: r in routes && r.source == origin)
    && (!policy.Keep? ==> forall r :: r in routes && r.source != map[] ==> r.source in doc.sources)
  }

  /** Whatever the policy, a document lists its sources as they are. */
  lemma {:induction false} DocumentLists(routes: seq<Route>, policy: Policy)
    ensures Build(routes, policy).Some? ==>
              IndexedFrom(Build(routes, policy).value, routes) && OriginsOf(Build(routes, policy).value, routes, policy)
    decreases |routes|
  {
    if routes != [] {
      var init, r := routes[..|routes| - 1], routes[|routes| - 1];
      DocumentLists(init, policy);
      if Build(routes, policy).Some? {
        var doc := Build(init, policy).value;
        assert forall x :: x in routes <==> x in init || x == r by { assert routes == init + [r]; }
        var doc1 := Build(routes, policy).value;
        AddedLists(doc, doc1, init, routes, r, policy);
      }
    }
  }

  lemma {:induction false} AddedLists(doc: Document, doc1: Document, init: seq<Route>, routes: seq<Route>, r: Route, policy: Policy)
    requires IndexedFrom(doc, init) && OriginsOf(doc, init, policy) && AddSource(doc, r, policy) == Some(doc1)
    requires forall x :: x in routes <==> x in init || x == r
    ensures IndexedFrom(doc1, routes) && OriginsOf(doc1, routes, policy)
  {
    hide AddRoute;
    forall uri | uri in doc1.index
      ensures exists x :: x in routes && x.uri == uri && doc1.index[uri] == Meta(x.uri, x.key, x.target, x.entry, x.source)
    {
      if doc1.index[uri] == Meta(r.uri, r.key, r.target, r.entry, r.source) && uri == r.uri {
        assert r in routes;
      } else {
        var x :| x in init && x.uri == uri && doc.index[uri] == Meta(x.uri, x.key, x.target, x.entry, x.source);
        assert x in routes;
      }
    }
    forall origin | origin in doc1.sources ensures origin != map[] && exists x :: x in routes && x.source == origin {
      if origin in doc.sources {
        var x :| x in init && x.source == origin;
        assert x in routes;
      } else {
        assert r in routes;
      }
    }
  }

  // ------------------------------------------------------------ who wrote what

  function FirstForKey(routes: seq<Route>, key: Key): Option<Dict> {
    if routes == [] then None
    else if routes[0].key == key then Some(routes[0].entry)
    else FirstForKey(routes[1..], key)
  }

  function FirstForUri(routes: seq<Route>, uri: string): Option<Dict> {
    if routes == [] then None
    else if routes[0].uri == uri then Some(routes[0].entry)
    else FirstForUri(routes[1..], uri)
  }

  function LastForKey(routes: seq<Route>, key: Key): Option<Dict> {
    if routes == [] then None
    else if routes[|routes| - 1].key == key then Some(routes[|routes| - 1].entry)
    else LastForKey(routes[..|routes| - 1], key)
  }

  function LastForUri(routes: seq<Route>, uri: string): Option<Dict> {
    if routes == [] then None
    else if routes[|routes| - 1].uri == uri then Some(routes[|routes| - 1].entry)
    else LastForUri(routes[..|routes| - 1], uri)
  }

  lemma {:induction false} FirstSnoc(routes: seq<Route>, r: Route, key: Key, uri: string)
    ensures FirstForKey(routes + [r], key) ==
            (if FirstForKey(routes, key).Some? then FirstForKey(routes, key) else if r.key == key then Some(r.entry) else None)
    ensures FirstForUri(routes + [r], uri) ==
            (if FirstForUri(routes, uri).Some? then FirstForUri(routes, uri) else if r.uri == uri then Some(r.entry) else None)
    decreases |routes|
  {
    if routes == [] {
      assert [r][1..] == [];
      assert routes + [r] == [r];
    } else {
      assert (routes + [r])[1..] == routes[1..] + [r];
      FirstSnoc(routes[1..], r, key, uri);
    }
  }

  function IndexEntry(doc: Document, uri: string): Option<Dict> {
    if uri in doc.index then Some(doc.index[uri].entry) else None
  }

  /** In keep mode the tree and the index hold, per key, exactly what was written first. */
  lemma {:induction false} KeepIsFirst(routes: seq<Route>)
    ensures Build(routes, Keep).Some?
    ensures forall key: Key :: Lookup(Build(routes, Keep).value.tree, key) == FirstForKey(routes, key)
    ensures forall uri: string :: IndexEntry(Build(routes, Keep).value, uri) == FirstForUri(routes, uri)
    decreases |routes|
  {
    if routes != [] {
      var init, r := routes[..|routes| - 1], routes[|routes| - 1];
      assert routes == init + [r];
      KeepIsFirst(init);
      var doc, doc1 := Build(init, Keep).value, Build(routes, Keep).value;
      forall key: Key ensures Lookup(doc1.tree, key) == FirstForKey(routes, key) {
        FirstSnoc(init, r, key, r.uri);
        StoreLookup(doc.tree, r.key, r.entry, key);
        FirstSnoc(init, r, r.key, r.uri);
      }
      forall uri: string ensures IndexEntry(doc1, uri) == FirstForUri(routes, uri) {
        FirstSnoc(init, r, r.key, uri);
        FirstSnoc(init, r, r.key, r.uri);
      }
    }
  }

  /** In replace mode they hold exactly what was written last. */
  lemma {:induction false} ReplaceIsLast(routes: seq<Route>)
    ensures Build(routes, Replace).Some?
    ensures forall key: Key :: Lookup(Build(routes, Replace).value.tree, key) == LastForKey(routes, key)
    ensures forall uri: string :: IndexEntry(Build(routes, Replace).value, uri) == LastForUri(routes, uri)
    decreases |routes|
  {
    if routes != [] {
      var init, r := routes[..|routes| - 1], routes[|routes| - 1];
      ReplaceIsLast(init);
      var doc, doc1 := Build(init, Replace).value, Build(routes, Replace).value;
      forall key: Key ensures Lookup(doc1.tree, key) == LastForKey(routes, key) {
        StoreLookup(doc.tree, r.key, r.entry, key);
      }
    }
  }

  /** No two sources give one route, or one URI, different entries. */
  ghost predicate Consistent(routes: seq<Route>) {
    forall a, b :: a in routes && b in routes && (a.key == b.key || a.uri == b.uri) ==> a.entry == b.entry
  }

  ghost predicate HasKey(routes: seq<Route>, key: Key, e: Dict) {
    exists r :: r in routes && r.key == key && r.entry == e
  }

  ghost predicate HasUri(routes: seq<Route>, uri: string, e: Dict) {
    exists r :: r in routes && r.uri == uri && r.entry == e
  }

  /** Tree and index hold exactly the routes of `routes`. */
  ghost predicate Holds(doc: Document, routes: seq<Route>) {
    && (forall key: Key, e :: Lookup(doc.tree, key) == Some(e) <==> HasKey(routes, key, e))
    && (forall uri: string, e :: IndexEntry(doc, uri) == Some(e) <==> HasUri(routes, uri, e))
  }

  /**
   In error mode the build succeeds exactly for consistent sources, and then maps
   every route and every URI to the entry its sources agree on.
   */
  lemma {:induction false} ErrorExact(routes: seq<Route>)
    ensures Build(routes, Error).Some? <==> Consistent(routes)
    ensures Build(routes, Error).Some? ==>
              forall key: Key, e :: Lookup(Build(routes, Error).value.tree, key) == Some(e) <==> HasKey(routes, key, e)
    ensures Build(routes, Error).Some? ==>
              forall uri: string, e :: IndexEntry(Build(routes, Error).value, uri) == Some(e) <==> HasUri(routes, uri, e)
    decreases |routes|
  {
    hide AddSource;
    if routes != [] {
      var init, r := routes[..|routes| - 1], routes[|routes| - 1];
      assert routes == init + [r];
      ErrorExact(init);
      ConsistentSnoc(init, r);
      if Build(init, Error).Some? {
        var doc := Build(init, Error).value;
        assert Holds(doc, init);
        ErrorStep(init, doc, r);
      }
    }
  }

  lemma {:induction false} ConsistentSnoc(init: seq<Route>, r: Route)
    ensures Consistent(init + [r]) <==>
            Consistent(init) && forall a :: a in init && (a.key == r.key || a.uri == r.uri) ==> a.entry == r.entry
  {
    var all := init + [r];
    assert forall a :: a in all <==> a in init || a == r;
    if Consistent(all) {
      assert r in all;
    }
  }

  lemma {:induction false} ErrorAdmits(init: seq<Route>, doc: Document, r: Route)
    requires Holds(doc, init)
    ensures AddSource(doc, r, Error).Some? <==>
            forall a :: a in init && (a.key == r.key || a.uri == r.uri) ==> a.entry == r.entry
  {
    hide Lookup, Store;
    forall a | a in init ensures Lookup(doc.tree, a.key) == Some(a.entry) && IndexEntry(doc, a.uri) == Some(a.entry) {
      assert HasKey(init, a.key, a.entry) && HasUri(init, a.uri, a.entry);
    }
    var old_ := Lookup(doc.tree, r.key);
    if old_.Some? {
      assert HasKey(init, r.key, old_.value);
    }
    var seen := IndexEntry(doc, r.uri);
    if seen.Some? {
      assert HasUri(init, r.uri, seen.value);
    }
  }

  lemma {:induction false} ErrorStep(init: seq<Route>, doc: Document, r: Route)
    requires Consistent(init) && Holds(doc, init)
    ensures AddSource(doc, r, Error).Some? <==>
            forall a :: a in init && (a.key == r.key || a.uri == r.uri) ==> a.entry == r.entry
    ensures AddSource(doc, r, Error).Some? ==> Holds(AddSource(doc, r, Error).value, init + [r])
  {
    hide Lookup, Store, HasKey, HasUri;
    ErrorAdmits(init, doc, r);
    if AddSource(doc, r, Error).Some? {
      var doc1, all := AddSource(doc, r, Error).value, init + [r];
      forall key: Key, e ensures Lookup(doc1.tree, key) == Some(e) <==> HasKey(all, key, e) {
        StoreLookup(doc.tree, r.key, r.entry, key);
        HasSnoc(init, r, key, "", e);
        assert Lookup(doc.tree, key) == Some(e) <==> HasKey(init, key, e);
      }
      forall uri: string, e ensures IndexEntry(doc1, uri) == Some(e) <==> HasUri(all, uri, e) {
        HasSnoc(init, r, r.key, uri, e);
      }
    }
  }

  lemma {:induction false} HasSnoc(init: seq<Route>, r: Route, key: Key, uri: string, e: Dict)
    ensures HasKey(init + [r], key, e) <==> HasKey(init, key, e) || (r.key == key && r.entry == e)
    ensures HasUri(init + [r], uri, e) <==> HasUri(init, uri, e) || (r.uri == uri && r.entry == e)
  {
    var all := init + [r];
    assert forall a :: a in all <==> a in init || a == r;
    if r.key == key && r.entry == e {
      assert r in all;
    }
    if r.uri == uri && r.entry == e {
      assert r in all;
    }
  }

  /** In error mode the outcome does not depend on the order of the sources. */
  lemma {:induction false} OrderIrrelevant(a: seq<Route>, b: seq<Route>)
    requires multiset(a) == multiset(b)
    ensures Build(a, Error).Some? <==> Build(b, Error).Some?
    ensures Build(a, Error).Some? ==>
              && (forall key: Key :: Lookup(Build(a, Error).value.tree, key) == Lookup(Build(b, Error).value.tree, key))
              && (forall uri: string :: IndexEntry(Build(a, Error).value, uri) == IndexEntry(Build(b, Error).value, uri))
  {
    hide Build, Lookup, IndexEntry;
    assert forall r :: r in a <==> r in b by {
      forall r ensures r in a <==> r in b {
        assert r in a <==> r in multiset(a);
        assert r in b <==> r in multiset(b);
      }
    }
    ErrorExact(a);
    ErrorExact(b);
    if Build(a, Error).Some? {
      var da, db := Build(a, Error).value, Build(b, Error).value;
      forall key: Key, e ensures HasKey(a, key, e) <==> HasKey(b, key, e) {
      }
      forall uri: string, e ensures HasUri(a, uri, e) <==> HasUri(b, uri, e) {
      }
      forall key: Key ensures Lookup(da.tree, key) == Lookup(db.tree, key) {
        SameOption(Lookup(da.tree, key), Lookup(db.tree, key));
      }
      forall uri: string ensures IndexEntry(da, uri) == IndexEntry(db, uri) {
        SameOption(IndexEntry(da, uri), IndexEntry(db, uri));
      }
    }
  }

  lemma {:induction false} SameOption(x: Option<Dict>, y: Option<Dict>)
    requires forall e: Dict :: x == Some(e) <==> y == Some(e)
    ensures x == y
  {
    if x.Some? {
      assert x == Some(x.value);
    }
    if y.Some? {
      assert y == Some(y.value);
    }
  }

  // ---------------------------------------------------------------- resolving

  predicate IsTemplate(k: string) {
    |k| > 2 && k[0] == '{' && k[|k| - 1] == '}'
  }

  /** The branch for a segment: the exact key, else the only template. */
  ghost predicate Branch(keys: set<string>, segment: string, k: string) {
    && k in keys
    && (k == segment || (segment !in keys && IsTemplate(k) && forall j :: j in keys && IsTemplate(j) ==> j == k))
  }

  function Bind(k: string, segment: string): map<string, string> {
    if k == segment || |k| < 2 then map[] else map[k[1..|k| - 1] := segment]
  }

  datatype Found = Found(entry: Dict, params: map<string, string>)

  /** Pick the branch for a segment, or none. */
  method PickBranch(keys: set<string>, segment: string) returns (r: Option<string>)
    ensures r.Some? ==> Branch(keys, segment, r.value)
    ensures r.None? ==> forall k :: !Branch(keys, segment, k)
  {
    if segment in keys {
      return Some(segment);
    }
    var templated := set k | k in keys && IsTemplate(k);
    if |templated| != 1 {
      assert forall k :: Branch(keys, segment, k) ==> templated == {k};
      return None;
    }
    var k :| k in templated;
    assert templated == {k} by {
      assert |templated - {k}| == 0;
    }
    forall j | j in keys && IsTemplate(j) ensures j == k {
      assert j in templated;
    }
    return Some(k);
  }

  /** A key of the tree reached from `route` by exact or template branches, and what it binds. */
  ghost predicate Reached(tree: Tree, route: Key, key: Key, params: map<string, string>) {
    && Branch(tree.Keys, route.0, key.0)
    && Branch(tree[key.0].Keys, route.1, key.1)
    && Branch(tree[key.0][key.1].Keys, route.2, key.2)
    && params == Bind(key.0, route.0) + Bind(key.1, route.1) + Bind(key.2, route.2)
  }

  /** The level was reached through the parameter `name`: its key is the name in braces, and not the segment itself. */
  predicate Through(key: string, segment: string, name: string) {
    key != segment && key == "{" + name + "}"
  }

  /** Exactly the parameters passed through are bound, each to the segment of the last level passed through it. */
  ghost predicate BoundExactly(route: Key, key: Key, params: map<string, string>) {
    forall name ::
      && (name in params <==> Through(key.0, route.0, name) || Through(key.1, route.1, name) || Through(key.2, route.2, name))
      && (name in params ==>
            params[name] == if Through(key.2, route.2, name) then route.2
                            else if Through(key.1, route.1, name) then route.1 else route.0)
  }

  /** At every level: the segment's own key, or the only key in braces when the segment has none. */
  predicate OwnOrOnly(keys: set<string>, segment: string, k: string) {
    if segment in keys then k == segment
    else (set j | j in keys && |j| > 2 && j[0] == '{' && j[|j| - 1] == '}') == {k}
  }

  lemma {:induction false} BranchReads(keys: set<string>, segment: string, k: string)
    ensures Branch(keys, segment, k) <==> OwnOrOnly(keys, segment, k)
  {
    var templates := set j | j in keys && |j| > 2 && j[0] == '{' && j[|j| - 1] == '}';
    if OwnOrOnly(keys, segment, k) && segment !in keys {
      assert k in templates;
      assert forall j :: j in keys && IsTemplate(j) ==> j in templates;
    }
    if Branch(keys, segment, k) && segment !in keys {
      assert templates == {k};
    }
  }

  lemma {:induction false} OneBound(keys: set<string>, segment: string, k: string)
    requires Branch(keys, segment, k)
    ensures forall name :: name in Bind(k, segment) <==> Through(k, segment, name)
    ensures forall name :: name in Bind(k, segment) ==> Bind(k, segment)[name] == segment
  {
    if k != segment {
      var inner := k[1..|k| - 1];
      assert k == "{" + inner + "}";
      forall name | Through(k, segment, name) ensures name == inner {
        assert ("{" + name + "}")[1..|k| - 1] == name;
      }
    }
  }

  /** What a walk binds, read off the keys it went through. */
  lemma {:induction false} ReachedBinds(tree: Tree, route: Key, key: Key, params: map<string, string>)
    requires Reached(tree, route, key, params)
    ensures BoundExactly(route, key, params)
    ensures OwnOrOnly(tree.Keys, route.0, key.0) && key.0 in tree
    ensures OwnOrOnly(tree[key.0].Keys, route.1, key.1) && key.1 in tree[key.0]
    ensures OwnOrOnly(tree[key.0][key.1].Keys, route.2, key.2) && key.2 in tree[key.0][key.1]
  {
    OneBound(tree.Keys, route.0, key.0);
    OneBound(tree[key.0].Keys, route.1, key.1);
    OneBound(tree[key.0][key.1].Keys, route.2, key.2);
    BranchReads(tree.Keys, route.0, key.0);
    BranchReads(tree[key.0].Keys, route.1, key.1);
    BranchReads(tree[key.0][key.1].Keys, route.2, key.2);
    hide Bind, Through, OwnOrOnly;
  }

  /** `_walk_route_tree`: down the three levels, exact keys first. */
  method WalkRouteTree(tree: Tree, route: Key) returns (found: Option<Found>)
    ensures found.Some? ==>
              exists key :: Reached(tree, route, key, found.value.params) && Lookup(tree, key) == Some(found.value.entry)
                            && BoundExactly(route, key, found.value.params)
    ensures found.None? ==> forall key, params :: !Reached(tree, route, key, params)
  {
    var params: map<string, string> := map[];
    var a := PickBranch(tree.Keys, route.0);
    if a.None? {
      return None;
    }
    params := params + Bind(a.value, route.0);
    var b := PickBranch(tree[a.value].Keys, route.1);
    if b.None? {
      forall key, ps | Reached(tree, route, key, ps) ensures false {
        BranchUnique(tree.Keys, route.0, a.value, key.0);
      }
      return None;
    }
    params := params + Bind(b.value, route.1);
    var c := PickBranch(tree[a.value][b.value].Keys, route.2);
    if c.None? {
      forall key, ps | Reached(tree, route, key, ps) ensures false {
        BranchUnique(tree.Keys, route.0, a.value, key.0);
        BranchUnique(tree[a.value].Keys, route.1, b.value, key.1);
      }
      return None;
    }
    params := params + Bind(c.value, route.2);
    var key := (a.value, b.value, c.value);
    assert params == Bind(key.0, route.0) + Bind(key.1, route.1) + Bind(key.2, route.2);
    assert Reached(tree, route, key, params);
    ReachedBinds(tree, route, key, params);
    hide BoundExactly;
    return Some(Found(tree[a.value][b.value][c.value], params));
  }

  lemma {:induction false} BranchUnique(keys: set<string>, segment: string, j: string, k: string)
    requires Branch(keys, segment, j) && Branch(keys, segment, k)
    ensures j == k
  {
  }

  /** A stored route is reached by itself, binding nothing, and by nothing else. */
  lemma {:induction false} StoredIsReached(tree: Tree, route: Key, key: Key, params: map<string, string>)
    requires Lookup(tree, route).Some?
    ensures Reached(tree, route, key, params) <==> key == route && params == map[]
  {
    var (p, r, o) := route;
    assert p in tree && r in tree[p] && o in tree[p][r];
    if Reached(tree, route, key, params) {
      BranchUnique(tree.Keys, p, p, key.0);
      BranchUnique(tree[p].Keys, r, r, key.1);
      BranchUnique(tree[p][r].Keys, o, o, key.2);
    }
  }

  /** The route a request translates to. */
  function KeyOf(d: Uri.Descriptor): Key
    requires |d.segments| >= 2
  {
    (d.package, d.segments[0], d.segments[1])
  }

  /** `resolve_route`, for one request: the index by its normalized URI, else the tree by its route. */
  method ResolveRoute(doc: Document, d: Uri.Descriptor) returns (found: Option<Found>)
    requires Uri.AllOctets(d.segments) && |d.segments| >= 2
    ensures var hit := IndexEntry(doc, Uri.Normalized(d));
            && (hit.Some? ==> found == Some(Found(hit.value, map[])))
            && (hit.None? && found.Some? ==>
                  exists key :: Reached(doc.tree, KeyOf(d), key, found.value.params) && Lookup(doc.tree, key) == Some(found.value.entry)
                                && BoundExactly(KeyOf(d), key, found.value.params))
            && (hit.None? && found.None? ==> forall key, params :: !Reached(doc.tree, KeyOf(d), key, params))
  {
    var normalized := Uri.Normalized(d);
    if normalized in doc.index {
      return Some(Found(doc.index[normalized].entry, map[]));
    }
    found := WalkRouteTree(doc.tree, KeyOf(d));
  }

  // ------------------------------------------ each source where it was stored

  /** In error mode every source is found under its URI in the index, and under its key in the tree. */
  lemma {:induction false} SourceIsStored(routes: seq<Route>, r: Route)
    requires Build(routes, Error).Some? && r in routes
    ensures var doc := Build(routes, Error).value;
            && IndexEntry(doc, r.uri) == Some(r.entry)
            && Lookup(doc.tree, r.key) == Some(r.entry)
            && forall key, params :: Reached(doc.tree, r.key, key, params) <==> key == r.key && params == map[]
  {
    hide Build, Reached;
    ErrorExact(routes);
    var doc := Build(routes, Error).value;
    assert HasKey(routes, r.key, r.entry) && HasUri(routes, r.uri, r.entry);
    forall key, params
      ensures Reached(doc.tree, r.key, key, params) <==> key == r.key && params == map[]
    {
      StoredIsReached(doc.tree, r.key, key, params);
    }
  }

  // ------------------------------------------------------------- the builder

  class RegistryBuilder {
    var routes: Tree
    var index: map<string, Meta>
    var sources: seq<Dict>

    constructor ()
      ensures Doc() == EMPTY
    {
      routes, index, sources := map[], map[], [];
    }

    ghost function Doc(): Document
      reads this
    {
      Document(routes, index, sources)
    }

    /** `add_route`: create the levels, then store, keep or object. */
    method AddToTree(key: Key, entry: Dict, policy: Policy) returns (ok: bool)
      modifies this`routes
      ensures ok == AddRoute(old(routes), key, entry, policy).Some?
      ensures ok ==> routes == AddRoute(old(routes), key, entry, policy).value
      ensures !ok ==> forall other: Key :: Lookup(routes, other) == Lookup(old(routes), other)
    {
      ghost var before := routes;
      Deepen(key);
      Deepened(before, key);
      if key.2 in routes[key.0][key.1] && routes[key.0][key.1][key.2] != entry {
        match policy
        case Replace =>
        case Keep => return true;
        case Error => return false;
      }
      Stored(before, key, entry);
      routes := routes[key.0 := routes[key.0][key.1 := routes[key.0][key.1][key.2 := entry]]];
      return true;
    }

    /** `setdefault` on both levels. */
    method Deepen(key: Key)
      modifies this`routes
      ensures routes == Touch(old(routes), key)
    {
      ghost var before := routes;
      if key.0 !in routes {
        routes := routes[key.0 := map[]];
      }
      assert routes == before[key.0 := Resources(before, key.0)];
      if key.1 !in routes[key.0] {
        routes := routes[key.0 := routes[key.0][key.1 := map[]]];
      }
      assert routes[key.0] == Resources(before, key.0)[key.1 := Operations(before, key.0, key.1)];
    }

    /** `build_registry_document`: coerce each item, then enter it; the first objection raises. */
    method BuildDocument(items: seq<Item>, policy: Policy) returns (ok: bool)
      requires Doc() == EMPTY && AllOctets(items)
      modifies this
      ensures ok <==> Coercible(items) && Build(Routes(items), policy).Some?
      ensures ok ==> Doc() == Build(Routes(items), policy).value
    {
      hide Coerce, AddSource, Build;
      ghost var done: seq<Route> := [];
      NothingBuilt(policy);
      for i := 0 to |items|
        invariant RoutesOf(items[..i], done) && Build(done, policy) == Some(Doc())
      {
        var coerced := Coerce(items[i]);
        if coerced.None? {
          return false;
        }
        ghost var doc := Doc();
        var entered := EnterSource(coerced.value, policy);
        OneMoreRoute(items, i, done, coerced.value, doc, policy);
        if !entered {
          return false;
        }
        done := done + [coerced.value];
      }
      assert items[..|items|] == items;
      assert Coercible(items) && Routes(items) == done;
      return true;
    }

    /** One source: first the tree, then the index. */
    method EnterSource(r: Route, policy: Policy) returns (ok: bool)
      modifies this
      ensures ok <==> AddSource(old(Doc()), r, policy).Some?
      ensures ok ==> Doc() == AddSource(old(Doc()), r, policy).value
    {
      var added := AddToTree(r.key, r.entry, policy);
      if !added {
        return false;
      }
      if r.uri in index && index[r.uri].entry != r.entry {
        match policy
        case Replace =>
        case Keep => return true;
        case Error => return false;
      }
      index := index[r.uri := Meta(r.uri, r.key, r.target, r.entry, r.source)];
      if r.source != map[] && r.source !in sources {
        sources := sources + [r.source];
      }
      return true;
    }
  }

  lemma {:induction false} Deepened(tree: Tree, key: Key)
    ensures var t := Touch(tree, key);
            && key.0 in t && key.1 in t[key.0] && t[key.0][key.1] == Operations(tree, key.0, key.1)
            && (Lookup(tree, key).Some? <==> key.2 in t[key.0][key.1])
            && (Lookup(tree, key).Some? ==> Lookup(tree, key).value == t[key.0][key.1][key.2])
            && forall other: Key :: Lookup(t, other) == Lookup(tree, other)
  {
    forall other: Key ensures Lookup(Touch(tree, key), other) == Lookup(tree, other) {
      StoreLookup(tree, key, map[], other);
    }
  }

  lemma {:induction false} Stored(tree: Tree, key: Key, entry: Dict)
    ensures var t := Touch(tree, key);
            && key.0 in t && key.1 in t[key.0]
            && t[key.0 := t[key.0][key.1 := t[key.0][key.1][key.2 := entry]]] == Store(tree, key, entry)
  {
    var t := Touch(tree, key);
    assert t[key.0][key.1 := t[key.0][key.1][key.2 := entry]] ==
           Resources(tree, key.0)[key.1 := Operations(tree, key.0, key.1)[key.2 := entry]];
  }

  ghost predicate RoutesOf(items: seq<Item>, routes: seq<Route>)
    requires AllOctets(items)
  {
    |routes| == |items| && forall i :: 0 <= i < |items| ==> Coerce(items[i]) == Some(routes[i])
  }

  lemma {:induction false} NothingBuilt(policy: Policy)
    ensures Build([], policy) == Some(EMPTY)
  {
  }

  lemma {:induction false} OneMoreRoute(items: seq<Item>, i: nat, done: seq<Route>, r: Route, doc: Document, policy: Policy)
    requires AllOctets(items) && i < |items| && RoutesOf(items[..i], done) && Coerce(items[i]) == Some(r)
    requires Build(done, policy) == Some(doc)
    ensures RoutesOf(items[..i + 1], done + [r]) && Build(done + [r], policy) == AddSource(doc, r, policy)
    ensures AddSource(doc, r, policy).None? && Coercible(items) ==> Build(Routes(items), policy).None?
  {
    hide Coerce, AddSource;
    var all := done + [r];
    assert all[..|all| - 1] == done;
    assert items[..i + 1] == items[..i] + [items[i]];
    if AddSource(doc, r, policy).None? && Coercible(items) {
      forall j | 0 <= j <= i ensures Routes(items)[j] == all[j] {
        assert items[..i + 1][j] == items[j];
      }
      assert Routes(items)[..i + 1] == all;
      hide Build;
      BuildFails(Routes(items), i + 1, policy);
    }
  }

  /** A build that fails on a prefix fails. */
  lemma {:induction false} BuildFails(routes: seq<Route>, n: nat, policy: Policy)
    requires n <= |routes| && Build(routes[..n], policy).None?
    ensures Build(routes, policy).None?
    decreases |routes|
  {
    if n < |routes| {
      assert routes[..|routes| - 1][..n] == routes[..n];
      BuildFails(routes[..|routes| - 1], n, policy);
    } else {
      assert routes[..n] == routes;
    }
  }
}
