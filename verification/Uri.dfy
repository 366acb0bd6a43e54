/**
 URIs of the registry: parsing, percent-encoding, the normal form.

 A string here is the UTF-8 form of the text, one character per octet.
 */
module Uri {
  import opened Text

  predicate Octets(s: string) {
    forall i :: 0 <= i < |s| ==> s[i] as int < 256
  }

  // --------------------------------------------------------- percent-encoding

  predicate Letter(c: char) { 'a' <= c <= 'z' || 'A' <= c <= 'Z' }

  predicate Digit(c: char) { '0' <= c <= '9' }

  /** Section 2.3 of RFC 3986. */
  predicate Unreserved(c: char) {
    Letter(c) || Digit(c) || c == '_' || c == '.' || c == '-' || c == '~'
  }

  function HexDigit(n: nat): (c: char)
    requires n < 16
    ensures HexValue(c) == Some(n) && (Digit(c) || Letter(c))
  {
    if n < 10 then '0' + n as char else 'A' + (n - 10) as char
  }

  function HexValue(c: char): (r: Option<nat>)
    ensures r.Some? ==> r.value < 16
  {
    if Digit(c) then Some((c - '0') as nat)
    else if 'A' <= c <= 'F' then Some(10 + (c - 'A') as nat)
    else if 'a' <= c <= 'f' then Some(10 + (c - 'a') as nat)
    else None
  }

  function QuoteChar(c: char): string
    requires c as int < 256
  {
    if Unreserved(c) then [c] else ['%', HexDigit(c as nat / 16), HexDigit(c as nat % 16)]
  }

  const UPPER := "ABCDEFGHIJKLMNOPQRSTUVWXYZ"
  const LOWER := "abcdefghijklmnopqrstuvwxyz"

  lemma {:induction false} UpperReads(c: char)
    ensures 'A' <= c <= 'Z' <==> c in UPPER
  {
    if 'A' <= c <= 'Z' {
      assert UPPER[c as int - 65] == c;
    }
  }

  lemma {:induction false} LowerReads(c: char)
    ensures 'a' <= c <= 'z' <==> c in LOWER
  {
    if 'a' <= c <= 'z' {
      assert LOWER[c as int - 97] == c;
    }
  }

  predicate OneOf26(c: char) { c in UPPER || c in LOWER }

  lemma {:induction false} LetterReads(c: char)
    ensures Letter(c) <==> OneOf26(c)
  {
    UpperReads(c);
    LowerReads(c);
    hide UPPER, LOWER;
  }

  lemma {:induction false} DigitReads(c: char)
    ensures Digit(c) <==> c in "0123456789"
  {
    if Digit(c) {
      assert "0123456789"[c as int - 48] == c;
    }
  }

  /** What goes unencoded, and what a character is encoded as. */
  lemma {:induction false} QuoteReads(c: char)
    requires c as int < 256
    ensures Quote([c]) ==
            if OneOf26(c) || c in "0123456789" || c in "_.-~" then [c]
            else ['%', "0123456789ABCDEF"[c as int / 16], "0123456789ABCDEF"[c as int % 16]]
  {
    LetterReads(c);
    DigitReads(c);
    HexReads(c as nat / 16);
    HexReads(c as nat % 16);
    assert [c][1..] == "" && Quote("") == "";
    assert Quote([c]) == QuoteChar(c) + "";
  }

  lemma {:induction false} HexReads(n: nat)
    requires n < 16
    ensures HexDigit(n) == "0123456789ABCDEF"[n]
  {
  }

  /** The digits that count in an escape, in either case. */
  lemma {:induction false} HexValueReads(c: char)
    ensures HexValue(c) ==
            if c in "0123456789" then Some((c as int - 48) as nat)
            else if c == 'a' || c == 'A' then Some(10) else if c == 'b' || c == 'B' then Some(11)
            else if c == 'c' || c == 'C' then Some(12) else if c == 'd' || c == 'D' then Some(13)
            else if c == 'e' || c == 'E' then Some(14) else if c == 'f' || c == 'F' then Some(15) else None
  {
    DigitReads(c);
  }

  /** A scheme: a letter, then letters, digits and "+.-". */
  lemma {:induction false} SchemeReads(s: string)
    ensures LegalScheme(s) <==>
            s != "" && OneOf26(s[0]) && forall c :: c in s ==> OneOf26(c) || c in "0123456789" || c in "+.-"
  {
    forall c: char ensures (Letter(c) <==> OneOf26(c)) && (Digit(c) <==> c in "0123456789") {
      LetterReads(c);
      DigitReads(c);
    }
    hide Letter, Digit, OneOf26;
  }

  /** `quote(s, safe='')`. */
  function Quote(s: string): string
    requires Octets(s)
  {
    if s == "" then "" else QuoteChar(s[0]) + Quote(s[1..])
  }

  /** An escape at the head of `s`. */
  predicate Escaped(s: string) {
    |s| >= 3 && s[0] == '%' && HexValue(s[1]).Some? && HexValue(s[2]).Some?
  }

  /** `unquote(s)`: a percent sign without two hex digits stands for itself. */
  function Unquote(s: string): (r: string)
    ensures |r| <= |s| && (s != "" ==> r != "")
    ensures Octets(s) ==> Octets(r)
    decreases |s|
  {
    if s == "" then ""
    else if Escaped(s) then [(16 * HexValue(s[1]).value + HexValue(s[2]).value) as char] + Unquote(s[3..])
    else [s[0]] + Unquote(s[1..])
  }

  lemma {:induction false} UnquoteHead(c: char, q: string)
    requires c as int < 256
    ensures Unquote(QuoteChar(c) + q) == [c] + Unquote(q)
  {
    var s := QuoteChar(c) + q;
    if Unreserved(c) {
      assert s[0] == c && s[1..] == q;
    } else {
      assert s[0] == '%' && s[1] == HexDigit(c as nat / 16) && s[2] == HexDigit(c as nat % 16) && s[3..] == q;
    }
  }

  lemma {:induction false} UnquoteQuoteThen(s: string, t: string)
    requires Octets(s)
    ensures Unquote(Quote(s) + t) == s + Unquote(t)
    decreases |s|
  {
    hide Unquote, QuoteChar;
    if s == "" {
      assert "" + t == t;
    } else {
      var q := Quote(s[1..]) + t;
      assert Quote(s) + t == QuoteChar(s[0]) + q;
      UnquoteQuoteThen(s[1..], t);
      UnquoteHead(s[0], q);
      assert s + Unquote(t) == [s[0]] + (s[1..] + Unquote(t));
    }
  }

  /** Decoding undoes encoding, for every octet string. */
  lemma {:induction false} UnquoteQuote(s: string)
    requires Octets(s)
    ensures Unquote(Quote(s)) == s
  {
    UnquoteQuoteThen(s, "");
    assert Quote(s) + "" == Quote(s) && s + "" == s;
  }

  predicate Clean(s: string) {
    forall i :: 0 <= i < |s| ==> Unreserved(s[i]) || s[i] == '%'
  }

  /** Encoded text never holds a delimiter. */
  lemma {:induction false} QuoteIsClean(s: string)
    requires Octets(s)
    ensures Clean(Quote(s)) && (s != "" ==> Quote(s) != "")
    decreases |s|
  {
    if s != "" {
      QuoteIsClean(s[1..]);
    }
  }

  // ------------------------------------------------------------------ parsing

  predicate SchemeChar(c: char) {
    Letter(c) || Digit(c) || c == '+' || c == '.' || c == '-'
  }

  predicate LegalScheme(s: string) {
    s != "" && Letter(s[0]) && forall c :: c in s ==> SchemeChar(c)
  }

  predicate Delimiter(c: char) { c == '/' || c == '?' || c == '#' }

  /** Length of the longest head without a character of `stops`. */
  function Span(s: string, stops: string): (n: nat)
    ensures n <= |s|
    ensures n < |s| ==> s[n] in stops
    ensures forall k :: 0 <= k < n ==> s[k] !in stops
  {
    if s == "" || s[0] in stops then 0 else 1 + Span(s[1..], stops)
  }

  /** What may follow the path: a query, then a fragment whose only newline is a final one. */
  predicate TailOk(tail: string) {
    var rest := tail[Span(tail, "#")..];
    rest == "" || forall k :: 1 <= k < |rest| - 1 ==> rest[k] != '\n'
  }

  /** No fragment, or one of a single line, perhaps with its end. */
  lemma {:induction false} TailReads(query: string, fragment: string)
    requires '#' !in query && '\n' !in fragment
    ensures TailOk(query) && TailOk(query + "#" + fragment) && TailOk(query + "#" + fragment + "\n")
    ensures forall more: string :: more != "" ==> !TailOk(query + "#" + fragment + "\n" + more)
  {
    hide Span;
    var n := |query|;
    SpanIs(query, "#", n);
    SpanIs(query + "#" + fragment, "#", n);
    SpanIs(query + "#" + fragment + "\n", "#", n);
    assert (query + "#" + fragment)[n..] == "#" + fragment;
    assert (query + "#" + fragment + "\n")[n..] == "#" + fragment + "\n";
    forall more: string | more != "" ensures !TailOk(query + "#" + fragment + "\n" + more) {
      var tail := query + "#" + fragment + "\n" + more;
      SpanIs(tail, "#", n);
      assert tail[n..] == "#" + fragment + "\n" + more;
      assert tail[n..][1 + |fragment|] == '\n';
    }
  }

  function NonEmptyParts(parts: seq<string>): seq<string> {
    if parts == [] then []
    else (if parts[0] == "" then [] else [parts[0]]) + NonEmptyParts(parts[1..])
  }

  function UnquoteAll(parts: seq<string>): seq<string> {
    seq(|parts|, i requires 0 <= i < |parts| => Unquote(parts[i]))
  }

  function QuoteAll(parts: seq<string>): seq<string>
    requires AllOctets(parts)
  {
    seq(|parts|, i requires 0 <= i < |parts| => Quote(parts[i]))
  }

  datatype Descriptor = Descriptor(package: string, target: string, segments: seq<string>)

  /** The raw pieces of a URI. */
  datatype Pieces = Pieces(scheme: string, target: string, path: string, tail: string)

  function CutRest(scheme: string, rest: string): Option<Pieces> {
    var t := Span(rest, "/?#");
    var after := rest[t..];
    var p := if after != "" && after[0] == '/' then Span(after, "?#") else 0;
    if t == 0 then None else Some(Pieces(scheme, rest[..t], after[..p], after[p..]))
  }

  function Cut(uri: string): Option<Pieces> {
    var i := IndexOf(uri, ':');
    if !LegalScheme(uri[..i]) || i + 3 > |uri| || uri[i..i + 3] != "://" then None
    else CutRest(uri[..i], uri[i + 3..])
  }

  function ParseUri(uri: string): Option<Descriptor> {
    match Cut(uri)
    case None => None
    case Some(x) =>
      if !TailOk(x.tail) then None
      else Some(Descriptor(x.scheme, Unquote(x.target), UnquoteAll(NonEmptyParts(Split(x.path, '/')))))
  }

  /** The `normalized` field of a descriptor. */
  function Normalized(d: Descriptor): string
    requires AllOctets(d.segments)
  {
    d.package + "://" + d.target + "/" + Join(QuoteAll(d.segments), '/')
  }

  // -------------------------------------------------------------- split and join

  lemma {:induction false} SplitHead(p: string, rest: string)
    requires '/' !in p
    ensures Split(p, '/') == [p]
    ensures Split(p + "/" + rest, '/') == [p] + Split(rest, '/')
  {
    assert IndexOf(p, '/') == |p|;
    var s := p + "/" + rest;
    assert s[|p|] == '/' && forall k :: 0 <= k < |p| ==> s[k] == p[k];
    assert IndexOf(s, '/') == |p|;
    assert s[..|p|] == p && s[|p| + 1..] == rest;
  }

  lemma {:induction false} SplitJoin(parts: seq<string>)
    requires parts != [] && forall i :: 0 <= i < |parts| ==> '/' !in parts[i]
    ensures Split(Join(parts, '/'), '/') == parts
    decreases |parts|
  {
    hide Split;
    if |parts| == 1 {
      SplitHead(parts[0], "");
    } else {
      SplitJoin(parts[1..]);
      SplitHead(parts[0], Join(parts[1..], '/'));
      assert parts[0] + ['/'] + Join(parts[1..], '/') == parts[0] + "/" + Join(parts[1..], '/');
    }
  }

  lemma {:induction false} AllNonEmpty(parts: seq<string>)
    requires forall i :: 0 <= i < |parts| ==> parts[i] != ""
    ensures NonEmptyParts(parts) == parts
    decreases |parts|
  {
    if parts != [] {
      AllNonEmpty(parts[1..]);
    }
  }

  /** A path printed from slash-free non-empty parts splits back into them. */
  lemma {:induction false} PathRoundTrip(parts: seq<string>)
    requires forall i :: 0 <= i < |parts| ==> parts[i] != "" && '/' !in parts[i]
    ensures NonEmptyParts(Split("/" + Join(parts, '/'), '/')) == parts
  {
    SplitHead("", Join(parts, '/'));
    assert "" + "/" + Join(parts, '/') == "/" + Join(parts, '/');
    var all := [""] + Split(Join(parts, '/'), '/');
    assert all[1..] == Split(Join(parts, '/'), '/');
    if parts == [] {
      SplitHead("", "");
      assert Split("", '/') == [""];
      assert [""][1..] == [];
    } else {
      SplitJoin(parts);
      AllNonEmpty(parts);
    }
  }

  ghost predicate AllOctets(parts: seq<string>) {
    forall i :: 0 <= i < |parts| ==> Octets(parts[i])
  }

  lemma {:induction false} PartsNonEmpty(parts: seq<string>)
    ensures forall i :: 0 <= i < |NonEmptyParts(parts)| ==> NonEmptyParts(parts)[i] != ""
    ensures AllOctets(parts) ==> AllOctets(NonEmptyParts(parts))
    decreases |parts|
  {
    if parts != [] {
      PartsNonEmpty(parts[1..]);
      var head := if parts[0] == "" then [] else [parts[0]];
      assert NonEmptyParts(parts) == head + NonEmptyParts(parts[1..]);
    }
  }

  lemma {:induction false} SplitOctets(s: string, c: char)
    requires Octets(s)
    ensures AllOctets(Split(s, c))
    decreases |s|
  {
    var i := IndexOf(s, c);
    if i < |s| {
      SplitOctets(s[i + 1..], c);
    }
  }

  predicate CleanPath(s: string) {
    forall i :: 0 <= i < |s| ==> Unreserved(s[i]) || s[i] == '%' || s[i] == '/'
  }

  lemma {:induction false} JoinClean(parts: seq<string>)
    requires forall i :: 0 <= i < |parts| ==> Clean(parts[i])
    ensures CleanPath(Join(parts, '/'))
    decreases |parts|
  {
    if |parts| == 1 {
      assert Clean(parts[0]);
    } else if |parts| > 1 {
      JoinClean(parts[1..]);
      assert Clean(parts[0]);
      var rest := Join(parts[1..], '/');
      assert Join(parts, '/') == parts[0] + (['/'] + rest);
    }
  }

  // --------------------------------------------------------------- normal form

  predicate NoDelimiter(s: string) {
    forall i :: 0 <= i < |s| ==> !Delimiter(s[i])
  }

  lemma {:induction false} CutScheme(scheme: string, rest: string)
    requires LegalScheme(scheme)
    ensures var uri := scheme + "://" + rest;
            IndexOf(uri, ':') == |scheme| && uri[..|scheme|] == scheme &&
            |scheme| + 3 <= |uri| && uri[|scheme|..|scheme| + 3] == "://" && uri[|scheme| + 3..] == rest
  {
    var uri, i := scheme + "://" + rest, |scheme|;
    assert uri[i] == ':';
    forall k | 0 <= k < i ensures uri[k] != ':' {
      assert uri[k] == scheme[k] && scheme[k] in scheme;
    }
  }

  lemma {:induction false} CutPrintedRest(scheme: string, target: string, path: string)
    requires path != "" && path[0] == '/'
    requires forall k :: 0 <= k < |path| ==> path[k] !in "?#"
    ensures var j := Span(target, "/?#");
            var x := CutRest(scheme, target + path);
            && (j == |target| > 0 ==> x == Some(Pieces(scheme, target, path, "")))
            && (j < |target| && x.Some? ==> x.value.target == target[..j])
  {
    hide Span;
    var rest, j := target + path, Span(target, "/?#");
    assert forall k :: 0 <= k < |target| ==> rest[k] == target[k];
    assert rest[|target|] == '/';
    SpanEnds(target, "/?#");
    SpanIs(rest, "/?#", j);
    if j == |target| {
      assert rest[..j] == target && rest[j..] == path;
      SpanIs(path, "?#", |path|);
      assert path[..|path|] == path && path[|path|..] == "";
    } else {
      assert rest[..j] == target[..j];
    }
  }

  /** What `parse_uri` makes of a URI printed from a legal scheme, a target and clean parts. */
  lemma {:induction false} CutPrinted(scheme: string, target: string, path: string)
    requires LegalScheme(scheme) && path != "" && path[0] == '/'
    requires forall k :: 0 <= k < |path| ==> path[k] !in "?#"
    ensures var j := Span(target, "/?#");
            var x := Cut(scheme + "://" + target + path);
            && (j == |target| > 0 ==> x == Some(Pieces(scheme, target, path, "")))
            && (j < |target| && x.Some? ==> x.value.target == target[..j])
  {
    hide LegalScheme, Span, CutRest;
    var rest := target + path;
    assert scheme + "://" + target + path == scheme + "://" + rest;
    CutScheme(scheme, rest);
    CutPrintedRest(scheme, target, path);
  }

  lemma {:induction false} SpanEnds(s: string, stops: string)
    ensures var n := Span(s, stops);
            n <= |s| && (n < |s| ==> s[n] in stops) && forall k :: 0 <= k < n ==> s[k] !in stops
  {
  }

  lemma {:induction false} SpanIs(s: string, stops: string, n: nat)
    requires n <= |s| && (n < |s| ==> s[n] in stops) && forall k :: 0 <= k < n ==> s[k] !in stops
    ensures Span(s, stops) == n
  {
  }

  lemma {:induction false} CutOctets(uri: string)
    requires Octets(uri) && Cut(uri).Some?
    ensures var x := Cut(uri).value;
            LegalScheme(x.scheme) && x.target != "" && Octets(x.path)
  {
    hide LegalScheme;
  }

  lemma {:induction false} ParsedParts(uri: string)
    requires Octets(uri) && ParseUri(uri).Some?
    ensures var d := ParseUri(uri).value;
            && LegalScheme(d.package) && d.target != "" && AllOctets(d.segments)
            && forall i :: 0 <= i < |d.segments| ==> d.segments[i] != ""
  {
    hide Cut, LegalScheme, Split, NonEmptyParts;
    CutOctets(uri);
    var x := Cut(uri).value;
    SplitOctets(x.path, '/');
    PartsNonEmpty(Split(x.path, '/'));
  }

  lemma {:induction false} PrintedPath(segments: seq<string>)
    requires AllOctets(segments) && forall i :: 0 <= i < |segments| ==> segments[i] != ""
    ensures var path := "/" + Join(QuoteAll(segments), '/');
            && (forall k :: 0 <= k < |path| ==> path[k] !in "?#")
            && NonEmptyParts(Split(path, '/')) == QuoteAll(segments)
            && UnquoteAll(QuoteAll(segments)) == segments
  {
    hide Split, NonEmptyParts, Quote, Unquote, Join;
    var parts := QuoteAll(segments);
    forall i | 0 <= i < |parts| ensures parts[i] != "" && '/' !in parts[i] && Clean(parts[i]) && Unquote(parts[i]) == segments[i] {
      QuoteIsClean(segments[i]);
      UnquoteQuote(segments[i]);
    }
    JoinClean(parts);
    PathRoundTrip(parts);
  }

  /** A decoded target that parses back to itself. */
  predicate PlainTarget(t: string) {
    NoDelimiter(t) && Unquote(t) == t
  }

  /**
   Parsing a normalized URI returns the same package, target and segments if and
   only if the decoded target holds none of `/ ? #` and no escape.
   */
  lemma {:induction false} NormalFormParses(uri: string)
    requires Octets(uri) && ParseUri(uri).Some?
    ensures AllOctets(ParseUri(uri).value.segments)
    ensures var d := ParseUri(uri).value;
            ParseUri(Normalized(d)) == Some(d) <==> PlainTarget(d.target)
  {
    hide Cut, Split, NonEmptyParts, Quote, Unquote, Join, UnquoteAll, QuoteAll, Span;
    ParsedParts(uri);
    PrintedParses(ParseUri(uri).value);
  }

  lemma {:induction false} PrintedParses(d: Descriptor)
    requires LegalScheme(d.package) && d.target != "" && AllOctets(d.segments)
    requires forall i :: 0 <= i < |d.segments| ==> d.segments[i] != ""
    ensures ParseUri(Normalized(d)) == Some(d) <==> PlainTarget(d.target)
  {
    hide Cut, Split, NonEmptyParts, Quote, Unquote, Join, UnquoteAll, QuoteAll, LegalScheme;
    var path := "/" + Join(QuoteAll(d.segments), '/');
    PrintedPath(d.segments);
    assert Normalized(d) == d.package + "://" + d.target + path;
    CutPrinted(d.package, d.target, path);
    var j := Span(d.target, "/?#");
    if j == |d.target| {
      assert NoDelimiter(d.target);
      assert TailOk("");
    } else {
      assert Delimiter(d.target[j]);
      assert |Unquote(d.target[..j])| < |d.target|;
    }
  }

  lemma {:induction false} NoPercentUnquote(s: string)
    requires '%' !in s
    ensures Unquote(s) == s
    decreases |s|
  {
    if s != "" {
      assert s == [s[0]] + s[1..];
      NoPercentUnquote(s[1..]);
    }
  }

  // -------------------------------------------------------------- translation

  datatype Translation = Translation(package: string, target: string, resource: string, operation: string, args: seq<string>)

  function Translate(d: Descriptor): Option<Translation> {
    if |d.segments| < 2 then None
    else Some(Translation(d.package, d.target, d.segments[0], d.segments[1], d.segments[2..]))
  }

  /** The first two segments name resource and operation; the others are arguments. */
  lemma {:induction false} TranslateReads(package: string, target: string, resource: string, operation: string, args: seq<string>)
    ensures Translate(Descriptor(package, target, [resource, operation] + args)) ==
            Some(Translation(package, target, resource, operation, args))
    ensures Translate(Descriptor(package, target, [resource])) == None && Translate(Descriptor(package, target, [])) == None
  {
    assert ([resource, operation] + args)[2..] == args;
  }

  function PartsUri(package: string, resource: string, operation: string, target: string): string
    requires Octets(resource) && Octets(operation)
  {
    package + "://" + target + "/" + Quote(resource) + "/" + Quote(operation)
  }

  /** `route_from_parts`: print, parse, translate. */
  function RouteFromParts(package: string, resource: string, operation: string, target: string): Option<Translation>
    requires Octets(resource) && Octets(operation)
  {
    match ParseUri(PartsUri(package, resource, operation, target))
    case None => None
    case Some(d) => Translate(d)
  }

  lemma {:induction false} UnquoteNames(a: string, b: string)
    requires Octets(a) && Octets(b)
    ensures UnquoteAll((if Quote(a) == "" then [] else [Quote(a)]) + (if Quote(b) == "" then [] else [Quote(b)])) ==
            (if a == "" then [] else [a]) + (if b == "" then [] else [b])
  {
    hide Quote, Unquote;
    UnquoteQuote(a);
    UnquoteQuote(b);
    QuoteIsClean(a);
    QuoteIsClean(b);
    assert Quote("") == "" by { EmptyQuote(); }
  }

  lemma {:induction false} EmptyQuote()
    ensures Quote("") == ""
  {
  }

  // ------------------------------------------------- what a target brings along

  /** No query and no fragment starts in the target. */
  predicate Open(target: string) { Span(target, "?#") == |target| }

  /** A fragment that starts in the target holds no newline. */
  predicate OneLine(target: string) { '\n' !in target[Span(target, "#")..] }

  /** The segments a target written into a URI as it is contributes to the path. */
  function Extra(target: string): seq<string> {
    var after := target[Span(target, "/?#")..];
    UnquoteAll(NonEmptyParts(Split(after[..Span(after, "?#")], '/')))
  }

  /** The pieces of a rest printed from any target and a clean path. */
  lemma {:induction false} CutMixed(scheme: string, target: string, path: string)
    requires path != "" && path[0] == '/' && forall k :: 0 <= k < |path| ==> path[k] !in "?#"
    ensures var e, m := Span(target, "/?#"), Span(target, "?#");
            && e <= m
            && CutRest(scheme, target + path) ==
               (if e == 0 then None
                else if m == |target| then Some(Pieces(scheme, target[..e], target[e..] + path, ""))
                else Some(Pieces(scheme, target[..e], target[e..m], target[m..] + path)))
  {
    hide Span;
    var e, rest := Span(target, "/?#"), target + path;
    SpanThrough(target, path);
    SpanShort(target);
    assert rest[e..] == target[e..] + path && rest[..e] == target[..e];
    AfterCut(target[e..], path);
    var n := Span(target[e..], "?#");
    assert target[e..][..n] == target[e..e + n] && target[e..][n..] == target[e + n..];
  }

  lemma {:induction false} SpanThrough(target: string, path: string)
    requires path != "" && path[0] == '/'
    ensures Span(target + path, "/?#") == Span(target, "/?#")
    ensures var e := Span(target, "/?#"); (target + path)[e] in "/?#" && ((target + path)[e] != '/' ==> e == Span(target, "?#"))
  {
    hide Span;
    SpanEnds(target, "/?#");
    var e, rest := Span(target, "/?#"), target + path;
    assert forall k :: 0 <= k < |target| ==> rest[k] == target[k];
    assert rest[|target|] == '/';
    SpanIs(rest, "/?#", e);
    if rest[e] != '/' {
      SpanIs(target, "?#", e);
    }
  }

  lemma {:induction false} AfterCut(written: string, path: string)
    requires forall k :: 0 <= k < |path| ==> path[k] !in "?#"
    ensures var after, n := written + path, Span(written, "?#");
            if n == |written| then Span(after, "?#") == |after| && after[..|after|] == after && after[|after|..] == ""
            else Span(after, "?#") == n && after[..n] == written[..n] && after[n..] == written[n..] + path
  {
    hide Span;
    var after, n := written + path, Span(written, "?#");
    SpanEnds(written, "?#");
    assert forall k :: 0 <= k < |written| ==> after[k] == written[k];
    SpanIs(after, "?#", if n == |written| then |after| else n);
  }

  lemma {:induction false} SplitPlus(a: string, b: string)
    ensures Split(a + "/" + b, '/') == Split(a, '/') + Split(b, '/')
    decreases |a|
  {
    hide Split;
    var i := IndexOf(a, '/');
    if i == |a| {
      SplitHead(a, b);
    } else {
      var head, rest := a[..i], a[i + 1..];
      SplitPlus(rest, b);
      SplitHead(head, rest);
      assert a == head + "/" + rest;
      SplitHead(head, rest + "/" + b);
      assert a + "/" + b == head + "/" + (rest + "/" + b);
      assert [head] + (Split(rest, '/') + Split(b, '/')) == ([head] + Split(rest, '/')) + Split(b, '/');
    }
  }

  lemma {:induction false} NonEmptyPlus(x: seq<string>, y: seq<string>)
    ensures NonEmptyParts(x + y) == NonEmptyParts(x) + NonEmptyParts(y)
    decreases |x|
  {
    if x == [] {
      assert x + y == y;
    } else {
      NonEmptyPlus(x[1..], y);
      assert (x + y)[1..] == x[1..] + y && (x + y)[0] == x[0];
      var head, a, b := if x[0] == "" then [] else [x[0]], NonEmptyParts(x[1..]), NonEmptyParts(y);
      assert NonEmptyParts(x + y) == head + NonEmptyParts((x + y)[1..]);
      assert head + (a + b) == (head + a) + b;
    }
  }

  /** A fragment ends at the end of its line, unless more than a newline follows. */
  lemma {:induction false} TailOkPast(x: string, y: string)
    requires |y| >= 2 && '#' !in y && '\n' !in y
    ensures TailOk(x + y) <==> OneLine(x)
  {
    hide Span;
    var n := Span(x, "#");
    SpanEnds(x, "#");
    if n == |x| {
      SpanIs(x + y, "#", |x + y|);
    } else {
      SpanIs(x + y, "#", n);
      var f, rest := x[n..], (x + y)[n..];
      assert rest == f + y;
      assert forall k :: 0 <= k < |f| ==> rest[k] == f[k];
      assert forall k :: |f| <= k < |rest| ==> rest[k] == y[k - |f|];
      if OneLine(x) {
        forall k | 1 <= k < |rest| - 1 ensures rest[k] != '\n' {
        }
      } else {
        var k :| 0 <= k < |f| && f[k] == '\n';
        assert rest[k] == '\n' && 1 <= k < |rest| - 1;
      }
    }
  }

  lemma {:induction false} LineOfTail(target: string)
    ensures Open(target) ==> OneLine(target)
    ensures OneLine(target[Span(target, "?#")..]) <==> OneLine(target)
  {
    hide Span;
    var m, n := Span(target, "?#"), Span(target, "#");
    SpanEnds(target, "?#");
    SpanEnds(target, "#");
    assert m <= n;
    SpanIs(target[m..], "#", n - m);
    assert target[m..][n - m..] == target[n..];
  }

  function Named(resource: string, operation: string): seq<string> {
    (if resource == "" then [] else [resource]) + (if operation == "" then [] else [operation])
  }

  /** What a URI printed from parts reads as, whatever stands in the target. */
  lemma {:induction false} PartsRead(package: string, resource: string, operation: string, target: string)
    requires LegalScheme(package) && Octets(resource) && Octets(operation)
    ensures ParseUri(PartsUri(package, resource, operation, target)) ==
            var e := Span(target, "/?#");
            if e == 0 || !OneLine(target) then None
            else Some(Descriptor(package, Unquote(target[..e]),
                                 Extra(target) + if Open(target) then Named(resource, operation) else []))
  {
    hide Cut, CutRest, Split, NonEmptyParts, Quote, Unquote, UnquoteAll, LegalScheme, Span, OneLine, Extra, TailOk;
    var path := "/" + Quote(resource) + "/" + Quote(operation);
    assert PartsUri(package, resource, operation, target) == package + "://" + (target + path);
    QuoteIsClean(resource);
    QuoteIsClean(operation);
    assert forall k :: 0 <= k < |path| ==> path[k] == '/' || path[k] == '%' || Unreserved(path[k]);
    CutScheme(package, target + path);
    CutMixed(package, target, path);
    CutIsRest(package, target + path);
    LineOfTail(target);
    if Span(target, "?#") == |target| {
      TailOkEmpty();
      OpenSegments(resource, operation, target);
    } else {
      TailOkPast(target[Span(target, "?#")..], path);
      ClosedSegments(target);
      assert Extra(target) + [] == Extra(target);
    }
  }

  lemma {:induction false} CutIsRest(scheme: string, rest: string)
    requires LegalScheme(scheme)
    ensures Cut(scheme + "://" + rest) == CutRest(scheme, rest)
  {
    hide CutRest, LegalScheme;
    CutScheme(scheme, rest);
  }

  lemma {:induction false} TailOkEmpty()
    ensures TailOk("")
  {
  }

  lemma {:induction false} SpanShort(target: string)
    ensures var e, m := Span(target, "/?#"), Span(target, "?#");
            e <= m && Span(target[e..], "?#") == m - e
  {
    hide Span;
    SpanEnds(target, "/?#");
    SpanEnds(target, "?#");
    SpanIs(target[Span(target, "/?#")..], "?#", Span(target, "?#") - Span(target, "/?#"));
  }

  lemma {:induction false} ClosedSegments(target: string)
    ensures var e, m := Span(target, "/?#"), Span(target, "?#");
            e <= m && Extra(target) == UnquoteAll(NonEmptyParts(Split(target[e..m], '/')))
  {
    hide Span, Split, NonEmptyParts, UnquoteAll;
    SpanShort(target);
    var e, m := Span(target, "/?#"), Span(target, "?#");
    assert target[e..][..m - e] == target[e..m];
  }

  lemma {:induction false} OpenSegments(resource: string, operation: string, target: string)
    requires Octets(resource) && Octets(operation) && Open(target)
    ensures var path := target[Span(target, "/?#")..] + ("/" + Quote(resource) + "/" + Quote(operation));
            UnquoteAll(NonEmptyParts(Split(path, '/'))) == Extra(target) + Named(resource, operation)
  {
    hide Span, Split, NonEmptyParts, Quote, Unquote, UnquoteAll;
    var written, a, b := target[Span(target, "/?#")..], Quote(resource), Quote(operation);
    ClosedSegments(target);
    assert target[Span(target, "/?#")..|target|] == written;
    QuoteIsClean(resource);
    QuoteIsClean(operation);
    assert written + ("/" + a + "/" + b) == written + "/" + (a + "/" + b);
    SplitPlus(written, a + "/" + b);
    SplitPlus(a, b);
    SplitHead(a, "");
    SplitHead(b, "");
    NonEmptyPlus(Split(written, '/'), [a] + [b]);
    NonEmptyPair(a, b);
    UnquoteNames(resource, operation);
    UnquotePlus(NonEmptyParts(Split(written, '/')), NonEmptyParts([a] + [b]));
  }

  lemma {:induction false} UnquotePlus(x: seq<string>, y: seq<string>)
    ensures UnquoteAll(x + y) == UnquoteAll(x) + UnquoteAll(y)
  {
    hide Unquote;
  }

  lemma {:induction false} NonEmptyPair(a: string, b: string)
    ensures NonEmptyParts([a] + [b]) == (if a == "" then [] else [a]) + (if b == "" then [] else [b])
  {
    assert [a, b] == [a] + [b] && [a, b][1..] == [b] && [b][1..] == [];
    assert NonEmptyParts([b]) == if b == "" then [] else [b];
  }

  // ------------------------------------------------------ a route and its parts

  /** A route printed from its parts translates back to the same package, resource and operation. */
  predicate ComesBack(package: string, resource: string, operation: string, target: string)
    requires Octets(resource) && Octets(operation)
  {
    var t := RouteFromParts(package, resource, operation, target);
    t.Some? && t.value.package == package && t.value.resource == resource && t.value.operation == operation
  }

  /** The target does not start with a delimiter, and what it writes into the path keeps the names first. */
  predicate NamesFirst(resource: string, operation: string, target: string) {
    && Span(target, "/?#") > 0 && OneLine(target)
    && [resource, operation] <= Extra(target) + if Open(target) then [resource, operation] else []
  }

  /**
   Printing a route and reading it back gives the same package, resource and operation if
   and only if the package is a scheme, no name is empty and the target keeps them first.
   */
  lemma {:induction false} PartsRoundTrip(package: string, resource: string, operation: string, target: string)
    requires Octets(package) && Octets(resource) && Octets(operation) && Octets(target)
    ensures ComesBack(package, resource, operation, target) <==>
            LegalScheme(package) && resource != "" && operation != "" && NamesFirst(resource, operation, target)
  {
    hide LegalScheme, Extra, Open, OneLine, Quote, ParseUri, Span;
    var uri := PartsUri(package, resource, operation, target);
    PartsOctets(package, resource, operation, target);
    if ParseUri(uri).Some? {
      ParsedParts(uri);
    }
    if LegalScheme(package) {
      PartsRead(package, resource, operation, target);
      if resource != "" && operation != "" {
        var segments := Extra(target) + if Open(target) then [resource, operation] else [];
        assert Named(resource, operation) == [resource, operation];
        assert |segments| >= 2 ==> ([resource, operation] <= segments <==> segments[0] == resource && segments[1] == operation);
      }
    }
  }

  lemma {:induction false} PartsOctets(package: string, resource: string, operation: string, target: string)
    requires Octets(package) && Octets(resource) && Octets(operation) && Octets(target)
    ensures Octets(PartsUri(package, resource, operation, target))
  {
    hide Quote;
    QuoteIsClean(resource);
    QuoteIsClean(operation);
  }

  /** A target that holds no delimiter but slashes at its end. */
  predicate KeepsNames(target: string) {
    var e := Span(target, "/?#");
    e > 0 && forall k :: e <= k < |target| ==> target[k] == '/'
  }

  /**
   Every pair of names comes back through a target if and only if it holds no delimiter
   but slashes at its end; then nothing else comes with them.
   */
  lemma {:induction false} TargetKeepsNames(package: string, target: string)
    requires Octets(package) && Octets(target)
    ensures (forall r, o :: Octets(r) && Octets(o) && r != "" && o != "" ==> ComesBack(package, r, o, target)) <==>
            LegalScheme(package) && KeepsNames(target)
    ensures LegalScheme(package) && KeepsNames(target) ==>
            forall r, o :: Octets(r) && Octets(o) && r != "" && o != "" ==>
              RouteFromParts(package, r, o, target) ==
              Some(Translation(package, Unquote(target[..Span(target, "/?#")]), r, o, []))
  {
    hide LegalScheme, ComesBack, Extra, OneLine, Span, Open, KeepsNames, RouteFromParts, Octets;
    NothingWritten(target);
    if LegalScheme(package) && KeepsNames(target) {
      forall r, o | Octets(r) && Octets(o) && r != "" && o != ""
        ensures ComesBack(package, r, o, target)
        ensures RouteFromParts(package, r, o, target) ==
                Some(Translation(package, Unquote(target[..Span(target, "/?#")]), r, o, []))
      {
        PartsRoundTrip(package, r, o, target);
        NamesAlone(package, r, o, target);
      }
    } else {
      var r := OtherName(target);
      PartsRoundTrip(package, r, r, target);
      NamesBehind(r, target);
    }
  }

  lemma {:induction false} NamesAlone(package: string, r: string, o: string, target: string)
    requires LegalScheme(package) && Octets(r) && Octets(o) && r != "" && o != ""
    requires Span(target, "/?#") > 0 && Open(target) && OneLine(target) && Extra(target) == []
    ensures RouteFromParts(package, r, o, target) ==
            Some(Translation(package, Unquote(target[..Span(target, "/?#")]), r, o, []))
  {
    hide LegalScheme, Extra, OneLine, Span, Open, ParseUri, Unquote, Quote;
    PartsRead(package, r, o, target);
    assert [] + Named(r, o) == [r, o] && [r, o][2..] == [];
  }

  lemma {:induction false} NamesBehind(r: string, target: string)
    requires Extra(target) != [] ==> r != Extra(target)[0]
    ensures NamesFirst(r, r, target) ==> Extra(target) == [] && Open(target)
  {
    hide Extra, OneLine, Span, Open;
    if Extra(target) != [] {
      assert (Extra(target) + if Open(target) then [r, r] else [])[0] == Extra(target)[0];
    }
  }

  /** A name other than the first segment written in the target. */
  function OtherName(target: string): (r: string)
    requires Octets(target)
    ensures Octets(r) && r != "" && (Extra(target) != [] ==> r != Extra(target)[0])
  {
    ExtraOctets(target);
    if Extra(target) == [] then "0" else Extra(target)[0] + "0"
  }

  lemma {:induction false} ExtraOctets(target: string)
    requires Octets(target)
    ensures AllOctets(Extra(target))
    ensures forall i :: 0 <= i < |Extra(target)| ==> Extra(target)[i] != ""
  {
    hide Split, NonEmptyParts, Span;
    var after := target[Span(target, "/?#")..];
    SplitOctets(after[..Span(after, "?#")], '/');
    PartsNonEmpty(Split(after[..Span(after, "?#")], '/'));
  }

  /** Only slashes write no segment. */
  lemma {:induction false} NothingWritten(target: string)
    ensures KeepsNames(target) <==> Span(target, "/?#") > 0 && Open(target) && Extra(target) == []
    ensures KeepsNames(target) ==> OneLine(target)
  {
    hide Span, Split, NonEmptyParts, OneLine;
    var e, m := Span(target, "/?#"), Span(target, "?#");
    SpanEnds(target, "/?#");
    SpanEnds(target, "?#");
    LineOfTail(target);
    ClosedSegments(target);
    OnlySlashes(target[e..m]);
    if KeepsNames(target) {
      assert m == |target|;
      forall k | 0 <= k < |target[e..m]| ensures target[e..m][k] == '/' {
        assert target[e..m][k] == target[e + k];
      }
    } else if e > 0 && m == |target| {
      var k :| e <= k < |target| && target[k] != '/';
      assert target[e..m][k - e] != '/';
    }
  }

  lemma {:induction false} OnlySlashes(s: string)
    ensures NonEmptyParts(Split(s, '/')) == [] <==> forall k :: 0 <= k < |s| ==> s[k] == '/'
    decreases |s|
  {
    var i := IndexOf(s, '/');
    if i == |s| {
      NonEmptyPlus([s], []);
      assert [s][1..] == [];
      assert NonEmptyParts([s]) == if s == "" then [] else [s];
      if s != "" {
        assert s[0] != '/';
      }
    } else {
      OnlySlashes(s[i + 1..]);
      assert ([s[..i]] + Split(s[i + 1..], '/'))[1..] == Split(s[i + 1..], '/');
      if i > 0 {
        assert s[0] != '/';
      } else {
        assert forall k :: 1 <= k < |s| ==> s[k] == s[1..][k - 1];
      }
    }
  }
}
