/**
 The client's side of the event stream: lines in, events out, and the loop that
 reconnects from the last event seen.  What the text codecs do is given.
 */
module SseClient {
  import opened Text
  import opened Json

  /** What a data line reads as: no JSON, JSON but no object, or an object. */
  datatype Loaded = Unreadable | NotObject | Object(fields: Dict)

  datatype Codec = Codec(
    show: nat -> string,
    number: string -> Option<int>,
    dump: Dict -> string,
    load: string -> Loaded)

  /** A published event: its number and what was published. */
  datatype Event = Event(id: nat, body: Dict)
  {
    /** As the hub hands it on. */
    function Stamped(): Dict { body["_id" := Num(id as real)] }

    /** As it travels, without its number. */
    function Payload(): Dict { body - {"_id"} }
  }

  // -------------------------------------------------------------------- lines

  predicate IsBlank(c: char) { c == ' ' || '\t' <= c <= '\r' }

  lemma {:induction false} BlankReads(c: char)
    ensures IsBlank(c) <==> c == ' ' || c == '\t' || c == '\n' || c == '\U{B}' || c == '\U{C}' || c == '\r'
  {
  }

  function StripEnd(s: string): string {
    if s != "" && IsBlank(s[|s| - 1]) then StripEnd(s[..|s| - 1]) else s
  }

  function StripStart(s: string): string {
    if s != "" && IsBlank(s[0]) then StripStart(s[1..]) else s
  }

  function Strip(s: string): string { StripStart(StripEnd(s)) }

  /** An event without a number of its own gets the number of the last id line. */
  function Tag(ev: Dict, cur: int): Dict {
    if "_id" in ev then ev else ev["_id" := Num(cur as real)]
  }

  function NewCursor(codec: Codec, line: string, cur: int): int {
    var n := codec.number(Strip(line[if |line| < 3 then |line| else 3..]));
    if n.Some? then n.value else cur
  }

  /** The event on a data line; a blank one holds none. */
  function DataOf(codec: Codec, line: string): Loaded {
    var text := Strip(line[if |line| < 5 then |line| else 5..]);
    if text == "" then Unreadable else codec.load(text)
  }

  /** The events on these lines, up to a data line that is JSON but no object, where reading raises. */
  function Events(codec: Codec, lines: seq<string>, cur: int): seq<Dict> {
    if lines == [] then []
    else
      var line := Strip(lines[0]);
      if StartsWith(line, "id:") then Events(codec, lines[1..], NewCursor(codec, line, cur))
      else if !StartsWith(line, "data:") then Events(codec, lines[1..], cur)
      else
        match DataOf(codec, line)
        case Unreadable => Events(codec, lines[1..], cur)
        case NotObject => []
        case Object(ev) => [Tag(ev, cur)] + Events(codec, lines[1..], cur)
  }

  /** `watch`, on the lines of one connection. */
  method Watch(codec: Codec, lines: seq<string>, last: int) returns (events: seq<Dict>)
    ensures events == Events(codec, lines, last)
  {
    hide Strip, NewCursor, DataOf, StartsWith;
    events := [];
    var cur := last;
    assert lines[0..] == lines;
    for i := 0 to |lines|
      invariant events + Events(codec, lines[i..], cur) == Events(codec, lines, last)
    {
      var line := Strip(lines[i]);
      assert lines[i..][0] == lines[i] && lines[i..][1..] == lines[i + 1..];
      if StartsWith(line, "id:") {
        cur := NewCursor(codec, line, cur);
      } else if StartsWith(line, "data:") {
        match DataOf(codec, line)
        case Unreadable =>
        case NotObject => return;
        case Object(ev) =>
          MoveOver(events, Tag(ev, cur), Events(codec, lines[i + 1..], cur));
          events := events + [Tag(ev, cur)];
      }
    }
  }

  // ------------------------------------------------------------ the other end

  datatype Sent = Comment(text: string) | Framed(event: Event)

  /** `_sse_frame`, and the comments the server keeps a connection open with. */
  function SentLines(codec: Codec, s: Sent): seq<string> {
    match s
    case Comment(text) => [": " + text, ""]
    case Framed(e) => ["id: " + codec.show(e.id), "data: " + codec.dump(e.Payload()), ""]
  }

  function Lines(codec: Codec, items: seq<Sent>): seq<string> {
    if items == [] then [] else SentLines(codec, items[0]) + Lines(codec, items[1..])
  }

  function Bare(items: seq<Sent>): seq<Event> {
    if items == [] then []
    else (if items[0].Framed? then [items[0].event] else []) + Bare(items[1..])
  }

  function AllStamped(es: seq<Event>): seq<Dict> {
    seq(|es|, i requires 0 <= i < |es| => es[i].Stamped())
  }

  predicate Neat(s: string) { s != "" && !IsBlank(s[0]) && !IsBlank(s[|s| - 1]) }

  /** Number and payload of an event read back as printed, and are printed without blanks around them. */
  predicate Readable(codec: Codec, e: Event) {
    && codec.number(codec.show(e.id)) == Some(e.id as int) && Neat(codec.show(e.id))
    && codec.load(codec.dump(e.Payload())) == Object(e.Payload()) && Neat(codec.dump(e.Payload()))
  }

  /** The codec does justice to these events. */
  predicate Faithful(codec: Codec, es: seq<Event>) {
    forall e :: e in es ==> Readable(codec, e)
  }

  /** A payload is printed so that nothing short of all of it reads as JSON. */
  ghost predicate WholeOnly(codec: Codec, e: Event) {
    var dump := codec.dump(e.Payload());
    forall head :: ProperHead(head, dump) ==> codec.load(head) == Unreadable
  }

  ghost predicate AllWholeOnly(codec: Codec, es: seq<Event>) {
    forall e :: e in es ==> WholeOnly(codec, e)
  }

  lemma {:induction false} NeatStrip(s: string)
    requires Neat(s)
    ensures Strip(s) == s && Strip(" " + s) == s
  {
    assert StripEnd(s) == s && StripEnd(" " + s) == " " + s;
    assert (" " + s)[1..] == s;
  }

  /** Comment and blank lines say nothing. */
  lemma {:induction false} CommentLine(text: string)
    ensures Strip("") == "" && var s := Strip(": " + text); s != "" && s[0] == ':'
  {
    var line := ": " + text;
    EndKeepsHead(line, 1);
    assert StripEnd(line)[0] == ':';
  }

  lemma {:induction false} EndKeepsHead(s: string, n: nat)
    requires 0 < n <= |s| && !IsBlank(s[n - 1])
    ensures n <= |StripEnd(s)| && StripEnd(s)[..n] == s[..n]
    decreases |s|
  {
    if IsBlank(s[|s| - 1]) {
      EndKeepsHead(s[..|s| - 1], n);
    }
  }

  lemma {:induction false} PrefixedLine(head: string, s: string)
    requires Neat(head) && Neat(s)
    ensures Strip(head + " " + s) == head + " " + s
    ensures Strip((head + " " + s)[|head|..]) == s
  {
    NeatStrip(head + " " + s);
    NeatStrip(s);
    assert (head + " " + s)[|head|..] == " " + s;
  }

  /** An id line moves the cursor. */
  lemma {:induction false} IdRead(codec: Codec, n: nat, rest: seq<string>, cur: int)
    requires codec.number(codec.show(n)) == Some(n as int) && Neat(codec.show(n))
    ensures Events(codec, ["id: " + codec.show(n)] + rest, cur) == Events(codec, rest, n)
  {
    var line := "id: " + codec.show(n);
    assert line == "id:" + " " + codec.show(n);
    PrefixedLine("id:", codec.show(n));
    hide Strip;
    assert line[..3] == "id:" && ([line] + rest)[1..] == rest;
    assert NewCursor(codec, line, cur) == n;
  }

  /** A data line yields its object, under the last number. */
  lemma {:induction false} DataRead(codec: Codec, payload: Dict, rest: seq<string>, cur: int)
    requires codec.load(codec.dump(payload)) == Object(payload) && Neat(codec.dump(payload))
    ensures Events(codec, ["data: " + codec.dump(payload)] + rest, cur) == [Tag(payload, cur)] + Events(codec, rest, cur)
  {
    var line := "data: " + codec.dump(payload);
    assert line == "data:" + " " + codec.dump(payload);
    PrefixedLine("data:", codec.dump(payload));
    hide Strip;
    assert line[..5] == "data:" && line[0] == 'd' && ([line] + rest)[1..] == rest;
    assert DataOf(codec, line) == Object(payload);
  }

  lemma {:induction false} FrameRead(codec: Codec, e: Event, rest: seq<string>, cur: int)
    requires Readable(codec, e)
    ensures Events(codec, SentLines(codec, Framed(e)) + rest, cur) == [e.Stamped()] + Events(codec, rest, e.id)
  {
    var a, b := "id: " + codec.show(e.id), "data: " + codec.dump(e.Payload());
    IdRead(codec, e.id, [b] + ([""] + rest), cur);
    DataRead(codec, e.Payload(), [""] + rest, e.id);
    BlankRead(codec, rest, e.id);
    hide Events;
    assert SentLines(codec, Framed(e)) + rest == [a] + ([b] + ([""] + rest));
    assert Tag(e.Payload(), e.id) == e.Stamped();
  }

  lemma {:induction false} BlankRead(codec: Codec, rest: seq<string>, cur: int)
    ensures Events(codec, [""] + rest, cur) == Events(codec, rest, cur)
  {
    CommentLine("");
    hide Strip;
    assert ([""] + rest)[1..] == rest;
  }

  lemma {:induction false} CommentRead(codec: Codec, text: string, rest: seq<string>, cur: int)
    ensures Events(codec, SentLines(codec, Comment(text)) + rest, cur) == Events(codec, rest, cur)
  {
    CommentLine(text);
    BlankRead(codec, rest, cur);
    hide Strip;
    var lines := SentLines(codec, Comment(text)) + rest;
    assert lines[0] == ": " + text && lines[1..] == [""] + rest;
  }

  /** What the server sends is read back exactly, each event with its own number. */
  lemma {:induction false} SentIsRead(codec: Codec, items: seq<Sent>, cur: int)
    requires Faithful(codec, Bare(items))
    ensures Events(codec, Lines(codec, items), cur) == AllStamped(Bare(items))
    decreases |items|
  {
    hide Readable, SentLines, Events, Event.Stamped;
    if items == [] {
      NoLines(codec, cur);
    } else {
      match items[0]
      case Comment(text) =>
        CommentRead(codec, text, Lines(codec, items[1..]), cur);
        SentIsRead(codec, items[1..], cur);
        assert [] + Bare(items[1..]) == Bare(items[1..]);
      case Framed(e) =>
        FrameRead(codec, e, Lines(codec, items[1..]), cur);
        SentIsRead(codec, items[1..], e.id);
        assert AllStamped([e] + Bare(items[1..])) == [e.Stamped()] + AllStamped(Bare(items[1..]));
    }
  }

  lemma {:induction false} NoLines(codec: Codec, cur: int)
    ensures Events(codec, [], cur) == []
  {
  }

  /** A connection cut anywhere yields a prefix of its events. */
  lemma {:induction false} CutIsPrefix(codec: Codec, lines: seq<string>, n: nat, cur: int)
    requires n <= |lines|
    ensures Events(codec, lines[..n], cur) <= Events(codec, lines, cur)
    decreases n
  {
    hide Strip, StartsWith, NewCursor, DataOf;
    if n > 0 {
      var line := Strip(lines[0]);
      assert lines[..n][1..] == lines[1..][..n - 1] && lines[..n][0] == lines[0];
      if StartsWith(line, "id:") {
        CutIsPrefix(codec, lines[1..], n - 1, NewCursor(codec, line, cur));
      } else {
        CutIsPrefix(codec, lines[1..], n - 1, cur);
      }
    }
  }

  // ------------------------------------------------------ a line cut in two

  /** What a decoder puts for a character that was cut. */
  const REPLACED: string := "\U{FFFD}"

  /** Less than the line: some of its characters, and perhaps a cut one. */
  predicate ProperHead(head: string, line: string) {
    exists n :: 0 <= n < |line| && HeadOf(head, line, n)
  }

  predicate HeadOf(head: string, line: string, n: nat)
    requires n < |line|
  {
    head == line[..n] || head == line[..n] + REPLACED
  }

  /** As the last line of a connection it yields nothing. */
  ghost predicate Silent(codec: Codec, head: string) {
    forall cur :: Events(codec, [head], cur) == []
  }

  /** A silent last line changes no events. */
  lemma {:induction false} SilentLast(codec: Codec, lines: seq<string>, head: string, cur: int)
    requires Silent(codec, head)
    ensures Events(codec, lines + [head], cur) == Events(codec, lines, cur)
    decreases |lines|
  {
    hide Strip, StartsWith, NewCursor, DataOf;
    if lines == [] {
      assert lines + [head] == [head];
    } else {
      var line := Strip(lines[0]);
      assert (lines + [head])[1..] == lines[1..] + [head] && (lines + [head])[0] == lines[0];
      if StartsWith(line, "id:") {
        SilentLast(codec, lines[1..], head, NewCursor(codec, line, cur));
      } else {
        SilentLast(codec, lines[1..], head, cur);
      }
    }
  }

  lemma {:induction false} StripIsPart(s: string)
    ensures |Strip(s)| <= |s|
    ensures s != "" && !IsBlank(s[0]) ==> Strip(s) == s[..|Strip(s)|] && Strip(s) != ""
  {
    EndIsHead(s);
    StartIsShorter(StripEnd(s));
    if s != "" && !IsBlank(s[0]) {
      EndKeepsHead(s, 1);
      assert StripEnd(s)[0] == StripEnd(s)[..1][0] == s[..1][0];
    }
  }

  lemma {:induction false} EndIsHead(s: string)
    ensures |StripEnd(s)| <= |s| && StripEnd(s) == s[..|StripEnd(s)|]
    decreases |s|
  {
    if s != "" && IsBlank(s[|s| - 1]) {
      EndIsHead(s[..|s| - 1]);
    }
  }

  lemma {:induction false} StartIsShorter(s: string)
    ensures |StripStart(s)| <= |s|
    decreases |s|
  {
    if s != "" && IsBlank(s[0]) {
      StartIsShorter(s[1..]);
    }
  }

  /** A line that is no data line is silent. */
  lemma {:induction false} NoData(codec: Codec, head: string)
    requires !StartsWith(Strip(head), "data:")
    ensures Silent(codec, head)
  {
    hide Strip, StartsWith, NewCursor;
    forall cur ensures Events(codec, [head], cur) == [] {
      assert [head][1..] == [] && [head][0] == head;
      var next := if StartsWith(Strip(head), "id:") then NewCursor(codec, Strip(head), cur) else cur;
      assert Events(codec, [head], cur) == Events(codec, [], next);
    }
  }

  /** Nor does an unreadable one yield anything. */
  lemma {:induction false} NoPayload(codec: Codec, head: string)
    requires StartsWith(Strip(head), "data:") && DataOf(codec, Strip(head)) == Unreadable
    ensures Silent(codec, head)
  {
    assert !StartsWith(Strip(head), "id:") by { assert Strip(head)[0] == "data:"[0]; }
    hide Strip, StartsWith, DataOf;
    forall cur ensures Events(codec, [head], cur) == [] {
      assert [head][1..] == [] && [head][0] == head;
      assert Events(codec, [head], cur) == Events(codec, [], cur);
    }
  }

  /** A line that starts otherwise, or too short, is no data line. */
  lemma {:induction false} OtherLine(codec: Codec, head: string, line: string, n: nat)
    requires n < |line| && HeadOf(head, line, n) && !IsBlank(line[0]) && (line[0] != 'd' || n < 5)
    ensures Silent(codec, head)
  {
    StripIsPart(head);
    var text := Strip(head);
    if head == "" {
      assert text == "";
    } else if n > 0 {
      assert head[0] == line[0];
      assert text[0] == head[0];
      assert text != "" && text == head[..|text|];
      assert n < 5 && |text| >= 5 ==> text[n] == '\U{FFFD}' && n < 5;
    } else {
      assert head[0] == '\U{FFFD}';
      assert text[0] == head[0];
    }
    hide Strip;
    NoData(codec, head);
  }

  /** A data line whose payload is cut is silent. */
  lemma {:induction false} CutData(codec: Codec, e: Event, head: string, n: nat)
    requires Readable(codec, e) && WholeOnly(codec, e)
    requires 5 <= n < |"data: " + codec.dump(e.Payload())| && HeadOf(head, "data: " + codec.dump(e.Payload()), n)
    ensures Silent(codec, head)
  {
    var line, dump := "data: " + codec.dump(e.Payload()), codec.dump(e.Payload());
    assert head[..5] == line[..5] == "data:";
    EndKeepsHead(head, 5);
    var text := StripEnd(head);
    assert text[..5] == "data:" && text[0] == 'd' && Strip(head) == text;
    if head == line[..n] {
      EndIsHead(head);
      assert text == line[..|text|];
      DataText(text, dump);
    } else {
      assert text == head;
      ReplacedText(text, dump, n);
    }
    var t := Strip(text[5..]);
    hide Strip, StripEnd, ProperHead;
    assert DataOf(codec, text) == Unreadable;
    NoPayload(codec, head);
  }

  lemma {:induction false} DataText(text: string, dump: string)
    requires Neat(dump) && 5 <= |text| < |"data: " + dump| && text == ("data: " + dump)[..|text|]
    ensures ProperHead(Strip(text[5..]), dump)
  {
    if |text| == 5 {
      assert text[5..] == "";
      assert HeadOf("", dump, 0);
    } else {
      var h := dump[..|text| - 6];
      assert text[5..] == " " + h;
      if h == "" {
        SpaceAlone();
        assert text[5..] == " ";
        assert HeadOf("", dump, 0);
      } else {
        StripSpaced(h);
        EndIsHead(h);
        assert HeadOf(StripEnd(h), dump, |StripEnd(h)|);
      }
    }
  }

  lemma {:induction false} SpaceAlone()
    ensures Strip(" ") == ""
  {
    assert " "[..0] == "";
  }

  lemma {:induction false} ReplacedText(text: string, dump: string, n: nat)
    requires Neat(dump) && 5 <= n < |"data: " + dump| && text == ("data: " + dump)[..n] + REPLACED
    ensures ProperHead(Strip(text[5..]), dump)
  {
    if n == 5 {
      assert text[5..] == REPLACED == dump[..0] + REPLACED;
      assert Neat(text[5..]);
      NeatStrip(text[5..]);
      assert HeadOf(text[5..], dump, 0);
    } else {
      var h := dump[..n - 6] + REPLACED;
      assert text[5..] == " " + h;
      assert Neat(h);
      NeatStrip(h);
      assert HeadOf(h, dump, n - 6);
    }
  }

  lemma {:induction false} StripSpaced(h: string)
    requires h != "" && !IsBlank(h[0])
    ensures Strip(" " + h) == StripEnd(h)
  {
    SpacedEnd(h);
    EndKeepsHead(h, 1);
    var t := StripEnd(h);
    assert t[..1] == h[..1];
    assert t[0] == t[..1][0] == h[..1][0];
    assert (" " + t)[1..] == t;
    hide StripEnd;
    assert StripStart(" " + t) == StripStart(t) == t;
  }

  lemma {:induction false} SpacedEnd(h: string)
    requires h != "" && !IsBlank(h[0])
    ensures StripEnd(" " + h) == " " + StripEnd(h)
    decreases |h|
  {
    assert (" " + h)[|h|] == h[|h| - 1];
    if IsBlank(h[|h| - 1]) {
      assert (" " + h)[..|h|] == " " + h[..|h| - 1];
      SpacedEnd(h[..|h| - 1]);
    }
  }

  /** Whatever line the server is writing, a proper head of it is silent. */
  lemma {:induction false} HeadIsSilent(codec: Codec, s: Sent, k: nat, head: string)
    requires k < |SentLines(codec, s)| && ProperHead(head, SentLines(codec, s)[k])
    requires s.Framed? ==> Readable(codec, s.event) && WholeOnly(codec, s.event)
    ensures Silent(codec, head)
  {
    hide Events, Silent, Readable, WholeOnly, Strip;
    var line := SentLines(codec, s)[k];
    var n :| 0 <= n < |line| && HeadOf(head, line, n);
    if s.Framed? && k == 1 && n >= 5 {
      CutData(codec, s.event, head, n);
    } else {
      OtherLine(codec, head, line, n);
    }
  }

  lemma {:induction false} LineIsSent(codec: Codec, items: seq<Sent>, n: nat) returns (i: nat, k: nat)
    requires n < |Lines(codec, items)|
    ensures i < |items| && k < |SentLines(codec, items[i])| && Lines(codec, items)[n] == SentLines(codec, items[i])[k]
    decreases |items|
  {
    hide SentLines;
    var first := SentLines(codec, items[0]);
    if n < |first| {
      i, k := 0, n;
    } else {
      i, k := LineIsSent(codec, items[1..], n - |first|);
      i := i + 1;
    }
  }

  lemma {:induction false} FramedIsBare(items: seq<Sent>, i: nat)
    requires i < |items| && items[i].Framed?
    ensures items[i].event in Bare(items)
    decreases |items|
  {
    if i == 0 {
      assert Bare(items)[0] == items[0].event;
    } else {
      FramedIsBare(items[1..], i - 1);
      assert items[1..][i - 1] == items[i];
      var head := if items[0].Framed? then [items[0].event] else [];
      assert Bare(items) == head + Bare(items[1..]);
    }
  }

  /** What arrives of these lines when the connection breaks: some of them, and perhaps a head of the next. */
  ghost predicate BrokenOff(arrived: seq<string>, lines: seq<string>) {
    || arrived <= lines
    || (arrived != [] && |arrived| <= |lines| && var n := |arrived| - 1;
        arrived[..n] == lines[..n] && ProperHead(arrived[n], lines[n]))
  }

  /** Wherever a connection breaks, within a line or behind one, it yields a prefix of its events. */
  lemma {:induction false} BrokenIsPrefix(codec: Codec, items: seq<Sent>, arrived: seq<string>, cur: int)
    requires Faithful(codec, Bare(items)) && AllWholeOnly(codec, Bare(items)) && BrokenOff(arrived, Lines(codec, items))
    ensures Events(codec, arrived, cur) <= AllStamped(Bare(items))
  {
    hide Events, Lines, Readable, WholeOnly, Bare, AllStamped, SentLines, Silent;
    var lines := Lines(codec, items);
    SentIsRead(codec, items, cur);
    if arrived <= lines {
      assert lines[..|arrived|] == arrived;
      CutIsPrefix(codec, lines, |arrived|, cur);
    } else {
      var n := |arrived| - 1;
      var head := arrived[n];
      CutIsPrefix(codec, lines, n, cur);
      var i, k := LineIsSent(codec, items, n);
      if items[i].Framed? {
        FramedIsBare(items, i);
      }
      HeadIsSilent(codec, items[i], k, head);
      SilentLast(codec, arrived[..n], head, cur);
      assert arrived == arrived[..n] + [head];
    }
  }

  // ------------------------------------------------------------ reconnecting

  /** `int(ev.get("_id") or 0)` for the numbers the hub stamps. */
  function IdOf(ev: Dict): int {
    var v := Get(ev, "_id");
    if !v.Num? then 0 else if v.n >= 0.0 then v.n.Floor else -((-v.n).Floor)
  }

  predicate IsResult(ev: Dict) { Get(ev, "event") == Str("result") }

  lemma {:induction false} ResultReads(ev: Dict)
    ensures IsResult(ev) <==> "event" in ev && ev["event"] == Str("result")
  {
  }

  lemma {:induction false} IdReads(ev: Dict, n: int)
    ensures "_id" in ev && ev["_id"] == Num(n as real) ==> IdOf(ev) == n
    ensures "_id" !in ev || !ev["_id"].Num? ==> IdOf(ev) == 0
  {
  }

  /** Events up to and including the first result. */
  function UpToResult(evs: seq<Dict>): (r: seq<Dict>)
    ensures r <= evs
  {
    if evs == [] then [] else [evs[0]] + if IsResult(evs[0]) then [] else UpToResult(evs[1..])
  }

  predicate Ended(evs: seq<Dict>) { evs != [] && IsResult(evs[|evs| - 1]) }

  function LastSeen(evs: seq<Dict>, last: int): int {
    if evs == [] then last
    else LastSeen(evs[1..], if IdOf(evs[0]) > last then IdOf(evs[0]) else last)
  }

  /** What the server puts on connection `attempt` when asked to resume after `last`. */
  type Server = (nat, int) -> seq<string>

  /** Everything yielded from connection `attempt` on, stopped before connection `stop`. */
  function Follow(codec: Codec, serve: Server, stop: nat, attempt: nat, last: int): seq<Dict>
    requires attempt <= stop
    decreases stop - attempt
  {
    if attempt == stop then []
    else
      var evs := UpToResult(Events(codec, serve(attempt, last), last));
      if Ended(evs) then evs else evs + Follow(codec, serve, stop, attempt + 1, LastSeen(evs, last))
  }

  lemma {:induction false} TakeOne(evs: seq<Dict>, last: int)
    requires evs != []
    ensures UpToResult(evs) == [evs[0]] + if IsResult(evs[0]) then [] else UpToResult(evs[1..])
    ensures var next := if IdOf(evs[0]) > last then IdOf(evs[0]) else last;
            LastSeen(UpToResult(evs), last) == if IsResult(evs[0]) then next else LastSeen(UpToResult(evs[1..]), next)
  {
    hide IdOf, IsResult;
    assert ([evs[0]] + UpToResult(evs[1..]))[1..] == UpToResult(evs[1..]);
  }

  /** The body of the reconnect loop: hand on events and move the cursor, until a result. */
  method Consume(events: seq<Dict>, last: int) returns (given: seq<Dict>, last1: int)
    ensures given == UpToResult(events) && last1 == LastSeen(given, last)
  {
    NothingGiven(last);
    hide IdOf, IsResult, UpToResult, LastSeen;
    given, last1 := [], last;
    assert events[0..] == events;
    for i := 0 to |events|
      invariant UpToResult(events) == given + UpToResult(events[i..])
      invariant LastSeen(UpToResult(events), last) == LastSeen(UpToResult(events[i..]), last1)
    {
      var ev := events[i];
      assert events[i..][0] == ev && events[i..][1..] == events[i + 1..];
      TakeOne(events[i..], last1);
      last1 := if IdOf(ev) > last1 then IdOf(ev) else last1;
      MoveOver(given, ev, if IsResult(ev) then [] else UpToResult(events[i + 1..]));
      given := given + [ev];
      if IsResult(ev) {
        return;
      }
    }
    assert events[|events|..] == [];
    NothingGiven(last1);
  }

  lemma {:induction false} MoveOver<T>(a: seq<T>, x: T, b: seq<T>)
    ensures a + ([x] + b) == (a + [x]) + b && a + [x] + [] == a + [x]
  {
  }

  lemma {:induction false} NothingGiven(last: int)
    ensures UpToResult([]) == [] && LastSeen([], last) == last
  {
  }

  /** `stream_run`: reconnect from the last event seen until a result arrives or it is stopped. */
  method StreamRun(codec: Codec, serve: Server, stop: nat) returns (out: seq<Dict>)
    ensures out == Follow(codec, serve, stop, 0, 0)
  {
    hide Events, UpToResult, LastSeen, Ended, Follow;
    out := [];
    var last := 0;
    for attempt := 0 to stop
      invariant out + Follow(codec, serve, stop, attempt, last) == Follow(codec, serve, stop, 0, 0)
    {
      var events := Watch(codec, serve(attempt, last), last);
      var given, last1 := Consume(events, last);
      ghost var before := out;
      FollowUnfolds(codec, serve, stop, attempt, last);
      out := out + given;
      if Ended(given) {
        return;
      }
      Regroup(before, given, Follow(codec, serve, stop, attempt + 1, last1));
      last := last1;
    }
    Stopped(codec, serve, stop, last);
    assert out + [] == out;
  }

  lemma {:induction false} FollowUnfolds(codec: Codec, serve: Server, stop: nat, attempt: nat, last: int)
    requires attempt < stop
    ensures var evs := UpToResult(Events(codec, serve(attempt, last), last));
            Follow(codec, serve, stop, attempt, last) ==
            if Ended(evs) then evs else evs + Follow(codec, serve, stop, attempt + 1, LastSeen(evs, last))
  {
    hide Events, UpToResult, LastSeen, Ended;
  }

  lemma {:induction false} Stopped(codec: Codec, serve: Server, stop: nat, last: int)
    ensures Follow(codec, serve, stop, stop, last) == []
  {
  }

  lemma {:induction false} Regroup<T>(a: seq<T>, b: seq<T>, c: seq<T>)
    ensures a + (b + c) == (a + b) + c
  {
  }

  predicate Ascending(log: seq<Event>) {
    forall i, j :: 0 <= i < j < |log| ==> log[i].id < log[j].id
  }

  /** The events after a cursor. */
  function Pending(log: seq<Event>, last: int): seq<Event> {
    if log == [] || log[0].id > last then log else Pending(log[1..], last)
  }

  /** Each connection carries the events after the cursor it was asked for, among comments, and breaks anywhere. */
  ghost predicate Honest(codec: Codec, serve: Server, log: seq<Event>) {
    forall attempt, last :: ServedFrom(codec, serve(attempt, last), Pending(log, last))
  }

  ghost predicate ServedFrom(codec: Codec, lines: seq<string>, es: seq<Event>) {
    exists items :: Bare(items) == es && BrokenOff(lines, Lines(codec, items))
  }

  lemma {:induction false} ServedIsPrefix(codec: Codec, lines: seq<string>, es: seq<Event>, cur: int)
    requires Faithful(codec, es) && AllWholeOnly(codec, es) && ServedFrom(codec, lines, es)
    ensures Events(codec, lines, cur) <= AllStamped(es)
  {
    hide Events, Faithful, AllWholeOnly, Lines, Bare, BrokenOff;
    var items :| Bare(items) == es && BrokenOff(lines, Lines(codec, items));
    BrokenIsPrefix(codec, items, lines, cur);
  }

  lemma {:induction false} PendingAscending(log: seq<Event>, last: int)
    requires Ascending(log)
    ensures Ascending(Pending(log, last)) && (Pending(log, last) != [] ==> Pending(log, last)[0].id > last)
    decreases |log|
  {
    if log != [] && log[0].id <= last {
      PendingAscending(log[1..], last);
    }
  }

  lemma {:induction false} PendingFaithful(codec: Codec, log: seq<Event>, last: int)
    ensures Faithful(codec, log) ==> Faithful(codec, Pending(log, last))
    ensures AllWholeOnly(codec, log) ==> AllWholeOnly(codec, Pending(log, last))
    decreases |log|
  {
    hide Readable, WholeOnly;
    if log != [] && log[0].id <= last {
      PendingFaithful(codec, log[1..], last);
    }
  }

  lemma {:induction false} PendingIsTail(log: seq<Event>, last: int, m: nat)
    requires Ascending(log) && 0 < m <= |Pending(log, last)|
    ensures Pending(log, Pending(log, last)[m - 1].id) == Pending(log, last)[m..]
    decreases |log|
  {
    if log[0].id > last {
      SkipTo(log, m);
    } else {
      PendingIsTail(log[1..], last, m);
      PendingAscending(log, last);
      var es := Pending(log, last);
      assert es[0].id <= es[m - 1].id;
    }
  }

  lemma {:induction false} SkipTo(log: seq<Event>, m: nat)
    requires Ascending(log) && 0 < m <= |log|
    ensures Pending(log, log[m - 1].id) == log[m..]
    decreases m
  {
    assert log[0].id <= log[m - 1].id;
    if m == 1 {
      assert log[1..] == [] || log[1..][0].id > log[0].id;
    } else {
      SkipTo(log[1..], m - 1);
      assert log[1..][m - 1..] == log[m..];
    }
  }

  /** Over ascending events the cursor ends on the last one. */
  lemma {:induction false} SeenLast(es: seq<Event>, last: int)
    requires Ascending(es) && (es != [] ==> es[0].id > last)
    ensures LastSeen(AllStamped(es), last) == if es == [] then last else es[|es| - 1].id
    decreases |es|
  {
    if es != [] {
      assert IdOf(es[0].Stamped()) == es[0].id;
      assert AllStamped(es)[1..] == AllStamped(es[1..]);
      SeenLast(es[1..], es[0].id);
    }
  }

  /** A prefix with a result says it all; otherwise the rest follows it. */
  lemma {:induction false} UpToPrefix(p: seq<Dict>, q: seq<Dict>)
    requires p <= q
    ensures if Ended(UpToResult(p)) then UpToResult(q) == UpToResult(p)
            else UpToResult(p) == p && UpToResult(q) == p + UpToResult(q[|p|..])
    decreases |p|
  {
    hide IsResult, Ended, UpToResult;
    if p == [] {
      NeverEnded();
      assert q[0..] == q;
    } else {
      UpToPrefix(p[1..], q[1..]);
      assert q[1..][|p| - 1..] == q[|p|..];
      TakeOne(p, 0);
      TakeOne(q, 0);
      PrefixCons(p, q, UpToResult(p[1..]), UpToResult(q[1..]), UpToResult(q[|p|..]));
    }
  }

  lemma {:induction false} PrefixCons(p: seq<Dict>, q: seq<Dict>, u: seq<Dict>, v: seq<Dict>, w: seq<Dict>)
    requires p != [] && q != [] && p[0] == q[0]
    requires if Ended(u) then v == u else u == p[1..] && v == p[1..] + w
    ensures var r := [p[0]] + if IsResult(p[0]) then [] else u;
            var t := [q[0]] + if IsResult(q[0]) then [] else v;
            if Ended(r) then t == r else r == p && t == p + w
  {
    hide IsResult, Ended;
    EndedCons(p[0], if IsResult(p[0]) then [] else u);
    assert [p[0]] + p[1..] == p && [p[0]] + (p[1..] + w) == p + w;
    NeverEnded();
    hide UpToResult;
    NothingGiven(0);
  }

  lemma {:induction false} NeverEnded()
    ensures !Ended(UpToResult([])) && UpToResult([]) == []
  {
  }

  lemma {:induction false} EndedCons(x: Dict, u: seq<Dict>)
    ensures Ended([x] + u) <==> if u == [] then IsResult(x) else Ended(u)
  {
    hide IsResult;
  }

  /**
   However often and wherever the connection breaks, the stream yields the events
   after its cursor in order, none twice and none left out, and stops at the result.
   */
  lemma {:induction false} StreamExact(codec: Codec, serve: Server, log: seq<Event>, stop: nat, attempt: nat, last: int)
    requires Faithful(codec, log) && AllWholeOnly(codec, log) && Ascending(log) && Honest(codec, serve, log) && attempt <= stop
    ensures Follow(codec, serve, stop, attempt, last) <= UpToResult(AllStamped(Pending(log, last)))
    decreases stop - attempt
  {
    hide Events, Faithful, AllWholeOnly, Pending, Ascending, ServedFrom, Ended, LastSeen, AllStamped, UpToResult;
    if attempt < stop {
      var es, evs := Pending(log, last), Events(codec, serve(attempt, last), last);
      PendingFaithful(codec, log, last);
      assert ServedFrom(codec, serve(attempt, last), Pending(log, last));
      ServedIsPrefix(codec, serve(attempt, last), es, last);
      UpToPrefix(evs, AllStamped(es));
      StampedCut(es, evs);
      Resumed(log, last, |evs|);
      if !Ended(UpToResult(evs)) {
        StreamExact(codec, serve, log, stop, attempt + 1, LastSeen(evs, last));
        assert AllStamped(es)[|evs|..] == AllStamped(es[|evs|..]);
      }
    }
  }

  /** A connection that carries everything pending to its end. */
  ghost predicate Uncut(codec: Codec, serve: Server, log: seq<Event>, attempt: nat) {
    forall last :: ServedWhole(codec, serve(attempt, last), Pending(log, last))
  }

  ghost predicate ServedWhole(codec: Codec, lines: seq<string>, es: seq<Event>) {
    exists items :: Bare(items) == es && lines == Lines(codec, items)
  }

  lemma {:induction false} WholeIsRead(codec: Codec, lines: seq<string>, es: seq<Event>, cur: int)
    requires Faithful(codec, es) && ServedWhole(codec, lines, es)
    ensures Events(codec, lines, cur) == AllStamped(es)
  {
    hide Events, Faithful, Lines, Bare;
    var items :| Bare(items) == es && lines == Lines(codec, items);
    SentIsRead(codec, items, cur);
  }

  /** One connection that is not cut short completes the stream. */
  lemma {:induction false} StreamCompletes(codec: Codec, serve: Server, log: seq<Event>, stop: nat, attempt: nat, last: int, whole: nat)
    requires Faithful(codec, log) && AllWholeOnly(codec, log) && Ascending(log) && Honest(codec, serve, log)
    requires attempt <= whole < stop && Uncut(codec, serve, log, whole)
    ensures Follow(codec, serve, stop, attempt, last) == UpToResult(AllStamped(Pending(log, last)))
    decreases stop - attempt
  {
    hide Events, Faithful, AllWholeOnly, Pending, Ascending, ServedFrom, ServedWhole, Ended, LastSeen, AllStamped, UpToResult;
    var es, evs := Pending(log, last), Events(codec, serve(attempt, last), last);
    PendingFaithful(codec, log, last);
    assert ServedFrom(codec, serve(attempt, last), Pending(log, last));
    ServedIsPrefix(codec, serve(attempt, last), es, last);
    UpToPrefix(evs, AllStamped(es));
    StampedCut(es, evs);
    Resumed(log, last, |evs|);
    if !Ended(UpToResult(evs)) {
      assert AllStamped(es)[|evs|..] == AllStamped(es[|evs|..]);
      if attempt == whole {
        assert ServedWhole(codec, serve(attempt, last), Pending(log, last));
        WholeIsRead(codec, serve(attempt, last), es, last);
        StreamExact(codec, serve, log, stop, attempt + 1, LastSeen(evs, last));
        assert AllStamped(es)[|evs|..] == [];
        NothingGiven(last);
      } else {
        StreamCompletes(codec, serve, log, stop, attempt + 1, LastSeen(evs, last), whole);
      }
    }
  }

  lemma {:induction false} StampedCut(es: seq<Event>, evs: seq<Dict>)
    requires evs <= AllStamped(es)
    ensures |evs| <= |es| && evs == AllStamped(es[..|evs|]) && AllStamped(es) == evs + AllStamped(es[|evs|..])
  {
    hide Event.Stamped;
  }

  /** After the first `m` pending events, what is pending is the rest. */
  lemma {:induction false} Resumed(log: seq<Event>, last: int, m: nat)
    requires Ascending(log) && m <= |Pending(log, last)|
    ensures Pending(log, LastSeen(AllStamped(Pending(log, last)[..m]), last)) == Pending(log, last)[m..]
  {
    hide Pending, AllStamped, LastSeen;
    var es := Pending(log, last);
    PendingAscending(log, last);
    SeenLast(es[..m], last);
    if m > 0 {
      PendingIsTail(log, last, m);
    }
  }

  // ------------------------------------------------- the assumptions can be met

  function Frames(es: seq<Event>): seq<Sent> {
    if es == [] then [] else [Framed(es[0])] + Frames(es[1..])
  }

  lemma {:induction false} FramesAreBare(es: seq<Event>)
    ensures Bare(Frames(es)) == es
    decreases |es|
  {
    if es != [] {
      FramesAreBare(es[1..]);
      assert (([Framed(es[0])] + Frames(es[1..]))[1..]) == Frames(es[1..]);
    }
  }

  /** Where a connection breaks: after so many lines and so many characters of the next, perhaps within another. */
  datatype Break = Break(lines: nat, characters: nat, within: bool)

  function Cut(lines: seq<string>, cut: Break): seq<string> {
    if cut.lines >= |lines| then lines
    else
      var line := lines[cut.lines];
      lines[..cut.lines] +
      [if cut.characters >= |line| then line
       else line[..cut.characters] + if cut.within then REPLACED else ""]
  }

  /** A server that sends what is pending, and loses the connection as `cut` says. */
  function Cutting(codec: Codec, log: seq<Event>, cut: nat -> Break): Server {
    (attempt: nat, last: int) => Cut(Lines(codec, Frames(Pending(log, last))), cut(attempt))
  }

  /** Whatever it cuts off, it is honest. */
  lemma {:induction false} CuttingIsHonest(codec: Codec, log: seq<Event>, cut: nat -> Break)
    ensures Honest(codec, Cutting(codec, log, cut), log)
  {
    hide Lines, Bare, Pending, Frames;
    var serve := Cutting(codec, log, cut);
    forall attempt: nat, last: int ensures ServedFrom(codec, serve(attempt, last), Pending(log, last)) {
      FramesAreBare(Pending(log, last));
      var lines := Lines(codec, Frames(Pending(log, last)));
      assert serve(attempt, last) == Cut(lines, cut(attempt));
      CutBreaksOff(lines, cut(attempt));
    }
  }

  lemma {:induction false} CutBreaksOff(lines: seq<string>, cut: Break)
    ensures BrokenOff(Cut(lines, cut), lines)
  {
    var arrived, n := Cut(lines, cut), cut.lines;
    if n < |lines| {
      assert |arrived| == n + 1 && arrived[..n] == lines[..n];
      if cut.characters >= |lines[n]| {
        assert arrived == lines[..n + 1];
      } else {
        assert lines[n][..cut.characters] + "" == lines[n][..cut.characters];
        assert HeadOf(arrived[n], lines[n], cut.characters);
      }
    }
  }

  /** A connection it leaves long enough is not cut. */
  lemma {:induction false} LongIsUncut(codec: Codec, log: seq<Event>, cut: nat -> Break, attempt: nat)
    requires cut(attempt).lines >= 3 * |log|
    ensures Uncut(codec, Cutting(codec, log, cut), log, attempt)
  {
    hide Bare, Frames;
    var serve := Cutting(codec, log, cut);
    forall last: int ensures ServedWhole(codec, serve(attempt, last), Pending(log, last)) {
      var es := Pending(log, last);
      FramesAreBare(es);
      ThreeLines(codec, es);
      PendingIsShort(log, last);
      assert serve(attempt, last) == Lines(codec, Frames(es));
    }
  }

  lemma {:induction false} ThreeLines(codec: Codec, es: seq<Event>)
    ensures |Lines(codec, Frames(es))| == 3 * |es|
    decreases |es|
  {
    if es != [] {
      ThreeLines(codec, es[1..]);
      assert ([Framed(es[0])] + Frames(es[1..]))[1..] == Frames(es[1..]);
    }
  }

  lemma {:induction false} PendingIsShort(log: seq<Event>, last: int)
    ensures |Pending(log, last)| <= |log|
    decreases |log|
  {
    if log != [] && log[0].id <= last {
      PendingIsShort(log[1..], last);
    }
  }

  const PROGRESS: Dict := map["event" := Str("progress")]
  const RESULT: Dict := map["event" := Str("result")]
  const SHORT_LOG: seq<Event> := [Event(1, PROGRESS), Event(2, RESULT)]

  /** Enough of a codec for that log. */
  const SHORT_CODEC: Codec := Codec(
    (n: nat) => if n == 1 then "1" else "2",
    (s: string) => if s == "1" then Some(1) else if s == "2" then Some(2) else None,
    (d: Dict) => if d == PROGRESS then "{p}" else "{r}",
    (s: string) => if s == "{p}" then Object(PROGRESS) else if s == "{r}" then Object(RESULT) else Unreadable)

  /** The first connection breaks within the payload of the second frame; later ones hold. */
  function FirstBreaks(attempt: nat): Break { if attempt == 0 then Break(4, 8, false) else Break(6, 0, false) }

  lemma {:induction false} ShortPayloads()
    ensures PROGRESS != RESULT && Event(1, PROGRESS).Payload() == PROGRESS && Event(2, RESULT).Payload() == RESULT
  {
    assert PROGRESS["event"] != RESULT["event"];
  }

  /** A proper head of three characters is too short, or ends otherwise. */
  lemma {:induction false} ShortHead(head: string, line: string)
    requires |line| == 3 && line[2] == '}' && ProperHead(head, line)
    ensures head != "{p}" && head != "{r}"
  {
    var n :| 0 <= n < |line| && HeadOf(head, line, n);
    assert |head| == 3 ==> head[2] == '\U{FFFD}';
  }

  lemma {:induction false} ShortFaithful()
    ensures Faithful(SHORT_CODEC, SHORT_LOG) && AllWholeOnly(SHORT_CODEC, SHORT_LOG) && Ascending(SHORT_LOG)
  {
    ShortPayloads();
    hide PROGRESS, RESULT, Event.Payload, ProperHead;
    forall e | e in SHORT_LOG ensures Readable(SHORT_CODEC, e) && WholeOnly(SHORT_CODEC, e) {
      assert e == Event(1, PROGRESS) || e == Event(2, RESULT);
      var dump := SHORT_CODEC.dump(e.Payload());
      assert dump == "{p}" || dump == "{r}";
      forall head | ProperHead(head, dump) ensures SHORT_CODEC.load(head) == Unreadable {
        ShortHead(head, dump);
      }
    }
  }

  /**
   A codec, a log and a server that meet every assumption of the stream theorems; across
   a connection that breaks within a line the stream is the whole log.
   */
  lemma {:induction false} StreamExample()
    ensures var serve := Cutting(SHORT_CODEC, SHORT_LOG, FirstBreaks);
            && Faithful(SHORT_CODEC, SHORT_LOG) && AllWholeOnly(SHORT_CODEC, SHORT_LOG) && Ascending(SHORT_LOG)
            && Honest(SHORT_CODEC, serve, SHORT_LOG)
            && Uncut(SHORT_CODEC, serve, SHORT_LOG, 1)
            && Follow(SHORT_CODEC, serve, 2, 0, 0) == AllStamped(SHORT_LOG)
  {
    var serve := Cutting(SHORT_CODEC, SHORT_LOG, FirstBreaks);
    ShortFaithful();
    assert Pending(SHORT_LOG, 0) == SHORT_LOG;
    ShortRuns();
    hide Faithful, AllWholeOnly, Ascending, Follow, Pending, SHORT_CODEC, UpToResult, AllStamped, Lines, Cut;
    CuttingIsHonest(SHORT_CODEC, SHORT_LOG, FirstBreaks);
    LongIsUncut(SHORT_CODEC, SHORT_LOG, FirstBreaks, 1);
    StreamCompletes(SHORT_CODEC, serve, SHORT_LOG, 2, 0, 0, 1);
  }

  lemma {:induction false} ShortRuns()
    ensures UpToResult(AllStamped(SHORT_LOG)) == AllStamped(SHORT_LOG)
  {
    var a, b := SHORT_LOG[0].Stamped(), SHORT_LOG[1].Stamped();
    assert Get(a, "event") == Str("progress") && Get(b, "event") == Str("result");
    assert AllStamped(SHORT_LOG) == [a, b] && [a, b][1..] == [b];
    TakeOne([a, b], 0);
    TakeOne([b], 0);
  }
}
