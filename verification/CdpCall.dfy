/** One call over the browser connection: a request, then messages until the one with its id. */
module CdpCall {
  import opened Text
  import opened Json
  import opened WebSocket

  const PATIENCE := 300

  datatype Reply =
    | Answer(message: Dict)
    // the stream ended within a message
    | Closed
    // a message is not a JSON object
    | Unreadable
    | NoResponse

  /** What a message reads as; none when it raises. */
  type Reader = Bytes -> Option<Dict>

  /** `msg.get("id") == _id`: a truth value equals 1 or 0. */
  predicate HasId(m: Dict, id: int) {
    match Get(m, "id")
    case Num(n) => n == id as real
    case Bool(b) => id == if b then 1 else 0
    case _ => false
  }

  lemma {:induction false} IdReads(m: Dict, id: int)
    ensures HasId(m, id) <==>
            "id" in m && (m["id"] == Num(id as real) || (id == 1 && m["id"] == Bool(true)) || (id == 0 && m["id"] == Bool(false)))
  {
  }

  /** The reply among the next `tries` messages of a stream, and what is left unread. */
  function Await(s: Bytes, read: Reader, id: int, tries: nat): (Reply, Bytes)
    decreases tries
  {
    if tries == 0 then (NoResponse, s)
    else
      match Receive(s, [])
      case None => (Closed, [])
      case Some((message, rest)) =>
        match read(message)
        case None => (Unreadable, rest)
        case Some(m) => if HasId(m, id) then (Answer(m), rest) else Await(rest, read, id, tries - 1)
  }

  /** `_call`: the request as a frame, then skip events until the reply. */
  method Call(s: Socket, request: Bytes, key: Bytes, read: Reader, id: int) returns (r: Reply)
    requires |request| < MAX_LENGTH && |key| == 4
    modifies s
    ensures s.sent == old(s.sent) + TextFrame(request, key)
    ensures (r, s.unread) == Await(old(s.unread), read, id, 300)
  {
    hide Receive, HasId;
    s.WsSend(request, key);
    for i := 0 to PATIENCE
      invariant s.sent == old(s.sent) + TextFrame(request, key)
      invariant Await(s.unread, read, id, PATIENCE - i) == Await(old(s.unread), read, id, PATIENCE)
    {
      var message := s.WsRecv();
      if message.None? {
        return Closed;
      }
      var m := read(message.value);
      if m.None? {
        return Unreadable;
      }
      if HasId(m.value, id) {
        return Answer(m.value);
      }
    }
    return NoResponse;
  }

  // ------------------------------------------------------ which reply it is

  /** A message without control frames among its fragments. */
  ghost predicate Whole(fs: seq<Fragment>) {
    Message(fs) && forall i :: 0 <= i < |fs| ==> !fs[i].Control()
  }

  ghost predicate AllWhole(ms: seq<seq<Fragment>>) {
    forall fs :: fs in ms ==> Whole(fs)
  }

  function Wire(ms: seq<seq<Fragment>>): Bytes
    requires AllWhole(ms)
  {
    if ms == [] then []
    else
      assert Whole(ms[0]);
      EncodeAll(ms[0]) + Wire(ms[1..])
  }

  function Said(read: Reader, fs: seq<Fragment>): Option<Dict> { read(DataPayloads(fs)) }

  predicate Readable(read: Reader, ms: seq<seq<Fragment>>) {
    forall fs :: fs in ms ==> Said(read, fs).Some?
  }

  /** The first message with the id, or the number of messages. */
  function FirstWith(read: Reader, ms: seq<seq<Fragment>>, id: int): (k: nat)
    requires Readable(read, ms)
    ensures k <= |ms|
    ensures k < |ms| ==> HasId(Said(read, ms[k]).value, id)
    ensures forall i :: 0 <= i < k ==> !HasId(Said(read, ms[i]).value, id)
  {
    if ms == [] || HasId(Said(read, ms[0]).value, id) then 0 else 1 + FirstWith(read, ms[1..], id)
  }

  lemma {:induction false} OneMessage(fs: seq<Fragment>, rest: Bytes)
    requires Whole(fs)
    ensures Receive(EncodeAll(fs) + rest, []) == Some((DataPayloads(fs), rest))
  {
    MessageReceived(fs, rest);
  }

  /**
   A call gets the first message with its id, and leaves what follows unread, exactly
   when that is among the next `tries`; otherwise it gives up after so many, or finds
   the stream ended.
   */
  lemma {:induction false} ReplyIsFirst(ms: seq<seq<Fragment>>, read: Reader, id: int, tries: nat)
    requires AllWhole(ms) && Readable(read, ms)
    ensures var k := FirstWith(read, ms, id);
            Await(Wire(ms), read, id, tries) ==
            if k < |ms| && k < tries then (Answer(Said(read, ms[k]).value), Wire(ms[k + 1..]))
            else if tries <= |ms| then (NoResponse, Wire(ms[tries..]))
            else (Closed, [])
    decreases tries
  {
    hide Receive, EncodeAll, HasId, Whole, DataPayloads;
    if tries == 0 {
      assert ms[0..] == ms;
    } else if ms == [] {
      NothingReceived();
    } else {
      OneMessage(ms[0], Wire(ms[1..]));
      if !HasId(Said(read, ms[0]).value, id) {
        ReplyIsFirst(ms[1..], read, id, tries - 1);
        var k := FirstWith(read, ms, id);
        assert k < |ms| ==> ms[1..][k - 1] == ms[k] && ms[1..][k..] == ms[k + 1..];
        assert tries <= |ms| ==> ms[1..][tries - 1..] == ms[tries..];
      }
    }
  }

  lemma {:induction false} NothingReceived()
    ensures Receive([], []) == None
  {
  }
}
