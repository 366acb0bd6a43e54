/** Strings as the runtime handles them: searching, splitting, joining. */
module Text {

  datatype Option<+T> = None | Some(value: T)

  predicate OccursAt(s: string, sub: string, i: nat) {
    i + |sub| <= |s| && s[i..i + |sub|] == sub
  }

  /** `sub in s`. */
  predicate Contains(s: string, sub: string) {
    exists i :: 0 <= i <= |s| && OccursAt(s, sub, i)
  }

  predicate StartsWith(s: string, prefix: string) {
    prefix <= s
  }

  predicate EndsWith(s: string, suffix: string) {
    |suffix| <= |s| && s[|s| - |suffix|..] == suffix
  }

  /** The position of the first `c`, or the length when there is none. */
  function IndexOf(s: string, c: char): (i: nat)
    ensures i <= |s|
    ensures i < |s| ==> s[i] == c
    ensures forall j :: 0 <= j < i ==> s[j] != c
  {
    if s == "" || s[0] == c then 0 else 1 + IndexOf(s[1..], c)
  }

  /** "://" at position `k`. */
  predicate MarkAt(s: string, k: nat) {
    k + 3 <= |s| && s[k] == ':' && s[k + 1] == '/' && s[k + 2] == '/'
  }

  /** The position of the first "://", or none. */
  function SchemeEnd(s: string): (r: Option<nat>)
    ensures r.Some? ==> MarkAt(s, r.value) && forall k: nat :: k < r.value ==> !MarkAt(s, k)
    ensures r.None? ==> forall k: nat :: !MarkAt(s, k)
  {
    if |s| < 3 then None
    else if MarkAt(s, 0) then Some(0)
    else
      assert forall k: nat :: k > 0 ==> (MarkAt(s, k) <==> MarkAt(s[1..], k - 1));
      match SchemeEnd(s[1..])
      case None => None
      case Some(i) => Some(i + 1)
  }

  /** `s.split(c)`. */
  function Split(s: string, c: char): (parts: seq<string>)
    ensures |parts| >= 1
    decreases |s|
  {
    var i := IndexOf(s, c);
    if i == |s| then [s] else [s[..i]] + Split(s[i + 1..], c)
  }

  /** `c.join(parts)`. */
  function Join(parts: seq<string>, c: char): string {
    if parts == [] then ""
    else if |parts| == 1 then parts[0]
    else parts[0] + [c] + Join(parts[1..], c)
  }

  /** `s.lstrip(c)`. */
  function StripLeft(s: string, c: char): (r: string)
    ensures r == "" || r[0] != c
  {
    if s == "" || s[0] != c then s else StripLeft(s[1..], c)
  }

  // ------------------------------------------------------ what these come to

  lemma {:induction false} ContainsReads(s: string, sub: string)
    ensures Contains(s, sub) <==> exists a: string, b: string :: s == a + sub + b
  {
    if Contains(s, sub) {
      var i :| 0 <= i <= |s| && OccursAt(s, sub, i);
      assert s == s[..i] + sub + s[i + |sub|..];
    }
    if a: string, b: string :| s == a + sub + b {
      assert s[|a|..|a| + |sub|] == sub;
      assert OccursAt(s, sub, |a|);
    }
  }

  lemma {:induction false} AffixReads(s: string, part: string)
    ensures StartsWith(s, part) <==> exists b: string :: s == part + b
    ensures EndsWith(s, part) <==> exists a: string :: s == a + part
  {
    if StartsWith(s, part) {
      assert s == part + s[|part|..];
    }
    if EndsWith(s, part) {
      assert s == s[..|s| - |part|] + part;
    }
  }

  lemma {:induction false} StripReads(s: string, c: char)
    ensures var r := StripLeft(s, c);
            |r| <= |s| && s[|s| - |r|..] == r && forall i :: 0 <= i < |s| - |r| ==> s[i] == c
    decreases |s|
  {
    if s != "" && s[0] == c {
      StripReads(s[1..], c);
      var n := |s| - |StripLeft(s, c)|;
      forall i | 0 <= i < n ensures s[i] == c {
        assert i > 0 ==> s[i] == s[1..][i - 1];
      }
    }
  }

  /** Splitting and joining: no piece holds the separator, and the pieces joined are the text. */
  lemma {:induction false} SplitReads(s: string, c: char)
    ensures Join(Split(s, c), c) == s
    ensures forall k :: 0 <= k < |Split(s, c)| ==> c !in Split(s, c)[k]
    decreases |s|
  {
    var i := IndexOf(s, c);
    assert c !in s[..i];
    if i < |s| {
      var rest := Split(s[i + 1..], c);
      SplitReads(s[i + 1..], c);
      assert Split(s, c) == [s[..i]] + rest && ([s[..i]] + rest)[1..] == rest;
      assert s == s[..i] + [c] + s[i + 1..];
    } else {
      assert s[..i] == s;
    }
  }

  /** The piece stands between separators, or at an end. */
  predicate Piece(s: string, c: char, part: string) {
    c !in part &&
    (s == part || StartsWith(s, part + [c]) || EndsWith(s, [c] + part) || Contains(s, [c] + part + [c]))
  }

  lemma {:induction false} PieceReads(s: string, c: char, part: string)
    ensures part in Split(s, c) <==> Piece(s, c, part)
    decreases |s|
  {
    SplitReads(s, c);
    var i := IndexOf(s, c);
    if i == |s| {
      NoSeparator(s, c, part);
    } else {
      var head, rest := s[..i], s[i + 1..];
      PieceReads(rest, c, part);
      assert s == head + [c] + rest;
      assert Split(s, c) == [head] + Split(rest, c);
      hide Split;
      PieceCons(head, rest, c, part);
    }
  }

  lemma {:induction false} NoSeparator(s: string, c: char, part: string)
    requires c !in s
    ensures !StartsWith(s, part + [c]) && !EndsWith(s, [c] + part) && !Contains(s, [c] + part + [c])
  {
    assert (part + [c])[|part|] == c;
    assert |[c] + part| <= |s| ==> s[|s| - |[c] + part|..][0] == s[|s| - |part| - 1];
    forall i | 0 <= i <= |s| ensures !OccursAt(s, [c] + part + [c], i) {
      assert i + |part| + 2 <= |s| ==> s[i..i + |part| + 2][0] == s[i];
    }
  }

  lemma {:induction false} PieceCons(head: string, rest: string, c: char, part: string)
    requires c !in head
    ensures Piece(head + [c] + rest, c, part) <==> part == head || Piece(rest, c, part)
  {
    var s, n := head + [c] + rest, |head|;
    assert s[n] == c && s[n + 1..] == rest && s[..n] == head;
    if part == head {
      assert part + [c] <= s;
    } else if Piece(rest, c, part) {
      PieceBehind(head, rest, c, part);
    } else if Piece(s, c, part) {
      PieceAhead(head, rest, c, part);
      assert false;
    }
  }

  lemma {:induction false} PieceBehind(head: string, rest: string, c: char, part: string)
    requires Piece(rest, c, part)
    ensures Piece(head + [c] + rest, c, part)
  {
    var s, n := head + [c] + rest, |head| + 1;
    assert s[n..] == rest;
    if rest == part {
      assert s[|s| - |[c] + part|..] == [c] + part;
    } else if StartsWith(rest, part + [c]) {
      assert rest == part + [c] + rest[|part| + 1..];
      assert s[n - 1..n - 1 + |part| + 2] == [c] + part + [c];
      assert OccursAt(s, [c] + part + [c], n - 1);
    } else if EndsWith(rest, [c] + part) {
      assert s[|s| - |[c] + part|..] == rest[|rest| - |[c] + part|..];
    } else {
      var i :| 0 <= i <= |rest| && OccursAt(rest, [c] + part + [c], i);
      assert s[n + i..n + i + |part| + 2] == rest[i..i + |part| + 2];
      assert OccursAt(s, [c] + part + [c], n + i);
    }
  }

  lemma {:induction false} PieceAhead(head: string, rest: string, c: char, part: string)
    requires c !in head && part != head && Piece(head + [c] + rest, c, part)
    ensures Piece(rest, c, part)
  {
    var s, n := head + [c] + rest, |head|;
    assert forall k :: 0 <= k < n ==> s[k] == head[k] && head[k] != c;
    assert s[n] == c && s[n + 1..] == rest && s[..n] == head;
    assert s != part;
    if StartsWith(s, part + [c]) {
      FirstSeparator(s, n, c, part);
      assert false;
    } else if EndsWith(s, [c] + part) {
      PieceAtEnd(head, rest, c, part);
    } else {
      PieceInside(head, rest, c, part);
    }
  }

  lemma {:induction false} PieceAtEnd(head: string, rest: string, c: char, part: string)
    requires c !in head && c !in part && EndsWith(head + [c] + rest, [c] + part)
    ensures Piece(rest, c, part)
  {
    var s, n, t := head + [c] + rest, |head|, [c] + part;
    assert s[n + 1..] == rest;
    var k := |s| - |t|;
    assert s[k] == s[k..][0] == c;
    assert k >= n by { HeadHasNone(head, rest, c, k); }
    assert s[k + 1..] == s[k..][1..] == t[1..] == part;
    if k > n {
      assert rest[k - n - 1..] == s[k..];
    }
  }

  lemma {:induction false} PieceInside(head: string, rest: string, c: char, part: string)
    requires c !in head && c !in part && Contains(head + [c] + rest, [c] + part + [c])
    ensures Piece(rest, c, part)
  {
    var s, n, t := head + [c] + rest, |head|, [c] + part + [c];
    var k :| 0 <= k <= |s| && OccursAt(s, t, k);
    assert s[n + 1..] == rest;
    assert s[k] == s[k..k + |t|][0] == c;
    assert k >= n by { HeadHasNone(head, rest, c, k); }
    if k == n {
      assert rest[..|t| - 1] == s[n..n + |t|][1..] == t[1..] == part + [c];
    } else {
      assert rest[k - n - 1..k - n - 1 + |t|] == s[k..k + |t|];
      assert OccursAt(rest, t, k - n - 1);
    }
  }

  lemma {:induction false} HeadHasNone(head: string, rest: string, c: char, k: nat)
    requires c !in head && k < |head + [c] + rest| && (head + [c] + rest)[k] == c
    ensures k >= |head|
  {
    assert forall i :: 0 <= i < |head| ==> (head + [c] + rest)[i] == head[i];
  }

  lemma {:induction false} FirstSeparator(s: string, n: nat, c: char, part: string)
    requires n < |s| && s[n] == c && (forall k :: 0 <= k < n ==> s[k] != c)
    requires c !in part && StartsWith(s, part + [c])
    ensures part == s[..n]
  {
    var m := |part|;
    assert forall k :: 0 <= k < m ==> s[k] == (part + [c])[k] == part[k];
    assert s[m] == (part + [c])[m] == c;
    assert m == n;
  }
}
