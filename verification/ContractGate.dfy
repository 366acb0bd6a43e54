/**
 The contract gate: a validator for connector contracts and the conformance check
 over a set of them.  Map iteration has no fixed order, so neither have its loops.
 */
module ContractGate {
  import opened Text
  import opened Json

  // ------------------------------------------------------------------- leaves

  predicate AllDigits(s: string) {
    s != "" && forall i :: 0 <= i < |s| ==> '0' <= s[i] <= '9'
  }

  function DigitsValue(s: string): nat
    requires forall i :: 0 <= i < |s| ==> '0' <= s[i] <= '9'
  {
    if s == "" then 0 else 10 * DigitsValue(s[..|s| - 1]) + (s[|s| - 1] - '0') as nat
  }

  /** `strconv.Atoi`: an optional sign, digits, and the 64-bit range. */
  function Atoi(s: string): Option<int> {
    var signed := s != "" && (s[0] == '+' || s[0] == '-');
    var digits := if signed then s[1..] else s;
    if !AllDigits(digits) then None
    else
      var size: int := DigitsValue(digits);
      var n := if signed && s[0] == '-' then -size else size;
      if -0x8000_0000_0000_0000 <= n < 0x8000_0000_0000_0000 then Some(n) else None
  }

  predicate ConstEq(tok: string, v: Value) {
    if tok == "true" then v == Bool(true)
    else if tok == "false" then v == Bool(false)
    else
      match Atoi(tok)
      case Some(n) => v == Num(n as real)
      case None => v == Str(tok)
  }

  predicate EnumOk(options: string, v: Value) {
    v.Str? && v.s in Split(options, '|')
  }

  predicate TypeOk(tok: string, v: Value) {
    if tok == "str" then v.Str?
    else if tok == "int" then v.Num? && v.n == v.n.Floor as real
    else if tok == "num" then v.Num?
    else if tok == "bool" then v.Bool?
    else if tok == "obj" then v.Obj?
    else if tok == "list" then v.Arr?
    else tok == "any"
  }

  /** `leafOk`: a leading question mark admits null and is peeled off. */
  predicate LeafOk(tok: string, v: Value)
    decreases |tok|
  {
    if StartsWith(tok, "?") then v.Null? || LeafOk(tok[1..], v)
    else if StartsWith(tok, "const:") then ConstEq(tok[6..], v)
    else if StartsWith(tok, "enum:") then EnumOk(tok[5..], v)
    else TypeOk(tok, v)
  }

  /** Marks may repeat; they say one thing together. */
  lemma {:induction false} LeafMeaning(tok: string, v: Value)
    ensures LeafOk(tok, v) <==> (StartsWith(tok, "?") && v.Null?) || LeafOk(StripLeft(tok, '?'), v)
    decreases |tok|
  {
    if StartsWith(tok, "?") {
      LeafMeaning(tok[1..], v);
      StrippedOnce(tok[1..]);
    }
  }

  lemma {:induction false} StrippedOnce(s: string)
    ensures !StartsWith(StripLeft(s, '?'), "?")
  {
  }

  // --------------------------------------------------- what the tokens mean

  predicate IsWhole(v: Value, k: int) { v == Num(k as real) }

  /** The type tokens. */
  lemma {:induction false} TypeReads(v: Value)
    ensures LeafOk("str", v) <==> v.Str?
    ensures LeafOk("int", v) <==> exists k :: IsWhole(v, k)
    ensures LeafOk("num", v) <==> v.Num?
    ensures LeafOk("bool", v) <==> v == Bool(true) || v == Bool(false)
    ensures LeafOk("obj", v) <==> v.Obj?
    ensures LeafOk("list", v) <==> v.Arr?
    ensures LeafOk("any", v)
  {
    NoMark("str", v);
    NoMark("int", v);
    NoMark("num", v);
    NoMark("bool", v);
    NoMark("obj", v);
    NoMark("list", v);
    NoMark("any", v);
    hide LeafOk;
    if v.Num? && v.n == v.n.Floor as real {
      assert IsWhole(v, v.n.Floor);
    }
  }

  /** No other token accepts anything. */
  lemma {:induction false} UnknownToken(tok: string, v: Value)
    requires !StartsWith(tok, "?") && !StartsWith(tok, "const:") && !StartsWith(tok, "enum:")
    requires tok !in {"str", "int", "num", "bool", "obj", "list", "any"}
    ensures !LeafOk(tok, v)
  {
  }

  lemma {:induction false} NoMark(tok: string, v: Value)
    requires |tok| < 5 && (tok == "" || tok[0] !in "?ce")
    ensures LeafOk(tok, v) <==> TypeOk(tok, v)
  {
  }

  /** An optional token takes null besides. */
  lemma {:induction false} OptionalReads(tok: string, v: Value)
    ensures LeafOk("?" + tok, v) <==> v == Null || LeafOk(tok, v)
  {
    assert ("?" + tok)[1..] == tok;
    hide TypeOk, ConstEq, EnumOk;
  }

  /** A listed option: text between bars. */
  lemma {:induction false} EnumReads(options: string, v: Value)
    ensures LeafOk("enum:" + options, v) <==> v.Str? && Piece(options, '|', v.s)
  {
    var tok := "enum:" + options;
    assert tok[5..] == options && tok[0] == 'e' && "enum:" <= tok;
    if v.Str? {
      PieceReads(options, '|', v.s);
    }
    hide Split, Piece, TypeOk, ConstEq;
  }

  /** A constant: a boolean, a whole number, or else the text itself. */
  lemma {:induction false} ConstReads(text: string, v: Value)
    ensures LeafOk("const:" + text, v) <==>
            if text == "true" then v == Bool(true) else if text == "false" then v == Bool(false)
            else if Atoi(text).Some? then v == Num(Atoi(text).value as real) else v == Str(text)
  {
    var tok := "const:" + text;
    assert tok[6..] == text && tok[0] == 'c' && "const:" <= tok;
    hide TypeOk, EnumOk, Atoi;
  }

  /** Decimal digits, the usual way. */
  function Digits(n: nat): (s: string)
    ensures s != "" && forall i :: 0 <= i < |s| ==> '0' <= s[i] <= '9'
  {
    var last := ['0' + (n % 10) as char];
    if n < 10 then last else Digits(n / 10) + last
  }

  lemma {:induction false} DigitsBack(n: nat)
    ensures DigitsValue(Digits(n)) == n
    decreases n
  {
    var last: string := ['0' + (n % 10) as char];
    if n < 10 {
      assert last[..0] == "";
    } else {
      DigitsBack(n / 10);
      var s := Digits(n / 10) + last;
      assert s[..|s| - 1] == Digits(n / 10) && s[|s| - 1] == last[0];
    }
  }

  /** Numbers as they are written, within 64 bits. */
  lemma {:induction false} AtoiReads(n: nat, s: string)
    requires s == Digits(n)
    ensures Atoi(s) == if n < 0x8000_0000_0000_0000 then Some(n) else None
    ensures Atoi("+" + s) == if n < 0x8000_0000_0000_0000 then Some(n) else None
    ensures Atoi("-" + s) == if n <= 0x8000_0000_0000_0000 then Some(-(n as int)) else None
  {
    DigitsBack(n);
    hide Digits, DigitsValue;
    assert '0' <= s[0] <= '9' && AllDigits(s);
    assert ("+" + s)[1..] == s && ("-" + s)[1..] == s && ("+" + s)[0] == '+' && ("-" + s)[0] == '-';
    hide AllDigits;
  }

  /** Anything else is no number. */
  lemma {:induction false} AtoiOnlyNumbers(s: string)
    requires Atoi(s).Some?
    ensures var digits := if s != "" && (s[0] == '+' || s[0] == '-') then s[1..] else s;
            digits != "" && forall c :: c in digits ==> c in "0123456789"
  {
    var digits := if s != "" && (s[0] == '+' || s[0] == '-') then s[1..] else s;
    assert AllDigits(digits);
    forall c | c in digits ensures c in "0123456789" {
      assert '0' <= c <= '9';
      assert "0123456789"[c as int - 48] == c;
    }
  }

  // ------------------------------------------------------------------ schemas

  predicate Optional(spec: Value) { spec.Str? && StartsWith(spec.s, "?") }

  /** A key may be missing when its schema is a text with a question mark in front. */
  lemma {:induction false} MissingReads(spec: Value)
    ensures Optional(spec) <==> exists tok: string :: spec == Str("?" + tok)
  {
    if spec.Str? {
      AffixReads(spec.s, "?");
    }
    hide StartsWith;
  }

  /** What a schema means. */
  predicate Satisfies(schema: Value, v: Value)
    decreases schema
  {
    match schema
    case Str(tok) => LeafOk(tok, v)
    case Obj(fields) =>
      if "oneOf" in fields then
        fields["oneOf"].Arr? && exists i :: 0 <= i < |fields["oneOf"].items| && Satisfies(fields["oneOf"].items[i], v)
      else
        v.Obj? && forall k :: k in fields ==>
          if k in v.fields then Satisfies(fields[k], v.fields[k]) else Optional(fields[k])
    case _ => false
  }

  /** How a check ends; it panics on a `oneOf` that is no list, if it comes to it. */
  datatype Outcome = Accepted | Rejected | Panicked

  /** The list of alternatives of a schema, where it has one. */
  function Alternatives(schema: Value): Option<seq<Value>> {
    if schema.Obj? && "oneOf" in schema.fields && schema.fields["oneOf"].Arr? then Some(schema.fields["oneOf"].items) else None
  }

  predicate IsObject(schema: Value) { schema.Obj? && "oneOf" !in schema.fields }

  predicate NoList(schema: Value) { schema.Obj? && "oneOf" in schema.fields && !schema.fields["oneOf"].Arr? }

  /** Some order of visiting keys comes to a `oneOf` that is no list. */
  ghost predicate MayPanic(schema: Value, v: Value)
    decreases schema
  {
    if IsObject(schema) then
      v.Obj? && exists k :: k in schema.fields && k in v.fields && MayPanic(schema.fields[k], v.fields[k])
    else if Alternatives(schema).Some? then
      var alts := schema.fields["oneOf"].items;
      exists i :: 0 <= i < |alts| && (forall j :: 0 <= j < i ==> !Satisfies(alts[j], v)) && MayPanic(alts[i], v)
    else NoList(schema)
  }

  /**
   How a check may end, over every order in which objects are visited: alternatives in
   turn, the keys of an object in any order up to the first that does not pass.
   */
  ghost predicate CanEnd(schema: Value, v: Value, o: Outcome)
    decreases schema, 1
  {
    if IsObject(schema) && v.Obj? then
      if o.Accepted? then forall k :: k in schema.fields ==> KeyEnds(schema, v, k, Accepted)
      else
        exists before: set<string>, k ::
          k !in before && (forall b :: b in before ==> KeyEnds(schema, v, b, Accepted)) && KeyEnds(schema, v, k, o)
    else if Alternatives(schema).Some? then
      var alts := schema.fields["oneOf"].items;
      if o.Rejected? then forall i :: 0 <= i < |alts| ==> CanEnd(alts[i], v, Rejected)
      else exists i :: 0 <= i < |alts| && (forall j :: 0 <= j < i ==> CanEnd(alts[j], v, Rejected)) && CanEnd(alts[i], v, o)
    else o == if NoList(schema) then Panicked else if schema.Str? && LeafOk(schema.s, v) then Accepted else Rejected
  }

  /** How visiting one key may end. */
  ghost predicate KeyEnds(schema: Value, v: Value, k: string, o: Outcome)
    decreases schema, 0
  {
    && IsObject(schema) && v.Obj? && k in schema.fields
    && if k in v.fields then CanEnd(schema.fields[k], v.fields[k], o)
       else o == if Optional(schema.fields[k]) then Accepted else Rejected
  }

  // The parts of these definitions by name.

  predicate KeyOk(schema: Value, v: Value, k: string) {
    && IsObject(schema) && v.Obj? && k in schema.fields
    && if k in v.fields then Satisfies(schema.fields[k], v.fields[k]) else Optional(schema.fields[k])
  }

  ghost predicate KeyMayPanic(schema: Value, v: Value, k: string) {
    IsObject(schema) && v.Obj? && k in schema.fields && k in v.fields && MayPanic(schema.fields[k], v.fields[k])
  }

  ghost predicate PanicsAt(alts: seq<Value>, v: Value, i: nat) {
    i < |alts| && (forall j :: 0 <= j < i ==> !Satisfies(alts[j], v)) && MayPanic(alts[i], v)
  }

  /** The check ends at alternative `i`, all before it having rejected. */
  ghost predicate EndsAt(alts: seq<Value>, v: Value, i: nat, o: Outcome) {
    i < |alts| && (forall j :: 0 <= j < i ==> CanEnd(alts[j], v, Rejected)) && CanEnd(alts[i], v, o)
  }

  lemma {:induction false} StopsAt(schema: Value, v: Value, before: set<string>, k: string, o: Outcome)
    requires IsObject(schema) && v.Obj? && !o.Accepted? && k !in before
    requires (forall b :: b in before ==> KeyEnds(schema, v, b, Accepted)) && KeyEnds(schema, v, k, o)
    ensures CanEnd(schema, v, o)
  {
    hide LeafOk, Optional;
  }

  lemma {:induction false} EndsThere(schema: Value, alts: seq<Value>, v: Value, i: nat, o: Outcome)
    requires Alternatives(schema) == Some(alts) && EndsAt(alts, v, i, o) && !o.Rejected?
    ensures CanEnd(schema, v, o)
  {
    hide LeafOk, Optional;
  }

  lemma {:induction false} Ended(schema: Value, alts: seq<Value>, v: Value, o: Outcome) returns (i: nat)
    requires Alternatives(schema) == Some(alts) && !o.Rejected? && CanEnd(schema, v, o)
    ensures EndsAt(alts, v, i, o)
  {
    hide LeafOk, Optional, KeyEnds;
    i :| i < |alts| && (forall j :: 0 <= j < i ==> CanEnd(alts[j], v, Rejected)) && CanEnd(alts[i], v, o);
  }

  lemma {:induction false} AllReject(schema: Value, alts: seq<Value>, v: Value)
    requires Alternatives(schema) == Some(alts)
    ensures CanEnd(schema, v, Rejected) <==> forall i :: 0 <= i < |alts| ==> CanEnd(alts[i], v, Rejected)
  {
    hide LeafOk, Optional, KeyEnds;
  }

  /** `checkOneOf`: the first alternative that accepts. */
  method CheckOneOf(ghost schema: Value, alts: seq<Value>, v: Value) returns (r: Outcome)
    requires Alternatives(schema) == Some(alts)
    ensures CanEnd(schema, v, r)
    ensures r.Accepted? ==> Satisfies(schema, v)
    ensures r.Rejected? ==> !Satisfies(schema, v)
    ensures r.Panicked? ==> MayPanic(schema, v)
    decreases schema, 0
  {
    OutcomesExact(schema, v);
    hide Satisfies, MayPanic;
    for i := 0 to |alts|
      invariant forall k :: 0 <= k < i ==> CanEnd(alts[k], v, Rejected)
    {
      assert alts[i] < schema.fields["oneOf"];
      var one := Check(alts[i], v);
      if !one.Rejected? {
        EndsThere(schema, alts, v, i, one);
        return one;
      }
    }
    AllReject(schema, alts, v);
    return Rejected;
  }

  /** `checkObject`: the keys in any order, stopping at the first that fails. */
  method CheckObject(schema: Value, v: Value) returns (r: Outcome)
    requires IsObject(schema)
    ensures CanEnd(schema, v, r)
    ensures r.Accepted? ==> Satisfies(schema, v)
    ensures r.Rejected? ==> !Satisfies(schema, v)
    ensures r.Panicked? ==> MayPanic(schema, v)
    decreases schema, 0
  {
    OutcomesExact(schema, v);
    hide Satisfies, MayPanic;
    if !v.Obj? {
      return Rejected;
    }
    var left := schema.fields.Keys;
    while left != {}
      invariant left <= schema.fields.Keys
      invariant forall k :: k in schema.fields && k !in left ==> KeyEnds(schema, v, k, Accepted)
      decreases left
    {
      var k :| k in left;
      ghost var before := schema.fields.Keys - left;
      var spec := schema.fields[k];
      if k !in v.fields {
        if !Optional(spec) {
          StopsAt(schema, v, before, k, Rejected);
          return Rejected;
        }
      } else {
        var one := Check(spec, v.fields[k]);
        if !one.Accepted? {
          StopsAt(schema, v, before, k, one);
          return one;
        }
      }
      left := left - {k};
    }
    return Accepted;
  }

  /** `check`: ends as some order of visiting allows, for any schema at all; by the lemmas below that fixes the verdict. */
  method Check(schema: Value, v: Value) returns (r: Outcome)
    ensures CanEnd(schema, v, r)
    ensures r.Accepted? ==> Satisfies(schema, v)
    ensures r.Rejected? ==> !Satisfies(schema, v)
    ensures r.Panicked? ==> MayPanic(schema, v)
    decreases schema, 1
  {
    match schema
    case Obj(fields) =>
      if "oneOf" in fields {
        if !fields["oneOf"].Arr? {
          r := Panicked;
        } else {
          r := CheckOneOf(schema, fields["oneOf"].items, v);
        }
      } else {
        r := CheckObject(schema, v);
      }
      OutcomesExact(schema, v);
    case Str(tok) => r := if LeafOk(tok, v) then Accepted else Rejected;
    case _ => r := Rejected;
  }

  /**
   Accepting and rejecting follow the meaning in whatever order; panicking can happen
   exactly when some order comes to a `oneOf` that is no list; and where it cannot, the
   meaning decides how the check ends.
   */
  lemma {:induction false} OutcomesExact(schema: Value, v: Value)
    ensures CanEnd(schema, v, Accepted) ==> Satisfies(schema, v)
    ensures CanEnd(schema, v, Rejected) ==> !Satisfies(schema, v)
    ensures CanEnd(schema, v, Panicked) <==> MayPanic(schema, v)
    ensures !MayPanic(schema, v) ==> CanEnd(schema, v, if Satisfies(schema, v) then Accepted else Rejected)
    decreases schema
  {
    hide CanEnd, MayPanic, Satisfies;
    if IsObject(schema) && v.Obj? {
      forall k | k in schema.fields && k in v.fields ensures EndsExactly(schema.fields[k], v.fields[k]) {
        OutcomesExact(schema.fields[k], v.fields[k]);
      }
      ObjectExact(schema, v);
    } else if Alternatives(schema).Some? {
      var alts := Alternatives(schema).value;
      forall i | 0 <= i < |alts| ensures EndsExactly(alts[i], v) {
        assert alts[i] < schema.fields["oneOf"];
        OutcomesExact(alts[i], v);
      }
      AlternativesExact(schema, alts, v);
    } else {
      SimpleExact(schema, v);
    }
  }

  ghost predicate EndsExactly(schema: Value, v: Value) {
    && (CanEnd(schema, v, Accepted) ==> Satisfies(schema, v))
    && (CanEnd(schema, v, Rejected) ==> !Satisfies(schema, v))
    && (CanEnd(schema, v, Panicked) <==> MayPanic(schema, v))
    && (!MayPanic(schema, v) ==> CanEnd(schema, v, if Satisfies(schema, v) then Accepted else Rejected))
  }

  lemma {:induction false} SimpleExact(schema: Value, v: Value)
    requires !(IsObject(schema) && v.Obj?) && Alternatives(schema).None?
    ensures EndsExactly(schema, v)
  {
    hide LeafOk, Optional, KeyEnds;
  }

  // An object: each key for itself.

  lemma {:induction false} ObjectUnfolds(schema: Value, v: Value, o: Outcome)
    requires IsObject(schema) && v.Obj?
    ensures CanEnd(schema, v, Accepted) <==> forall k :: k in schema.fields ==> KeyEnds(schema, v, k, Accepted)
    ensures !o.Accepted? ==> (CanEnd(schema, v, o) <==> exists k :: KeyEnds(schema, v, k, o))
  {
    hide Satisfies, Optional, LeafOk;
    if k :| KeyEnds(schema, v, k, o) && !o.Accepted? {
      StopsAt(schema, v, {}, k, o);
    }
  }

  lemma {:induction false} PanicUnfolds(schema: Value, v: Value)
    requires IsObject(schema) && v.Obj?
    ensures MayPanic(schema, v) <==> exists k :: KeyMayPanic(schema, v, k)
  {
    if MayPanic(schema, v) {
      var k :| k in schema.fields && k in v.fields && MayPanic(schema.fields[k], v.fields[k]);
      assert KeyMayPanic(schema, v, k);
    }
  }

  lemma {:induction false} MeaningUnfolds(schema: Value, v: Value)
    requires IsObject(schema) && v.Obj?
    ensures Satisfies(schema, v) <==> forall k :: k in schema.fields ==> KeyOk(schema, v, k)
  {
    hide Optional;
    if !Satisfies(schema, v) {
      var k :| k in schema.fields && !(if k in v.fields then Satisfies(schema.fields[k], v.fields[k]) else Optional(schema.fields[k]));
      assert !KeyOk(schema, v, k);
    }
  }

  lemma {:induction false} KeyExact(schema: Value, v: Value, k: string)
    requires IsObject(schema) && v.Obj? && k in schema.fields
    requires k in v.fields ==> EndsExactly(schema.fields[k], v.fields[k])
    ensures KeyEnds(schema, v, k, Accepted) ==> KeyOk(schema, v, k)
    ensures KeyEnds(schema, v, k, Rejected) ==> !KeyOk(schema, v, k)
    ensures KeyEnds(schema, v, k, Panicked) <==> KeyMayPanic(schema, v, k)
    ensures !KeyMayPanic(schema, v, k) ==> KeyEnds(schema, v, k, if KeyOk(schema, v, k) then Accepted else Rejected)
  {
    hide CanEnd, Satisfies, MayPanic, Optional;
  }

  lemma {:induction false} ObjectExact(schema: Value, v: Value)
    requires IsObject(schema) && v.Obj?
    requires forall k :: k in schema.fields && k in v.fields ==> EndsExactly(schema.fields[k], v.fields[k])
    ensures EndsExactly(schema, v)
  {
    hide CanEnd, Satisfies, MayPanic;
    ObjectUnfolds(schema, v, Rejected);
    ObjectUnfolds(schema, v, Panicked);
    MeaningUnfolds(schema, v);
    PanicUnfolds(schema, v);
    forall k | k in schema.fields
      ensures KeyEnds(schema, v, k, Accepted) ==> KeyOk(schema, v, k)
      ensures KeyEnds(schema, v, k, Rejected) ==> !KeyOk(schema, v, k)
      ensures KeyEnds(schema, v, k, Panicked) <==> KeyMayPanic(schema, v, k)
      ensures !KeyMayPanic(schema, v, k) ==> KeyEnds(schema, v, k, if KeyOk(schema, v, k) then Accepted else Rejected)
    {
      KeyExact(schema, v, k);
    }
    if !MayPanic(schema, v) && !Satisfies(schema, v) {
      var k :| k in schema.fields && !KeyOk(schema, v, k);
      StopsAt(schema, v, {}, k, Rejected);
    }
    if k :| KeyEnds(schema, v, k, Rejected) {
      assert !KeyOk(schema, v, k);
    }
    if k :| KeyEnds(schema, v, k, Panicked) {
      assert KeyMayPanic(schema, v, k);
    }
    if k :| KeyMayPanic(schema, v, k) {
      StopsAt(schema, v, {}, k, Panicked);
    }
    if !MayPanic(schema, v) && Satisfies(schema, v) {
      assert forall k :: k in schema.fields ==> KeyOk(schema, v, k) && !KeyMayPanic(schema, v, k);
      assert forall k :: k in schema.fields ==> KeyEnds(schema, v, k, Accepted);
    }
  }

  // Alternatives: in turn.

  lemma {:induction false} SomeAlternative(schema: Value, alts: seq<Value>, v: Value)
    requires Alternatives(schema) == Some(alts)
    ensures Satisfies(schema, v) <==> exists i :: 0 <= i < |alts| && Satisfies(alts[i], v)
  {
  }

  lemma {:induction false} SomePanic(schema: Value, alts: seq<Value>, v: Value)
    requires Alternatives(schema) == Some(alts)
    ensures MayPanic(schema, v) <==> exists i :: PanicsAt(alts, v, i)
  {
    hide LeafOk, Optional, Satisfies;
    if MayPanic(schema, v) {
      var i: nat :| i < |alts| && (forall j :: 0 <= j < i ==> !Satisfies(alts[j], v)) && MayPanic(alts[i], v);
      assert PanicsAt(alts, v, i);
    }
  }

  lemma {:induction false} AlternativesExact(schema: Value, alts: seq<Value>, v: Value)
    requires Alternatives(schema) == Some(alts)
    requires forall i :: 0 <= i < |alts| ==> EndsExactly(alts[i], v)
    ensures EndsExactly(schema, v)
  {
    hide CanEnd, Satisfies, MayPanic;
    SomePanic(schema, alts, v);
    SomeAlternative(schema, alts, v);
    AllReject(schema, alts, v);
    if i: nat :| PanicsAt(alts, v, i) {
      var f := FirstPanic(alts, v, i);
      assert forall j :: 0 <= j <= f ==> EndsExactly(alts[j], v);
      EndsThere(schema, alts, v, f, Panicked);
    } else {
      var f := FirstAccepting(alts, v);
      forall j | 0 <= j <= f && j < |alts| ensures EndsExactly(alts[j], v) && !MayPanic(alts[j], v) {
        assert !PanicsAt(alts, v, j);
      }
      if f < |alts| {
        EndsThere(schema, alts, v, f, Accepted);
      }
    }
    EndedExactly(schema, alts, v);
  }

  lemma {:induction false} EndedExactly(schema: Value, alts: seq<Value>, v: Value)
    requires Alternatives(schema) == Some(alts)
    requires forall i :: 0 <= i < |alts| ==> EndsExactly(alts[i], v)
    ensures CanEnd(schema, v, Panicked) ==> MayPanic(schema, v)
    ensures CanEnd(schema, v, Accepted) ==> Satisfies(schema, v)
  {
    hide CanEnd, Satisfies, MayPanic;
    SomePanic(schema, alts, v);
    SomeAlternative(schema, alts, v);
    if CanEnd(schema, v, Panicked) {
      var i := Ended(schema, alts, v, Panicked);
      assert forall j :: 0 <= j <= i ==> EndsExactly(alts[j], v);
      assert PanicsAt(alts, v, i);
    }
    if CanEnd(schema, v, Accepted) {
      var i := Ended(schema, alts, v, Accepted);
      assert EndsExactly(alts[i], v);
    }
  }

  /** The first alternative on which a panic is possible. */
  lemma {:induction false} FirstPanic(alts: seq<Value>, v: Value, i: nat) returns (f: nat)
    requires i < |alts| && MayPanic(alts[i], v)
    ensures f <= i && MayPanic(alts[f], v) && forall j :: 0 <= j < f ==> !MayPanic(alts[j], v)
  {
    hide MayPanic;
    f := 0;
    while !MayPanic(alts[f], v)
      invariant f <= i && forall j :: 0 <= j < f ==> !MayPanic(alts[j], v)
      decreases i - f
    {
      f := f + 1;
    }
  }

  /** The first alternative whose meaning holds, or the end. */
  lemma {:induction false} FirstAccepting(alts: seq<Value>, v: Value) returns (f: nat)
    ensures f <= |alts| && (f < |alts| ==> Satisfies(alts[f], v)) && forall j :: 0 <= j < f ==> !Satisfies(alts[j], v)
  {
    hide Satisfies;
    f := 0;
    while f < |alts| && !Satisfies(alts[f], v)
      invariant f <= |alts| && forall j :: 0 <= j < f ==> !Satisfies(alts[j], v)
      decreases |alts| - f
    {
      f := f + 1;
    }
  }

  const NO_LIST: Value := Obj(map["oneOf" := Num(5.0)])

  /** For instance a `oneOf` that is a number panics on every value. */
  lemma {:induction false} NoListPanics(v: Value, o: Outcome)
    ensures CanEnd(NO_LIST, v, o) <==> o == Panicked
  {
  }

  /** Every `oneOf` is a list. */
  predicate Walkable(schema: Value)
    decreases schema
  {
    if !schema.Obj? then true
    else if "oneOf" in schema.fields then
      schema.fields["oneOf"].Arr? &&
      forall i :: 0 <= i < |schema.fields["oneOf"].items| ==> Walkable(schema.fields["oneOf"].items[i])
    else forall k :: k in schema.fields ==> Walkable(schema.fields[k])
  }

  /** A schema panics on no value at all if every `oneOf` in it is a list. */
  lemma {:induction false} WalkableIsSafe(schema: Value, v: Value)
    requires Walkable(schema)
    ensures !MayPanic(schema, v)
    decreases schema
  {
    if schema.Obj? {
      if "oneOf" in schema.fields {
        var alts := schema.fields["oneOf"].items;
        forall i | 0 <= i < |alts| ensures !MayPanic(alts[i], v) {
          assert alts[i] < schema.fields["oneOf"];
          WalkableIsSafe(alts[i], v);
        }
      } else if v.Obj? {
        forall k | k in schema.fields && k in v.fields ensures !MayPanic(schema.fields[k], v.fields[k]) {
          WalkableIsSafe(schema.fields[k], v.fields[k]);
        }
      }
    }
  }

  /** A schema with these alternatives; what else it holds is ignored. */
  function OneOf(fields: Dict, alts: seq<Value>): Value { Obj(fields["oneOf" := Arr(alts)]) }

  /** For a walkable schema the check ends in one way only. */
  lemma {:induction false} WalkableDecides(schema: Value, v: Value, o: Outcome)
    requires Walkable(schema)
    ensures CanEnd(schema, v, o) <==> o == if Satisfies(schema, v) then Accepted else Rejected
  {
    hide CanEnd, Satisfies, MayPanic, Walkable;
    WalkableIsSafe(schema, v);
    OutcomesExact(schema, v);
    match o {
      case Accepted =>
      case Rejected =>
      case Panicked =>
    }
  }

  /** The order of alternatives does not matter to what a schema means, nor to how a check ends if every `oneOf` is a list. */
  lemma {:induction false} AlternativesAnyOrder(fields: Dict, xs: seq<Value>, ys: seq<Value>, v: Value)
    requires multiset(xs) == multiset(ys)
    ensures Satisfies(OneOf(fields, xs), v) <==> Satisfies(OneOf(fields, ys), v)
    ensures Walkable(OneOf(fields, xs)) ==> Walkable(OneOf(fields, ys)) && forall o :: CanEnd(OneOf(fields, xs), v, o) <==> CanEnd(OneOf(fields, ys), v, o)
  {
    OneWay(xs, ys, v);
    OneWay(ys, xs, v);
    SomeAlternative(OneOf(fields, xs), xs, v);
    SomeAlternative(OneOf(fields, ys), ys, v);
    hide CanEnd, Satisfies, MayPanic;
    if Walkable(OneOf(fields, xs)) {
      WalkableAnyOrder(fields, xs, ys);
      hide Walkable;
      forall o ensures CanEnd(OneOf(fields, xs), v, o) <==> CanEnd(OneOf(fields, ys), v, o) {
        WalkableDecides(OneOf(fields, xs), v, o);
        WalkableDecides(OneOf(fields, ys), v, o);
      }
    }
  }

  lemma {:induction false} WalkableAnyOrder(fields: Dict, xs: seq<Value>, ys: seq<Value>)
    requires multiset(xs) == multiset(ys) && Walkable(OneOf(fields, xs))
    ensures Walkable(OneOf(fields, ys))
  {
    assert OneOf(fields, xs).fields["oneOf"].items == xs && OneOf(fields, ys).fields["oneOf"].items == ys;
    forall i | 0 <= i < |ys| ensures Walkable(ys[i]) {
      assert ys[i] in multiset(ys);
      assert ys[i] in xs;
      var j :| 0 <= j < |xs| && xs[j] == ys[i];
    }
  }

  /** Otherwise it may: behind an alternative that takes anything a malformed one is never reached. */
  lemma {:induction false} OrderCanMatter(fields: Dict, v: Value, o: Outcome)
    ensures CanEnd(OneOf(fields, [Str("any"), NO_LIST]), v, o) <==> o == Accepted
    ensures CanEnd(OneOf(fields, [NO_LIST, Str("any")]), v, o) <==> o == Panicked
  {
    forall p ensures CanEnd(Str("any"), v, p) <==> p == Accepted {
      TakesAny(v, p);
    }
    forall p ensures CanEnd(NO_LIST, v, p) <==> p == Panicked {
      NoListPanics(v, p);
    }
    OnlyFirst(fields, [Str("any"), NO_LIST], v, Accepted, o);
    OnlyFirst(fields, [NO_LIST, Str("any")], v, Panicked, o);
  }

  /** If the first alternative can only end in one way, and not reject, that is how the check ends. */
  lemma {:induction false} OnlyFirst(fields: Dict, alts: seq<Value>, v: Value, first: Outcome, o: Outcome)
    requires alts != [] && !first.Rejected? && forall p :: CanEnd(alts[0], v, p) <==> p == first
    ensures CanEnd(OneOf(fields, alts), v, o) <==> o == first
  {
    hide CanEnd;
    EndsThere(OneOf(fields, alts), alts, v, 0, first);
    AllReject(OneOf(fields, alts), alts, v);
    assert !CanEnd(alts[0], v, Rejected);
    if CanEnd(OneOf(fields, alts), v, o) && !o.Rejected? {
      var i := Ended(OneOf(fields, alts), alts, v, o);
      assert i == 0;
    }
  }

  lemma {:induction false} TakesAny(v: Value, o: Outcome)
    ensures CanEnd(Str("any"), v, o) <==> o == Accepted
  {
    assert "any"[0] != 'c' && "any"[0] != 'e' && "any"[0] != '?';
  }

  lemma {:induction false} OneWay(xs: seq<Value>, ys: seq<Value>, v: Value)
    requires multiset(xs) == multiset(ys)
    ensures (exists i :: 0 <= i < |xs| && Satisfies(xs[i], v)) ==> exists i :: 0 <= i < |ys| && Satisfies(ys[i], v)
  {
    if i :| 0 <= i < |xs| && Satisfies(xs[i], v) {
      assert xs[i] in multiset(xs);
      assert xs[i] in ys;
    }
  }

  // --------------------------------------------------------------- extra keys

  /** The keys a schema names, at any depth. */
  ghost function Names(schema: Value): set<string>
    decreases schema
  {
    if !schema.Obj? then {}
    else if "oneOf" in schema.fields then
      if schema.fields["oneOf"].Arr? then
        set i, n | 0 <= i < |schema.fields["oneOf"].items| && n in Names(schema.fields["oneOf"].items[i]) :: n
      else {}
    else schema.fields.Keys + set k, n | k in schema.fields && n in Names(schema.fields[k]) :: n
  }

  /** Two values that differ only in keys outside `names`, and inside lists. */
  ghost predicate AgreeOn(names: set<string>, v: Value, w: Value)
    decreases v
  {
    match v
    case Obj(fields) =>
      w.Obj? && forall k :: k in names ==>
        && (k in fields <==> k in w.fields)
        && (k in fields ==> AgreeOn(names, fields[k], w.fields[k]))
    case Arr(_) => w.Arr?
    case _ => v == w
  }

  lemma {:induction false} LeafAgrees(tok: string, names: set<string>, v: Value, w: Value)
    requires AgreeOn(names, v, w)
    ensures LeafOk(tok, v) <==> LeafOk(tok, w)
    decreases |tok|
  {
    if StartsWith(tok, "?") {
      LeafAgrees(tok[1..], names, v, w);
    }
  }

  /**
   Keys the schema never names, added, removed or changed at any depth, alter neither its
   meaning nor what a check may end in, panics included.
   */
  lemma {:induction false} UnnamedKeysIrrelevant(schema: Value, names: set<string>, v: Value, w: Value)
    requires Names(schema) <= names && AgreeOn(names, v, w)
    ensures Satisfies(schema, v) <==> Satisfies(schema, w)
    ensures MayPanic(schema, v) <==> MayPanic(schema, w)
    ensures forall o :: CanEnd(schema, v, o) <==> CanEnd(schema, w, o)
  {
    hide CanEnd, MayPanic, Satisfies, Names, AgreeOn;
    SameMeaning(schema, names, v, w);
    forall o ensures CanEnd(schema, v, o) <==> CanEnd(schema, w, o) {
      SameEnds(schema, names, v, w, o);
    }
    OutcomesExact(schema, v);
    OutcomesExact(schema, w);
  }

  lemma {:induction false} SameMeaning(schema: Value, names: set<string>, v: Value, w: Value)
    requires Names(schema) <= names && AgreeOn(names, v, w)
    ensures Satisfies(schema, v) <==> Satisfies(schema, w)
    decreases schema
  {
    match schema
    case Str(tok) => LeafAgrees(tok, names, v, w);
    case Obj(fields) =>
      if "oneOf" in fields {
        if fields["oneOf"].Arr? {
          var items := fields["oneOf"].items;
          forall i | 0 <= i < |items| ensures Satisfies(items[i], v) <==> Satisfies(items[i], w) {
            assert items[i] < fields["oneOf"];
            SameMeaning(items[i], names, v, w);
          }
        }
      } else if v.Obj? {
        forall k | k in fields && k in v.fields
          ensures k in w.fields && (Satisfies(fields[k], v.fields[k]) <==> Satisfies(fields[k], w.fields[k]))
        {
          assert k in Names(schema);
          SameMeaning(fields[k], names, v.fields[k], w.fields[k]);
        }
        forall k | k in fields && k !in v.fields ensures k !in w.fields {
          assert k in Names(schema);
        }
      }
    case _ =>
  }

  lemma {:induction false} SameEnds(schema: Value, names: set<string>, v: Value, w: Value, o: Outcome)
    requires Names(schema) <= names && AgreeOn(names, v, w)
    ensures CanEnd(schema, v, o) <==> CanEnd(schema, w, o)
    decreases schema
  {
    hide CanEnd;
    if IsObject(schema) && v.Obj? {
      forall k, p | k in schema.fields ensures KeyEnds(schema, v, k, p) <==> KeyEnds(schema, w, k, p) {
        assert k in Names(schema);
        if k in v.fields {
          SameEnds(schema.fields[k], names, v.fields[k], w.fields[k], p);
        }
      }
      SameKeys(schema, v, w, o);
    } else if Alternatives(schema).Some? {
      var alts := Alternatives(schema).value;
      forall i, p | 0 <= i < |alts| ensures CanEnd(alts[i], v, p) <==> CanEnd(alts[i], w, p) {
        assert alts[i] < schema.fields["oneOf"];
        SameEnds(alts[i], names, v, w, p);
      }
      SameAlternatives(schema, alts, v, w, o);
    } else {
      SameLeaf(schema, names, v, w, o);
    }
  }

  lemma {:induction false} SameLeaf(schema: Value, names: set<string>, v: Value, w: Value, o: Outcome)
    requires AgreeOn(names, v, w) && !(IsObject(schema) && v.Obj?) && Alternatives(schema).None?
    ensures CanEnd(schema, v, o) <==> CanEnd(schema, w, o)
  {
    hide LeafOk, KeyEnds;
    if schema.Str? {
      LeafAgrees(schema.s, names, v, w);
    }
  }

  lemma {:induction false} SameAlternatives(schema: Value, alts: seq<Value>, v: Value, w: Value, o: Outcome)
    requires Alternatives(schema) == Some(alts)
    requires forall i, p :: 0 <= i < |alts| ==> (CanEnd(alts[i], v, p) <==> CanEnd(alts[i], w, p))
    ensures CanEnd(schema, v, o) <==> CanEnd(schema, w, o)
  {
    hide CanEnd;
    AllReject(schema, alts, v);
    AllReject(schema, alts, w);
    if !o.Rejected? && CanEnd(schema, v, o) {
      var i := Ended(schema, alts, v, o);
      EndsThere(schema, alts, w, i, o);
    }
    if !o.Rejected? && CanEnd(schema, w, o) {
      var i := Ended(schema, alts, w, o);
      EndsThere(schema, alts, v, i, o);
    }
  }

  lemma {:induction false} SameKeys(schema: Value, v: Value, w: Value, o: Outcome)
    requires IsObject(schema) && v.Obj? && w.Obj?
    requires forall k, p :: k in schema.fields ==> (KeyEnds(schema, v, k, p) <==> KeyEnds(schema, w, k, p))
    ensures CanEnd(schema, v, o) <==> CanEnd(schema, w, o)
  {
    hide CanEnd;
    ObjectUnfolds(schema, v, o);
    ObjectUnfolds(schema, w, o);
    if k :| KeyEnds(schema, v, k, o) && !o.Accepted? {
      StopsAt(schema, w, {}, k, o);
    }
    if k :| KeyEnds(schema, w, k, o) && !o.Accepted? {
      StopsAt(schema, v, {}, k, o);
    }
    if o.Accepted? {
      assert o == Accepted;
      assert forall k :: k in schema.fields ==> (KeyEnds(schema, v, k, Accepted) <==> KeyEnds(schema, w, k, Accepted));
    }
  }

  /** In particular further keys at the top change nothing. */
  lemma {:induction false} ExtraKeysAccepted(schema: Value, m: Dict, extra: Dict)
    requires extra.Keys !! Names(schema)
    ensures Satisfies(schema, Obj(m)) <==> Satisfies(schema, Obj(m + extra))
    ensures MayPanic(schema, Obj(m)) <==> MayPanic(schema, Obj(m + extra))
    ensures forall o :: CanEnd(schema, Obj(m), o) <==> CanEnd(schema, Obj(m + extra), o)
  {
    hide CanEnd, MayPanic, Satisfies;
    var names := Names(schema);
    forall k | k in m ensures AgreeOn(names, m[k], m[k]) {
      AgreeSelf(names, m[k]);
    }
    assert AgreeOn(names, Obj(m), Obj(m + extra));
    UnnamedKeysIrrelevant(schema, names, Obj(m), Obj(m + extra));
  }

  lemma {:induction false} AgreeSelf(names: set<string>, v: Value)
    ensures AgreeOn(names, v, v)
    decreases v
  {
    if v.Obj? {
      forall k | k in v.fields ensures AgreeOn(names, v.fields[k], v.fields[k]) {
        AgreeSelf(names, v.fields[k]);
      }
    }
  }

  // -------------------------------------------------------------- conformance

  type Contracts = map<string, Dict>

  function Examples(c: Dict): seq<Value> {
    if Get(c, "examples").Arr? then Get(c, "examples").items else []
  }

  /** The result of an example when it is an object. */
  function ResultOf(ex: Value): Option<Dict> {
    var r := Get(Fields(ex), "result");
    if r.Obj? then Some(r.fields) else None
  }

  predicate IsOkResult(r: Option<Dict>) {
    r.Some? && Get(r.value, "ok") == Bool(true)
  }

  predicate EffectOk(route: string, c: Dict) {
    var effect := AsText(Get(c, "effect"));
    effect in {"query", "command"} && (Contains(route, "/query/") <==> effect == "query")
  }

  predicate ExampleOk(c: Dict, ex: Value) {
    && Satisfies(Get(c, "inp"), Obj(Fields(Get(Fields(ex), "payload"))))
    && (IsOkResult(ResultOf(ex)) ==> Satisfies(Get(c, "out"), Obj(ResultOf(ex).value)))
  }

  function InverseArgs(r: Option<Dict>): Dict {
    if r.None? then map[] else Fields(Get(Fields(Get(r.value, "inverse")), "args"))
  }

  predicate Reversible(c: Dict) { Get(c, "reversible") == Bool(true) }

  function InverseRoute(c: Dict): string { AsText(Get(c, "inverseRoute")) }

  predicate RouteConforms(contracts: Contracts, route: string)
    requires route in contracts
  {
    var c := contracts[route];
    && EffectOk(route, c)
    && (Reversible(c) ==> InverseRoute(c) in contracts)
    && (forall ex :: ex in Examples(c) ==> ExampleOk(c, ex))
    && (Reversible(c) ==> forall ex :: ex in Examples(c) ==>
          Satisfies(Get(contracts[InverseRoute(c)], "inp"), Obj(InverseArgs(ResultOf(ex)))))
  }

  // ------------------------------------------- the fields of a contract

  predicate Named(d: Dict, k: string, x: Value) { k in d && d[k] == x }

  /** An object under a name, or the empty one. */
  predicate ObjectUnder(d: Dict, k: string, fields: Dict) {
    if k in d && d[k].Obj? then fields == d[k].fields else fields == map[]
  }

  /** The schema under a name; one that is missing accepts nothing. */
  predicate Accepts(c: Dict, k: string, v: Value) { k in c && Satisfies(c[k], v) }

  lemma {:induction false} SchemaReads(c: Dict, k: string, v: Value)
    ensures Satisfies(Get(c, k), v) <==> Accepts(c, k, v)
  {
  }

  /** An example's payload meets `inp`; its result, if it says ok, meets `out`. */
  lemma {:induction false} ExampleReads(c: Dict, ex: Dict, payload: Dict, result: Dict)
    requires ObjectUnder(ex, "payload", payload) && ObjectUnder(ex, "result", result)
    ensures ExampleOk(c, Obj(ex)) <==>
            Accepts(c, "inp", Obj(payload)) && (Named(result, "ok", Bool(true)) ==> Accepts(c, "out", Obj(result)))
  {
    SchemaReads(c, "inp", Obj(payload));
    SchemaReads(c, "out", Obj(result));
    hide Satisfies;
  }

  /** The effect and the verb in the route say the same. */
  lemma {:induction false} EffectReads(route: string, c: Dict)
    ensures EffectOk(route, c) <==>
            (Named(c, "effect", Str("query")) && exists a, b :: route == a + "/query/" + b) ||
            (Named(c, "effect", Str("command")) && !exists a, b :: route == a + "/query/" + b)
  {
    ContainsReads(route, "/query/");
    hide Contains;
  }

  /** An inverse's arguments stand under `inverse`, `args` of the result. */
  lemma {:induction false} InverseArgsReads(ex: Dict, result: Dict, inverse: Dict, args: Dict)
    requires ObjectUnder(ex, "result", result) && ObjectUnder(result, "inverse", inverse) && ObjectUnder(inverse, "args", args)
    ensures InverseArgs(ResultOf(Obj(ex))) == args
  {
  }

  /** What conforming is, field by field. */
  lemma {:induction false} ConformReads(contracts: Contracts, route: string)
    requires route in contracts
    ensures var c := contracts[route];
            RouteConforms(contracts, route) <==>
            && EffectOk(route, c)
            && ("examples" in c && c["examples"].Arr? ==> forall ex :: ex in c["examples"].items ==> ExampleOk(c, ex))
            && (Named(c, "reversible", Bool(true)) ==>
                  var inverse := if "inverseRoute" in c && c["inverseRoute"].Str? then c["inverseRoute"].s else "";
                  && inverse in contracts
                  && ("examples" in c && c["examples"].Arr? ==> forall ex :: ex in c["examples"].items ==>
                        Accepts(contracts[inverse], "inp", Obj(InverseArgs(ResultOf(ex))))))
  {
    hide Satisfies, EffectOk, ExampleOk, InverseArgs, ResultOf;
    var c := contracts[route];
    if Reversible(c) && InverseRoute(c) in contracts {
      forall ex | ex in Examples(c)
        ensures Satisfies(Get(contracts[InverseRoute(c)], "inp"), Obj(InverseArgs(ResultOf(ex)))) <==>
                Accepts(contracts[InverseRoute(c)], "inp", Obj(InverseArgs(ResultOf(ex))))
      {
        SchemaReads(contracts[InverseRoute(c)], "inp", Obj(InverseArgs(ResultOf(ex))));
      }
    }
  }

  /** An example that is no object, or on which one of its checks may panic. */
  ghost predicate ExampleMayPanic(c: Dict, ex: Value) {
    || !ex.Obj?
    || MayPanic(Get(c, "inp"), Obj(Fields(Get(Fields(ex), "payload"))))
    || (IsOkResult(ResultOf(ex)) && MayPanic(Get(c, "out"), Obj(ResultOf(ex).value)))
  }

  ghost predicate RouteMayPanic(contracts: Contracts, route: string)
    requires route in contracts
  {
    var c := contracts[route];
    exists ex :: ex in Examples(c) &&
      (ExampleMayPanic(c, ex) ||
       (Reversible(c) && InverseRoute(c) in contracts &&
        MayPanic(Get(contracts[InverseRoute(c)], "inp"), Obj(InverseArgs(ResultOf(ex))))))
  }

  /** How one example may end: its payload first, then its result if that says ok. */
  ghost predicate ExampleEnds(c: Dict, ex: Value, o: Outcome) {
    var payload, res := Obj(Fields(Get(Fields(ex), "payload"))), ResultOf(ex);
    if !ex.Obj? then o.Panicked?
    else
      || (!o.Accepted? && CanEnd(Get(c, "inp"), payload, o))
      || (CanEnd(Get(c, "inp"), payload, Accepted) &&
          if IsOkResult(res) then CanEnd(Get(c, "out"), Obj(res.value), o) else o.Accepted?)
  }

  /** Examples in turn, up to the first that does not pass. */
  ghost predicate ExamplesEnd(c: Dict, o: Outcome) {
    var exs := Examples(c);
    if o.Accepted? then forall i :: 0 <= i < |exs| ==> ExampleEnds(c, exs[i], Accepted)
    else exists i :: 0 <= i < |exs| && (forall j :: 0 <= j < i ==> ExampleEnds(c, exs[j], Accepted)) && ExampleEnds(c, exs[i], o)
  }

  ghost predicate ArgsEnd(inp: Value, ex: Value, o: Outcome) {
    if !ex.Obj? then o.Panicked? else CanEnd(inp, Obj(InverseArgs(ResultOf(ex))), o)
  }

  ghost predicate InverseArgsEnd(c: Dict, inp: Value, o: Outcome) {
    var exs := Examples(c);
    if o.Accepted? then forall i :: 0 <= i < |exs| ==> ArgsEnd(inp, exs[i], Accepted)
    else exists i :: 0 <= i < |exs| && (forall j :: 0 <= j < i ==> ArgsEnd(inp, exs[j], Accepted)) && ArgsEnd(inp, exs[i], o)
  }

  /** How the checks of one route may end. */
  ghost predicate RouteEnds(contracts: Contracts, route: string, o: Outcome)
    requires route in contracts
  {
    var c := contracts[route];
    if !EffectOk(route, c) || (Reversible(c) && InverseRoute(c) !in contracts) then o.Rejected?
    else if !Reversible(c) then ExamplesEnd(c, o)
    else
      || (!o.Accepted? && ExamplesEnd(c, o))
      || (ExamplesEnd(c, Accepted) && InverseArgsEnd(c, Get(contracts[InverseRoute(c)], "inp"), o))
  }

  /** The routes `before` pass, and the next one does not. */
  ghost predicate FailsAt(contracts: Contracts, before: set<string>, route: string, o: Outcome) {
    && before <= contracts.Keys && route in contracts && route !in before
    && (forall b :: b in before ==> RouteEnds(contracts, b, Accepted))
    && !o.Accepted? && RouteEnds(contracts, route, o)
  }

  method CheckExamples(c: Dict) returns (r: Outcome)
    ensures ExamplesEnd(c, r)
    ensures r.Accepted? ==> forall ex :: ex in Examples(c) ==> ex.Obj? && ExampleOk(c, ex)
    ensures r.Rejected? ==> exists ex :: ex in Examples(c) && !ExampleOk(c, ex)
    ensures r.Panicked? ==> exists ex :: ex in Examples(c) && ExampleMayPanic(c, ex)
  {
    hide Satisfies, MayPanic, CanEnd;
    var exs := Examples(c);
    for i := 0 to |exs|
      invariant forall k :: 0 <= k < i ==> exs[k].Obj? && ExampleOk(c, exs[k]) && ExampleEnds(c, exs[k], Accepted)
    {
      var ex := exs[i];
      assert ex in exs;
      if !ex.Obj? {
        return Panicked;
      }
      var one := Check(Get(c, "inp"), Obj(Fields(Get(Fields(ex), "payload"))));
      if !one.Accepted? {
        return one;
      }
      var res := ResultOf(ex);
      if IsOkResult(res) {
        one := Check(Get(c, "out"), Obj(res.value));
        if !one.Accepted? {
          return one;
        }
      }
    }
    return Accepted;
  }

  /** After the examples were checked, so they are objects. */
  method CheckInverseArgs(c: Dict, inp: Value) returns (r: Outcome)
    ensures InverseArgsEnd(c, inp, r)
    ensures r.Accepted? ==> forall ex :: ex in Examples(c) ==> Satisfies(inp, Obj(InverseArgs(ResultOf(ex))))
    ensures r.Rejected? ==> exists ex :: ex in Examples(c) && !Satisfies(inp, Obj(InverseArgs(ResultOf(ex))))
    ensures r.Panicked? ==> exists ex :: ex in Examples(c) && (!ex.Obj? || MayPanic(inp, Obj(InverseArgs(ResultOf(ex)))))
  {
    hide Satisfies, MayPanic, CanEnd;
    var exs := Examples(c);
    for i := 0 to |exs|
      invariant forall k :: 0 <= k < i ==> Satisfies(inp, Obj(InverseArgs(ResultOf(exs[k])))) && ArgsEnd(inp, exs[k], Accepted)
    {
      var ex := exs[i];
      assert ex in exs;
      if !ex.Obj? {
        return Panicked;
      }
      var one := Check(inp, Obj(InverseArgs(ResultOf(ex))));
      if !one.Accepted? {
        return one;
      }
    }
    return Accepted;
  }

  method RouteConform(contracts: Contracts, route: string) returns (r: Outcome)
    requires route in contracts
    ensures RouteEnds(contracts, route, r)
    ensures r.Accepted? ==> RouteConforms(contracts, route)
    ensures r.Rejected? ==> !RouteConforms(contracts, route)
    ensures r.Panicked? ==> RouteMayPanic(contracts, route)
  {
    hide Satisfies, MayPanic, ExampleOk, EffectOk, ExamplesEnd, InverseArgsEnd;
    var c := contracts[route];
    if !EffectOk(route, c) {
      return Rejected;
    }
    if Reversible(c) && InverseRoute(c) !in contracts {
      return Rejected;
    }
    r := CheckExamples(c);
    if r.Accepted? && Reversible(c) {
      r := CheckInverseArgs(c, Get(contracts[InverseRoute(c)], "inp"));
    }
  }

  /** `conform`: the routes in any order. */
  method Conform(contracts: Contracts) returns (r: Outcome)
    ensures if r.Accepted? then forall route :: route in contracts ==> RouteEnds(contracts, route, Accepted)
            else exists before, route :: FailsAt(contracts, before, route, r)
    ensures r.Accepted? ==> forall route :: route in contracts ==> RouteConforms(contracts, route)
    ensures r.Rejected? ==> exists route :: route in contracts && !RouteConforms(contracts, route)
    ensures r.Panicked? ==> exists route :: route in contracts && RouteMayPanic(contracts, route)
  {
    hide RouteConforms, RouteMayPanic, RouteEnds;
    var left := contracts.Keys;
    while left != {}
      invariant left <= contracts.Keys
      invariant forall route :: route in contracts && route !in left ==> RouteConforms(contracts, route)
      invariant forall route :: route in contracts && route !in left ==> RouteEnds(contracts, route, Accepted)
      decreases left
    {
      var route :| route in left;
      var one := RouteConform(contracts, route);
      if !one.Accepted? {
        assert FailsAt(contracts, contracts.Keys - left, route, one);
        return one;
      }
      left := left - {route};
    }
    return Accepted;
  }

  /** `okExample`: the first example whose result says ok. */
  function OkExample(exs: seq<Value>): Option<Dict> {
    if exs == [] then None
    else if IsOkResult(ResultOf(exs[0])) then ResultOf(exs[0])
    else OkExample(exs[1..])
  }

  lemma {:induction false} OkExampleIsExample(exs: seq<Value>)
    requires OkExample(exs).Some?
    ensures exists ex :: ex in exs && ResultOf(ex) == OkExample(exs) && IsOkResult(ResultOf(ex))
    decreases |exs|
  {
    if IsOkResult(ResultOf(exs[0])) {
      assert exs[0] in exs;
    } else {
      OkExampleIsExample(exs[1..]);
    }
  }

  /**
   What passing the gate buys: every route's golden example is accepted by its own
   output contract, and every example of a reversible route carries arguments its
   inverse route accepts.
   */
  lemma {:induction false} ConformingExamples(contracts: Contracts, route: string)
    requires route in contracts && forall r :: r in contracts ==> RouteConforms(contracts, r)
    ensures var golden := OkExample(Examples(contracts[route]));
            golden.Some? ==> Satisfies(Get(contracts[route], "out"), Obj(golden.value))
    ensures Reversible(contracts[route]) ==>
              InverseRoute(contracts[route]) in contracts &&
              forall ex :: ex in Examples(contracts[route]) ==>
                Satisfies(Get(contracts[InverseRoute(contracts[route])], "inp"), Obj(InverseArgs(ResultOf(ex))))
  {
    hide Satisfies;
    var exs := Examples(contracts[route]);
    assert RouteConforms(contracts, route);
    if OkExample(exs).Some? {
      OkExampleIsExample(exs);
      var ex :| ex in exs && ResultOf(ex) == OkExample(exs) && IsOkResult(ResultOf(ex));
      assert ExampleOk(contracts[route], ex);
    }
  }
}
