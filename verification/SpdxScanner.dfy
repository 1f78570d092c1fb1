/** The streaming check of an in-toto SPDX attachment against the parsed tree. */
module SpdxScanner {
  import opened Wrappers
  import opened JsonTokens

  const STATEMENT_V01 := "https://in-toto.io/Statement/v0.1"
  const STATEMENT_V1 := "https://in-toto.io/Statement/v1"
  const SPDX_DOCUMENT := "https://spdx.dev/Document"
  const SPDX_ID := "SPDXRef-DOCUMENT"

  // -------------------------------------------------------- whole-tree check

  /** Every value given for `key`, in order. */
  function Values(ms: seq<Member>, key: string): seq<Json> {
    if ms == [] then []
    else (if ms[0].key == key then [ms[0].value] else []) + Values(ms[1..], key)
  }

  predicate IsSpdxPredicate(v: Json) {
    v.JObject? && Values(v.members, "SPDXID") == [JString(SPDX_ID)]
  }

  predicate IsSpdxStatement(v: Json) {
    && v.JObject?
    && (Values(v.members, "_type") == [JString(STATEMENT_V01)] || Values(v.members, "_type") == [JString(STATEMENT_V1)])
    && Values(v.members, "predicateType") == [JString(SPDX_DOCUMENT)]
    && |Values(v.members, "predicate")| == 1
    && IsSpdxPredicate(Values(v.members, "predicate")[0])
  }

  /** One JSON value, the right statement, and nothing after it. */
  predicate Accepts(l: seq<Lexeme>) {
    match Value(l, 0)
    case None => false
    case Some((v, end)) => end == |l| && IsSpdxStatement(v)
  }

  lemma {:induction false} ValuesOfParts(a: seq<Member>, b: seq<Member>, key: string)
    ensures Values(a + b, key) == Values(a, key) + Values(b, key)
  {
    if a == [] {
      assert a + b == b;
    } else {
      ValuesOfParts(a[1..], b, key);
      assert (a + b)[0] == a[0] && (a + b)[1..] == a[1..] + b;
      var first := if a[0].key == key then [a[0].value] else [];
      assert first + (Values(a[1..], key) + Values(b, key)) == first + Values(a[1..], key) + Values(b, key);
    }
  }

  // --------------------------------------------------- reading along objects

  /** The cursor stands between members of an object opened in state `outer`. */
  ghost predicate InObject(c: Cursor, first: bool, outer: State, stack: seq<State>) {
    c.state == (if first then ObjectStart else ObjectComma) && c.stack == stack + [outer] && ValueAllowed(outer)
  }

  /** One member read: its key token, then a value from the colon on. */
  lemma MemberStep(l: seq<Lexeme>, c: Cursor, first: bool, outer: State, stack: seq<State>)
    requires InObject(c, first, outer, stack) && MoreAt(l, c)
    ensures var (t, next) := TokenAt(l, c);
            if !t.Str? then Members(l, c.pos, first).None?
            else
              && next.state == ObjectColon && next.stack == c.stack && next.pos > c.pos
              && var r := ValueAt(l, next);
              if r.None? then Members(l, c.pos, first).None?
              else
                && InObject(r.value.1, false, outer, stack)
                && Members(l, c.pos, first) == Ahead(Member(t.text, r.value.0), Members(l, r.value.1.pos, false))
  {
  }

  /** The end of an object: the closing brace, or no object at all. */
  lemma ObjectEnd(l: seq<Lexeme>, c: Cursor, first: bool, outer: State, stack: seq<State>)
    requires InObject(c, first, outer, stack) && !MoreAt(l, c)
    ensures var (t, next) := TokenAt(l, c);
            if t.Eof? || t.SyntaxError? then Members(l, c.pos, first).None?
            else next == Cursor(c.pos + 1, After(outer), stack) && Members(l, c.pos, first) == Some(([], c.pos + 1))
  {
    assert (stack + [outer])[..|stack|] == stack;
  }

  ghost predicate InArray(c: Cursor, first: bool, outer: State, stack: seq<State>) {
    c.state == (if first then ArrayStart else ArrayComma) && c.stack == stack + [outer] && ValueAllowed(outer)
  }

  lemma ElementStep(l: seq<Lexeme>, c: Cursor, first: bool, outer: State, stack: seq<State>)
    requires InArray(c, first, outer, stack) && MoreAt(l, c)
    ensures var r := ValueAt(l, c);
            if r.None? then Elements(l, c.pos, first).None?
            else
              && InArray(r.value.1, false, outer, stack)
              && Elements(l, c.pos, first) == Ahead(r.value.0, Elements(l, r.value.1.pos, false))
  {
  }

  lemma ArrayEnd(l: seq<Lexeme>, c: Cursor, first: bool, outer: State, stack: seq<State>)
    requires InArray(c, first, outer, stack) && !MoreAt(l, c)
    ensures var (t, next) := TokenAt(l, c);
            if t.Eof? || t.SyntaxError? then Elements(l, c.pos, first).None?
            else next == Cursor(c.pos + 1, After(outer), stack) && Elements(l, c.pos, first) == Some(([], c.pos + 1))
  {
    assert (stack + [outer])[..|stack|] == stack;
  }

  // ---------------------------------------------------------------- scanners

  ghost predicate SameEnd<A, B>(whole: Option<(A, nat)>, rest: Option<(B, nat)>) {
    (whole.Some? <==> rest.Some?) && (whole.Some? ==> whole.value.1 == rest.value.1)
  }

  /** Reads past exactly one value. */
  method SkipJsonValue(d: Decoder) returns (ok: bool)
    requires d.at.state == ObjectColon || (d.at.state in {ArrayStart, ArrayComma} && d.More())
    modifies d
    ensures ok <==> ValueAt(d.lexemes, old(d.at)).Some?
    ensures ok ==> d.at == ValueAt(d.lexemes, old(d.at)).value.1
    decreases |d.lexemes| - d.at.pos, 0
  {
    ghost var l := d.lexemes;
    ghost var start := d.at;
    ghost var outer := Separated(l, start);
    var t := d.Token();
    if t.Eof? || t.SyntaxError? { return false; }
    if t != Delim('{') && t != Delim('[') {
      return true;
    }
    if t == Delim('{') {
      ok := SkipMembers(d, outer.state, outer.stack);
    } else {
      ok := SkipElements(d, outer.state, outer.stack);
    }
  }

  /** The members of an object whose opening brace was just read. */
  method SkipMembers(d: Decoder, ghost outer: State, ghost stack: seq<State>) returns (ok: bool)
    requires InObject(d.at, true, outer, stack)
    modifies d
    ensures ok <==> Members(d.lexemes, old(d.at.pos), true).Some?
    ensures ok ==> d.at == Cursor(Members(d.lexemes, old(d.at.pos), true).value.1, After(outer), stack)
    decreases |d.lexemes| - d.at.pos
  {
    var l, first := d.lexemes, true;
    ghost var begin := d.at.pos;
    while d.More()
      invariant InObject(d.at, first, outer, stack)
      invariant d.at.pos >= begin
      invariant SameEnd(Members(l, begin, true), Members(l, d.at.pos, first))
      decreases |l| - d.at.pos
    {
      MemberStep(l, d.at, first, outer, stack);
      var t := d.Token();
      if t.Eof? || t.SyntaxError? { return false; }
      ok := SkipJsonValue(d);
      if !ok { return; }
      first := false;
    }
    ObjectEnd(l, d.at, first, outer, stack);
    var t := d.Token();
    ok := !t.Eof? && !t.SyntaxError?;
  }

  /** The elements of an array whose opening bracket was just read. */
  method SkipElements(d: Decoder, ghost outer: State, ghost stack: seq<State>) returns (ok: bool)
    requires InArray(d.at, true, outer, stack)
    modifies d
    ensures ok <==> Elements(d.lexemes, old(d.at.pos), true).Some?
    ensures ok ==> d.at == Cursor(Elements(d.lexemes, old(d.at.pos), true).value.1, After(outer), stack)
    decreases |d.lexemes| - d.at.pos, 1
  {
    var l, first := d.lexemes, true;
    ghost var begin := d.at.pos;
    while d.More()
      invariant InArray(d.at, first, outer, stack)
      invariant d.at.pos >= begin
      invariant SameEnd(Elements(l, begin, true), Elements(l, d.at.pos, first))
      decreases |l| - d.at.pos
    {
      ElementStep(l, d.at, first, outer, stack);
      ok := SkipJsonValue(d);
      if !ok { return; }
      first := false;
    }
    ArrayEnd(l, d.at, first, outer, stack);
    var t := d.Token();
    ok := !t.Eof? && !t.SyntaxError?;
  }

  // ------------------------------------------------- members with a meaning

  /** The object whose members so far are `read`, given how the rest parses. */
  ghost function Whole(read: seq<Member>, rest: Option<(seq<Member>, nat)>): Option<(Json, nat)> {
    if rest.None? then None else Some((JObject(read + rest.value.0), rest.value.1))
  }

  /** Between two members: `whole` is how the object being read parses. */
  ghost predicate Reading(l: seq<Lexeme>, c: Cursor, first: bool, outer: Cursor, read: seq<Member>, whole: Option<(Json, nat)>) {
    && InObject(c, first, outer.state, outer.stack)
    && c.pos > outer.pos
    && whole == Whole(read, Members(l, c.pos, first))
  }

  lemma BeginReading(l: seq<Lexeme>, start: Cursor)
    requires TokenAt(l, start).0 == Delim('{')
    ensures var outer := Separated(l, start);
            && Reading(l, TokenAt(l, start).1, true, outer, [], Value(l, outer.pos))
            && (Value(l, outer.pos).Some? <==> ValueAt(l, start).Some?)
            && (Value(l, outer.pos).Some? ==> ValueAt(l, start).value.0 == Value(l, outer.pos).value.0)
            && (Value(l, outer.pos).Some? ==> ValueAt(l, start).value.1 == Cursor(Value(l, outer.pos).value.1, After(outer.state), outer.stack))
  {
    var outer := Separated(l, start);
    var rest := Members(l, outer.pos + 1, true);
    if rest.Some? { assert [] + rest.value.0 == rest.value.0; }
  }

  lemma ReadMember(l: seq<Lexeme>, c: Cursor, first: bool, outer: Cursor, read: seq<Member>, whole: Option<(Json, nat)>)
    requires Reading(l, c, first, outer, read, whole) && MoreAt(l, c)
    ensures var (t, next) := TokenAt(l, c);
            if !t.Str? then whole.None?
            else
              && next.state == ObjectColon && next.pos > c.pos
              && var r := ValueAt(l, next);
              if r.None? then whole.None?
              else Reading(l, r.value.1, false, outer, read + [Member(t.text, r.value.0)], whole)
  {
    MemberStep(l, c, first, outer.state, outer.stack);
    var (t, next) := TokenAt(l, c);
    if t.Str? && ValueAt(l, next).Some? {
      var (v, after) := ValueAt(l, next).value;
      var rest := Members(l, after.pos, false);
      if rest.Some? { assert read + ([Member(t.text, v)] + rest.value.0) == read + [Member(t.text, v)] + rest.value.0; }
    }
  }

  lemma EndReading(l: seq<Lexeme>, c: Cursor, first: bool, outer: Cursor, read: seq<Member>, whole: Option<(Json, nat)>)
    requires Reading(l, c, first, outer, read, whole) && !MoreAt(l, c)
    ensures var (t, next) := TokenAt(l, c);
            if t.Eof? || t.SyntaxError? then whole.None?
            else next == Cursor(c.pos + 1, After(outer.state), outer.stack) && whole == Some((JObject(read), c.pos + 1))
  {
    ObjectEnd(l, c, first, outer.state, outer.stack);
    assert read + [] == read;
  }

  /** What was read of a key stays at the front of all its values. */
  lemma ReadStays(l: seq<Lexeme>, c: Cursor, first: bool, outer: Cursor, read: seq<Member>, whole: Option<(Json, nat)>, key: string)
    requires Reading(l, c, first, outer, read, whole) && whole.Some?
    ensures whole.value.0.JObject? && Values(read, key) <= Values(whole.value.0.members, key)
  {
    ValuesOfParts(read, Members(l, c.pos, first).value.0, key);
  }

  lemma ValuesOfNext(read: seq<Member>, m: Member, key: string)
    ensures Values(read + [m], key) == Values(read, key) + (if m.key == key then [m.value] else [])
  {
    ValuesOfParts(read, [m], key);
  }

  /** A field was read at most once, as a string or as null; null and an absent
      field read as the empty string. */
  ghost predicate FieldRead(vs: seq<Json>, seen: bool, text: string) {
    || (!seen && vs == [] && text == "")
    || (seen && vs == [JString(text)])
    || (seen && vs == [JNull] && text == "")
  }

  /** An object whose identity is given at most once, as a string or as null. */
  predicate HasIdentity(v: Json) {
    v.JObject? && var vs := Values(v.members, "SPDXID"); vs == [] || (|vs| == 1 && (vs[0].JString? || vs[0].JNull?))
  }

  function IdentityOf(v: Json): string
    requires HasIdentity(v)
  {
    var vs := Values(v.members, "SPDXID");
    if vs != [] && vs[0].JString? then vs[0].text else ""
  }

  /** Reads exactly one object with at most one identity, and returns that. */
  method ScanSpdxPredicate(d: Decoder) returns (ok: bool, id: string)
    requires d.at.state == ObjectColon
    modifies d
    ensures ok ==> ValueAt(d.lexemes, old(d.at)).Some? && d.at == ValueAt(d.lexemes, old(d.at)).value.1
    ensures var r := ValueAt(d.lexemes, old(d.at));
            && (ok <==> r.Some? && HasIdentity(r.value.0))
            && (ok ==> id == IdentityOf(r.value.0))
  {
    ghost var l := d.lexemes;
    ghost var start := d.at;
    ghost var outer := Separated(l, start);
    ghost var whole := Value(l, outer.pos);
    var t := d.Token();
    if t != Delim('{') { return false, ""; }
    BeginReading(l, start);
    var first, seen := true, false;
    id := "";
    ghost var read: seq<Member> := [];
    while d.More()
      invariant Reading(l, d.at, first, outer, read, whole)
      invariant FieldRead(Values(read, "SPDXID"), seen, id)
      decreases |l| - d.at.pos
    {
      ReadMember(l, d.at, first, outer, read, whole);
      t := d.Token();
      if !t.Str? { return false, ""; }
      ghost var r := ValueAt(l, d.at);
      if r.Some? {
        ValuesOfNext(read, Member(t.text, r.value.0), "SPDXID");
        read := read + [Member(t.text, r.value.0)];
        if whole.Some? { ReadStays(l, r.value.1, false, outer, read, whole, "SPDXID"); }
      }
      first := false;
      if t == Str("SPDXID") {
        if seen { return false, ""; }
        seen := true;
        assert whole.Some? ==> r.Some? && Values(whole.value.0.members, "SPDXID")[0] == Values(read, "SPDXID")[0] == r.value.0;
        ok, id := d.DecodeString(id);
        if !ok { return; }
      } else {
        ok := SkipJsonValue(d);
        if !ok { return; }
      }
    }
    EndReading(l, d.at, first, outer, read, whole);
    t := d.Token();
    ok := !t.Eof? && !t.SyntaxError?;
  }

  /** The three fields of the statement, as far as members were read. */
  datatype Fields = Fields(seen: set<string>, statementType: string, predicateType: string, id: string)

  ghost predicate Collected(read: seq<Member>, f: Fields) {
    && FieldRead(Values(read, "_type"), "_type" in f.seen, f.statementType)
    && FieldRead(Values(read, "predicateType"), "predicateType" in f.seen, f.predicateType)
    && PredicateRead(Values(read, "predicate"), "predicate" in f.seen, f.id)
  }

  ghost predicate PredicateRead(vs: seq<Json>, seen: bool, id: string) {
    || (!seen && vs == [] && id == "")
    || (seen && |vs| == 1 && vs[0].JObject? && (id == SPDX_ID <==> IsSpdxPredicate(vs[0])))
  }

  /** The values read for `key` already rule the statement out. */
  ghost predicate RuledOutBy(read: seq<Member>, key: string) {
    var vs := Values(read, key);
    && key in {"_type", "predicateType", "predicate"}
    && (|| |vs| > 1
        || (|vs| == 1 && key != "predicate" && !vs[0].JString?)
        || (|vs| == 1 && key == "predicate" && !IsSpdxPredicate(vs[0])))
  }

  lemma RuledOutStays(l: seq<Lexeme>, c: Cursor, outer: Cursor, read: seq<Member>, whole: Option<(Json, nat)>, key: string)
    requires Reading(l, c, false, outer, read, whole) && RuledOutBy(read, key)
    ensures whole.Some? ==> !IsSpdxStatement(whole.value.0)
  {
    if whole.Some? {
      ReadStays(l, c, false, outer, read, whole, key);
      assert Values(read, key)[0] == Values(whole.value.0.members, key)[0];
    }
  }

  lemma NextValues(read: seq<Member>, m: Member)
    ensures Values(read + [m], "_type") == Values(read, "_type") + (if m.key == "_type" then [m.value] else [])
    ensures Values(read + [m], "predicateType") == Values(read, "predicateType") + (if m.key == "predicateType" then [m.value] else [])
    ensures Values(read + [m], "predicate") == Values(read, "predicate") + (if m.key == "predicate" then [m.value] else [])
  {
    ValuesOfNext(read, m, "_type");
    ValuesOfNext(read, m, "predicateType");
    ValuesOfNext(read, m, "predicate");
  }

  /** The value of one member of the statement. */
  method ScanMember(d: Decoder, key: string, f: Fields, ghost read: seq<Member>) returns (ok: bool, f': Fields)
    requires d.at.state == ObjectColon && Collected(read, f)
    modifies d
    ensures var r := ValueAt(d.lexemes, old(d.at));
            && (ok ==> r.Some? && d.at == r.value.1)
            && (r.Some? && ok ==> Collected(read + [Member(key, r.value.0)], f'))
            && (r.Some? && !ok ==> RuledOutBy(read + [Member(key, r.value.0)], key))
  {
    f' := f;
    ghost var r := ValueAt(d.lexemes, d.at);
    if r.Some? { NextValues(read, Member(key, r.value.0)); }
    if key == "_type" {
      if key in f.seen { return false, f'; }
      var text;
      ok, text := d.DecodeString(f.statementType);
      f' := f.(seen := f.seen + {key}, statementType := text);
    } else if key == "predicateType" {
      if key in f.seen { return false, f'; }
      var text;
      ok, text := d.DecodeString(f.predicateType);
      f' := f.(seen := f.seen + {key}, predicateType := text);
    } else if key == "predicate" {
      if key in f.seen { return false, f'; }
      var text;
      ok, text := ScanSpdxPredicate(d);
      f' := f.(seen := f.seen + {key}, id := text);
    } else {
      ok := SkipJsonValue(d);
    }
  }

  predicate Fitting(f: Fields) {
    && (f.statementType == STATEMENT_V01 || f.statementType == STATEMENT_V1)
    && f.predicateType == SPDX_DOCUMENT && f.id == SPDX_ID
  }

  /** The fields decide about a statement that was read to its end. */
  lemma FieldsDecide(l: seq<Lexeme>, read: seq<Member>, f: Fields, end: nat)
    requires Collected(read, f) && Value(l, 0) == Some((JObject(read), end))
    ensures Accepts(l) <==> end == |l| && Fitting(f)
  {
  }

  lemma OnlyEndIsEof(l: seq<Lexeme>, c: Cursor)
    ensures TokenAt(l, c).0.Eof? <==> Separated(l, c).pos >= |l|
    ensures c.state.Top? ==> Separated(l, c) == c
  {
  }

  /** The streaming check accepts exactly the statements the tree check accepts. */
  method ValidateInTotoSpdx(lexemes: seq<Lexeme>) returns (ok: bool)
    ensures ok <==> Accepts(lexemes)
  {
    ghost var l := lexemes;
    var d := new Decoder(lexemes);
    ghost var outer := d.at;
    ghost var whole := Value(l, 0);
    var t := d.Token();
    if t != Delim('{') { return false; }
    BeginReading(l, outer);
    var first, f := true, Fields({}, "", "", "");
    ghost var read: seq<Member> := [];
    while d.More()
      invariant Reading(l, d.at, first, outer, read, whole)
      invariant Collected(read, f)
      decreases |l| - d.at.pos
    {
      ReadMember(l, d.at, first, outer, read, whole);
      t := d.Token();
      if !t.Str? { return false; }
      ghost var r := ValueAt(l, d.at);
      ok, f := ScanMember(d, t.text, f, read);
      if r.Some? { read := read + [Member(t.text, r.value.0)]; }
      if !ok {
        if r.Some? { RuledOutStays(l, r.value.1, outer, read, whole, t.text); }
        return;
      }
      first := false;
    }
    EndReading(l, d.at, first, outer, read, whole);
    t := d.Token();
    if t.Eof? || t.SyntaxError? { return false; }
    FieldsDecide(l, read, f, d.at.pos);
    OnlyEndIsEof(l, d.at);
    if f.statementType != STATEMENT_V01 && f.statementType != STATEMENT_V1 { return false; }
    if f.predicateType != SPDX_DOCUMENT { return false; }
    if f.id != SPDX_ID { return false; }
    t := d.Token();
    ok := t.Eof?;
  }
}
