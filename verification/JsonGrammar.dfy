/** The grammar of `JsonTokens` against the printing of values: it reads exactly
    the lexemes that some value is written with, and reads that value. */
module JsonGrammar {
  import opened JsonTokens
  import opened Wrappers

  // ---------------------------------------------------------------- printing

  function Printed(v: Json): (l: seq<Lexeme>)
    ensures |l| > 0 && !l[0].RBracket? && !l[0].RBrace?
  {
    match v
    case JString(text) => [Text(text)]
    case JNull => [Null]
    case JNumber => [Number(true)]
    case JArray(items) => [LBracket] + PrintedItems(items, true)
    case JObject(members) => [LBrace] + PrintedMembers(members, true)
  }

  function Separator(first: bool): seq<Lexeme> {
    if first then [] else [Comma]
  }

  function PrintedItems(items: seq<Json>, first: bool): seq<Lexeme> {
    if items == [] then [RBracket] else Separator(first) + Printed(items[0]) + PrintedItems(items[1..], false)
  }

  function Head(key: string, first: bool): seq<Lexeme> {
    Separator(first) + [Text(key), Colon]
  }

  function PrintedMembers(members: seq<Member>, first: bool): seq<Lexeme> {
    if members == [] then [RBrace]
    else Head(members[0].key, first) + Printed(members[0].value) + PrintedMembers(members[1..], false)
  }

  lemma ItemsPrinted(v: Json, rest: seq<Json>, first: bool)
    ensures PrintedItems([v] + rest, first) == Separator(first) + Printed(v) + PrintedItems(rest, false)
  {
    assert ([v] + rest)[1..] == rest;
  }

  lemma MembersPrinted(m: Member, rest: seq<Member>, first: bool)
    ensures PrintedMembers([m] + rest, first) == Head(m.key, first) + Printed(m.value) + PrintedMembers(rest, false)
  {
    assert ([m] + rest)[1..] == rest;
  }

  // --------------------------------------------------------- places in a text

  /** These lexemes stand at `i`. */
  ghost predicate At(l: seq<Lexeme>, i: nat, part: seq<Lexeme>)
    decreases |part|
  {
    part == [] || (i < |l| && l[i] == part[0] && At(l, i + 1, part[1..]))
  }

  lemma {:induction false} AtSlice(l: seq<Lexeme>, i: nat, part: seq<Lexeme>)
    requires i <= |l|
    ensures At(l, i, part) <==> i + |part| <= |l| && l[i..i + |part|] == part
    decreases |part|
  {
    if part != [] && i < |l| {
      AtSlice(l, i + 1, part[1..]);
      if i + |part| <= |l| {
        assert l[i..i + |part|] == [l[i]] + l[i + 1..i + |part|];
        assert part == [part[0]] + part[1..];
      }
    }
  }

  lemma {:induction false} AtParts(l: seq<Lexeme>, i: nat, a: seq<Lexeme>, b: seq<Lexeme>)
    ensures At(l, i, a + b) <==> At(l, i, a) && At(l, i + |a|, b)
    decreases |a|
  {
    if a == [] {
      assert a + b == b;
    } else {
      assert (a + b)[1..] == a[1..] + b;
      AtParts(l, i + 1, a[1..], b);
    }
  }

  lemma AtOne(l: seq<Lexeme>, i: nat, x: Lexeme)
    ensures At(l, i, [x]) <==> i < |l| && l[i] == x
  {
    assert [x][1..] == [] && At(l, i + 1, []);
  }

  lemma AtThree(l: seq<Lexeme>, i: nat, a: seq<Lexeme>, b: seq<Lexeme>, c: seq<Lexeme>)
    ensures At(l, i, a + b + c) <==> At(l, i, a) && At(l, i + |a|, b) && At(l, i + |a| + |b|, c)
  {
    AtParts(l, i, a + b, c);
    AtParts(l, i, a, b);
  }

  lemma HeadAt(l: seq<Lexeme>, i: nat, key: string, first: bool)
    ensures var k := i + |Separator(first)|;
            At(l, i, Head(key, first)) <==> k + 1 < |l| && (first || l[i] == Comma) && l[k] == Text(key) && l[k + 1] == Colon
  {
    var k := i + |Separator(first)|;
    AtParts(l, i, Separator(first), [Text(key), Colon]);
    assert [Text(key), Colon] == [Text(key)] + [Colon];
    AtParts(l, k, [Text(key)], [Colon]);
    AtOne(l, i, Comma);
    AtOne(l, k, Text(key));
    AtOne(l, k + 1, Colon);
  }

  /** Where the parts of printed members stand, and how long they are. */
  lemma MembersAt(l: seq<Lexeme>, i: nat, m: Member, rest: seq<Member>, first: bool)
    ensures var (k, n) := (i + |Head(m.key, first)|, |Printed(m.value)|);
            At(l, i, PrintedMembers([m] + rest, first))
            <==> At(l, i, Head(m.key, first)) && At(l, k, Printed(m.value)) && At(l, k + n, PrintedMembers(rest, false))
    ensures |PrintedMembers([m] + rest, first)| == |Head(m.key, first)| + |Printed(m.value)| + |PrintedMembers(rest, false)|
  {
    MembersPrinted(m, rest, first);
    AtThree(l, i, Head(m.key, first), Printed(m.value), PrintedMembers(rest, false));
  }

  // ---------------------------------------------------- one step of the grammar

  /** Items that begin with `v` as written by `part`. */
  lemma ItemsRead(l: seq<Lexeme>, i: nat, first: bool, v: Json, part: seq<Lexeme>, rest: seq<Json>, tail: nat)
    requires At(l, i, Separator(first)) && At(l, i + |Separator(first)|, part) && |part| > 0 && !part[0].RBracket?
    requires var m := i + |Separator(first)| + |part|;
             Value(l, i + |Separator(first)|) == Some((v, m)) && Elements(l, m, false) == Some((rest, m + tail))
    ensures Elements(l, i, first) == Some(([v] + rest, i + |Separator(first)| + |part| + tail))
  {
    AtOne(l, i, Comma);
  }

  lemma MembersRead(l: seq<Lexeme>, i: nat, first: bool, m: Member, next: nat, rest: seq<Member>, end: nat)
    requires At(l, i, Head(m.key, first))
    requires Value(l, i + |Head(m.key, first)|) == Some((m.value, next)) && Members(l, next, false) == Some((rest, end))
    ensures Members(l, i, first) == Some(([m] + rest, end))
  {
    HeadAt(l, i, m.key, first);
  }

  /** What one step over items has read. */
  lemma ElementsUnfold(l: seq<Lexeme>, i: nat, first: bool) returns (v: Json, m: nat, rest: seq<Json>, end: nat)
    requires Elements(l, i, first).Some? && !l[i].RBracket?
    ensures At(l, i, Separator(first)) && i < m
    ensures Value(l, i + |Separator(first)|) == Some((v, m)) && Elements(l, m, false) == Some((rest, end))
    ensures Elements(l, i, first) == Some(([v] + rest, end))
  {
    AtOne(l, i, Comma);
    v, m := Value(l, i + |Separator(first)|).value.0, Value(l, i + |Separator(first)|).value.1;
    rest, end := Elements(l, m, false).value.0, Elements(l, m, false).value.1;
  }

  /** What one step over members has read. */
  lemma MembersUnfold(l: seq<Lexeme>, i: nat, first: bool) returns (x: Member, m: nat, rest: seq<Member>, end: nat)
    requires Members(l, i, first).Some? && !l[i].RBrace?
    ensures At(l, i, Head(x.key, first)) && i < m
    ensures Value(l, i + |Head(x.key, first)|) == Some((x.value, m)) && Members(l, m, false) == Some((rest, end))
    ensures Members(l, i, first) == Some(([x] + rest, end))
  {
    var k := i + |Separator(first)|;
    x, m := Member(l[k].text, Value(l, k + 2).value.0), Value(l, k + 2).value.1;
    rest, end := Members(l, m, false).value.0, Members(l, m, false).value.1;
    HeadAt(l, i, x.key, first);
  }

  // ------------------------------------------------- what is printed is read

  lemma {:induction false} PrintedIsRead(l: seq<Lexeme>, i: nat, v: Json)
    requires At(l, i, Printed(v))
    ensures Value(l, i) == Some((v, i + |Printed(v)|))
    decreases v
  {
    match v
    case JArray(items) =>
      AtParts(l, i, [LBracket], PrintedItems(items, true));
      AtOne(l, i, LBracket);
      PrintedItemsAreRead(l, i + 1, items, true);
    case JObject(members) =>
      AtParts(l, i, [LBrace], PrintedMembers(members, true));
      AtOne(l, i, LBrace);
      PrintedMembersAreRead(l, i + 1, members, true);
    case _ => AtOne(l, i, Printed(v)[0]);
  }

  lemma {:induction false} PrintedItemsAreRead(l: seq<Lexeme>, i: nat, items: seq<Json>, first: bool)
    requires At(l, i, PrintedItems(items, first))
    ensures Elements(l, i, first) == Some((items, i + |PrintedItems(items, first)|))
    decreases items
  {
    if items == [] {
      AtOne(l, i, RBracket);
    } else {
      var v, rest, k := items[0], items[1..], i + |Separator(first)|;
      assert [v] + rest == items;
      ItemsPrinted(v, rest, first);
      AtThree(l, i, Separator(first), Printed(v), PrintedItems(rest, false));
      PrintedIsRead(l, k, v);
      PrintedItemsAreRead(l, k + |Printed(v)|, rest, false);
      ItemsRead(l, i, first, v, Printed(v), rest, |PrintedItems(rest, false)|);
    }
  }

  lemma {:induction false} PrintedMembersAreRead(l: seq<Lexeme>, i: nat, members: seq<Member>, first: bool)
    requires At(l, i, PrintedMembers(members, first))
    ensures Members(l, i, first) == Some((members, i + |PrintedMembers(members, first)|))
    decreases members
  {
    if members == [] {
      AtOne(l, i, RBrace);
    } else {
      var m, rest, k := members[0], members[1..], i + |Head(members[0].key, first)|;
      assert [m] + rest == members;
      var next := k + |Printed(m.value)|;
      MembersAt(l, i, m, rest, first);
      PrintedIsRead(l, k, m.value);
      PrintedMembersAreRead(l, next, rest, false);
      MembersRead(l, i, first, m, next, rest, next + |PrintedMembers(rest, false)|);
    }
  }

  // ---------------------------------------------------- what is read is printed

  lemma {:induction false} ReadIsPrinted(l: seq<Lexeme>, i: nat)
    requires Value(l, i).Some?
    ensures var (v, end) := Value(l, i).value; At(l, i, Printed(v)) && end == i + |Printed(v)|
    decreases |l| - i, 0
  {
    var (v, end) := Value(l, i).value;
    AtOne(l, i, l[i]);
    match v
    case JArray(items) =>
      ReadItemsArePrinted(l, i + 1, true);
      AtParts(l, i, [LBracket], PrintedItems(items, true));
    case JObject(members) =>
      ReadMembersArePrinted(l, i + 1, true);
      AtParts(l, i, [LBrace], PrintedMembers(members, true));
    case _ =>
  }

  lemma {:induction false} ReadItemsArePrinted(l: seq<Lexeme>, i: nat, first: bool)
    requires Elements(l, i, first).Some?
    ensures var (items, end) := Elements(l, i, first).value;
            At(l, i, PrintedItems(items, first)) && end == i + |PrintedItems(items, first)|
    decreases |l| - i, 1
  {
    if l[i].RBracket? {
      AtOne(l, i, RBracket);
    } else {
      var v, m, rest, end := ElementsUnfold(l, i, first);
      ReadIsPrinted(l, i + |Separator(first)|);
      ReadItemsArePrinted(l, m, false);
      ItemsPrinted(v, rest, first);
      AtThree(l, i, Separator(first), Printed(v), PrintedItems(rest, false));
    }
  }

  lemma {:induction false} ReadMembersArePrinted(l: seq<Lexeme>, i: nat, first: bool)
    requires Members(l, i, first).Some?
    ensures var (members, end) := Members(l, i, first).value;
            At(l, i, PrintedMembers(members, first)) && end == i + |PrintedMembers(members, first)|
    decreases |l| - i, 1
  {
    if l[i].RBrace? {
      AtOne(l, i, RBrace);
    } else {
      var x, m, rest, end := MembersUnfold(l, i, first);
      ReadIsPrinted(l, i + |Head(x.key, first)|);
      ReadMembersArePrinted(l, m, false);
      MembersAt(l, i, x, rest, first);
    }
  }

  /** The grammar reads a value at some place, up to some end, exactly if the
      lexemes in between are the ones that this value is printed with. */
  lemma GrammarReadsPrinted(l: seq<Lexeme>, i: nat, v: Json, end: nat)
    ensures Value(l, i) == Some((v, end)) <==> i <= end <= |l| && l[i..end] == Printed(v)
  {
    if i <= |l| { AtSlice(l, i, Printed(v)); }
    if Value(l, i) == Some((v, end)) {
      ReadIsPrinted(l, i);
    } else if i <= end <= |l| && l[i..end] == Printed(v) {
      PrintedIsRead(l, i, v);
    }
  }
}
