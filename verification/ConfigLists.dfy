/** Lists written on one line, and lines that make the loader refuse the file. */
module ConfigLists {
  import opened ConfigText
  import opened GoQuoting
  import opened Splitting
  import opened Text
  import opened Wrappers

  // ------------------------------------------------------------ inline lists

  /** The items as they stand in a list: each but the first after a blank. */
  function Spaced(items: seq<string>): seq<string> {
    seq(|items|, i requires 0 <= i < |items| => if i == 0 then items[i] else " " + items[i])
  }

  /** A list on one line, its items written as they are. */
  function Inline(items: seq<string>): string {
    "[" + (if items == [] then "" else Join(Spaced(items), ',')) + "]"
  }

  /** An item that means itself: no comma, no blanks or quotes around it. */
  predicate Verbatim(item: string) {
    item != "" && ',' !in item && TrimQuotes(item) == item
  }

  function Total(texts: seq<string>): nat {
    if texts == [] then 0 else |texts[0]| + Total(texts[1..])
  }

  function Commas(s: string): nat {
    if s == "" then 0 else (if s[0] == ',' then 1 else 0) + Commas(s[1..])
  }

  lemma {:induction false} TotalOfSum(a: seq<string>, b: seq<string>)
    ensures Total(a + b) == Total(a) + Total(b)
  {
    if a == [] {
      assert a + b == b;
    } else {
      TotalOfSum(a[1..], b);
      assert (a + b)[1..] == a[1..] + b;
    }
  }

  lemma {:induction false} UnquoteShrinks(t: string)
    ensures UnquoteAll(t).Some? ==> |UnquoteAll(t).value| <= |t|
    decreases |t|
  {
    if t != "" && UnquoteOne(t).Some? && |UnquoteOne(t).value.1| < |t| {
      UnquoteShrinks(UnquoteOne(t).value.1);
    }
  }

  lemma {:induction false} TrimRightShrinks(s: string)
    ensures |TrimRight(s)| <= |s| && (|TrimRight(s)| == |s| ==> TrimRight(s) == s)
  {
    if s != "" && IsSpace(Last(s)) { TrimRightShrinks(Front(s)); }
  }

  lemma {:induction false} TrimLeftShrinks(s: string)
    ensures |TrimLeft(s)| <= |s| && (|TrimLeft(s)| == |s| ==> TrimLeft(s) == s)
  {
    if s != "" && IsSpace(s[0]) { TrimLeftShrinks(s[1..]); }
  }

  /** Reading an item never adds a character, and leaves it as long only if it
      leaves it as it is. */
  lemma TrimQuotesShrinks(s: string)
    ensures |TrimQuotes(s)| <= |s| && (|TrimQuotes(s)| == |s| ==> TrimQuotes(s) == s)
  {
    TrimLeftShrinks(s);
    TrimRightShrinks(TrimLeft(s));
    var t := TrimSpace(s);
    if |t| >= 2 && t[0] == '"' && Last(t) == '"' { UnquoteShrinks(t[1..|t| - 1]); }
  }

  lemma BlankIsTrimmed(s: string)
    ensures TrimQuotes(" " + s) == TrimQuotes(s)
  {
    assert (" " + s)[1..] == s;
    assert TrimLeft(" " + s) == TrimLeft(s);
  }

  lemma {:induction false} PartsShrink(parts: seq<string>)
    ensures Total(ParseItems(parts)) <= Total(parts)
  {
    if parts != [] {
      var item := TrimQuotes(parts[0]);
      PartsShrink(parts[1..]);
      TrimQuotesShrinks(parts[0]);
      TotalOfSum(if item == "" then [] else [item], ParseItems(parts[1..]));
    }
  }

  lemma {:induction false} SplitDropsCommas(s: string)
    ensures Total(Split(s, ',')) == |s| - Commas(s)
  {
    if s != "" { SplitDropsCommas(s[1..]); }
  }

  lemma {:induction false} CommasCount(s: string)
    ensures Commas(s) == 0 <==> ',' !in s
  {
    if s != "" {
      CommasCount(s[1..]);
      assert s == [s[0]] + s[1..];
    }
  }

  /** What the list reader makes of the place of one item. */
  function Read(item: string): seq<string> {
    ParseItems(Split(item, ','))
  }

  /** It keeps at most the characters of the item, and all of them only of one
      that means itself; a blank before the item does not matter. */
  lemma ReadShrinks(item: string)
    ensures Total(Read(item)) <= |item|
    ensures item != "" && Total(Read(item)) == |item| ==> Verbatim(item)
    ensures Verbatim(item) ==> Read(item) == [item]
    ensures Read(" " + item) == Read(item)
  {
    PartsShrink(Split(item, ','));
    SplitDropsCommas(item);
    CommasCount(item);
    if ',' !in item {
      SplitWithout(item, ',');
      TrimQuotesShrinks(item);
      FlatMapOfOne(Item, item);
    }
    SplitStep(' ', item, ',');
    assert [' '] + item == " " + item;
    BlankIsTrimmed(Split(item, ',')[0]);
    assert Split(" " + item, ',')[1..] == Split(item, ',')[1..];
  }

  lemma {:induction false} NoEmptyItem(parts: seq<string>)
    ensures "" !in ParseItems(parts)
  {
    if parts != [] { NoEmptyItem(parts[1..]); }
  }

  lemma {:induction false} JoinIsReadInTurn(parts: seq<string>)
    requires parts != []
    ensures ParseItems(Split(Join(parts, ','), ',')) == FlatMap(Read, parts)
  {
    if |parts| == 1 {
      assert parts == [parts[0]];
      FlatMapOfOne(Read, parts[0]);
    } else {
      var rest := Join(parts[1..], ',');
      SplitAtSeparator(parts[0], rest, ',');
      FlatMapOfSum(Item, Split(parts[0], ','), Split(rest, ','));
      JoinIsReadInTurn(parts[1..]);
    }
  }

  lemma {:induction false} ReadAlike(read: string -> seq<string>, a: seq<string>, b: seq<string>)
    requires |a| == |b| && forall i | 0 <= i < |a| :: read(a[i]) == read(b[i])
    ensures FlatMap(read, a) == FlatMap(read, b)
  {
    if a != [] { ReadAlike(read, a[1..], b[1..]); }
  }

  /** A reader of single items that never gains a character, and loses none only
      from items that it reads as they are. */
  ghost predicate Shrinks(read: string -> seq<string>, plain: string -> bool) {
    && (forall x :: Total(read(x)) <= |x| && "" !in read(x))
    && (forall x :: x != "" && Total(read(x)) == |x| ==> plain(x))
    && (forall x :: plain(x) ==> read(x) == [x])
  }

  /** A list of items is then read as it is exactly if each of them is plain. */
  lemma ReadAsItIs(read: string -> seq<string>, plain: string -> bool, items: seq<string>)
    requires Shrinks(read, plain)
    ensures FlatMap(read, items) == items <==> forall item | item in items :: plain(item)
  {
    ReadAllShrinks(read, plain, items);
  }

  lemma {:induction false} ReadAllShrinks(read: string -> seq<string>, plain: string -> bool, items: seq<string>)
    requires Shrinks(read, plain)
    ensures "" !in FlatMap(read, items) && Total(FlatMap(read, items)) <= Total(items)
    ensures "" !in items && Total(FlatMap(read, items)) == Total(items) ==> forall item | item in items :: plain(item)
    ensures (forall item | item in items :: plain(item)) ==> FlatMap(read, items) == items
  {
    if items != [] {
      ReadAllShrinks(read, plain, items[1..]);
      TotalOfSum(read(items[0]), FlatMap(read, items[1..]));
      assert items == [items[0]] + items[1..];
    }
  }

  lemma ListReaderShrinks()
    ensures Shrinks(Read, Verbatim)
  {
    forall x ensures Total(Read(x)) <= |x| && "" !in Read(x) {
      ReadShrinks(x);
      NoEmptyItem(Split(x, ','));
    }
    forall x | x != "" && Total(Read(x)) == |x| ensures Verbatim(x) { ReadShrinks(x); }
    forall x | Verbatim(x) ensures Read(x) == [x] { ReadShrinks(x); }
  }

  lemma OnlySpaces(s: string)
    requires TrimSpace(s) == ""
    ensures ',' !in s
  {
    TrimRightIsPrefix(TrimLeft(s));
    TrimLeftTrims(s);
    NoCommaInSpaces(s);
  }

  lemma {:induction false} NoCommaInSpaces(s: string)
    requires TrimLeft(s) == ""
    ensures ',' !in s
  {
    if s != "" {
      NoCommaInSpaces(s[1..]);
      assert s == [s[0]] + s[1..];
    }
  }

  lemma BlankListIsEmpty(inner: string)
    requires TrimSpace(inner) == ""
    ensures ParseItems(Split(inner, ',')) == []
  {
    OnlySpaces(inner);
    SplitWithout(inner, ',');
    FlatMapOfOne(Item, inner);
  }

  lemma Unbracketed(inner: string)
    ensures var text := "[" + inner + "]";
            && TrimSpace(text) == text && TrimQuotes(text) == text
            && TrimSuffix(TrimPrefix(text, "["), "]") == inner
  {
    var text := "[" + inner + "]";
    TrimmedText(text);
    assert text[1..] == inner + "]";
  }

  /** Between brackets the list reader reads the parts between the commas. */
  lemma BracketsAreRead(inner: string)
    ensures TrimQuotes("[" + inner + "]") == "[" + inner + "]"
    ensures ParseList("[" + inner + "]") == ParseItems(Split(inner, ','))
  {
    Unbracketed(inner);
    if TrimSpace(inner) == "" { BlankListIsEmpty(inner); }
  }

  /** A written list is read item by item. */
  lemma InlineIsRead(items: seq<string>)
    ensures TrimQuotes(Inline(items)) == Inline(items) && ParseList(Inline(items)) == FlatMap(Read, items)
  {
    if items == [] {
      BracketsAreRead("");
      BlankListIsEmpty("");
    } else {
      var parts := Spaced(items);
      BracketsAreRead(Join(parts, ','));
      JoinIsReadInTurn(parts);
      forall i | 0 <= i < |items| ensures Read(parts[i]) == Read(items[i]) { ReadShrinks(items[i]); }
      ReadAlike(Read, parts, items);
    }
  }

  lemma ListIsApplied(fits: (Name, string) -> bool, c: Config, name: Name, text: string)
    requires IsListKey(name) && TrimQuotes(text) == text
    ensures Applied(fits, c, name, text) == Some(WithList(c, name, ParseList(text)))
    ensures ListOf(WithList(c, name, ParseList(text)), name) == ParseList(text)
  {
  }

  /** A list on one line gives back its items, in order, exactly if each of them
      means itself: it is not empty, has no comma, and no blanks or quotes around
      it that reading would take away. */
  lemma InlineListIsReadBack(fits: (Name, string) -> bool, c: Config, name: Name, items: seq<string>)
    requires IsListKey(name)
    ensures Applied(fits, c, name, Inline(items)).Some?
    ensures ListOf(Applied(fits, c, name, Inline(items)).value, name) == items <==> forall item | item in items :: Verbatim(item)
  {
    InlineIsRead(items);
    ListIsApplied(fits, c, name, Inline(items));
    ListReaderShrinks();
    ReadAsItIs(Read, Verbatim, items);
  }

  // --------------------------------------------------------- refused lines

  /** A line that is wrong wherever it stands: it continues no list, and is no
      setting, or heads a section that there is not, or heads one with a value. */
  predicate Malformed(raw: string) {
    var line, indent := Bare(raw), Indent(TrimBlanks(raw));
    && line != "" && (IsItem(line) ==> indent == 0)
    && (':' !in line || (indent == 0 && (Value(line) != "" || Key(line) !in SECTIONS)))
  }

  /** Such a line makes the loader refuse the whole file, whatever stands before
      and after it. */
  lemma MalformedLineRefuses(fits: (Name, string) -> bool, start: State, before: seq<string>, raw: string, after: seq<string>)
    requires Malformed(raw)
    ensures LoadLines(fits, start, before + [raw] + after).None?
  {
    LoadInTurn(fits, start, before + [raw], after);
    LoadInTurn(fits, start, before, [raw]);
    var mid := LoadLines(fits, start, before);
    if mid.Some? {
      assert Step(fits, mid.value, raw).None?;
      assert [raw][0] == raw;
    }
  }

  /** A setting that stands before any section, or whose text does not fit its
      field, does so too. */
  lemma UnfitValueRefuses(fits: (Name, string) -> bool, start: State, before: seq<string>, raw: string, after: seq<string>)
    requires var line := Bare(raw);
             line != "" && !IsItem(line) && ':' in line && Indent(TrimBlanks(raw)) > 0
    requires var mid := LoadLines(fits, start, before);
             mid.Some? && mid.value.section != "security"
             && (mid.value.section == ""
                 || var name := (mid.value.section, Key(Bare(raw)));
                    name != ("pool", "logDir") && !IsListKey(name) && !fits(name, TrimQuotes(Value(Bare(raw)))))
    ensures LoadLines(fits, start, before + [raw] + after).None?
  {
    LoadInTurn(fits, start, before + [raw], after);
    LoadInTurn(fits, start, before, [raw]);
    var mid := LoadLines(fits, start, before).value;
    assert Step(fits, mid, raw).None?;
    assert [raw][0] == raw;
  }
}
