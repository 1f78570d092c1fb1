/** The text that a reset approval is the hash of, and what it determines. */
module ResetApproval {
  import opened Wrappers

  datatype Target = Target(kind: string, locator: string, identity: string, fingerprint: string, match_: string)
  datatype Removal = Removal(id: string, target: Target, size: nat)
  datatype Shared = Shared(kind: string, locator: string, identity: string, referenced: seq<string>)
  datatype Missing = Missing(key: string, kind: string, locator: string, identity: string)
  datatype Approval = Approval(config: string, removals: seq<Removal>, shared: seq<Shared>, missing: seq<Missing>)

  // ------------------------------------------------------------------- strings

  /** A byte that is not part of valid UTF-8 stands as one of 128 characters of
      the last private plane. */
  predicate Stray(c: char) {
    '\U{10ff00}' <= c <= '\U{10ff7f}'
  }

  function Digit(n: nat): char
    requires n < 16
  {
    "0123456789abcdef"[n]
  }

  function Hex4(n: nat): string
    requires n < 0x1_0000
  {
    [Digit(n / 0x1000), Digit(n / 0x100 % 0x10), Digit(n / 0x10 % 0x10), Digit(n % 0x10)]
  }

  /** The letter of a two-character escape. */
  function Letter(c: char): Option<char> {
    if c == '"' || c == '\\' then Some(c)
    else if c == '\U{8}' then Some('b') else if c == '\U{9}' then Some('t') else if c == '\U{a}' then Some('n')
    else if c == '\U{c}' then Some('f') else if c == '\U{d}' then Some('r') else None
  }

  /** The number of a six-character escape: control characters, what HTML or
      JavaScript would read, and the replacement of a stray byte. */
  function Code(c: char): (n: Option<nat>)
    ensures n.Some? ==> n.value < 0x1_0000
  {
    if c < ' ' || c == '<' || c == '>' || c == '&' || c == '\U{2028}' || c == '\U{2029}' then Some(c as int)
    else if Stray(c) then Some(0xfffd)
    else None
  }

  /** A character as it is or escaped, and then the rest. */
  function Character(c: char, rest: string): string {
    if Letter(c).Some? then ['\\', Letter(c).value] + rest
    else if Code(c).Some? then ['\\', 'u'] + (Hex4(Code(c).value) + rest)
    else [c] + rest
  }

  function Characters(s: string, rest: string): string {
    if s == "" then rest else Character(s[0], Characters(s[1..], rest))
  }

  function Quoted(s: string, rest: string): string {
    "\"" + Characters(s, "\"" + rest)
  }

  // ------------------------------------------------------------------ document

  function DecimalDigit(n: nat): char
    requires n < 10
  {
    ('0' as int + n) as char
  }

  function Decimal(n: nat): string {
    if n < 10 then [DecimalDigit(n)] else Decimal(n / 10) + [DecimalDigit(n % 10)]
  }

  /** A field that is left out when it is empty. */
  function OptField(key: string, s: string, rest: string): string {
    if s == "" then rest else key + Quoted(s, rest)
  }

  function TargetText(t: Target, rest: string): string {
    "{\"kind\":" + Quoted(t.kind, ",\"locator\":" + Quoted(t.locator,
      OptField(",\"identity\":", t.identity, OptField(",\"fingerprint\":", t.fingerprint,
        ",\"match\":" + Quoted(t.match_, "}" + rest)))))
  }

  function RemovalText(r: Removal, rest: string): string {
    "{\"artifactId\":" + Quoted(r.id, ",\"target\":" + TargetText(r.target, ",\"sizeBytes\":" + (Decimal(r.size) + ("}" + rest))))
  }

  /** The items between brackets, with commas. */
  function Items<T>(text: (T, string) -> string, items: seq<T>, rest: string): string {
    "[" + if items == [] then "]" + rest else text(items[0], More(text, items[1..], rest))
  }

  function More<T>(text: (T, string) -> string, items: seq<T>, rest: string): string {
    if items == [] then "]" + rest else "," + text(items[0], More(text, items[1..], rest))
  }

  function SharedText(s: Shared, rest: string): string {
    "{\"kind\":" + Quoted(s.kind, ",\"locator\":" + Quoted(s.locator, ",\"identity\":" + Quoted(s.identity,
      ",\"referencedBy\":" + Items(Quoted, s.referenced, "}" + rest))))
  }

  function MissingText(m: Missing, rest: string): string {
    "{\"key\":" + Quoted(m.key, ",\"kind\":" + Quoted(m.kind, ",\"locator\":" + Quoted(m.locator,
      ",\"identity\":" + Quoted(m.identity, "}" + rest))))
  }

  function OptItems<T>(key: string, text: (T, string) -> string, items: seq<T>, rest: string): string {
    if items == [] then rest else key + Items(text, items, rest)
  }

  /** The text of an approval. */
  function Encoded(a: Approval): string {
    "{\"configId\":" + Quoted(a.config, OptItems(",\"removals\":", RemovalText, a.removals,
      OptItems(",\"sharedResources\":", SharedText, a.shared, OptItems(",\"missingResources\":", MissingText, a.missing, "}"))))
  }

  // ---------------------------------------------------------- blurred approvals

  const STRAY := '\U{10ff00}'

  function BlurChar(c: char): char {
    if Stray(c) then STRAY else c
  }

  /** The string with all stray bytes alike. */
  function Blur(s: string): string {
    seq(|s|, i requires 0 <= i < |s| => BlurChar(s[i]))
  }

  function BlurTarget(t: Target): Target {
    Target(Blur(t.kind), Blur(t.locator), Blur(t.identity), Blur(t.fingerprint), Blur(t.match_))
  }

  function BlurRemoval(r: Removal): Removal {
    Removal(Blur(r.id), BlurTarget(r.target), r.size)
  }

  function BlurAll<T>(blur: T -> T, items: seq<T>): seq<T> {
    seq(|items|, i requires 0 <= i < |items| => blur(items[i]))
  }

  function BlurShared(s: Shared): Shared {
    Shared(Blur(s.kind), Blur(s.locator), Blur(s.identity), BlurAll(Blur, s.referenced))
  }

  function BlurMissing(m: Missing): Missing {
    Missing(Blur(m.key), Blur(m.kind), Blur(m.locator), Blur(m.identity))
  }

  function BlurApproval(a: Approval): Approval {
    Approval(Blur(a.config), BlurAll(BlurRemoval, a.removals), BlurAll(BlurShared, a.shared), BlurAll(BlurMissing, a.missing))
  }

  // ----------------------------------------------------- the text determines it

  lemma DigitsDiffer(m: nat, n: nat)
    requires m < 16 && n < 16 && Digit(m) == Digit(n)
    ensures m == n
  {
    var digits := "0123456789abcdef";
    assert forall i, j | 0 <= i < j < 16 :: digits[i] != digits[j];
  }

  lemma Recomposed(n: nat)
    requires n < 0x1_0000
    ensures n == n / 0x1000 * 0x1000 + n / 0x100 % 0x10 * 0x100 + n / 0x10 % 0x10 * 0x10 + n % 0x10
  {
    assert n / 0x100 == n / 0x1000 * 0x10 + n / 0x100 % 0x10;
    assert n / 0x10 == n / 0x100 * 0x10 + n / 0x10 % 0x10;
  }

  lemma FourThenRest(a: char, b: char, c: char, d: char, x: string, e: char, f: char, g: char, h: char, y: string)
    requires [a, b, c, d] + x == [e, f, g, h] + y
    ensures a == e && b == f && c == g && d == h && x == y
  {
    var s, t := [a, b, c, d] + x, [e, f, g, h] + y;
    assert s[0] == t[0] && s[1] == t[1] && s[2] == t[2] && s[3] == t[3];
    assert x == s[4..] && y == t[4..];
  }

  lemma Hex4Differs(m: nat, n: nat, x: string, y: string)
    requires m < 0x1_0000 && n < 0x1_0000 && Hex4(m) + x == Hex4(n) + y
    ensures m == n && x == y
  {
    FourThenRest(Digit(m / 0x1000), Digit(m / 0x100 % 0x10), Digit(m / 0x10 % 0x10), Digit(m % 0x10), x,
                 Digit(n / 0x1000), Digit(n / 0x100 % 0x10), Digit(n / 0x10 % 0x10), Digit(n % 0x10), y);
    DigitsDiffer(m / 0x1000, n / 0x1000);
    DigitsDiffer(m / 0x100 % 0x10, n / 0x100 % 0x10);
    DigitsDiffer(m / 0x10 % 0x10, n / 0x10 % 0x10);
    DigitsDiffer(m % 0x10, n % 0x10);
    Recomposed(m);
    Recomposed(n);
  }

  lemma SameTail(prefix: string, x: string, y: string)
    requires prefix + x == prefix + y
    ensures x == y
  {
    assert x == (prefix + x)[|prefix|..] && y == (prefix + y)[|prefix|..];
  }

  lemma LettersDiffer(c: char, d: char)
    requires Letter(c).Some? && Letter(c) == Letter(d)
    ensures c == d
  {
  }

  lemma CodesDiffer(c: char, d: char)
    requires Code(c).Some? && Code(c) == Code(d)
    ensures BlurChar(c) == BlurChar(d)
  {
  }

  lemma LetterIsNotU(c: char)
    ensures Letter(c) != Some('u') && !Stray('\\') && Letter('\\').Some? && Letter('"').Some?
  {
  }

  /** What a character becomes tells it from every other, and where it ends. */
  lemma CharacterDetermines(c: char, d: char, x: string, y: string)
    requires Character(c, x) == Character(d, y)
    ensures BlurChar(c) == BlurChar(d) && x == y
  {
    var s, t := Character(c, x), Character(d, y);
    LetterIsNotU(c);
    LetterIsNotU(d);
    assert s[0] == t[0];
    if s[0] == '\\' {
      assert s[1] == t[1];
      assert s[2..] == t[2..];
      if Letter(c).Some? {
        LettersDiffer(c, d);
      } else {
        Hex4Differs(Code(c).value, Code(d).value, x, y);
        CodesDiffer(c, d);
      }
    } else {
      assert s[1..] == x && t[1..] == y;
    }
  }

  lemma CharacterIsNoQuote(c: char, x: string)
    ensures Character(c, x) != "" && Character(c, x)[0] != '"'
  {
  }

  lemma {:induction false} CharactersDetermine(s: string, t: string, x: string, y: string)
    requires Characters(s, "\"" + x) == Characters(t, "\"" + y)
    ensures Blur(s) == Blur(t) && x == y
  {
    if s == "" || t == "" {
      if s != "" { CharacterIsNoQuote(s[0], Characters(s[1..], "\"" + x)); }
      if t != "" { CharacterIsNoQuote(t[0], Characters(t[1..], "\"" + y)); }
      SameTail("\"", x, y);
    } else {
      CharacterDetermines(s[0], t[0], Characters(s[1..], "\"" + x), Characters(t[1..], "\"" + y));
      CharactersDetermine(s[1..], t[1..], x, y);
      assert Blur(s) == [BlurChar(s[0])] + Blur(s[1..]) && Blur(t) == [BlurChar(t[0])] + Blur(t[1..]);
    }
  }

  lemma QuotedDetermines(s: string, t: string, x: string, y: string)
    requires Quoted(s, x) == Quoted(t, y)
    ensures Blur(s) == Blur(t) && x == y
  {
    SameTail("\"", Characters(s, "\"" + x), Characters(t, "\"" + y));
    CharactersDetermine(s, t, x, y);
  }

  predicate IsDecimal(c: char) {
    '0' <= c <= '9'
  }

  predicate EndsNumber(rest: string) {
    rest != "" && !IsDecimal(rest[0])
  }

  lemma {:induction false} DecimalIsDigits(n: nat)
    ensures Decimal(n) != "" && forall i | 0 <= i < |Decimal(n)| :: IsDecimal(Decimal(n)[i])
  {
    if n >= 10 { DecimalIsDigits(n / 10); }
  }

  lemma {:induction false} DecimalDiffers(m: nat, n: nat)
    requires Decimal(m) == Decimal(n)
    ensures m == n
  {
    var s, t := Decimal(m), Decimal(n);
    assert s[|s| - 1] == DecimalDigit(m % 10) && t[|t| - 1] == DecimalDigit(n % 10);
    assert m % 10 == n % 10;
    if m >= 10 { DecimalIsDigits(m / 10); assert |s| > 1; }
    if n >= 10 { DecimalIsDigits(n / 10); assert |t| > 1; }
    if m >= 10 {
      assert s[..|s| - 1] == Decimal(m / 10) && t[..|t| - 1] == Decimal(n / 10);
      DecimalDiffers(m / 10, n / 10);
    }
  }

  lemma {:induction false} SameDigits(s: string, t: string, x: string, y: string)
    requires (forall i | 0 <= i < |s| :: IsDecimal(s[i])) && (forall i | 0 <= i < |t| :: IsDecimal(t[i]))
    requires EndsNumber(x) && EndsNumber(y) && s + x == t + y
    ensures s == t
  {
    assert (s + x)[0] == if s == "" then x[0] else s[0];
    assert (t + y)[0] == if t == "" then y[0] else t[0];
    assert s == "" <==> t == "";
    if s != "" {
      assert (s + x)[1..] == s[1..] + x && (t + y)[1..] == t[1..] + y;
      SameDigits(s[1..], t[1..], x, y);
      assert s == [s[0]] + s[1..] && t == [t[0]] + t[1..];
    }
  }

  lemma NumberDetermines(m: nat, n: nat, x: string, y: string)
    requires EndsNumber(x) && EndsNumber(y) && Decimal(m) + x == Decimal(n) + y
    ensures m == n && x == y
  {
    DecimalIsDigits(m);
    DecimalIsDigits(n);
    SameDigits(Decimal(m), Decimal(n), x, y);
    DecimalDiffers(m, n);
    SameTail(Decimal(m), x, y);
  }

  /** `rest` does not go on with the field `key`. */
  predicate Without(key: string, rest: string) {
    !(key <= rest)
  }

  lemma KeyBegins(key: string, more: string)
    ensures !Without(key, key + more)
  {
  }

  lemma OptFieldDetermines(key: string, s: string, t: string, x: string, y: string)
    requires Without(key, x) && Without(key, y) && OptField(key, s, x) == OptField(key, t, y)
    ensures Blur(s) == Blur(t) && x == y
  {
    if s != "" { KeyBegins(key, Quoted(s, x)); }
    if t != "" { KeyBegins(key, Quoted(t, y)); }
    if s != "" && t != "" {
      SameTail(key, Quoted(s, x), Quoted(t, y));
      QuotedDetermines(s, t, x, y);
    }
  }

  /** Two texts that begin with different keys. */
  lemma KeysDiffer(key: string, other: string, more: string)
    requires |key| > 2 && |other| > 2 && key[2] != other[2]
    ensures Without(key, other + more)
  {
    assert (other + more)[2] == other[2];
  }

  lemma TargetDetermines(a: Target, b: Target, x: string, y: string)
    requires TargetText(a, x) == TargetText(b, y)
    ensures BlurTarget(a) == BlurTarget(b) && x == y
  {
    var m, n := ",\"match\":" + Quoted(a.match_, "}" + x), ",\"match\":" + Quoted(b.match_, "}" + y);
    var f, g := OptField(",\"fingerprint\":", a.fingerprint, m), OptField(",\"fingerprint\":", b.fingerprint, n);
    var i, j := OptField(",\"identity\":", a.identity, f), OptField(",\"identity\":", b.identity, g);
    SameTail("{\"kind\":", Quoted(a.kind, ",\"locator\":" + Quoted(a.locator, i)), Quoted(b.kind, ",\"locator\":" + Quoted(b.locator, j)));
    QuotedDetermines(a.kind, b.kind, ",\"locator\":" + Quoted(a.locator, i), ",\"locator\":" + Quoted(b.locator, j));
    SameTail(",\"locator\":", Quoted(a.locator, i), Quoted(b.locator, j));
    QuotedDetermines(a.locator, b.locator, i, j);
    NotIdentity(a, m);
    NotIdentity(b, n);
    OptFieldDetermines(",\"identity\":", a.identity, b.identity, f, g);
    OptFieldDetermines(",\"fingerprint\":", a.fingerprint, b.fingerprint, m, n);
    SameTail(",\"match\":", Quoted(a.match_, "}" + x), Quoted(b.match_, "}" + y));
    QuotedDetermines(a.match_, b.match_, "}" + x, "}" + y);
    SameTail("}", x, y);
  }

  lemma NotIdentity(a: Target, m: string)
    requires ",\"match\":" <= m
    ensures Without(",\"fingerprint\":", m) && Without(",\"identity\":", OptField(",\"fingerprint\":", a.fingerprint, m))
  {
    assert m == ",\"match\":" + m[9..];
    KeysDiffer(",\"fingerprint\":", ",\"match\":", m[9..]);
    KeysDiffer(",\"identity\":", ",\"match\":", m[9..]);
    KeysDiffer(",\"identity\":", ",\"fingerprint\":", Quoted(a.fingerprint, m));
  }

  lemma RemovalDetermines(a: Removal, b: Removal, x: string, y: string)
    requires RemovalText(a, x) == RemovalText(b, y)
    ensures BlurRemoval(a) == BlurRemoval(b) && x == y
  {
    var m, n := Decimal(a.size) + ("}" + x), Decimal(b.size) + ("}" + y);
    var s, t := TargetText(a.target, ",\"sizeBytes\":" + m), TargetText(b.target, ",\"sizeBytes\":" + n);
    SameTail("{\"artifactId\":", Quoted(a.id, ",\"target\":" + s), Quoted(b.id, ",\"target\":" + t));
    QuotedDetermines(a.id, b.id, ",\"target\":" + s, ",\"target\":" + t);
    SameTail(",\"target\":", s, t);
    TargetDetermines(a.target, b.target, ",\"sizeBytes\":" + m, ",\"sizeBytes\":" + n);
    SameTail(",\"sizeBytes\":", m, n);
    assert ("}" + x)[0] == '}' && ("}" + y)[0] == '}';
    NumberDetermines(a.size, b.size, "}" + x, "}" + y);
    SameTail("}", x, y);
  }

  /** The text of an item determines it up to stray bytes, and where it ends. */
  ghost predicate Determines<T(!new)>(text: (T, string) -> string, blur: T -> T) {
    && (forall a, b, x, y :: text(a, x) == text(b, y) ==> blur(a) == blur(b) && x == y)
    && (forall a, x :: text(a, x) != "" && text(a, x)[0] != ']')
  }

  lemma {:induction false} MoreDetermines<T(!new)>(text: (T, string) -> string, blur: T -> T, a: seq<T>, b: seq<T>, x: string, y: string)
    requires Determines(text, blur) && More(text, a, x) == More(text, b, y)
    ensures BlurAll(blur, a) == BlurAll(blur, b) && x == y
  {
    var s, t := More(text, a, x), More(text, b, y);
    assert s[0] == t[0];
    if a == [] {
      SameTail("]", x, y);
    } else {
      SameTail(",", text(a[0], More(text, a[1..], x)), text(b[0], More(text, b[1..], y)));
      assert blur(a[0]) == blur(b[0]) && More(text, a[1..], x) == More(text, b[1..], y);
      MoreDetermines(text, blur, a[1..], b[1..], x, y);
      assert BlurAll(blur, a) == [blur(a[0])] + BlurAll(blur, a[1..]) && BlurAll(blur, b) == [blur(b[0])] + BlurAll(blur, b[1..]);
    }
  }

  lemma ItemsDetermine<T(!new)>(text: (T, string) -> string, blur: T -> T, a: seq<T>, b: seq<T>, x: string, y: string)
    requires Determines(text, blur) && Items(text, a, x) == Items(text, b, y)
    ensures BlurAll(blur, a) == BlurAll(blur, b) && x == y
  {
    var s := if a == [] then "]" + x else text(a[0], More(text, a[1..], x));
    var t := if b == [] then "]" + y else text(b[0], More(text, b[1..], y));
    SameTail("[", s, t);
    assert s[0] == t[0];
    if a == [] {
      SameTail("]", x, y);
    } else {
      assert blur(a[0]) == blur(b[0]) && More(text, a[1..], x) == More(text, b[1..], y);
      MoreDetermines(text, blur, a[1..], b[1..], x, y);
      assert BlurAll(blur, a) == [blur(a[0])] + BlurAll(blur, a[1..]) && BlurAll(blur, b) == [blur(b[0])] + BlurAll(blur, b[1..]);
    }
  }

  lemma OptItemsDetermine<T(!new)>(key: string, text: (T, string) -> string, blur: T -> T, a: seq<T>, b: seq<T>, x: string, y: string)
    requires Determines(text, blur) && Without(key, x) && Without(key, y) && OptItems(key, text, a, x) == OptItems(key, text, b, y)
    ensures BlurAll(blur, a) == BlurAll(blur, b) && x == y
  {
    if a != [] { KeyBegins(key, Items(text, a, x)); }
    if b != [] { KeyBegins(key, Items(text, b, y)); }
    if a != [] && b != [] {
      SameTail(key, Items(text, a, x), Items(text, b, y));
      ItemsDetermine(text, blur, a, b, x, y);
    }
  }

  lemma TextsDetermine()
    ensures Determines(Quoted, Blur) && Determines(RemovalText, BlurRemoval)
    ensures Determines(SharedText, BlurShared) && Determines(MissingText, BlurMissing)
  {
    forall a, b, x, y | Quoted(a, x) == Quoted(b, y) ensures Blur(a) == Blur(b) && x == y { QuotedDetermines(a, b, x, y); }
    forall a, b, x, y | RemovalText(a, x) == RemovalText(b, y) ensures BlurRemoval(a) == BlurRemoval(b) && x == y { RemovalDetermines(a, b, x, y); }
    forall a, b, x, y | SharedText(a, x) == SharedText(b, y) ensures BlurShared(a) == BlurShared(b) && x == y { SharedDetermines(a, b, x, y); }
    forall a, b, x, y | MissingText(a, x) == MissingText(b, y) ensures BlurMissing(a) == BlurMissing(b) && x == y { MissingDetermines(a, b, x, y); }
  }

  lemma StringsDetermine()
    ensures Determines(Quoted, Blur)
  {
    forall a, b, x, y | Quoted(a, x) == Quoted(b, y) ensures Blur(a) == Blur(b) && x == y { QuotedDetermines(a, b, x, y); }
  }

  lemma SharedDetermines(a: Shared, b: Shared, x: string, y: string)
    requires SharedText(a, x) == SharedText(b, y)
    ensures BlurShared(a) == BlurShared(b) && x == y
  {
    var r, q := ",\"referencedBy\":" + Items(Quoted, a.referenced, "}" + x), ",\"referencedBy\":" + Items(Quoted, b.referenced, "}" + y);
    var i, j := ",\"identity\":" + Quoted(a.identity, r), ",\"identity\":" + Quoted(b.identity, q);
    var l, k := ",\"locator\":" + Quoted(a.locator, i), ",\"locator\":" + Quoted(b.locator, j);
    SameTail("{\"kind\":", Quoted(a.kind, l), Quoted(b.kind, k));
    QuotedDetermines(a.kind, b.kind, l, k);
    SameTail(",\"locator\":", Quoted(a.locator, i), Quoted(b.locator, j));
    QuotedDetermines(a.locator, b.locator, i, j);
    SameTail(",\"identity\":", Quoted(a.identity, r), Quoted(b.identity, q));
    QuotedDetermines(a.identity, b.identity, r, q);
    SameTail(",\"referencedBy\":", Items(Quoted, a.referenced, "}" + x), Items(Quoted, b.referenced, "}" + y));
    StringsDetermine();
    ItemsDetermine(Quoted, Blur, a.referenced, b.referenced, "}" + x, "}" + y);
    SameTail("}", x, y);
  }

  lemma MissingDetermines(a: Missing, b: Missing, x: string, y: string)
    requires MissingText(a, x) == MissingText(b, y)
    ensures BlurMissing(a) == BlurMissing(b) && x == y
  {
    var i, j := ",\"identity\":" + Quoted(a.identity, "}" + x), ",\"identity\":" + Quoted(b.identity, "}" + y);
    var l, k := ",\"locator\":" + Quoted(a.locator, i), ",\"locator\":" + Quoted(b.locator, j);
    var p, q := ",\"kind\":" + Quoted(a.kind, l), ",\"kind\":" + Quoted(b.kind, k);
    SameTail("{\"key\":", Quoted(a.key, p), Quoted(b.key, q));
    QuotedDetermines(a.key, b.key, p, q);
    SameTail(",\"kind\":", Quoted(a.kind, l), Quoted(b.kind, k));
    QuotedDetermines(a.kind, b.kind, l, k);
    SameTail(",\"locator\":", Quoted(a.locator, i), Quoted(b.locator, j));
    QuotedDetermines(a.locator, b.locator, i, j);
    SameTail(",\"identity\":", Quoted(a.identity, "}" + x), Quoted(b.identity, "}" + y));
    QuotedDetermines(a.identity, b.identity, "}" + x, "}" + y);
    SameTail("}", x, y);
  }

  lemma ListKeysDiffer(a: Approval)
    ensures Without(",\"missingResources\":", "}")
    ensures var m := OptItems(",\"missingResources\":", MissingText, a.missing, "}");
            var s := OptItems(",\"sharedResources\":", SharedText, a.shared, m);
            Without(",\"sharedResources\":", m) && Without(",\"removals\":", s)
  {
    var m := OptItems(",\"missingResources\":", MissingText, a.missing, "}");
    var missing := Items(MissingText, a.missing, "}");
    KeysDiffer(",\"sharedResources\":", ",\"missingResources\":", missing);
    KeysDiffer(",\"removals\":", ",\"missingResources\":", missing);
    KeysDiffer(",\"removals\":", ",\"sharedResources\":", Items(SharedText, a.shared, m));
  }

  /** Equal texts come from approvals that are equal up to stray bytes. */
  lemma TextDetermines(a: Approval, b: Approval)
    requires Encoded(a) == Encoded(b)
    ensures BlurApproval(a) == BlurApproval(b)
  {
    TextsDetermine();
    ListKeysDiffer(a);
    ListKeysDiffer(b);
    var m, n := OptItems(",\"missingResources\":", MissingText, a.missing, "}"), OptItems(",\"missingResources\":", MissingText, b.missing, "}");
    var s, t := OptItems(",\"sharedResources\":", SharedText, a.shared, m), OptItems(",\"sharedResources\":", SharedText, b.shared, n);
    var p, q := OptItems(",\"removals\":", RemovalText, a.removals, s), OptItems(",\"removals\":", RemovalText, b.removals, t);
    SameTail("{\"configId\":", Quoted(a.config, p), Quoted(b.config, q));
    QuotedDetermines(a.config, b.config, p, q);
    OptItemsDetermine(",\"removals\":", RemovalText, BlurRemoval, a.removals, b.removals, s, t);
    OptItemsDetermine(",\"sharedResources\":", SharedText, BlurShared, a.shared, b.shared, m, n);
    OptItemsDetermine(",\"missingResources\":", MissingText, BlurMissing, a.missing, b.missing, "}", "}");
  }

  // ----------------------------------------------------- stray bytes are alike

  lemma CharacterBlurs(c: char, rest: string)
    ensures Character(BlurChar(c), rest) == Character(c, rest)
  {
    if Stray(c) {
      StrayIsReplaced(c);
      StrayIsReplaced(STRAY);
    }
  }

  lemma StrayIsReplaced(c: char)
    requires Stray(c)
    ensures Letter(c).None? && Code(c) == Some(0xfffd)
  {
  }

  lemma {:induction false} CharactersBlur(s: string, rest: string)
    ensures Characters(Blur(s), rest) == Characters(s, rest)
  {
    if s != "" {
      assert Blur(s)[0] == BlurChar(s[0]) && Blur(s)[1..] == Blur(s[1..]);
      CharactersBlur(s[1..], rest);
      CharacterBlurs(s[0], Characters(s[1..], rest));
    }
  }

  lemma QuotedBlurs(s: string, rest: string)
    ensures Quoted(Blur(s), rest) == Quoted(s, rest) && (Blur(s) == "" <==> s == "")
  {
    CharactersBlur(s, "\"" + rest);
  }

  /** The text of an item is that of the blurred item. */
  ghost predicate Blurs<T(!new)>(text: (T, string) -> string, blur: T -> T) {
    forall a, x :: text(blur(a), x) == text(a, x)
  }

  lemma {:induction false} MoreBlurs<T(!new)>(text: (T, string) -> string, blur: T -> T, a: seq<T>, rest: string)
    requires Blurs(text, blur)
    ensures More(text, BlurAll(blur, a), rest) == More(text, a, rest)
  {
    if a != [] {
      assert BlurAll(blur, a)[0] == blur(a[0]) && BlurAll(blur, a)[1..] == BlurAll(blur, a[1..]);
      MoreBlurs(text, blur, a[1..], rest);
      assert text(blur(a[0]), More(text, a[1..], rest)) == text(a[0], More(text, a[1..], rest));
    }
  }

  lemma ItemsBlur<T(!new)>(text: (T, string) -> string, blur: T -> T, a: seq<T>, rest: string)
    requires Blurs(text, blur)
    ensures Items(text, BlurAll(blur, a), rest) == Items(text, a, rest)
  {
    if a != [] {
      assert BlurAll(blur, a)[0] == blur(a[0]) && BlurAll(blur, a)[1..] == BlurAll(blur, a[1..]);
      MoreBlurs(text, blur, a[1..], rest);
      assert text(blur(a[0]), More(text, a[1..], rest)) == text(a[0], More(text, a[1..], rest));
    }
  }

  lemma StringsBlur()
    ensures Blurs(Quoted, Blur)
  {
    forall s, rest ensures Quoted(Blur(s), rest) == Quoted(s, rest) { QuotedBlurs(s, rest); }
  }

  lemma TargetBlurs(t: Target, rest: string)
    ensures TargetText(BlurTarget(t), rest) == TargetText(t, rest)
  {
    var m := ",\"match\":" + Quoted(t.match_, "}" + rest);
    QuotedBlurs(t.match_, "}" + rest);
    var f := OptField(",\"fingerprint\":", t.fingerprint, m);
    QuotedBlurs(t.fingerprint, m);
    assert OptField(",\"fingerprint\":", Blur(t.fingerprint), m) == f;
    var i := OptField(",\"identity\":", t.identity, f);
    QuotedBlurs(t.identity, f);
    assert OptField(",\"identity\":", Blur(t.identity), f) == i;
    QuotedBlurs(t.locator, i);
    QuotedBlurs(t.kind, ",\"locator\":" + Quoted(t.locator, i));
  }

  lemma RemovalBlurs(r: Removal, rest: string)
    ensures RemovalText(BlurRemoval(r), rest) == RemovalText(r, rest)
  {
    var n := ",\"sizeBytes\":" + (Decimal(r.size) + ("}" + rest));
    TargetBlurs(r.target, n);
    QuotedBlurs(r.id, ",\"target\":" + TargetText(r.target, n));
  }

  lemma SharedBlurs(s: Shared, rest: string)
    ensures SharedText(BlurShared(s), rest) == SharedText(s, rest)
  {
    StringsBlur();
    ItemsBlur(Quoted, Blur, s.referenced, "}" + rest);
    var r := ",\"referencedBy\":" + Items(Quoted, s.referenced, "}" + rest);
    QuotedBlurs(s.identity, r);
    var i := ",\"identity\":" + Quoted(s.identity, r);
    QuotedBlurs(s.locator, i);
    QuotedBlurs(s.kind, ",\"locator\":" + Quoted(s.locator, i));
  }

  lemma MissingBlurs(m: Missing, rest: string)
    ensures MissingText(BlurMissing(m), rest) == MissingText(m, rest)
  {
    QuotedBlurs(m.identity, "}" + rest);
    var i := ",\"identity\":" + Quoted(m.identity, "}" + rest);
    QuotedBlurs(m.locator, i);
    var l := ",\"locator\":" + Quoted(m.locator, i);
    QuotedBlurs(m.kind, l);
    QuotedBlurs(m.key, ",\"kind\":" + Quoted(m.kind, l));
  }

  lemma OptItemsBlur<T(!new)>(key: string, text: (T, string) -> string, blur: T -> T, a: seq<T>, rest: string)
    requires Blurs(text, blur)
    ensures OptItems(key, text, BlurAll(blur, a), rest) == OptItems(key, text, a, rest)
  {
    ItemsBlur(text, blur, a, rest);
  }

  lemma EncodedBlurs(a: Approval)
    ensures Encoded(BlurApproval(a)) == Encoded(a)
  {
    forall r: Removal, rest: string ensures RemovalText(BlurRemoval(r), rest) == RemovalText(r, rest) { RemovalBlurs(r, rest); }
    forall s: Shared, rest: string ensures SharedText(BlurShared(s), rest) == SharedText(s, rest) { SharedBlurs(s, rest); }
    forall m: Missing, rest: string ensures MissingText(BlurMissing(m), rest) == MissingText(m, rest) { MissingBlurs(m, rest); }
    var m := OptItems(",\"missingResources\":", MissingText, a.missing, "}");
    OptItemsBlur(",\"missingResources\":", MissingText, BlurMissing, a.missing, "}");
    var s := OptItems(",\"sharedResources\":", SharedText, a.shared, m);
    OptItemsBlur(",\"sharedResources\":", SharedText, BlurShared, a.shared, m);
    OptItemsBlur(",\"removals\":", RemovalText, BlurRemoval, a.removals, s);
    QuotedBlurs(a.config, OptItems(",\"removals\":", RemovalText, a.removals, s));
  }

  /** Two approvals have one text exactly if they are equal up to stray bytes. */
  lemma SameTextExactly(a: Approval, b: Approval)
    ensures Encoded(a) == Encoded(b) <==> BlurApproval(a) == BlurApproval(b)
  {
    if Encoded(a) == Encoded(b) { TextDetermines(a, b); }
    EncodedBlurs(a);
    EncodedBlurs(b);
  }

  predicate Valid(s: string) {
    forall i | 0 <= i < |s| :: !Stray(s[i])
  }

  predicate ValidTarget(t: Target) {
    Valid(t.kind) && Valid(t.locator) && Valid(t.identity) && Valid(t.fingerprint) && Valid(t.match_)
  }

  /** All strings of the approval are valid UTF-8. */
  predicate ValidApproval(a: Approval) {
    && Valid(a.config)
    && (forall i | 0 <= i < |a.removals| :: Valid(a.removals[i].id) && ValidTarget(a.removals[i].target))
    && (forall i | 0 <= i < |a.shared| ::
          var s := a.shared[i];
          Valid(s.kind) && Valid(s.locator) && Valid(s.identity) && forall j | 0 <= j < |s.referenced| :: Valid(s.referenced[j]))
    && (forall i | 0 <= i < |a.missing| ::
          var m := a.missing[i]; Valid(m.key) && Valid(m.kind) && Valid(m.locator) && Valid(m.identity))
  }

  lemma ValidStays(s: string)
    ensures Valid(s) ==> Blur(s) == s
  {
  }

  lemma ValidSharedStays(s: Shared)
    requires Valid(s.kind) && Valid(s.locator) && Valid(s.identity) && forall j | 0 <= j < |s.referenced| :: Valid(s.referenced[j])
    ensures BlurShared(s) == s
  {
    forall j | 0 <= j < |s.referenced| ensures BlurAll(Blur, s.referenced)[j] == s.referenced[j] { ValidStays(s.referenced[j]); }
    ValidStays(s.kind);
    ValidStays(s.locator);
    ValidStays(s.identity);
  }

  lemma ValidApprovalStays(a: Approval)
    requires ValidApproval(a)
    ensures BlurApproval(a) == a
  {
    forall s ensures Valid(s) ==> Blur(s) == s { ValidStays(s); }
    forall i | 0 <= i < |a.removals| ensures BlurAll(BlurRemoval, a.removals)[i] == a.removals[i] {
      assert BlurRemoval(a.removals[i]) == a.removals[i];
    }
    forall i | 0 <= i < |a.shared| ensures BlurAll(BlurShared, a.shared)[i] == a.shared[i] { ValidSharedStays(a.shared[i]); }
    forall i | 0 <= i < |a.missing| ensures BlurAll(BlurMissing, a.missing)[i] == a.missing[i] {
      assert BlurMissing(a.missing[i]) == a.missing[i];
    }
  }
}
