/** JSON as a grammar over lexemes (RFC 8259, sections 4 to 7), and the token
    decoder the SBOM scanner reads it through. */
module JsonTokens {
  import opened Wrappers

  /** `Number` is a number, which fits 64-bit floating point or not, or one of the
      two truth values, which always fit. */
  datatype Lexeme = LBrace | RBrace | LBracket | RBracket | Colon | Comma | Text(text: string) | Null | Number(fits: bool)

  datatype Json = JString(text: string) | JNull | JNumber | JArray(items: seq<Json>) | JObject(members: seq<Member>)

  datatype Member = Member(key: string, value: Json)

  // ----------------------------------------------------------------- grammar

  function Ahead<T>(x: T, rest: Option<(seq<T>, nat)>): Option<(seq<T>, nat)> {
    if rest.None? then None else Some(([x] + rest.value.0, rest.value.1))
  }

  /** The value that begins at `i`, and where it ends. A number that does not fit
      is no value. */
  function Value(l: seq<Lexeme>, i: nat): (r: Option<(Json, nat)>)
    ensures r.Some? ==> i < r.value.1 <= |l|
    decreases |l| - i, 0
  {
    if i >= |l| then None
    else match l[i]
      case Text(t) => Some((JString(t), i + 1))
      case Null => Some((JNull, i + 1))
      case Number(fits) => if fits then Some((JNumber, i + 1)) else None
      case LBrace =>
        (match Members(l, i + 1, true)
         case None => None
         case Some((ms, m)) => Some((JObject(ms), m)))
      case LBracket =>
        (match Elements(l, i + 1, true)
         case None => None
         case Some((vs, m)) => Some((JArray(vs), m)))
      case _ => None
  }

  /** The rest of an object's members, up to and including its closing brace. */
  function Members(l: seq<Lexeme>, i: nat, first: bool): (r: Option<(seq<Member>, nat)>)
    ensures r.Some? ==> i < r.value.1 <= |l|
    decreases |l| - i, 1
  {
    if i >= |l| then None
    else if l[i].RBrace? then Some(([], i + 1))
    else
      var k := if first then i else i + 1;
      if !first && !l[i].Comma? then None
      else if k + 1 >= |l| || !l[k].Text? || !l[k + 1].Colon? then None
      else match Value(l, k + 2)
        case None => None
        case Some((v, m)) => Ahead(Member(l[k].text, v), Members(l, m, false))
  }

  /** The rest of an array's elements, up to and including its closing bracket. */
  function Elements(l: seq<Lexeme>, i: nat, first: bool): (r: Option<(seq<Json>, nat)>)
    ensures r.Some? ==> i < r.value.1 <= |l|
    decreases |l| - i, 1
  {
    if i >= |l| then None
    else if l[i].RBracket? then Some(([], i + 1))
    else
      var k := if first then i else i + 1;
      if !first && !l[i].Comma? then None
      else match Value(l, k)
        case None => None
        case Some((v, m)) => Ahead(v, Elements(l, m, false))
  }

  // ----------------------------------------------------------------- decoder

  datatype State =
    | Top | ArrayStart | ArrayValue | ArrayComma
    | ObjectStart | ObjectKey | ObjectColon | ObjectValue | ObjectComma

  datatype Cursor = Cursor(pos: nat, state: State, stack: seq<State>)

  datatype Token = Delim(c: char) | Str(text: string) | Plain | Eof | SyntaxError

  predicate ValueAllowed(s: State) {
    s in {Top, ArrayStart, ArrayValue, ObjectValue}
  }

  /** The state after a complete value. */
  function After(s: State): State {
    match s
    case ArrayStart => ArrayComma
    case ArrayValue => ArrayComma
    case ArrayComma => ArrayComma
    case ObjectColon => ObjectComma
    case ObjectValue => ObjectComma
    case _ => s
  }

  /** The next token, once no separator is due any more. */
  function Bare(l: seq<Lexeme>, c: Cursor): (Token, Cursor) {
    if c.pos >= |l| then (Eof, c)
    else
      var next := c.(pos := c.pos + 1);
      match l[c.pos]
      case LBracket => if ValueAllowed(c.state) then (Delim('['), next.(state := ArrayStart, stack := c.stack + [c.state])) else (SyntaxError, c)
      case LBrace => if ValueAllowed(c.state) then (Delim('{'), next.(state := ObjectStart, stack := c.stack + [c.state])) else (SyntaxError, c)
      case RBracket =>
        if c.state in {ArrayStart, ArrayComma} && c.stack != []
        then (Delim(']'), next.(state := After(c.stack[|c.stack| - 1]), stack := c.stack[..|c.stack| - 1]))
        else (SyntaxError, c)
      case RBrace =>
        if c.state in {ObjectStart, ObjectComma} && c.stack != []
        then (Delim('}'), next.(state := After(c.stack[|c.stack| - 1]), stack := c.stack[..|c.stack| - 1]))
        else (SyntaxError, c)
      case Text(t) =>
        if c.state in {ObjectStart, ObjectKey} then (Str(t), next.(state := ObjectColon))
        else if ValueAllowed(c.state) then (Str(t), next.(state := After(c.state)))
        else (SyntaxError, c)
      case Null => if ValueAllowed(c.state) then (Plain, next.(state := After(c.state))) else (SyntaxError, c)
      case Number(fits) => if ValueAllowed(c.state) && fits then (Plain, next.(state := After(c.state))) else (SyntaxError, c)
      case _ => (SyntaxError, c)
  }

  /** Past one separator, if it stands where the state allows it. */
  function Separated(l: seq<Lexeme>, c: Cursor): Cursor {
    if c.pos >= |l| then c
    else if l[c.pos].Colon? && c.state == ObjectColon then c.(pos := c.pos + 1, state := ObjectValue)
    else if l[c.pos].Comma? && c.state == ArrayComma then c.(pos := c.pos + 1, state := ArrayValue)
    else if l[c.pos].Comma? && c.state == ObjectComma then c.(pos := c.pos + 1, state := ObjectKey)
    else c
  }

  function TokenAt(l: seq<Lexeme>, c: Cursor): (Token, Cursor) {
    Bare(l, Separated(l, c))
  }

  predicate MoreAt(l: seq<Lexeme>, c: Cursor) {
    c.pos < |l| && !l[c.pos].RBrace? && !l[c.pos].RBracket?
  }

  /** A whole value read at the cursor, with the separator before it. */
  function ValueAt(l: seq<Lexeme>, c: Cursor): (r: Option<(Json, Cursor)>)
    ensures r.Some? ==> c.pos < r.value.1.pos <= |l| && r.value.1.stack == c.stack
  {
    var s := Separated(l, c);
    if !ValueAllowed(s.state) then None
    else match Value(l, s.pos)
      case None => None
      case Some((v, m)) => Some((v, Cursor(m, After(s.state), s.stack)))
  }

  class Decoder {
    const lexemes: seq<Lexeme>
    var at: Cursor

    constructor (lexemes: seq<Lexeme>)
      ensures this.lexemes == lexemes && at == Cursor(0, Top, [])
    {
      this.lexemes, this.at := lexemes, Cursor(0, Top, []);
    }

    predicate More()
      reads this
    {
      MoreAt(lexemes, at)
    }

    method Token() returns (t: Token)
      modifies this
      ensures (t, at) == TokenAt(lexemes, old(at))
    {
      var step := TokenAt(lexemes, at);
      t, at := step.0, step.1;
    }

    /** Decodes the next value into a string variable; null leaves it alone. */
    method DecodeString(was: string) returns (ok: bool, text: string)
      modifies this
      ensures var r := ValueAt(lexemes, old(at));
              && (ok <==> r.Some? && (r.value.0.JString? || r.value.0.JNull?))
              && (ok ==> at == r.value.1 && text == if r.value.0.JString? then r.value.0.text else was)
    {
      var r := ValueAt(lexemes, at);
      if r.None? { return false, was; }
      at := r.value.1;
      match r.value.0
      case JString(t) => return true, t;
      case JNull => return true, was;
      case _ => return false, was;
    }
  }
}
