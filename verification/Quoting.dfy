/** What a typed line means: quotes, escapes and variables, character for character. */
module Quoting {
  // A grammar of lines, its meaning, and the proof that the tokenizer computes it.

  import opened Base
  import opened Tokens
  import opened Parser
  import opened RoundTrip

  // The grammar

  /** What means the same inside double quotes and outside all quotes. */
  datatype Inner = Letter(c: char) | Escape(c: char) | Variable(name: string)

  datatype Piece = Bare(inner: Inner) | Single(text: string) | Double(body: seq<Inner>)

  /** A lone backslash can only end a line. */
  datatype Item = Part(piece: Piece) | Blank(c: char) | Op(text: string) | LoneBackslash

  function InnerText(i: Inner): string {
    match i
    case Letter(c) => [c]
    case Escape(c) => ['\\', c]
    case Variable(name) => "$" + name
  }

  function BodyText(body: seq<Inner>): string {
    if body == [] then "" else InnerText(body[0]) + BodyText(body[1..])
  }

  function ItemText(item: Item): string {
    match item
    case Part(Bare(i)) => InnerText(i)
    case Part(Single(text)) => "'" + (text + "'")
    case Part(Double(body)) => "\"" + (BodyText(body) + "\"")
    case Blank(c) => [c]
    case Op(text) => text
    case LoneBackslash => "\\"
  }

  function Text(items: seq<Item>): string {
    if items == [] then "" else ItemText(items[0]) + Text(items[1..])
  }

  // Which items a text consists of

  predicate IsBlank(c: char) { c == ' ' || c == '\t' }

  predicate IsName(name: string) {
    forall i | 0 <= i < |name| ::
      'a' <= name[i] <= 'z' || 'A' <= name[i] <= 'Z' || '0' <= name[i] <= '9' || name[i] == '_' || name[i] == '?'
  }

  /** A name ends where the next character cannot belong to it. */
  predicate NameEnds(next: string) {
    next == "" || !IsName([next[0]])
  }

  predicate InnerFits(i: Inner, quoted: bool, next: string) {
    match i
    case Letter(c) =>
      && c != '\\' && c != '"' && c != '$'
      && (quoted || (c != '\'' && !IsBlank(c) && c !in "|&><;"))
    case Escape(_) => true
    case Variable(name) => IsName(name) && NameEnds(next)
  }

  predicate BodyFits(body: seq<Inner>) {
    body == [] || (InnerFits(body[0], true, BodyText(body[1..]) + "\"") && BodyFits(body[1..]))
  }

  /** The longest operator is taken: a single one is not followed by what would double it. */
  predicate OpFits(text: string, next: string) {
    || text == "&&" || text == "||" || text == ">>"
    || (|text| == 1 && text[0] in "|&><;" && !(next != "" && text[0] in "|&>" && next[0] == text[0]))
  }

  predicate ItemFits(item: Item, next: string) {
    match item
    case Part(Bare(i)) => InnerFits(i, false, next)
    case Part(Single(text)) => '\'' !in text
    case Part(Double(body)) => BodyFits(body)
    case Blank(c) => IsBlank(c)
    case Op(text) => OpFits(text, next)
    case LoneBackslash => next == ""
  }

  predicate Fits(items: seq<Item>) {
    items == [] || (ItemFits(items[0], Text(items[1..])) && Fits(items[1..]))
  }

  // What they mean

  function InnerValue(i: Inner, env: Env): string {
    match i
    case Letter(c) => [c]
    case Escape(c) => [c]
    case Variable(name) => if name == "" then "$" else if name in env then env[name] else ""
  }

  function BodyValue(body: seq<Inner>, env: Env): string {
    if body == [] then "" else InnerValue(body[0], env) + BodyValue(body[1..], env)
  }

  function PieceValue(p: Piece, env: Env): string {
    match p
    case Bare(i) => InnerValue(i, env)
    case Single(text) => text
    case Double(body) => BodyValue(body, env)
  }

  function WordIfAny(cur: string): seq<string> {
    if cur == "" then [] else [cur]
  }

  /** The tokens: pieces join to words, blanks and operators end them, empty words vanish. */
  function Meaning(items: seq<Item>, cur: string, env: Env): seq<string> {
    if items == [] then WordIfAny(cur)
    else
      match items[0]
      case Part(p) => Meaning(items[1..], cur + PieceValue(p, env), env)
      case Blank(_) => WordIfAny(cur) + Meaning(items[1..], "", env)
      case Op(text) => WordIfAny(cur) + ([text] + Meaning(items[1..], "", env))
      case LoneBackslash => Meaning(items[1..], cur, env)
  }

  // One item at a time

  /** A turn that emits nothing. */
  lemma SilentStep(s: Scanner, env: Env)
    requires s.rest != "" && Tokens.Step(s, env).0 == []
    ensures Scan(s, env) == Scan(Tokens.Step(s, env).1, env)
  {
    BeforeBefore([], [], Scan(Tokens.Step(s, env).1, env));
  }

  lemma {:induction false} NameLengthIs(name: string, next: string)
    requires IsName(name) && NameEnds(next)
    ensures NameLength(name + next) == |name|
    decreases |name|
  {
    if name == "" {
      assert name + next == next;
      assert next != "" ==> [next[0]][0] == next[0];
    } else {
      assert (name + next)[1..] == name[1..] + next;
      NameLengthIs(name[1..], next);
    }
  }

  /** Outside single quotes, `$` and a name read as the variable's value, which joins the word as
      it is; an unbound name reads as nothing. */
  lemma ScanVariable(name: string, next: string, cur: string, double: bool, env: Env)
    requires name != "" && IsName(name) && NameEnds(next)
    ensures Scan(Scanner("$" + name + next, cur, false, double), env)
         == Scan(Scanner(next, if name in env then cur + env[name] else cur, false, double), env)
  {
    var s := Scanner("$" + name + next, cur, false, double);
    assert s.rest[1..] == name + next;
    NameLengthIs(name, next);
    assert (name + next)[..|name|] == name && (name + next)[|name|..] == next;
    assert cur + "" == cur;
    hide Scan;
    SilentStep(s, env);
  }

  lemma ScanLetter(c: char, next: string, cur: string, double: bool, env: Env)
    requires InnerFits(Letter(c), double, next)
    ensures Scan(Scanner([c] + next, cur, false, double), env) == Scan(Scanner(next, cur + [c], false, double), env)
  {
    var s := Scanner([c] + next, cur, false, double);
    assert s.rest[1..] == next;
    hide Scan, OperatorAt, NameLength, Lookup;
    SilentStep(s, env);
  }

  lemma ScanEscape(c: char, next: string, cur: string, double: bool, env: Env)
    ensures Scan(Scanner(['\\', c] + next, cur, false, double), env)
         == Scan(Scanner(next, cur + [c], false, double), env)
  {
    var s := Scanner(['\\', c] + next, cur, false, double);
    assert s.rest[1..] == [c] + next && ([c] + next)[..1] == [c] && ([c] + next)[1..] == next;
    hide Scan, OperatorAt, NameLength, Lookup, OperatorChar;
    SilentStep(s, env);
  }

  lemma ScanDollar(next: string, cur: string, double: bool, env: Env)
    requires NameEnds(next)
    ensures Scan(Scanner("$" + next, cur, false, double), env) == Scan(Scanner(next, cur + "$", false, double), env)
  {
    var s := Scanner("$" + next, cur, false, double);
    assert s.rest[1..] == next;
    NameLengthIs("", next);
    assert "" + next == next && next[0..] == next;
    hide Scan, OperatorAt, NameLength, Lookup, OperatorChar;
    SilentStep(s, env);
  }

  lemma ScanInner(i: Inner, next: string, cur: string, double: bool, env: Env)
    requires InnerFits(i, double, next)
    ensures Scan(Scanner(InnerText(i) + next, cur, false, double), env)
         == Scan(Scanner(next, cur + InnerValue(i, env), false, double), env)
  {
    hide Scan;
    match i
    case Letter(c) =>
      ScanLetter(c, next, cur, double, env);
    case Escape(c) =>
      ScanEscape(c, next, cur, double, env);
    case Variable(name) =>
      if name == "" {
        assert "$" + name + next == "$" + next;
        ScanDollar(next, cur, double, env);
      } else {
        ScanVariable(name, next, cur, double, env);
        assert cur + "" == cur;
      }
  }

  lemma BodyTextFirst(body: seq<Inner>, next: string)
    requires body != []
    ensures BodyText(body) + "\"" + next == InnerText(body[0]) + (BodyText(body[1..]) + "\"" + next)
  {
    assert InnerText(body[0]) + BodyText(body[1..]) + "\"" + next
        == InnerText(body[0]) + (BodyText(body[1..]) + "\"" + next);
  }

  lemma {:induction false} ScanBody(body: seq<Inner>, next: string, cur: string, env: Env)
    requires BodyFits(body)
    ensures Scan(Scanner(BodyText(body) + "\"" + next, cur, false, true), env)
         == Scan(Scanner(next, cur + BodyValue(body, env), false, false), env)
    decreases |body|
  {
    hide Scan, Tokens.Step;
    if body == [] {
      CloseDouble(next, cur, env);
      assert BodyText(body) + "\"" + next == "\"" + next && cur + "" == cur;
    } else {
      var tail := BodyText(body[1..]) + "\"" + next;
      BodyTextFirst(body, next);
      hide InnerFits, InnerText, InnerValue, BodyText;
      InnerFitsMore(body[0], true, BodyText(body[1..]) + "\"", next);
      ScanInner(body[0], tail, cur, true, env);
      ScanBody(body[1..], next, cur + InnerValue(body[0], env), env);
      assert cur + InnerValue(body[0], env) + BodyValue(body[1..], env)
          == cur + (InnerValue(body[0], env) + BodyValue(body[1..], env));
    }
  }

  lemma InnerFitsMore(i: Inner, quoted: bool, next: string, more: string)
    requires InnerFits(i, quoted, next) && next != ""
    ensures InnerFits(i, quoted, next + more)
  {
    assert (next + more)[0] == next[0];
  }

  lemma CloseDouble(next: string, cur: string, env: Env)
    ensures Scan(Scanner("\"" + next, cur, false, true), env) == Scan(Scanner(next, cur, false, false), env)
    ensures Scan(Scanner("\"" + next, cur, false, false), env) == Scan(Scanner(next, cur, false, true), env)
  {
    assert ("\"" + next)[1..] == next;
    SilentStep(Scanner("\"" + next, cur, false, true), env);
    SilentStep(Scanner("\"" + next, cur, false, false), env);
  }

  lemma ScanPiece(p: Piece, next: string, cur: string, env: Env)
    requires ItemFits(Part(p), next)
    ensures Scan(Scanner(ItemText(Part(p)) + next, cur, false, false), env)
         == Scan(Scanner(next, cur + PieceValue(p, env), false, false), env)
  {
    hide Scan, Tokens.Step;
    match p
    case Bare(i) =>
      ScanInner(i, next, cur, false, env);
    case Single(text) =>
      assert ItemText(Part(p)) + next == "'" + (text + "'" + next);
      OpenQuote(text + "'" + next, cur, env);
      ScanQuoted(text, next, cur, env);
    case Double(body) =>
      assert ItemText(Part(p)) + next == "\"" + (BodyText(body) + "\"" + next);
      CloseDouble(BodyText(body) + "\"" + next, cur, env);
      ScanBody(body, next, cur, env);
  }

  lemma ScanBreak(c: char, next: string, cur: string, env: Env)
    requires IsBlank(c)
    ensures Scan(Scanner([c] + next, cur, false, false), env)
         == Before(WordIfAny(cur), Scan(Scanner(next, "", false, false), env))
  {
    assert ([c] + next)[1..] == next;
  }

  lemma OperatorHere(op: string, next: string)
    requires OpFits(op, next)
    ensures op != "" && OperatorChar(op[0]) && OperatorAt(op + next) == op && (op + next)[|op|..] == next
  {
    var s := op + next;
    assert s[..|op|] == op;
    if |op| == 1 && next != "" {
      assert s[..2] == [op[0], next[0]];
    }
  }

  lemma ScanOp(op: string, next: string, cur: string, env: Env)
    requires OpFits(op, next)
    ensures Scan(Scanner(op + next, cur, false, false), env)
         == Before(WordIfAny(cur) + [op], Scan(Scanner(next, "", false, false), env))
  {
    OperatorHere(op, next);
    assert (op + next)[0] == op[0];
    hide OpFits, OperatorAt, NameLength, Lookup;
    ScanStep(Scanner(op + next, cur, false, false), env);
  }

  lemma ScanLone(cur: string, env: Env)
    ensures Scan(Scanner("\\", cur, false, false), env) == Ok(WordIfAny(cur))
  {
    assert "\\"[1..] == "";
    SilentStep(Scanner("\\", cur, false, false), env);
  }

  lemma {:induction false} ScanItems(items: seq<Item>, cur: string, env: Env)
    requires Fits(items)
    ensures Scan(Scanner(Text(items), cur, false, false), env) == Ok(Meaning(items, cur, env))
    decreases |items|
  {
    if items != [] {
      hide Scan, Tokens.Step;
      var next := Text(items[1..]);
      match items[0]
      case Part(p) =>
        ScanPiece(p, next, cur, env);
        ScanItems(items[1..], cur + PieceValue(p, env), env);
      case Blank(c) =>
        ScanBreak(c, next, cur, env);
        ScanItems(items[1..], "", env);
      case Op(text) =>
        ScanOp(text, next, cur, env);
        ScanItems(items[1..], "", env);
        assert WordIfAny(cur) + [text] + Meaning(items[1..], "", env)
            == WordIfAny(cur) + ([text] + Meaning(items[1..], "", env));
      case LoneBackslash =>
        ScanLone(cur, env);
        assert items[1..] == [] by {
          NonEmptyText(items[1..]);
        }
        assert "\\" + "" == "\\";
    }
  }

  lemma NonEmptyText(items: seq<Item>)
    requires Fits(items) && Text(items) == ""
    ensures items == []
  {
  }

  /** Every fitting sequence of items is read as it means, in every environment. */
  lemma TokensAreMeaning(items: seq<Item>, env: Env)
    requires Fits(items)
    ensures Tokens.Tokens(Text(items), env) == Ok(Meaning(items, "", env))
  {
    ScanItems(items, "", env);
  }

  // Nothing else is read

  lemma OpenEnds(cur: string, env: Env)
    ensures Scan(Scanner("", cur, true, false), env).Err? && Scan(Scanner("", cur, false, true), env).Err?
    ensures Scan(Scanner("\\", cur, false, true), env).Err?
  {
    assert "\\"[1..] == "";
    SilentStep(Scanner("\\", cur, false, true), env);
  }

  lemma {:induction false} SingleOf(rest: string, cur: string, env: Env) returns (text: string, next: string)
    requires Scan(Scanner(rest, cur, true, false), env).Ok?
    ensures rest == text + ("'" + next) && '\'' !in text
    decreases |rest|
  {
    OpenEnds(cur, env);
    hide Scan, Tokens.Step;
    assert rest == [rest[0]] + rest[1..];
    StepSingle(rest[0], rest[1..], cur, env);
    if rest[0] == '\'' {
      text, next := "", rest[1..];
    } else {
      ScanStep(Scanner(rest, cur, true, false), env);
      text, next := SingleOf(rest[1..], cur + [rest[0]], env);
      assert [rest[0]] + (text + ("'" + next)) == ([rest[0]] + text) + ("'" + next);
      text := [rest[0]] + text;
    }
  }

  /** The name after a `$` runs as far as it can. */
  lemma {:induction false} LongestName(rest: string)
    ensures IsName(rest[..NameLength(rest)]) && NameEnds(rest[NameLength(rest)..])
  {
    var n := NameLength(rest);
    forall i | 0 <= i < n
      ensures NameChar(rest[..n][i])
    {
      assert rest[..n][i] == rest[i];
    }
    if n < |rest| {
      assert !NameChar(rest[n]) && [rest[n]][0] == rest[n];
    }
  }

  /** What comes next where the same may stand inside double quotes and outside. */
  lemma InnerOf(rest: string, quoted: bool) returns (i: Inner, next: string)
    requires rest != "" && rest != "\\" && rest[0] != '"'
    requires !quoted ==> rest[0] != '\'' && !IsBlank(rest[0]) && rest[0] !in "|&><;"
    ensures rest == InnerText(i) + next && InnerFits(i, quoted, next) && |next| < |rest|
  {
    if rest[0] == '\\' {
      i, next := Escape(rest[1]), rest[2..];
    } else if rest[0] == '$' {
      LongestName(rest[1..]);
      var n := NameLength(rest[1..]);
      i, next := Variable(rest[1..][..n]), rest[1..][n..];
    } else {
      i, next := Letter(rest[0]), rest[1..];
    }
  }

  lemma {:induction false} DoubleOf(rest: string, cur: string, env: Env)
      returns (body: seq<Inner>, next: string, after: string)
    requires Scan(Scanner(rest, cur, false, true), env).Ok?
    ensures rest == BodyText(body) + "\"" + next && BodyFits(body)
    ensures Scan(Scanner(next, after, false, false), env).Ok?
    decreases |rest|
  {
    OpenEnds(cur, env);
    hide Scan, Tokens.Step;
    if rest[0] == '"' {
      body, next, after := [], rest[1..], cur;
      assert rest == "\"" + next && BodyText([]) + "\"" + next == "\"" + next;
      CloseDouble(next, cur, env);
    } else {
      var i, tail := InnerOf(rest, true);
      ScanInner(i, tail, cur, true, env);
      body, next, after := DoubleOf(tail, cur + InnerValue(i, env), env);
      InnerFitsLess(i, true, BodyText(body) + "\"", next);
      BodyTextFirst([i] + body, next);
      body := [i] + body;
    }
  }

  lemma InnerFitsLess(i: Inner, quoted: bool, next: string, more: string)
    requires InnerFits(i, quoted, next + more) && next != ""
    ensures InnerFits(i, quoted, next)
  {
    assert (next + more)[0] == next[0];
  }

  lemma TakeOp(rest: string) returns (op: string, next: string)
    requires rest != "" && rest[0] in "|&><;"
    ensures rest == op + next && OpFits(op, next) && |next| < |rest|
  {
    op := OperatorAt(rest);
    next := rest[|op|..];
    if |op| == 1 && next != "" {
      assert rest[..2] == [rest[0], rest[1]] && next[0] == rest[1];
    }
  }

  lemma SingleItem(rest: string, cur: string, env: Env) returns (text: string, next: string)
    requires Scan(Scanner("'" + rest, cur, false, false), env).Ok?
    ensures '\'' !in text && "'" + rest == ItemText(Part(Single(text))) + next && |next| < |rest|
    ensures Scan(Scanner(next, cur + text, false, false), env).Ok?
  {
    OpenQuote(rest, cur, env);
    text, next := SingleOf(rest, cur, env);
    hide Scan;
    assert "'" + (text + ("'" + next)) == "'" + (text + "'") + next;
    ScanPiece(Single(text), next, cur, env);
  }

  lemma DoubleItem(rest: string, cur: string, env: Env) returns (body: seq<Inner>, next: string, after: string)
    requires Scan(Scanner("\"" + rest, cur, false, false), env).Ok?
    ensures BodyFits(body) && "\"" + rest == ItemText(Part(Double(body))) + next && |next| < |rest|
    ensures Scan(Scanner(next, after, false, false), env).Ok?
  {
    hide Scan;
    CloseDouble(rest, cur, env);
    body, next, after := DoubleOf(rest, cur, env);
    assert "\"" + (BodyText(body) + "\"" + next) == "\"" + (BodyText(body) + "\"") + next;
  }

  /** What ends a word: a blank or an operator. */
  lemma BreakItem(rest: string, cur: string, env: Env) returns (item: Item, next: string)
    requires rest != "" && (IsBlank(rest[0]) || rest[0] in "|&><;")
    requires Scan(Scanner(rest, cur, false, false), env).Ok?
    ensures rest == ItemText(item) + next && ItemFits(item, next) && |next| < |rest|
    ensures Scan(Scanner(next, "", false, false), env).Ok?
  {
    hide Scan;
    if IsBlank(rest[0]) {
      item, next := Blank(rest[0]), rest[1..];
      assert rest == [rest[0]] + next;
      ScanBreak(rest[0], next, cur, env);
    } else {
      var op;
      op, next := TakeOp(rest);
      item := Op(op);
      ScanOp(op, next, cur, env);
    }
  }

  /** The item that a text which can be read begins with. */
  lemma FirstItem(rest: string, cur: string, env: Env) returns (item: Item, next: string, after: string)
    requires rest != "" && Scan(Scanner(rest, cur, false, false), env).Ok?
    ensures rest == ItemText(item) + next && ItemFits(item, next) && |next| < |rest|
    ensures Scan(Scanner(next, after, false, false), env).Ok?
  {
    hide Scan, InnerFits, BodyFits, OpFits;
    if rest == "\\" {
      item, next, after := LoneBackslash, "", "";
      NothingLeft(env);
    } else if rest[0] == '\'' {
      assert rest == "'" + rest[1..];
      var text;
      text, next := SingleItem(rest[1..], cur, env);
      item, after := Part(Single(text)), cur + text;
    } else if rest[0] == '"' {
      assert rest == "\"" + rest[1..];
      var body;
      body, next, after := DoubleItem(rest[1..], cur, env);
      item := Part(Double(body));
    } else if IsBlank(rest[0]) || rest[0] in "|&><;" {
      item, next := BreakItem(rest, cur, env);
      after := "";
    } else {
      var i;
      i, next := InnerOf(rest, false);
      item, after := Part(Bare(i)), cur + InnerValue(i, env);
      ScanInner(i, next, cur, false, env);
    }
  }

  lemma NothingLeft(env: Env)
    ensures Scan(Scanner("", "", false, false), env) == Ok([])
  {
  }

  lemma {:induction false} ItemsOf(rest: string, cur: string, env: Env) returns (items: seq<Item>)
    requires Scan(Scanner(rest, cur, false, false), env).Ok?
    ensures Fits(items) && Text(items) == rest
    decreases |rest|
  {
    if rest == "" {
      items := [];
    } else {
      hide Scan, ItemText, ItemFits;
      var item, next, after := FirstItem(rest, cur, env);
      items := ItemsOf(next, after, env);
      assert ([item] + items)[1..] == items;
      items := [item] + items;
    }
  }

  lemma {:induction false} OnlyQuotesFail(s: Scanner, env: Env)
    ensures Scan(s, env).Err? ==> Scan(s, env).error == Parse("unterminated quote")
    decreases |s.rest|
  {
    hide Tokens.Step;
    if s.rest != "" {
      OnlyQuotesFail(Tokens.Step(s, env).1, env);
    }
  }

  /** A line can be read if and only if it is the text of a fitting sequence of items, whatever
      the environment holds; any other line has an open quote. */
  lemma ReadableIffFits(input: string, env: Env)
    ensures Tokens.Tokens(input, env).Ok? <==> exists items :: Fits(items) && Text(items) == input
    ensures Tokens.Tokens(input, env).Err? ==> Tokens.Tokens(input, env).error == Parse("unterminated quote")
  {
    OnlyQuotesFail(Scanner(input, "", false, false), env);
    if Tokens.Tokens(input, env).Ok? {
      var items := ItemsOf(input, "", env);
    }
    if items :| Fits(items) && Text(items) == input {
      TokensAreMeaning(items, env);
    }
  }

  // Variables in typed lines

  /** A word that needs no quoting. */
  predicate Bareword(a: string) {
    a != "" && forall i | 0 <= i < |a| :: InnerFits(Letter(a[i]), false, "")
  }

  lemma {:induction false} ScanLetters(a: string, next: string, cur: string, env: Env)
    requires a == "" || Bareword(a)
    ensures Scan(Scanner(a + next, cur, false, false), env) == Scan(Scanner(next, cur + a, false, false), env)
    decreases |a|
  {
    hide Scan;
    if a == "" {
      assert a + next == next && cur + a == cur;
    } else {
      assert a + next == [a[0]] + (a[1..] + next);
      ScanLetter(a[0], a[1..] + next, cur, false, env);
      ScanLetters(a[1..], next, cur + [a[0]], env);
      assert cur + [a[0]] + a[1..] == cur + a;
    }
  }

  lemma FirstWord(a: string, next: string, env: Env)
    requires Bareword(a)
    ensures Tokens.Tokens(a + (" " + next), env) == Before([a], Scan(Scanner(next, "", false, false), env))
  {
    ScanLetters(a, " " + next, "", env);
    hide Scan;
    assert "" + a == a;
    ScanBreak(' ', next, a, env);
  }

  lemma LastPiece(p: Piece, env: Env)
    requires ItemFits(Part(p), "")
    ensures Scan(Scanner(ItemText(Part(p)), "", false, false), env) == Ok(WordIfAny(PieceValue(p, env)))
  {
    var item := Part(p);
    assert [item][1..] == [] && Text([item]) == ItemText(item) && ItemText(item) + "" == ItemText(item);
    ScanItems([item], "", env);
    assert "" + PieceValue(p, env) == PieceValue(p, env);
    assert Meaning([item], "", env) == Meaning([], PieceValue(p, env), env);
  }

  lemma TokensOfTwo(a: string, p: Piece, env: Env)
    requires Bareword(a) && ItemFits(Part(p), "")
    ensures Tokens.Tokens(a + (" " + ItemText(Part(p))), env) == Ok([a] + WordIfAny(PieceValue(p, env)))
  {
    hide Scan, ItemFits, ItemText, PieceValue;
    FirstWord(a, ItemText(Part(p)), env);
    LastPiece(p, env);
  }

  function LineOf(c: SimpleCommand): ParsedLine {
    ParsedLine([Segment(Always, [c])])
  }

  lemma Alone(c: SimpleCommand)
    ensures [] + [c] == [c] && [] + [Segment(Always, [c])] == [Segment(Always, [c])]
  {
  }

  lemma OneToken(a: string)
    requires PlainWord(a)
    ensures ParseFrom([a], START) == Ok(LineOf(SimpleCommand(a, [], None, None)))
  {
    var read := START.(words := [a]);
    assert [a][1..] == [] && [] + [a] == [a];
    assert Advance([a], START) == Advance([], read);
    Alone(SimpleCommand(a, [], None, None));
    assert Flush(read) == START.(pipeline := [SimpleCommand(a, [], None, None)]);
  }

  lemma TwoTokens(a: string, v: string)
    requires PlainWord(a) && v != ""
    ensures ParseFrom([a, v], START) == Ok(LineOf(SimpleCommand(a, [v], None, None))) <==> PlainWord(v)
  {
    var ts, read := [a, v], START.(words := [a]);
    assert ts[1..] == [v] && [v][1..] == [] && [] + [a] == [a];
    assert Advance(ts, START) == Advance([v], read);
    if PlainWord(v) {
      assert [a] + [v] == ts && ts[1..] == [v];
      assert Advance([v], read) == Advance([], START.(words := ts));
      Alone(SimpleCommand(a, [v], None, None));
      assert Flush(START.(words := ts)) == START.(pipeline := [SimpleCommand(a, [v], None, None)]);
    } else if v == "|" {
      assert Advance([v], read) == Advance([], Flush(read));
      assert Finish(Flush(read)).segments[0].commands[0].args == [];
    } else if ChainToken(v) {
      assert Advance([v], read) == Advance([], CloseSegment(Flush(read), OpOf(v)));
      assert Finish(CloseSegment(Flush(read), OpOf(v))).segments[0].commands[0].args == [];
    }
  }

  lemma BarewordPlain(a: string)
    requires Bareword(a)
    ensures PlainWord(a)
  {
    assert InnerFits(Letter(a[0]), false, "");
  }

  /** The value a variable reads as. */
  function ValueOf(name: string, env: Env): string {
    if name in env then env[name] else ""
  }

  lemma ArgumentLine(a: string, p: Piece, env: Env)
    requires Bareword(a) && ItemFits(Part(p), "")
    ensures var v, line := PieceValue(p, env), Line(a + (" " + ItemText(Part(p))), env);
            && (line == Ok(LineOf(SimpleCommand(a, [v], None, None))) <==> PlainWord(v))
            && (v == "" ==> line == Ok(LineOf(SimpleCommand(a, [], None, None))))
  {
    var v := PieceValue(p, env);
    hide Tokens.Tokens, ItemFits, ItemText, PieceValue, Advance;
    TokensOfTwo(a, p, env);
    BarewordPlain(a);
    if v == "" {
      assert [a] + [] == [a];
      OneToken(a);
    } else {
      TwoTokens(a, v);
      assert [a] + [v] == [a, v];
    }
  }

  /** `a $NAME` and `a "$NAME"` give `a` the variable's value as one argument, blanks and all, if
      and only if the value is neither empty nor an operator; an empty or unbound one gives no
      argument. In single quotes the name stands for itself. */
  lemma VariableLine(a: string, name: string, env: Env)
    requires Bareword(a) && name != "" && IsName(name)
    ensures var v, given := ValueOf(name, env), Ok(LineOf(SimpleCommand(a, [ValueOf(name, env)], None, None)));
            && (Line(a + (" " + ("$" + name)), env) == given <==> PlainWord(v))
            && (Line(a + (" " + ("\"" + ("$" + name + "\""))), env) == given <==> PlainWord(v))
    ensures ValueOf(name, env) == "" ==>
              var bare := Ok(LineOf(SimpleCommand(a, [], None, None)));
              Line(a + (" " + ("$" + name)), env) == bare
              && Line(a + (" " + ("\"" + ("$" + name + "\""))), env) == bare
    ensures Line(a + (" " + ("'" + ("$" + name + "'"))), env)
         == Ok(LineOf(SimpleCommand(a, ["$" + name], None, None)))
  {
    hide Line, ItemFits, ItemText, PieceValue;
    VariableFits(name, env);
    ArgumentLine(a, Bare(Variable(name)), env);
    ArgumentLine(a, Double([Variable(name)]), env);
    assert ("$" + name)[0] == '$';
    ArgumentLine(a, Single("$" + name), env);
  }

  lemma NoQuoteInName(name: string)
    requires IsName(name)
    ensures '\'' !in "$" + name
  {
    var s := "$" + name;
    forall k | 0 <= k < |s|
      ensures s[k] != '\''
    {
      if k > 0 {
        assert s[k] == name[k - 1];
      }
    }
  }

  lemma VariableFits(name: string, env: Env)
    requires name != "" && IsName(name)
    ensures ItemFits(Part(Bare(Variable(name))), "") && ItemText(Part(Bare(Variable(name)))) == "$" + name
    ensures ItemFits(Part(Double([Variable(name)])), "")
    ensures ItemText(Part(Double([Variable(name)]))) == "\"" + ("$" + name + "\"")
    ensures ItemFits(Part(Single("$" + name)), "") && ItemText(Part(Single("$" + name))) == "'" + ("$" + name + "'")
    ensures PieceValue(Bare(Variable(name)), env) == PieceValue(Double([Variable(name)]), env) == ValueOf(name, env)
    ensures PieceValue(Single("$" + name), env) == "$" + name
  {
    var i := Variable(name);
    assert [i][1..] == [];
    assert "$" + name + "" == "$" + name && ValueOf(name, env) + "" == ValueOf(name, env);
    assert BodyText([i]) == "$" + name && BodyValue([i], env) == ValueOf(name, env);
    assert !IsName(['"']) by {
      assert ['"'][0] == '"';
    }
    NoQuoteInName(name);
  }
}
