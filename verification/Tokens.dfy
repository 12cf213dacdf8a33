/** `tokenize`: quoting, escapes, variable expansion and operators. */
module Tokens {
  import opened Base

  datatype ShellError = Parse(message: string)

  type Env = map<string, string>

  type TokenResult = Result<seq<string>, ShellError>

  predicate NameChar(c: char) {
    'a' <= c <= 'z' || 'A' <= c <= 'Z' || '0' <= c <= '9' || c == '_' || c == '?'
  }

  /** How many leading characters can belong to a variable name. */
  function NameLength(s: string): (n: nat)
    ensures n <= |s|
    ensures forall i | 0 <= i < n :: NameChar(s[i])
    ensures n < |s| ==> !NameChar(s[n])
  {
    if s != "" && NameChar(s[0]) then 1 + NameLength(s[1..]) else 0
  }

  function Lookup(env: Env, name: string): string {
    if name in env then env[name] else ""
  }

  predicate OperatorChar(c: char) {
    c == '|' || c == '&' || c == '>' || c == '<' || c == ';'
  }

  predicate DoubledOperator(s: string) {
    s == "&&" || s == "||" || s == ">>"
  }

  /** The operator token at the head of `s`. */
  function OperatorAt(s: string): (op: string)
    requires s != ""
    ensures 1 <= |op| <= |s| && op == s[..|op|]
  {
    if |s| >= 2 && DoubledOperator(s[..2]) then s[..2] else s[..1]
  }

  /** The pending word, if any, as a token. */
  function Flushed(cur: string): seq<string> {
    if cur == "" then [] else [cur]
  }

  function Before(front: seq<string>, r: TokenResult): TokenResult {
    if r.Ok? then Ok(front + r.value) else r
  }

  /** What is left to read, the pending word, and which quote is open. */
  datatype Scanner = Scanner(rest: string, cur: string, single: bool, double: bool) {
    predicate Quoted() { single || double }
  }

  /** One turn of the loop: the tokens it emits and the state it leaves. */
  function Step(s: Scanner, env: Env): (r: (seq<string>, Scanner))
    requires s.rest != ""
    ensures |r.1.rest| < |s.rest|
  {
    var c, rest := s.rest[0], s.rest[1..];
    if c == '\\' && !s.single then
      ([], if rest == "" then s.(rest := rest) else s.(rest := rest[1..], cur := s.cur + rest[..1]))
    else if c == '\'' && !s.double then ([], s.(rest := rest, single := !s.single))
    else if c == '"' && !s.single then ([], s.(rest := rest, double := !s.double))
    else if c == '$' && !s.single then
      var n := NameLength(rest);
      ([], s.(rest := rest[n..], cur := s.cur + (if n == 0 then "$" else Lookup(env, rest[..n]))))
    else if (c == ' ' || c == '\t') && !s.Quoted() then
      (Flushed(s.cur), s.(rest := rest, cur := ""))
    else if OperatorChar(c) && !s.Quoted() then
      var op := OperatorAt(s.rest);
      (Flushed(s.cur) + [op], s.(rest := s.rest[|op|..], cur := ""))
    else ([], s.(rest := rest, cur := s.cur + [c]))
  }

  /** The tokens of everything still to be read. */
  function Scan(s: Scanner, env: Env): TokenResult
    decreases |s.rest|
  {
    if s.rest == "" then
      if s.Quoted() then Err(Parse("unterminated quote")) else Ok(Flushed(s.cur))
    else
      var (emitted, next) := Step(s, env);
      Before(emitted, Scan(next, env))
  }

  function Tokens(input: string, env: Env): TokenResult {
    Scan(Scanner(input, "", false, false), env)
  }

  lemma BeforeBefore(a: seq<string>, b: seq<string>, r: TokenResult)
    ensures Before(a, Before(b, r)) == Before(a + b, r)
    ensures Before([], r) == r
  {
    if r.Ok? {
      assert a + (b + r.value) == (a + b) + r.value;
      assert [] + r.value == r.value;
    }
  }

  method Tokenize(input: string, env: Env) returns (r: TokenResult)
    ensures r == Tokens(input, env)
  {
    var tokens: seq<string> := [];
    var cur := "";
    var i := 0;
    var single, double := false, false;
    assert input[0..] == input;
    BeforeBefore([], [], Tokens(input, env));
    while i < |input|
      invariant 0 <= i <= |input|
      invariant Tokens(input, env) == Before(tokens, Scan(Scanner(input[i..], cur, single, double), env))
    {
      var emitted;
      emitted, i, cur, single, double := ReadOne(input, i, cur, single, double, env);
      BeforeBefore(tokens, emitted, Scan(Scanner(input[i..], cur, single, double), env));
      tokens := tokens + emitted;
    }
    if single || double {
      return Err(Parse("unterminated quote"));
    }
    assert input[|input|..] == "" && tokens + [] == tokens;
    assert Tokens(input, env) == Ok(tokens + Flushed(cur));
    if cur != "" {
      tokens := tokens + [cur];
    }
    r := Ok(tokens);
  }

  /** The body of the loop: one character, or an escape, a variable or an operator. */
  method ReadOne(input: string, at: nat, cur: string, single: bool, double: bool, env: Env)
      returns (emitted: seq<string>, at': nat, cur': string, single': bool, double': bool)
    requires at < |input|
    ensures at < at' <= |input|
    ensures (emitted, Scanner(input[at'..], cur', single', double'))
         == Step(Scanner(input[at..], cur, single, double), env)
  {
    emitted, at', cur', single', double' := [], at + 1, cur, single, double;
    ghost var rest := input[at..][1..];
    assert rest == input[at + 1..];
    var c := input[at];
    if c == '\\' && !single {
      if at' < |input| {
        assert rest[..1] == [input[at']] && rest[1..] == input[at' + 1..];
        cur' := cur + [input[at']];
        at' := at' + 1;
      }
    } else if c == '\'' && !double {
      single' := !single;
    } else if c == '"' && !single {
      double' := !double;
    } else if c == '$' && !single {
      var name;
      name, at' := ReadName(input, at');
      assert rest[..|name|] == name && rest[|name|..] == input[at'..];
      cur' := cur + (if name == "" then "$" else if name in env then env[name] else "");
    } else if (c == ' ' || c == '\t') && !single && !double {
      if cur != "" {
        emitted, cur' := [cur], "";
      }
    } else if OperatorChar(c) && !single && !double {
      if cur != "" {
        emitted, cur' := [cur], "";
      }
      var op;
      op, at' := ReadOperator(input, at);
      emitted := emitted + [op];
    } else {
      cur' := cur + [c];
    }
  }

  method ReadOperator(input: string, at: nat) returns (op: string, next: nat)
    requires at < |input|
    ensures at < next <= |input|
    ensures op == OperatorAt(input[at..]) && input[at..][|op|..] == input[next..]
  {
    op, next := [input[at]], at + 1;
    if next < |input| {
      var pair := [input[at], input[next]];
      assert input[at..][..2] == pair;
      if pair == "&&" || pair == "||" || pair == ">>" {
        op, next := pair, next + 1;
      }
    }
  }

  /** The inner loop: the longest variable name at position `start`. */
  method ReadName(input: string, start: nat) returns (name: string, next: nat)
    requires start <= |input|
    ensures start <= next <= |input| && name == input[start..next]
    ensures |name| == NameLength(input[start..])
  {
    name, next := "", start;
    assert input[start..start] == "";
    while next < |input| && NameChar(input[next])
      invariant start <= next <= |input|
      invariant name == input[start..next]
      invariant NameLength(input[start..]) == |name| + NameLength(input[next..])
    {
      assert input[next..][1..] == input[next + 1..];
      name := name + [input[next]];
      next := next + 1;
    }
  }

  ghost predicate NonEmptyTokens(ts: seq<string>) {
    forall i | 0 <= i < |ts| :: ts[i] != ""
  }

  /** No token is empty, whatever the environment holds. */
  lemma {:induction false} TokensNonEmpty(s: Scanner, env: Env)
    ensures Scan(s, env).Ok? ==> NonEmptyTokens(Scan(s, env).value)
    decreases |s.rest|
  {
    if s.rest != "" {
      TokensNonEmpty(Step(s, env).1, env);
    }
  }
}
