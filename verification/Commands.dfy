/** What one command may look like, and which lines do not parse. */
module Commands {
  import opened Base
  import opened Tokens
  import opened Parser
  import opened RoundTrip

  /** The parts of a command, in the order they are written. */
  datatype Part = Word(text: string) | Input(path: string) | Output(path: string, append: bool)

  function PartTokens(p: Part): seq<string> {
    match p
    case Word(text) => [text]
    case Input(path) => ["<", path]
    case Output(path, append) => [if append then ">>" else ">", path]
  }

  function PartsTokens(parts: seq<Part>): seq<string> {
    if parts == [] then [] else PartTokens(parts[0]) + PartsTokens(parts[1..])
  }

  predicate PlainParts(parts: seq<Part>) {
    forall i | 0 <= i < |parts| && parts[i].Word? :: PlainWord(parts[i].text)
  }

  function WordsIn(parts: seq<Part>): seq<string> {
    if parts == [] then [] else (if parts[0].Word? then [parts[0].text] else []) + WordsIn(parts[1..])
  }

  /** The last redirect of each kind, or what stood before. */
  function LastInput(parts: seq<Part>, before: Option<string>): Option<string>
    decreases |parts|
  {
    if parts == [] then before
    else
      var last := parts[|parts| - 1];
      if last.Input? then Some(last.path) else LastInput(parts[..|parts| - 1], before)
  }

  function LastOutput(parts: seq<Part>, before: Option<(string, bool)>): Option<(string, bool)>
    decreases |parts|
  {
    if parts == [] then before
    else
      var last := parts[|parts| - 1];
      if last.Output? then Some((last.path, last.append)) else LastOutput(parts[..|parts| - 1], before)
  }

  /** The variables of the loop once it has read some parts. */
  function WithParts(p: Partial, parts: seq<Part>): Partial {
    p.(words := p.words + WordsIn(parts), stdin := LastInput(parts, p.stdin), stdout := LastOutput(parts, p.stdout))
  }

  lemma {:induction false} LastInputFirst(parts: seq<Part>, before: Option<string>)
    requires parts != []
    ensures LastInput(parts, before) == LastInput(parts[1..], if parts[0].Input? then Some(parts[0].path) else before)
    decreases |parts|
  {
    if |parts| > 1 {
      var init := parts[..|parts| - 1];
      assert parts[1..][..|parts| - 2] == init[1..];
      LastInputFirst(init, before);
    }
  }

  lemma {:induction false} LastOutputFirst(parts: seq<Part>, before: Option<(string, bool)>)
    requires parts != []
    ensures LastOutput(parts, before)
         == LastOutput(parts[1..], if parts[0].Output? then Some((parts[0].path, parts[0].append)) else before)
    decreases |parts|
  {
    if |parts| > 1 {
      var init := parts[..|parts| - 1];
      assert parts[1..][..|parts| - 2] == init[1..];
      LastOutputFirst(init, before);
    }
  }

  lemma OnePart(part: Part, rest: seq<string>, p: Partial)
    requires part.Word? ==> PlainWord(part.text)
    ensures Advance(PartTokens(part) + rest, p) == Advance(rest,
              match part
              case Word(text) => p.(words := p.words + [text])
              case Input(path) => p.(stdin := Some(path))
              case Output(path, append) => p.(stdout := Some((path, append))))
  {
    var ts := PartTokens(part) + rest;
    if part.Word? {
      assert ts[1..] == rest;
    } else {
      assert ts[1..] == [part.path] + rest && ts[1..][1..] == rest;
    }
  }

  lemma {:induction false} PartsRead(parts: seq<Part>, rest: seq<string>, p: Partial)
    requires PlainParts(parts)
    ensures Advance(PartsTokens(parts) + rest, p) == Advance(rest, WithParts(p, parts))
    decreases |parts|
  {
    hide Advance, LastInput, LastOutput;
    if parts == [] {
      NoParts(p);
      assert [] + rest == rest;
    } else {
      var part, more := parts[0], parts[1..];
      assert PartTokens(part) + PartsTokens(more) + rest == PartTokens(part) + (PartsTokens(more) + rest);
      OnePart(part, PartsTokens(more) + rest, p);
      LastInputFirst(parts, p.stdin);
      LastOutputFirst(parts, p.stdout);
      var p' := match part
                case Word(text) => p.(words := p.words + [text])
                case Input(path) => p.(stdin := Some(path))
                case Output(path, append) => p.(stdout := Some((path, append)));
      PartsRead(more, rest, p');
      assert p.words + ((if part.Word? then [part.text] else []) + WordsIn(more)) == p'.words + WordsIn(more);
    }
  }

  lemma NoParts(p: Partial)
    ensures WithParts(p, []) == p
  {
    assert p.words + [] == p.words;
  }

  /** Words and redirects may come in any order: the command is the words in order, with the
      last redirect of each kind. */
  lemma CommandFromParts(parts: seq<Part>)
    requires PlainParts(parts) && WordsIn(parts) != []
    ensures var words := WordsIn(parts);
            ParseFrom(PartsTokens(parts), START)
            == Ok(ParsedLine([Segment(Always,
                 [SimpleCommand(words[0], words[1..], LastInput(parts, None), LastOutput(parts, None))])]))
  {
    var ts, read := PartsTokens(parts), WithParts(START, parts);
    assert ts + [] == ts && [] + WordsIn(parts) == WordsIn(parts);
    PartsRead(parts, [], START);
    var c := SimpleCommand(read.words[0], read.words[1..], read.stdin, read.stdout);
    assert [] + [c] == [c] && [] + [Segment(Always, [c])] == [Segment(Always, [c])];
    assert Flush(read) == START.(pipeline := [c]);
  }

  // Lines that do not parse

  /** A line fails at a pipe with no word since the last separator, at a chain operator with
      neither a word nor a pipe since the last one, and at a redirect that ends it. `word` and
      `piped` say what has been seen since. */
  predicate Fails(ts: seq<string>, word: bool, piped: bool)
    decreases |ts|
  {
    if ts == [] then false
    else if ts[0] == "|" then !word || Fails(ts[1..], false, true)
    else if ts[0] == "&&" || ts[0] == "||" || ts[0] == ";" then !(word || piped) || Fails(ts[1..], false, false)
    else if ts[0] == "<" || ts[0] == ">" || ts[0] == ">>" then |ts| == 1 || Fails(ts[2..], word, piped)
    else Fails(ts[1..], true, piped)
  }

  lemma {:induction false} AdvanceFailsIff(ts: seq<string>, p: Partial)
    ensures Advance(ts, p).Err? <==> Fails(ts, p.words != [], p.pipeline != [])
    decreases |ts|
  {
    if ts != [] {
      var t, rest := ts[0], ts[1..];
      if t == "|" {
        AdvanceFailsIff(rest, Flush(p));
      } else if ChainToken(t) {
        AdvanceFailsIff(rest, CloseSegment(Flush(p), OpOf(t)));
      } else if RedirectToken(t) {
        if rest != [] {
          assert rest[1..] == ts[2..];
          AdvanceFailsIff(rest[1..], Redirect(p, t, rest[0]));
        }
      } else {
        AdvanceFailsIff(rest, p.(words := p.words + [t]));
      }
    }
  }

  /** Tokens parse if and only if they do not fail in one of these three ways. */
  lemma ParseFailsIff(ts: seq<string>)
    ensures ParseFrom(ts, START).Err? <==> Fails(ts, false, false)
  {
    AdvanceFailsIff(ts, START);
  }
}
