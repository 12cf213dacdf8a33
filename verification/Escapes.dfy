/** Escape decoding: five replacements through a sentinel, against one decoder. */
module Escapes {

  const NUL: char := '\0'

  /** `s.replace(pattern, with)`: every non-overlapping occurrence, left to right. */
  function Replace(s: string, pattern: string, with: string): string
    requires pattern != ""
    decreases |s|
  {
    if |s| < |pattern| then s
    else if pattern <= s then with + Replace(s[|pattern|..], pattern, with)
    else [s[0]] + Replace(s[1..], pattern, with)
  }

  function HideBackslashes(s: string): string { Replace(s, "\\\\", [NUL]) }

  function DecodeLetters(s: string): string {
    Replace(Replace(Replace(s, "\\n", "\n"), "\\t", "\t"), "\\r", "\r")
  }

  /** The chain as written: a doubled backslash is hidden behind the sentinel first. */
  function MultiPass(s: string): string {
    Replace(DecodeLetters(HideBackslashes(s)), [NUL], "\\")
  }

  /** The character an escape letter stands for, if it is one. */
  function Meaning(c: char): (m: seq<char>)
    ensures |m| <= 1
  {
    if c == '\\' then "\\"
    else if c == 'n' then "\n"
    else if c == 't' then "\t"
    else if c == 'r' then "\r"
    else ""
  }

  /** One pass: a backslash and a known letter become one character, all else stands. */
  function Decode(s: string): string {
    if s == "" then ""
    else if s[0] == '\\' && |s| >= 2 && Meaning(s[1]) != "" then Meaning(s[1]) + Decode(s[2..])
    else [s[0]] + Decode(s[1..])
  }

  /** The natural escaper. */
  function Escape(s: string): string {
    if s == "" then ""
    else
      (if s[0] == '\\' then "\\\\"
       else if s[0] == '\n' then "\\n"
       else if s[0] == '\t' then "\\t"
       else if s[0] == '\r' then "\\r"
       else [s[0]])
      + Escape(s[1..])
  }

  // How one replacement acts on the head of a string

  /** Whether a pattern of one or two characters starts a string. */
  predicate Starts(pattern: string, c: char, rest: string)
    requires 1 <= |pattern| <= 2
  {
    c == pattern[0] && (|pattern| == 2 ==> rest != "" && rest[0] == pattern[1])
  }

  lemma ReplaceSkips(c: char, rest: string, pattern: string, with: string)
    requires 1 <= |pattern| <= 2 && !Starts(pattern, c, rest)
    ensures Replace([c] + rest, pattern, with) == [c] + Replace(rest, pattern, with)
  {
    assert ([c] + rest)[1..] == rest;
  }

  /** A character that starts no escape passes through the three letter replacements. */
  lemma LettersSkip(c: char, rest: string)
    requires c != '\\'
    ensures DecodeLetters([c] + rest) == [c] + DecodeLetters(rest)
  {
    ReplaceSkips(c, rest, "\\n", "\n");
    var r1 := Replace(rest, "\\n", "\n");
    ReplaceSkips(c, r1, "\\t", "\t");
    ReplaceSkips(c, Replace(r1, "\\t", "\t"), "\\r", "\r");
  }

  /** A lone backslash before a plain character passes through as well. */
  lemma LettersSkipBackslash(c: char, rest: string)
    requires c != '\\' && c != 'n' && c != 't' && c != 'r'
    ensures DecodeLetters(['\\', c] + rest) == ['\\', c] + DecodeLetters(rest)
  {
    PassLoneBackslash(c, rest, 'n', "\n");
    var r1 := Replace(rest, "\\n", "\n");
    PassLoneBackslash(c, r1, 't', "\t");
    PassLoneBackslash(c, Replace(r1, "\\t", "\t"), 'r', "\r");
  }

  lemma PassLoneBackslash(c: char, rest: string, letter: char, with: string)
    requires c != '\\' && c != letter
    ensures Replace(['\\', c] + rest, ['\\', letter], with) == ['\\', c] + Replace(rest, ['\\', letter], with)
  {
    assert ['\\', c] + rest == ['\\'] + ([c] + rest);
    assert ([c] + rest)[0] == c;
    ReplaceSkips('\\', [c] + rest, ['\\', letter], with);
    ReplaceSkips(c, rest, ['\\', letter], with);
  }

  lemma LettersDecode(letter: char, rest: string)
    requires letter == 'n' || letter == 't' || letter == 'r'
    ensures DecodeLetters(['\\', letter] + rest) == Meaning(letter) + DecodeLetters(rest)
  {
    var r1 := Replace(rest, "\\n", "\n");
    var r2 := Replace(r1, "\\t", "\t");
    if letter == 'n' {
      ReplaceSkips('\n', r1, "\\t", "\t");
      ReplaceSkips('\n', r2, "\\r", "\r");
    } else if letter == 't' {
      PassLoneBackslash('t', rest, 'n', "\n");
      ReplaceSkips('\t', r2, "\\r", "\r");
    } else {
      PassLoneBackslash('r', rest, 'n', "\n");
      PassLoneBackslash('r', r1, 't', "\t");
    }
  }

  // How the whole chain acts on the head of a string

  lemma HideSkips(c: char, rest: string)
    requires c != '\\' || rest == "" || rest[0] != '\\'
    ensures HideBackslashes([c] + rest) == [c] + HideBackslashes(rest)
  {
    ReplaceSkips(c, rest, "\\\\", [NUL]);
  }

  lemma ShowSkips(c: char, rest: string)
    requires c != NUL
    ensures Replace([c] + rest, [NUL], "\\") == [c] + Replace(rest, [NUL], "\\")
  {
    ReplaceSkips(c, rest, [NUL], "\\");
  }

  lemma ChainPlain(c: char, rest: string)
    requires c != '\\' && c != NUL
    ensures MultiPass([c] + rest) == [c] + MultiPass(rest)
  {
    HideSkips(c, rest);
    LettersSkip(c, HideBackslashes(rest));
    ShowSkips(c, DecodeLetters(HideBackslashes(rest)));
  }

  lemma ChainDoubled(rest: string)
    ensures MultiPass("\\\\" + rest) == "\\" + MultiPass(rest)
  {
    var hidden := HideBackslashes(rest);
    LettersSkip(NUL, hidden);
    var letters := DecodeLetters(hidden);
    assert ([NUL] + letters)[1..] == letters;
  }

  lemma ChainLetter(letter: char, rest: string)
    requires letter == 'n' || letter == 't' || letter == 'r'
    ensures MultiPass(['\\', letter] + rest) == Meaning(letter) + MultiPass(rest)
  {
    assert ['\\', letter] + rest == ['\\'] + ([letter] + rest);
    HideSkips('\\', [letter] + rest);
    HideSkips(letter, rest);
    var hidden := HideBackslashes(rest);
    assert ['\\'] + ([letter] + hidden) == ['\\', letter] + hidden;
    LettersDecode(letter, hidden);
    ShowSkips(Meaning(letter)[0], DecodeLetters(hidden));
  }

  lemma ChainLoneBackslash(c: char, rest: string)
    requires Meaning(c) == "" && c != NUL
    ensures MultiPass(['\\', c] + rest) == ['\\', c] + MultiPass(rest)
  {
    assert ['\\', c] + rest == ['\\'] + ([c] + rest);
    HideSkips('\\', [c] + rest);
    HideSkips(c, rest);
    var hidden := HideBackslashes(rest);
    assert ['\\'] + ([c] + hidden) == ['\\', c] + hidden;
    LettersSkipBackslash(c, hidden);
    var letters := DecodeLetters(hidden);
    assert ['\\', c] + letters == ['\\'] + ([c] + letters);
    ShowSkips('\\', [c] + letters);
    ShowSkips(c, letters);
  }

  lemma {:induction false} MultiPassDecodes(s: string)
    requires NUL !in s
    ensures MultiPass(s) == Decode(s)
    decreases |s|
  {
    if s != "" {
      if s[0] != '\\' {
        assert s == [s[0]] + s[1..];
        ChainPlain(s[0], s[1..]);
        MultiPassDecodes(s[1..]);
      } else if |s| == 1 {
        assert s == "\\";
        assert Decode(s[1..]) == "";
      } else {
        assert s == [s[0], s[1]] + s[2..];
        MultiPassDecodes(s[2..]);
        if s[1] == '\\' {
          ChainDoubled(s[2..]);
        } else if Meaning(s[1]) != "" {
          ChainLetter(s[1], s[2..]);
        } else {
          ChainLoneBackslash(s[1], s[2..]);
          assert s[1..][1..] == s[2..];
          assert Decode(s[1..]) == [s[1]] + Decode(s[2..]);
        }
      }
    }
  }

  // The sentinel

  lemma {:induction false} ShowLeavesNoSentinel(s: string)
    ensures NUL !in Replace(s, [NUL], "\\")
    decreases |s|
  {
    if s != "" {
      if [NUL] <= s {
        ShowLeavesNoSentinel(s[1..]);
      } else {
        ShowLeavesNoSentinel(s[1..]);
      }
    }
  }

  lemma {:induction false} DecodeKeepsSentinel(s: string)
    ensures NUL in Decode(s) <==> NUL in s
    decreases |s|
  {
    if s != "" {
      if s[0] == '\\' && |s| >= 2 && Meaning(s[1]) != "" {
        DecodeKeepsSentinel(s[2..]);
        assert s == [s[0], s[1]] + s[2..];
      } else {
        DecodeKeepsSentinel(s[1..]);
        assert s == [s[0]] + s[1..];
      }
    }
  }

  /** The five passes equal the single pass exactly on the strings without the sentinel. */
  lemma MultiPassIsSinglePass(s: string)
    ensures MultiPass(s) == Decode(s) <==> NUL !in s
  {
    if NUL !in s {
      MultiPassDecodes(s);
    } else {
      DecodeKeepsSentinel(s);
      ShowLeavesNoSentinel(DecodeLetters(HideBackslashes(s)));
    }
  }

  /** Decoding undoes escaping, on every string. */
  lemma {:induction false} DecodeEscape(s: string)
    ensures Decode(Escape(s)) == s
    decreases |s|
  {
    if s != "" {
      DecodeEscape(s[1..]);
      var rest := Escape(s[1..]);
      if s[0] == '\\' || s[0] == '\n' || s[0] == '\t' || s[0] == '\r' {
        assert Escape(s)[2..] == rest;
      } else {
        assert Escape(s)[1..] == rest;
      }
    }
  }

  lemma {:induction false} EscapeKeepsSentinel(s: string)
    ensures NUL in Escape(s) <==> NUL in s
    decreases |s|
  {
    if s != "" {
      EscapeKeepsSentinel(s[1..]);
      assert s == [s[0]] + s[1..];
    }
  }

  /** `echo -e` of an escaped text prints that text, exactly when it holds no sentinel. */
  lemma MultiPassEscape(s: string)
    ensures MultiPass(Escape(s)) == s <==> NUL !in s
  {
    EscapeKeepsSentinel(s);
    MultiPassIsSinglePass(Escape(s));
    DecodeEscape(s);
  }

  // echo

  function JoinWords(words: seq<string>): string {
    if words == [] then ""
    else if |words| == 1 then words[0]
    else words[0] + " " + JoinWords(words[1..])
  }

  function PlainArgs(args: seq<string>): seq<string> {
    if args == [] then []
    else (if args[0] == "-n" || args[0] == "-e" then [] else [args[0]]) + PlainArgs(args[1..])
  }

  /** What `echo` prints. */
  function Echo(args: seq<string>): string {
    var raw := JoinWords(PlainArgs(args));
    var content := if "-e" in args then MultiPass(raw) else raw;
    if "-n" in args then content else content + "\n"
  }

  /** `echo -n -e` of a text, escaped into one argument, prints that text if and only if it holds
      no sentinel and is not itself an option. */
  lemma EchoPrintsEscaped(s: string)
    ensures Echo(["-n", "-e", Escape(s)]) == s <==> NUL !in s && s != "-n" && s != "-e"
  {
    var args := ["-n", "-e", Escape(s)];
    assert args[1..] == ["-e", Escape(s)] && args[1..][1..] == [Escape(s)];
    assert [Escape(s)][1..] == [] && PlainArgs([]) == [];
    assert args[0] == "-n" && args[1] == "-e";
    OptionsEscape(s);
    if s == "-n" || s == "-e" {
      assert PlainArgs(args) == [];
      assert MultiPass("") == "";
    } else {
      assert PlainArgs([Escape(s)]) == [Escape(s)];
      assert PlainArgs(args[1..]) == [Escape(s)];
      MultiPassEscape(s);
    }
  }

  lemma OptionsEscape(s: string)
    ensures Escape(s) == "-n" <==> s == "-n"
    ensures Escape(s) == "-e" <==> s == "-e"
  {
    DecodeEscape(s);
    assert "-n"[1..] == "n" && "n"[1..] == "" && "-e"[1..] == "e" && "e"[1..] == "";
    assert Escape("-n") == "-n" && Decode("-n") == "-n";
    assert Escape("-e") == "-e" && Decode("-e") == "-e";
  }

  // What stays as it is

  /** A backslash and one of the four known letters, side by side. */
  ghost predicate HasEscape(s: string) {
    exists i :: 0 <= i < |s| - 1 && s[i] == '\\' && s[i + 1] in "\\ntr"
  }

  lemma HasEscapeLater(s: string)
    requires s != "" && !(s[0] == '\\' && |s| >= 2 && s[1] in "\\ntr")
    ensures HasEscape(s) <==> HasEscape(s[1..])
  {
    if HasEscape(s[1..]) {
      var i :| 0 <= i < |s[1..]| - 1 && s[1..][i] == '\\' && s[1..][i + 1] in "\\ntr";
      assert s[i + 1] == '\\' && s[i + 1 + 1] in "\\ntr";
    }
    if HasEscape(s) {
      var i :| 0 <= i < |s| - 1 && s[i] == '\\' && s[i + 1] in "\\ntr";
      assert s[1..][i - 1] == '\\' && s[1..][i - 1 + 1] in "\\ntr";
    }
  }

  lemma {:induction false} DecodeShortens(s: string)
    ensures |Decode(s)| <= |s|
    ensures HasEscape(s) ==> |Decode(s)| < |s|
    ensures !HasEscape(s) ==> Decode(s) == s
    decreases |s|
  {
    if s != "" {
      if s[0] == '\\' && |s| >= 2 && Meaning(s[1]) != "" {
        DecodeShortens(s[2..]);
      } else {
        DecodeShortens(s[1..]);
        HasEscapeLater(s);
      }
    }
  }

  /** The chain leaves a text alone if and only if it holds neither the sentinel nor one of the
      four escapes. */
  lemma UntouchedIff(s: string)
    ensures MultiPass(s) == s <==> NUL !in s && !HasEscape(s)
  {
    if NUL in s {
      ShowLeavesNoSentinel(DecodeLetters(HideBackslashes(s)));
    } else {
      MultiPassDecodes(s);
      DecodeShortens(s);
    }
  }

  // Plain echo

  lemma {:induction false} JoinSnoc(words: seq<string>, w: string)
    ensures JoinWords(words + [w]) == if words == [] then w else JoinWords(words) + " " + w
    decreases |words|
  {
    if words == [] {
      assert words + [w] == [w];
    } else {
      assert (words + [w])[1..] == words[1..] + [w];
      JoinSnoc(words[1..], w);
    }
  }

  ghost predicate NoOptions(args: seq<string>) {
    forall i | 0 <= i < |args| :: args[i] != "-n" && args[i] != "-e"
  }

  lemma {:induction false} PlainArgsConcat(a: seq<string>, b: seq<string>)
    ensures PlainArgs(a + b) == PlainArgs(a) + PlainArgs(b)
    decreases |a|
  {
    if a == [] {
      assert a + b == b && [] + PlainArgs(b) == PlainArgs(b);
    } else {
      var first := if a[0] == "-n" || a[0] == "-e" then [] else [a[0]];
      assert (a + b)[1..] == a[1..] + b;
      PlainArgsConcat(a[1..], b);
      assert first + (PlainArgs(a[1..]) + PlainArgs(b)) == first + PlainArgs(a[1..]) + PlainArgs(b);
    }
  }

  lemma {:induction false} PlainArgsStay(a: seq<string>)
    requires NoOptions(a)
    ensures PlainArgs(a) == a
  {
    if a != [] {
      PlainArgsStay(a[1..]);
    }
  }

  lemma OptionN(a: seq<string>, b: seq<string>)
    requires NoOptions(a) && NoOptions(b)
    ensures PlainArgs(a + ["-n"] + b) == a + b
    ensures "-n" in a + ["-n"] + b && "-e" !in a + ["-n"] + b
  {
    PlainArgsStay(a);
    PlainArgsStay(b);
    assert PlainArgs(["-n"]) == [] && a + [] == a;
    hide PlainArgs;
    PlainArgsConcat(a + ["-n"], b);
    PlainArgsConcat(a, ["-n"]);
    assert (a + ["-n"] + b)[|a|] == "-n";
  }

  /** Without options `echo` prints its words with a blank between each two, and a line end; `-n`,
      wherever it stands, takes the line end away and is not printed. */
  lemma EchoPlain(a: seq<string>, b: seq<string>)
    requires NoOptions(a) && NoOptions(b)
    ensures Echo(a) == JoinWords(a) + "\n"
    ensures Echo(a + ["-n"] + b) == JoinWords(a + b)
  {
    hide PlainArgs, JoinWords, MultiPass;
    PlainArgsStay(a);
    OptionN(a, b);
  }
}
