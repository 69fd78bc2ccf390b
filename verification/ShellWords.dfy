/**
 The shell-word tokenizer that guards protected configuration files.  A small automaton specifies it;
 the words of any quoted or escaped rendering come back, and a blank splits a command exactly when it
 stands outside quotes and escapes.
 */
module ShellWords {
  import opened Basics

  /** What a regular expression calls white space. */
  predicate IsBlank(c: char) {
    || c in " \t\n\r" || c == '\U{000B}' || c == '\U{000C}' || c == '\U{00A0}' || c == '\U{1680}'
    || '\U{2000}' <= c <= '\U{200A}' || c == '\U{2028}' || c == '\U{2029}' || c == '\U{202F}'
    || c == '\U{205F}' || c == '\U{3000}' || c == '\U{FEFF}'
  }

  /** Finished words, the word being read, the open quote, and whether a backslash is pending. */
  datatype Lexer = Lexer(words: seq<string>, current: string, quote: Option<char>, escaped: bool)

  const START := Lexer([], "", None, false)

  function Push(words: seq<string>, current: string): seq<string> {
    if current == "" then words else words + [current]
  }

  function Step(l: Lexer, c: char): Lexer {
    if l.escaped then l.(current := l.current + [c], escaped := false)
    else if l.quote.Some? then
      if c == l.quote.value then l.(quote := None)
      else if c == '\\' && l.quote.value == '"' then l.(escaped := true)
      else l.(current := l.current + [c])
    else if c == '\'' || c == '"' then l.(quote := Some(c))
    else if c == '\\' then l.(escaped := true)
    else if IsBlank(c) then Lexer(Push(l.words, l.current), "", None, false)
    else l.(current := l.current + [c])
  }

  function Scan(l: Lexer, s: string): Lexer
    decreases s
  {
    if s == "" then l else Scan(Step(l, s[0]), s[1..])
  }

  /** A backslash that nothing follows stands for itself. */
  function Finish(l: Lexer): seq<string> {
    Push(l.words, if l.escaped then l.current + "\\" else l.current)
  }

  function Words(command: string): seq<string> {
    Finish(Scan(START, command))
  }

  // ---------------------------------------------------------------- scanning

  lemma {:induction false} ScanConcat(l: Lexer, s: string, t: string)
    ensures Scan(l, s + t) == Scan(Scan(l, s), t)
    decreases s
  {
    if s == "" {
      assert s + t == t;
    } else {
      assert (s + t)[1..] == s[1..] + t;
      ScanConcat(Step(l, s[0]), s[1..], t);
    }
  }

  lemma ScanOne(l: Lexer, c: char)
    ensures Scan(l, [c]) == Step(l, c)
  {
    assert [c][1..] == "";
    assert Scan(Step(l, c), "") == Step(l, c);
  }

  /** Words read before do not influence what is read next. */
  lemma {:induction false} ScanFrame(l: Lexer, before: seq<string>, s: string)
    ensures var r := Scan(l, s); Scan(l.(words := before + l.words), s) == r.(words := before + r.words)
    decreases s
  {
    if s != "" {
      var m := Step(l, s[0]);
      assert before + l.words + [l.current] == before + (l.words + [l.current]);
      assert Step(l.(words := before + l.words), s[0]) == m.(words := before + m.words);
      ScanFrame(m, before, s[1..]);
    }
  }

  // ---------------------------------------------------------------- the tokenizer

  /** The tokenizer as a loop over positions: an escape takes the next character along. */
  method TokenizeShellWords(command: string) returns (tokens: seq<string>)
    ensures tokens == Words(command)
  {
    tokens := [];
    var current, quote := "", None;
    var index := 0;
    while index < |command|
      invariant 0 <= index <= |command|
      invariant Finish(Scan(Lexer(tokens, current, quote, false), command[index..])) == Words(command)
    {
      var c := command[index];
      ghost var l := Lexer(tokens, current, quote, false);
      assert command[index..][1..] == command[index + 1..];
      if index + 1 < |command| {
        assert command[index + 1..][1..] == command[index + 2..];
      } else if c == '\\' && quote != Some('\'') && quote != Some(c) {
        LastBackslash(l, command, index);
      }
      if quote.Some? {
        if c == quote.value {
          quote := None;
        } else if c == '\\' && quote.value == '"' && index + 1 < |command| {
          index := index + 1;
          current := current + [command[index]];
        } else {
          current := current + [c];
        }
      } else if c == '\'' || c == '"' {
        quote := Some(c);
      } else if c == '\\' && index + 1 < |command| {
        index := index + 1;
        current := current + [command[index]];
      } else if IsBlank(c) {
        if current != "" {
          tokens := tokens + [current];
          current := "";
        }
      } else {
        current := current + [c];
      }
      index := index + 1;
    }
    if current != "" {
      tokens := tokens + [current];
    }
  }

  lemma LastBackslash(l: Lexer, command: string, index: nat)
    requires index == |command| - 1 && command[index] == '\\' && !l.escaped
    requires l.quote != Some('\'') && l.quote != Some('\\')
    ensures Finish(Scan(l, command[index..])) == Push(l.words, l.current + "\\")
  {
    assert command[index..] == "\\";
    ScanOne(l, '\\');
  }

  // ---------------------------------------------------------------- words and their renderings

  /** White space by code point: ECMAScript's WhiteSpace and LineTerminator. */
  const WHITE_SPACE: set<int> := {
    9, 10, 11, 12, 13, 32, 160, 5760, 8192, 8193, 8194, 8195, 8196, 8197, 8198, 8199, 8200, 8201, 8202,
    8232, 8233, 8239, 8287, 12288, 65279}

  /** Neither white space nor a quote nor a backslash. */
  predicate Plain(c: char) {
    c as int !in WHITE_SPACE && c !in "'\"\\"
  }

  /** The ways to write a piece of a word down.  In double quotes a backslash may stand before any
      character, and has to before a quote and a backslash. */
  datatype Form =
    | Bare(text: string)
    | Backslashed(text: string)
    | DoubleQuoted(text: string, marked: seq<bool>)
    | SingleQuoted(text: string)

  /** A word is any number of pieces, in any mix of forms, without anything in between. */
  type Pieces = seq<Form>

  predicate Writable(f: Form) {
    match f
    case Bare(w) => forall c :: c in w ==> Plain(c)
    case Backslashed(_) => true
    case DoubleQuoted(w, marked) => |marked| == |w| && forall i :: 0 <= i < |w| && w[i] in "\"\\" ==> marked[i]
    case SingleQuoted(w) => '\'' !in w
  }

  function Backslash(w: string): string {
    if w == "" then "" else ['\\', w[0]] + Backslash(w[1..])
  }

  function InQuotes(w: string, marked: seq<bool>): string
    requires |marked| == |w|
  {
    if w == "" then "" else (if marked[0] then ['\\', w[0]] else [w[0]]) + InQuotes(w[1..], marked[1..])
  }

  function Render(f: Form): string
    requires Writable(f)
  {
    match f
    case Bare(w) => w
    case Backslashed(w) => Backslash(w)
    case DoubleQuoted(w, marked) => "\"" + InQuotes(w, marked) + "\""
    case SingleQuoted(w) => "'" + w + "'"
  }

  predicate WritableWord(p: Pieces) {
    forall f :: f in p ==> Writable(f)
  }

  function RenderWord(p: Pieces): string
    requires WritableWord(p)
  {
    if p == [] then "" else Render(p[0]) + RenderWord(p[1..])
  }

  /** The word itself. */
  function TextOf(p: Pieces): string {
    if p == [] then "" else p[0].text + TextOf(p[1..])
  }

  predicate AllWritable(words: seq<Pieces>) {
    words == [] || (WritableWord(words[0]) && AllWritable(words[1..]))
  }

  predicate AllWhite(s: string) {
    s == "" || (s[0] as int in WHITE_SPACE && AllWhite(s[1..]))
  }

  /** The words, `blanks[i]` after word `i`. */
  function RenderAll(words: seq<Pieces>, blanks: string): string
    requires |blanks| == |words| && AllWritable(words)
  {
    if words == [] then "" else RenderWord(words[0]) + [blanks[0]] + RenderAll(words[1..], blanks[1..])
  }

  function NonEmpty(words: seq<Pieces>): seq<string> {
    if words == [] then [] else Push([], TextOf(words[0])) + NonEmpty(words[1..])
  }

  // ---------------------------------------------------------------- round trip

  /** What a regular expression calls white space is white space, and nothing else is. */
  lemma BlankIsWhite(c: char)
    ensures IsBlank(c) <==> c as int in WHITE_SPACE
  {
  }

  /** Reads one escape: a backslash and the character behind it. */
  lemma ScanEscape(l: Lexer, c: char, rest: string)
    requires !l.escaped && (l.quote == None || l.quote == Some('"'))
    ensures Scan(l, ['\\', c] + rest) == Scan(l.(current := l.current + [c]), rest)
  {
    var s := ['\\', c] + rest;
    assert s[1..] == [c] + rest && s[1..][1..] == rest;
    assert Step(Step(l, '\\'), c) == l.(current := l.current + [c]);
  }

  lemma PlainIsNot(c: char)
    ensures Plain(c) <==> !IsBlank(c) && c != '\'' && c != '"' && c != '\\'
  {
    BlankIsWhite(c);
    assert c in "'\"\\" <==> c == "'\"\\"[0] || c == "'\"\\"[1] || c == "'\"\\"[2];
  }

  lemma {:induction false} ScanBare(l: Lexer, w: string)
    requires !l.escaped && l.quote.None? && forall c :: c in w ==> Plain(c)
    ensures Scan(l, w) == l.(current := l.current + w)
    decreases w
  {
    if w == "" {
      assert l.current + w == l.current;
    } else {
      var m := l.(current := l.current + [w[0]]);
      PlainIsNot(w[0]);
      assert Step(l, w[0]) == m;
      ScanBare(m, w[1..]);
      assert m.current + w[1..] == l.current + w;
    }
  }

  lemma {:induction false} ScanBackslash(l: Lexer, w: string)
    requires !l.escaped && l.quote.None?
    ensures Scan(l, Backslash(w)) == l.(current := l.current + w)
    decreases w
  {
    if w == "" {
      assert l.current + w == l.current;
    } else {
      var m := l.(current := l.current + [w[0]]);
      ScanEscape(l, w[0], Backslash(w[1..]));
      ScanBackslash(m, w[1..]);
      assert m.current + w[1..] == l.current + w;
    }
  }

  lemma {:induction false} ScanInQuotes(l: Lexer, w: string, marked: seq<bool>)
    requires !l.escaped && l.quote == Some('"') && Writable(DoubleQuoted(w, marked))
    ensures Scan(l, InQuotes(w, marked)) == l.(current := l.current + w)
    decreases w
  {
    if w == "" {
      assert l.current + w == l.current;
    } else {
      var m := l.(current := l.current + [w[0]]);
      if marked[0] {
        ScanEscape(l, w[0], InQuotes(w[1..], marked[1..]));
      } else {
        assert InQuotes(w, marked)[1..] == InQuotes(w[1..], marked[1..]);
      }
      ScanInQuotes(m, w[1..], marked[1..]);
      assert m.current + w[1..] == l.current + w;
    }
  }

  lemma {:induction false} ScanVerbatim(l: Lexer, w: string)
    requires !l.escaped && l.quote == Some('\'') && '\'' !in w
    ensures Scan(l, w) == l.(current := l.current + w)
    decreases w
  {
    if w == "" {
      assert l.current + w == l.current;
    } else {
      var m := l.(current := l.current + [w[0]]);
      ScanVerbatim(m, w[1..]);
      assert m.current + w[1..] == l.current + w;
    }
  }

  /** Whatever its form, a piece is read back as it was. */
  lemma ScanForm(l: Lexer, f: Form)
    requires !l.escaped && l.quote.None? && Writable(f)
    ensures Scan(l, Render(f)) == l.(current := l.current + f.text)
  {
    match f
    case Bare(w) => ScanBare(l, w);
    case Backslashed(w) => ScanBackslash(l, w);
    case DoubleQuoted(w, marked) =>
      var open := l.(quote := Some('"'));
      assert Render(f) == ['"'] + InQuotes(w, marked) + ['"'];
      ScanConcat(l, ['"'] + InQuotes(w, marked), ['"']);
      ScanConcat(l, ['"'], InQuotes(w, marked));
      ScanOne(l, '"');
      ScanInQuotes(open, w, marked);
      ScanOne(open.(current := l.current + w), '"');
    case SingleQuoted(w) =>
      var open := l.(quote := Some('\''));
      assert Render(f) == ['\''] + w + ['\''];
      ScanConcat(l, ['\''] + w, ['\'']);
      ScanConcat(l, ['\''], w);
      ScanOne(l, '\'');
      ScanVerbatim(open, w);
      ScanOne(open.(current := l.current + w), '\'');
  }

  lemma ScanBoth(l: Lexer, s: string, t: string, u: string, v: string)
    requires Scan(l, s) == l.(current := l.current + u)
    requires Scan(l.(current := l.current + u), t) == l.(current := l.current + u + v)
    ensures Scan(l, s + t) == l.(current := l.current + (u + v))
  {
    ScanConcat(l, s, t);
    assert l.current + u + v == l.current + (u + v);
  }

  /** Pieces side by side make one word. */
  lemma {:induction false} ScanWord(l: Lexer, p: Pieces)
    requires !l.escaped && l.quote.None? && WritableWord(p)
    ensures Scan(l, RenderWord(p)) == l.(current := l.current + TextOf(p))
    decreases |p|
  {
    if p == [] {
      assert l.current + "" == l.current;
    } else {
      var m := l.(current := l.current + p[0].text);
      ScanForm(l, p[0]);
      ScanWord(m, p[1..]);
      ScanBoth(l, Render(p[0]), RenderWord(p[1..]), p[0].text, TextOf(p[1..]));
    }
  }

  lemma {:induction false} ScanWordBlank(words: seq<string>, p: Pieces, b: char)
    requires WritableWord(p) && b as int in WHITE_SPACE
    ensures Scan(START.(words := words), RenderWord(p) + [b]) == START.(words := Push(words, TextOf(p)))
  {
    var l := START.(words := words);
    ScanConcat(l, RenderWord(p), [b]);
    ScanWord(l, p);
    BlankIsWhite(b);
    assert "" + TextOf(p) == TextOf(p);
    ScanOne(l.(current := TextOf(p)), b);
  }

  lemma PushFront(words: seq<string>, w: string, tail: seq<string>)
    ensures Push(words, w) + tail == words + (Push([], w) + tail)
  {
  }

  lemma {:induction false} ScanWords(before: seq<string>, words: seq<Pieces>, blanks: string)
    requires |blanks| == |words| && AllWhite(blanks) && AllWritable(words)
    ensures Scan(START.(words := before), RenderAll(words, blanks)) == START.(words := before + NonEmpty(words))
    decreases |words|
  {
    if words == [] {
      assert before + NonEmpty(words) == before;
    } else {
      var p, b, rest := words[0], blanks[0], RenderAll(words[1..], blanks[1..]);
      var next := Push(before, TextOf(p));
      calc {
        Scan(START.(words := before), RenderAll(words, blanks));
        Scan(START.(words := before), RenderWord(p) + [b] + rest);
        { ScanConcat(START.(words := before), RenderWord(p) + [b], rest); }
        Scan(Scan(START.(words := before), RenderWord(p) + [b]), rest);
        { ScanWordBlank(before, p, b); }
        Scan(START.(words := next), rest);
        { ScanWords(next, words[1..], blanks[1..]); }
        START.(words := next + NonEmpty(words[1..]));
        { PushFront(before, TextOf(p), NonEmpty(words[1..])); }
        START.(words := before + NonEmpty(words));
      }
    }
  }

  /** Written words, each followed by white space, are read back; empty ones disappear. */
  lemma {:induction false} RoundTrip(words: seq<Pieces>, blanks: string)
    requires |blanks| == |words| && AllWhite(blanks) && AllWritable(words)
    ensures Words(RenderAll(words, blanks)) == NonEmpty(words)
  {
    ScanWords([], words, blanks);
    assert [] + NonEmpty(words) == NonEmpty(words);
  }

  lemma {:induction false} NonEmptyAll(words: seq<Pieces>)
    requires forall p :: p in words ==> TextOf(p) != ""
    ensures NonEmpty(words) == seq(|words|, i requires 0 <= i < |words| => TextOf(words[i]))
    decreases |words|
  {
    if words != [] {
      NonEmptyAll(words[1..]);
    }
  }

  /** The last blank is not needed: non-empty words joined by white space come back exactly. */
  lemma {:induction false} JoinedWordsRoundTrip(words: seq<Pieces>, blanks: string, last: Pieces)
    requires |blanks| == |words| && AllWhite(blanks) && AllWritable(words)
    requires WritableWord(last) && TextOf(last) != "" && forall p :: p in words ==> TextOf(p) != ""
    ensures Words(RenderAll(words, blanks) + RenderWord(last)) ==
            seq(|words|, i requires 0 <= i < |words| => TextOf(words[i])) + [TextOf(last)]
  {
    ScanWords([], words, blanks);
    assert [] + NonEmpty(words) == NonEmpty(words);
    ScanConcat(START, RenderAll(words, blanks), RenderWord(last));
    ReadAfter(NonEmpty(words), last);
    NonEmptyAll(words);
  }

  lemma {:induction false} ReadAfter(before: seq<string>, p: Pieces)
    requires WritableWord(p) && TextOf(p) != ""
    ensures Finish(Scan(START.(words := before), RenderWord(p))) == before + [TextOf(p)]
  {
    ScanWord(START.(words := before), p);
    assert "" + TextOf(p) == TextOf(p);
  }

  /** The second of two bare words, read after the first and one more character. */
  lemma ScanBetween(a: string, c: char, b: string, after: Lexer)
    requires Writable(Bare(a)) && Writable(Bare(b)) && after == Step(START.(current := a), c)
    ensures Words(a + [c] + b) == Finish(Scan(after, b))
  {
    ScanConcat(START, a + [c], b);
    ScanConcat(START, a, [c]);
    ScanBare(START, a);
    assert "" + a == a;
    ScanOne(START.(current := a), c);
  }

  lemma SplitByWhite(a: string, c: char, b: string)
    requires a != "" && b != "" && Writable(Bare(a)) && Writable(Bare(b)) && c as int in WHITE_SPACE
    ensures Words(a + [c] + b) == [a, b]
  {
    BlankIsWhite(c);
    ScanBetween(a, c, b, START.(words := [a]));
    ScanBare(START.(words := [a]), b);
    assert "" + b == b;
    assert Push([a], b) == [a, b];
  }

  lemma JoinedByBackslash(a: string, b: string)
    requires a != "" && b != "" && Writable(Bare(a)) && Writable(Bare(b))
    ensures Words(a + ['\\'] + b) == [a + b]
  {
    var l := START.(current := a, escaped := true);
    ScanBetween(a, '\\', b, l);
    ScanConcat(l, [b[0]], b[1..]);
    assert [b[0]] + b[1..] == b;
    ScanOne(l, b[0]);
    ScanBare(START.(current := a + [b[0]]), b[1..]);
    assert a + [b[0]] + b[1..] == a + b;
  }

  lemma JoinedByQuote(a: string, c: char, b: string)
    requires a != "" && b != "" && Writable(Bare(a)) && Writable(Bare(b)) && (c == '"' || c == '\'')
    ensures Words(a + [c] + b) == [a + b]
  {
    ScanBetween(a, c, b, START.(current := a, quote := Some(c)));
    ScanOpenQuote(START.(current := a), c, b);
  }

  lemma JoinedByPlain(a: string, c: char, b: string)
    requires a != "" && b != "" && Writable(Bare(a)) && Writable(Bare(b)) && Plain(c)
    ensures Words(a + [c] + b) == [a + [c] + b]
  {
    PlainIsNot(c);
    ScanBetween(a, c, b, START.(current := a + [c]));
    ScanBare(START.(current := a + [c]), b);
  }

  /** What one character between two bare words does: white space splits them, a quote or a backslash
      disappears, any other character joins them. */
  lemma BetweenBareWords(a: string, c: char, b: string)
    requires a != "" && b != "" && Writable(Bare(a)) && Writable(Bare(b))
    ensures Words(a + [c] + b) ==
            if c as int in WHITE_SPACE then [a, b]
            else if c == '\'' || c == '"' || c == '\\' then [a + b]
            else [a + [c] + b]
  {
    if c as int in WHITE_SPACE {
      SplitByWhite(a, c, b);
    } else if c == '\\' {
      JoinedByBackslash(a, b);
    } else if c == '"' || c == '\'' {
      JoinedByQuote(a, c, b);
    } else {
      JoinedByPlain(a, c, b);
    }
  }

  /** An unclosed quote takes bare text as it is. */
  lemma {:induction false} ScanOpenQuote(l: Lexer, q: char, w: string)
    requires !l.escaped && l.quote.None? && (q == '"' || q == '\'') && Writable(Bare(w))
    ensures Scan(l.(quote := Some(q)), w) == l.(quote := Some(q), current := l.current + w)
    decreases w
  {
    if w == "" {
      assert l.current + w == l.current;
    } else {
      PlainIsNot(w[0]);
      assert Step(l.(quote := Some(q)), w[0]) == l.(quote := Some(q), current := l.current + [w[0]]);
      ScanOpenQuote(l.(current := l.current + [w[0]]), q, w[1..]);
      assert l.current + [w[0]] + w[1..] == l.current + w;
    }
  }

  /** A backslash at the very end is part of the last word, in the open and in double quotes. */
  lemma {:induction false} LastBackslashStays(p: Pieces, quoted: bool)
    requires WritableWord(p)
    ensures Words(RenderWord(p) + (if quoted then "\"\\" else "\\")) == [TextOf(p) + "\\"]
  {
    ReadAlone(p);
    var end := if quoted then "\"\\" else "\\";
    ScanConcat(START, RenderWord(p), end);
    EndingBackslash(START.(current := TextOf(p)), quoted);
  }

  lemma {:induction false} ReadAlone(p: Pieces)
    requires WritableWord(p)
    ensures Scan(START, RenderWord(p)) == START.(current := TextOf(p))
  {
    ScanWord(START, p);
    assert "" + TextOf(p) == TextOf(p);
  }

  lemma EndingBackslash(l: Lexer, quoted: bool)
    requires !l.escaped && l.quote.None? && l.words == []
    ensures Finish(Scan(l, if quoted then "\"\\" else "\\")) == [l.current + "\\"]
  {
    if quoted {
      assert ['"'] + ['\\'] == "\"\\";
      ScanConcat(l, ['"'], ['\\']);
      ScanOne(l, '"');
      ScanOne(l.(quote := Some('"')), '\\');
    } else {
      ScanOne(l, '\\');
    }
    assert [] + [l.current + "\\"] == [l.current + "\\"];
  }

  // ---------------------------------------------------------------- splitting at a blank

  /** The command ends outside quotes and without a pending backslash. */
  predicate EndsOpen(command: string) {
    var l := Scan(START, command);
    l.quote.None? && !l.escaped
  }

  /** Tokenizing distributes over a blank, whatever follows it, exactly when the left part ends outside
      quotes and escapes. */
  lemma BlankSplitsIff(left: string, blank: char)
    requires IsBlank(blank)
    ensures (forall right :: Words(left + [blank] + right) == Words(left) + Words(right)) <==> EndsOpen(left)
  {
    var l := Scan(START, left);
    if EndsOpen(left) {
      forall right ensures Words(left + [blank] + right) == Words(left) + Words(right) {
        ScanConcat(START, left + [blank], right);
        ScanConcat(START, left, [blank]);
        ScanOne(l, blank);
        ScanFrame(START, Push(l.words, l.current), right);
        assert Push(l.words, l.current) + [] == Push(l.words, l.current);
        var r := Scan(START, right);
        assert Push(l.words, l.current) + (r.words + [r.current]) == Push(l.words, l.current) + r.words + [r.current];
        assert Finish(r.(words := Push(l.words, l.current) + r.words)) == Push(l.words, l.current) + Finish(r);
      }
    } else {
      assert left + [blank] + "" == left + [blank];
      ScanConcat(START, left, [blank]);
      ScanOne(l, blank);
      QuoteIsQuote(START, left);
      var m := Step(l, blank);
      assert m.words == l.words && m.current == l.current + [blank] && !m.escaped;
      assert Words(left + [blank]) == l.words + [l.current + [blank]];
      assert (l.words + [l.current + [blank]])[|l.words|] == l.current + [blank];
      assert (l.current + [blank])[|l.current|] == blank && (l.current + "\\")[|l.current|] == '\\';
      assert l.escaped ==> Words(left) == l.words + [l.current + "\\"];
      assert l.escaped ==> (l.words + [l.current + "\\"])[|l.words|] == l.current + "\\";
      assert !l.escaped && l.current != "" ==> (l.words + [l.current])[|l.words|] == l.current;
      assert Words(left) + [] == Words(left);
      assert Words("") == [];
      assert Words(left + [blank] + "") != Words(left) + Words("");
    }
  }

  lemma {:induction false} QuoteIsQuote(l: Lexer, s: string)
    requires l.quote.Some? ==> l.quote.value == '"' || l.quote.value == '\''
    ensures Scan(l, s).quote.Some? ==> Scan(l, s).quote.value == '"' || Scan(l, s).quote.value == '\''
    decreases s
  {
    if s != "" {
      QuoteIsQuote(Step(l, s[0]), s[1..]);
    }
  }
}
