/** Statements of an nginx config fragment (backend/internal/nginx.js, tokenizeNginxStatements). */
module NginxTokenizer {
  import opened Seqs
  import ConfigText

  /** `raw` is the first word as written. */
  datatype Statement = Statement(name: string, raw: string, args: seq<string>)

  predicate EndsStatement(c: char) { c == ';' || c == '{' || c == '}' }

  // ---- the functions the loops compute, on what is left of the input ----

  datatype Read = Read(word: string, rest: string)

  /** Inside quotes: up to the closing quote, which is consumed, or the end. */
  function ReadQuoted(s: string, quote: char): (r: Read)
    ensures |r.rest| <= |s|
  {
    if s == "" then Read("", "")
    else if s[0] == quote then Read("", s[1..])
    else if s[0] == '\\' && |s| > 1 then
      var r := ReadQuoted(s[2..], quote);
      Read([s[1]] + r.word, r.rest)
    else
      var r := ReadQuoted(s[1..], quote);
      Read([s[0]] + r.word, r.rest)
  }

  /** A bare word: up to white space or the end of the statement, neither consumed. */
  function ReadBare(s: string): (r: Read)
    ensures |r.rest| <= |s|
    ensures s != "" && !ConfigText.Space(s[0]) && !EndsStatement(s[0]) ==> |r.rest| < |s|
  {
    if s == "" || ConfigText.Space(s[0]) || EndsStatement(s[0]) then Read("", s)
    else if s[0] == '\\' && |s| > 1 then
      var r := ReadBare(s[2..]);
      Read([s[1]] + r.word, r.rest)
    else
      var r := ReadBare(s[1..]);
      Read([s[0]] + r.word, r.rest)
  }

  /** One word at a character that is neither white space, nor a comment, nor a separator. */
  function ReadWord(s: string): (r: Read)
    requires s != "" && !ConfigText.Space(s[0]) && !EndsStatement(s[0])
    ensures |r.rest| < |s|
  {
    if s[0] == '"' || s[0] == '\'' then ReadQuoted(s[1..], s[0]) else ReadBare(s)
  }

  function SkipComment(s: string): (r: string)
    ensures |r| <= |s| && (s != "" && s[0] != '\n' ==> |r| < |s|)
  {
    if s == "" || s[0] == '\n' then s else SkipComment(s[1..])
  }

  function Close(words: seq<string>, raw: string): seq<Statement> {
    if words == [] then [] else [Statement(words[0], raw, words[1..])]
  }

  function Tokens(s: string, words: seq<string>, raw: string): seq<Statement>
    decreases |s|
  {
    if s == "" then Close(words, raw)
    else if ConfigText.Space(s[0]) then Tokens(s[1..], words, raw)
    else if s[0] == '#' then Tokens(SkipComment(s), words, raw)
    else if EndsStatement(s[0]) then Close(words, raw) + Tokens(s[1..], [], "")
    else
      var r := ReadWord(s);
      Tokens(r.rest, words + [r.word], if words == [] then s[..|s| - |r.rest|] else raw)
  }

  // ---- tokenizeNginxStatements ----

  /** The quoted branch: the cursor stands after the opening quote. */
  method ScanQuoted(cfg: string, start: nat, quote: char) returns (word: string, i: nat)
    requires start <= |cfg|
    ensures start <= i <= |cfg| && Read(word, cfg[i..]) == ReadQuoted(cfg[start..], quote)
  {
    word, i := "", start;
    ghost var all := ReadQuoted(cfg[start..], quote);
    while i < |cfg| && cfg[i] != quote
      invariant start <= i <= |cfg| && QuotedSoFar(all, cfg, i, word, quote)
      decreases |cfg| - i
    {
      var n := if cfg[i] == '\\' && i + 1 < |cfg| then 2 else 1;
      QuotedStep(all, cfg, i, word, quote, n);
      word := word + [cfg[i + n - 1]];
      i := i + n;
    }
    if i < |cfg| {
      DropOneMore(cfg, i);
      i := i + 1;
    }
  }

  /** `word` is what was read so far of the quoted word whose rest starts at i. */
  predicate QuotedSoFar(all: Read, cfg: string, i: nat, word: string, quote: char)
    requires i <= |cfg|
  {
    all.word == word + ReadQuoted(cfg[i..], quote).word && all.rest == ReadQuoted(cfg[i..], quote).rest
  }

  lemma {:induction false} QuotedStep(all: Read, cfg: string, i: nat, word: string, quote: char, n: nat)
    requires i < |cfg| && cfg[i] != quote && QuotedSoFar(all, cfg, i, word, quote)
    requires n == if cfg[i] == '\\' && i + 1 < |cfg| then 2 else 1
    ensures QuotedSoFar(all, cfg, i + n, word + [cfg[i + n - 1]], quote)
  {
    var s, c := cfg[i..], [cfg[i + n - 1]];
    var tail := ReadQuoted(cfg[i + n..], quote);
    assert s[n..] == cfg[i + n..] && s[0] == cfg[i] && s[n - 1] == cfg[i + n - 1];
    assert ReadQuoted(s, quote) == Read(c + tail.word, tail.rest);
    Associate(word, c, tail.word);
  }

  predicate StopsBare(cfg: string, i: nat)
    requires i <= |cfg|
  {
    i == |cfg| || ConfigText.Space(cfg[i]) || EndsStatement(cfg[i])
  }

  /** `word` is what was read so far of the bare word whose rest starts at i. */
  predicate BareSoFar(all: Read, cfg: string, i: nat, word: string)
    requires i <= |cfg|
  {
    all.word == word + ReadBare(cfg[i..]).word && all.rest == ReadBare(cfg[i..]).rest
  }

  lemma BareStep(all: Read, cfg: string, i: nat, word: string, n: nat)
    requires i < |cfg| && !StopsBare(cfg, i) && BareSoFar(all, cfg, i, word)
    requires n == if cfg[i] == '\\' && i + 1 < |cfg| then 2 else 1
    ensures BareSoFar(all, cfg, i + n, word + [cfg[i + n - 1]])
  {
    var s, c := cfg[i..], [cfg[i + n - 1]];
    var tail := ReadBare(cfg[i + n..]);
    assert s[n..] == cfg[i + n..] && s[0] == cfg[i] && s[n - 1] == cfg[i + n - 1];
    assert ReadBare(s) == Read(c + tail.word, tail.rest);
    Associate(word, c, tail.word);
  }

  method ScanBare(cfg: string, start: nat) returns (word: string, i: nat)
    requires start <= |cfg|
    ensures start <= i <= |cfg| && Read(word, cfg[i..]) == ReadBare(cfg[start..])
  {
    word, i := "", start;
    ghost var all := ReadBare(cfg[start..]);
    while !StopsBare(cfg, i)
      invariant start <= i <= |cfg| && BareSoFar(all, cfg, i, word)
      decreases |cfg| - i
    {
      var n := if cfg[i] == '\\' && i + 1 < |cfg| then 2 else 1;
      BareStep(all, cfg, i, word, n);
      word := word + [cfg[i + n - 1]];
      i := i + n;
    }
  }

  method ScanWord(cfg: string, start: nat) returns (word: string, i: nat)
    requires start < |cfg| && !ConfigText.Space(cfg[start]) && !EndsStatement(cfg[start])
    ensures start < i <= |cfg| && Read(word, cfg[i..]) == ReadWord(cfg[start..])
  {
    if cfg[start] == '"' || cfg[start] == '\'' {
      assert cfg[start..][1..] == cfg[start + 1..];
      word, i := ScanQuoted(cfg, start + 1, cfg[start]);
    } else {
      word, i := ScanBare(cfg, start);
      assert |cfg[i..]| < |cfg[start..]|;
    }
  }

  method ScanComment(cfg: string, start: nat) returns (i: nat)
    requires start < |cfg| && cfg[start] == '#'
    ensures start < i <= |cfg| && cfg[i..] == SkipComment(cfg[start..])
  {
    i := start;
    while i < |cfg| && cfg[i] != '\n'
      invariant start <= i <= |cfg| && SkipComment(cfg[i..]) == SkipComment(cfg[start..])
    {
      assert cfg[i..][1..] == cfg[i + 1..];
      i := i + 1;
    }
  }

  method TokenizeNginxStatements(cfg: string) returns (statements: seq<Statement>)
    ensures statements == Tokens(cfg, [], "")
  {
    statements := [];
    var words: seq<string>, rawFirst := [], "";
    var i := 0;
    assert cfg[0..] == cfg;
    while i < |cfg|
      invariant i <= |cfg|
      invariant statements + Tokens(cfg[i..], words, rawFirst) == Tokens(cfg, [], "")
      decreases |cfg| - i
    {
      var ch := cfg[i];
      assert cfg[i..][0] == ch && cfg[i..][1..] == cfg[i + 1..];
      if ConfigText.Space(ch) {
        i := i + 1;
      } else if ch == '#' {
        i := ScanComment(cfg, i);
      } else if EndsStatement(ch) {
        statements := statements + Close(words, rawFirst);
        words, rawFirst := [], "";
        i := i + 1;
      } else {
        var start := i;
        var word;
        word, i := ScanWord(cfg, start);
        assert cfg[start..i] == cfg[start..][..|cfg[start..]| - |cfg[i..]|];
        if words == [] { rawFirst := cfg[start..i]; }
        words := words + [word];
      }
    }
    statements := statements + Close(words, rawFirst);
  }

  // ---- tokenizing undoes printing ----

  function Escape(w: string): string {
    if w == "" then ""
    else (if w[0] == '"' || w[0] == '\\' then ['\\', w[0]] else [w[0]]) + Escape(w[1..])
  }

  function PrintWords(ws: seq<string>): string {
    if ws == [] then ";" else "\"" + Escape(ws[0]) + "\" " + PrintWords(ws[1..])
  }

  /** Every word quoted and escaped, every statement ended by ';'. */
  function Print(stmts: seq<seq<string>>): string {
    if stmts == [] then "" else PrintWords(stmts[0]) + Print(stmts[1..])
  }

  function WordsOf(ts: seq<Statement>): seq<seq<string>> {
    if ts == [] then [] else [[ts[0].name] + ts[0].args] + WordsOf(ts[1..])
  }

  lemma {:induction false} ReadEscaped(w: string, t: string)
    ensures ReadQuoted(Escape(w) + "\"" + t, '"') == Read(w, t)
  {
    var s := Escape(w) + "\"" + t;
    if w == "" {
      assert s[1..] == t;
    } else {
      ReadEscaped(w[1..], t);
      var inner := Escape(w[1..]) + "\"" + t;
      assert w == [w[0]] + w[1..];
      if w[0] == '"' || w[0] == '\\' {
        assert s == ['\\', w[0]] + inner;
        assert s[2..] == inner;
      } else {
        assert s == [w[0]] + inner;
        assert s[1..] == inner;
      }
    }
  }

  lemma {:induction false} WordsOfConcat(a: seq<Statement>, b: seq<Statement>)
    ensures WordsOf(a + b) == WordsOf(a) + WordsOf(b)
  {
    if a == [] {
      assert a + b == b;
    } else {
      WordsOfConcat(a[1..], b);
      assert (a + b)[1..] == a[1..] + b;
    }
  }

  lemma {:induction false} TokensOfWords(ws: seq<string>, t: string, words: seq<string>, raw: string)
    requires words + ws != []
    ensures WordsOf(Tokens(PrintWords(ws) + t, words, raw)) == [words + ws] + WordsOf(Tokens(t, [], ""))
  {
    if ws == [] {
      assert words + ws == words;
      TokenOfEnd(t, words, raw);
    } else {
      var next := PrintWords(ws[1..]) + t;
      WordsPrinted(ws, t);
      var raw' := TokenOfQuoted(ws[0], next, words, raw);
      TokensOfWords(ws[1..], t, words + [ws[0]], raw');
      FirstMoves(words, ws);
    }
  }

  lemma {:induction false} WordsPrinted(ws: seq<string>, t: string)
    requires ws != []
    ensures PrintWords(ws) + t == Quoted(ws[0], PrintWords(ws[1..]) + t)
  {
  }

  lemma {:induction false} FirstMoves(words: seq<string>, ws: seq<string>)
    requires ws != []
    ensures words + [ws[0]] + ws[1..] == words + ws
  {
  }

  lemma TokenOfEnd(t: string, words: seq<string>, raw: string)
    requires words != []
    ensures WordsOf(Tokens(";" + t, words, raw)) == [words] + WordsOf(Tokens(t, [], ""))
  {
    assert (";" + t)[1..] == t;
    assert words == [words[0]] + words[1..];
    WordsOfConcat(Close(words, raw), Tokens(t, [], ""));
    assert WordsOf(Close(words, raw)) == [words];
  }

  function Quoted(w: string, next: string): string { "\"" + (Escape(w) + "\"" + (" " + next)) }

  lemma TokenOfQuoted(w: string, next: string, words: seq<string>, raw: string) returns (raw': string)
    ensures Tokens(Quoted(w, next), words, raw) == Tokens(next, words + [w], raw')
  {
    var s := Quoted(w, next);
    assert s[0] == '"' && s[1..] == Escape(w) + "\"" + (" " + next);
    ReadEscaped(w, " " + next);
    raw' := if words == [] then s[..|s| - |" " + next|] else raw;
    assert ReadWord(s) == Read(w, " " + next);
    assert (" " + next)[1..] == next;
  }

  /** Any list of non-empty statements, printed, tokenizes back to the same names and arguments. */
  lemma {:induction false} TokenizePrint(stmts: seq<seq<string>>)
    requires forall i :: 0 <= i < |stmts| ==> stmts[i] != []
    ensures WordsOf(Tokens(Print(stmts), [], "")) == stmts
  {
    if stmts != [] {
      TokensOfWords(stmts[0], Print(stmts[1..]), [], "");
      TokenizePrint(stmts[1..]);
      assert [] + stmts[0] == stmts[0];
      assert stmts == [stmts[0]] + stmts[1..];
    }
  }

  lemma {:induction false} WordsNonEmpty(ts: seq<Statement>)
    ensures forall i :: 0 <= i < |WordsOf(ts)| ==> WordsOf(ts)[i] != []
  {
    if ts != [] { WordsNonEmpty(ts[1..]); }
  }

  /** So printing what was tokenized is a normal form of any input. */
  lemma PrintIsNormalForm(cfg: string)
    ensures var ws := WordsOf(Tokens(cfg, [], "")); WordsOf(Tokens(Print(ws), [], "")) == ws
  {
    WordsNonEmpty(Tokens(cfg, [], ""));
    TokenizePrint(WordsOf(Tokens(cfg, [], "")));
  }
}
