/**
 * The lexer of the model and secret DDL statements. `Lex` is the meaning of
 * one call of the lexer: skip blanks, then read one token starting at the
 * first non-blank character. The `Tokenizer` class is the position-advancing
 * lexer itself, each of its methods proved to do what `Lex` says.
 */
module Lexer {
  import opened Wrappers
  import opened Text

  datatype TokenType = Keyword | StringLiteral | Json | Symbol | Number | Parenthesis | EndOfFile | Unknown

  datatype Token = Token(kind: TokenType, value: string)

  /** The name of each token type. */
  function TokenTypeToString(t: TokenType): (s: string)
    ensures |s| > 0
  {
    match t
    case Keyword => "KEYWORD"
    case StringLiteral => "STRING_LITERAL"
    case Json => "JSON"
    case Symbol => "SYMBOL"
    case Number => "NUMBER"
    case Parenthesis => "PARENTHESIS"
    case EndOfFile => "END_OF_FILE"
    case Unknown => "UNKNOWN"
  }

  /** Different token types have different names. */
  lemma TokenTypeNamesDistinct(a: TokenType, b: TokenType)
    requires a != b
    ensures TokenTypeToString(a) != TokenTypeToString(b)
  {
  }

  /** The character classes the lexer's scanning loops run over. */
  datatype CharClass = Blank | KeywordChar | Digit | NotQuote

  predicate InClass(c: char, k: CharClass)
  {
    match k
    case Blank => IsSpace(c)
    case KeywordChar => IsAlpha(c) || c == '_'
    case Digit => IsDigit(c)
    case NotQuote => c != '\''
  }

  /** The character at `p`, as `std::string` reads it: the terminating NUL at the end. */
  function At(q: string, p: nat): char
  {
    if p < |q| then q[p] else 0 as char
  }

  /** `q[from..to]` is a maximal run of characters of class `k`. */
  predicate RunTo(q: string, from: nat, to: nat, k: CharClass)
  {
    && from <= to <= |q|
    && (forall i :: from <= i < to ==> InClass(q[i], k))
    && (to == |q| || !InClass(q[to], k))
  }

  /** Where the run of class `k` starting at `p` ends. */
  function RunEnd(q: string, p: nat, k: CharClass): (e: nat)
    requires p <= |q|
    ensures RunTo(q, p, e, k)
    decreases |q| - p
  {
    if p < |q| && InClass(q[p], k) then RunEnd(q, p + 1, k) else p
  }

  /** A maximal run has only one end. */
  lemma RunToUnique(q: string, from: nat, a: nat, b: nat, k: CharClass)
    requires RunTo(q, from, a, k) && RunTo(q, from, b, k)
    ensures a == b
  {
  }

  /** Opening braces minus closing braces. */
  function Balance(s: string): int
  {
    if |s| == 0 then 0
    else (if s[0] == '{' then 1 else if s[0] == '}' then -1 else 0) + Balance(s[1..])
  }

  /**
   * The brace-counting scan of a JSON token: from `p` with `depth` braces
   * open, the position just after the brace that closes them all, if any.
   */
  function JsonEnd(q: string, p: nat, depth: nat): (r: Option<nat>)
    requires p <= |q| && depth > 0
    ensures r.Some? ==> p < r.value <= |q|
    decreases |q| - p
  {
    if p == |q| then None
    else
      var d := if q[p] == '{' then depth + 1 else if q[p] == '}' then depth - 1 else depth;
      if d == 0 then Some(p + 1) else JsonEnd(q, p + 1, d)
  }

  /**
   * The scan stops exactly where the braces first balance: the text read
   * closes all open braces and every shorter prefix leaves some open; when
   * it finds no such place, no prefix of the rest balances.
   */
  lemma {:induction false} JsonEndBalances(q: string, p: nat, depth: nat)
    requires p <= |q| && depth > 0
    ensures JsonEnd(q, p, depth).Some? ==>
      var e := JsonEnd(q, p, depth).value;
      && p < e <= |q| && q[e - 1] == '}'
      && depth + Balance(q[p..e]) == 0
      && forall j :: p <= j < e ==> depth + Balance(q[p..j]) > 0
    ensures JsonEnd(q, p, depth).None? ==>
      forall j :: p <= j <= |q| ==> depth + Balance(q[p..j]) > 0
    decreases |q| - p
  {
    if p < |q| {
      var d := if q[p] == '{' then depth + 1 else if q[p] == '}' then depth - 1 else depth;
      forall j | p < j <= |q|
        ensures depth + Balance(q[p..j]) == d + Balance(q[p + 1..j])
      {
        assert q[p..j][1..] == q[p + 1..j];
      }
      assert q[p..p] == [];
      if d == 0 {
        assert q[p + 1..p + 1] == [];
      } else {
        JsonEndBalances(q, p + 1, d);
      }
    } else {
      assert q[p..p] == [];
    }
  }

  /** One token and the position just after it. */
  datatype Lexeme = Lexeme(token: Token, end: nat)

  /**
   * One call of the lexer at position `p`: skip blanks; at the end of the
   * input give END_OF_FILE; otherwise the first character decides the kind of
   * token. A character that starts no token gives UNKNOWN and is not
   * consumed.
   */
  function Lex(q: string, p: nat): (r: Result<Lexeme, string>)
    requires p <= |q|
    ensures r.Ok? ==> p <= r.value.end <= |q|
  {
    var s := RunEnd(q, p, Blank);
    if s == |q| then Ok(Lexeme(Token(EndOfFile, ""), s))
    else
      var c := q[s];
      if c == '\'' then
        var e := RunEnd(q, s + 1, NotQuote);
        if e == |q| then Err("Unterminated string literal.")
        else Ok(Lexeme(Token(StringLiteral, q[s + 1..e]), e + 1))
      else if c == '{' then
        match JsonEnd(q, s + 1, 1)
        case None => Err("Unterminated JSON.")
        case Some(e) => Ok(Lexeme(Token(Json, q[s..e]), e))
      else if IsAlpha(c) then
        var e := RunEnd(q, s, KeywordChar);
        Ok(Lexeme(Token(Keyword, q[s..e]), e))
      else if c == ';' || c == ',' || c == '=' then Ok(Lexeme(Token(Symbol, [c]), s + 1))
      else if c == '(' || c == ')' then Ok(Lexeme(Token(Parenthesis, [c]), s + 1))
      else if IsDigit(c) then
        var e := RunEnd(q, s, Digit);
        Ok(Lexeme(Token(Number, q[s..e]), e))
      else Ok(Lexeme(Token(Unknown, [c]), s))
  }

  /** The lexer fails only on an unterminated string literal or JSON text. */
  lemma LexErrors(q: string, p: nat)
    requires p <= |q|
    ensures Lex(q, p).Err? ==> Lex(q, p).error in {"Unterminated string literal.", "Unterminated JSON."}
  {
  }

  /**
   * END_OF_FILE comes exactly when only blanks remain; it leaves the lexer
   * at the end of the input, where every further call gives END_OF_FILE
   * again.
   */
  lemma EndOfFileIsSticky(q: string, p: nat)
    requires p <= |q|
    ensures (Lex(q, p).Ok? && Lex(q, p).value.token.kind == EndOfFile) <==> forall i :: p <= i < |q| ==> IsSpace(q[i])
    ensures Lex(q, p).Ok? && Lex(q, p).value.token.kind == EndOfFile ==>
      Lex(q, p).value == Lexeme(Token(EndOfFile, ""), |q|) && Lex(q, |q|) == Lex(q, p)
  {
    var s := RunEnd(q, p, Blank);
    if s < |q| {
      assert !IsSpace(q[s]);
    }
  }

  /** An UNKNOWN token is not consumed: the next call returns it again. */
  lemma UnknownRepeats(q: string, p: nat)
    requires p <= |q|
    requires Lex(q, p).Ok? && Lex(q, p).value.token.kind == Unknown
    ensures Lex(q, Lex(q, p).value.end) == Lex(q, p)
  {
    var s := RunEnd(q, p, Blank);
    assert RunEnd(q, s, Blank) == s;
  }

  /** Every other token consumes at least one character. */
  lemma TokensAdvance(q: string, p: nat)
    requires p <= |q|
    requires Lex(q, p).Ok? && Lex(q, p).value.token.kind !in {EndOfFile, Unknown}
    ensures Lex(q, p).value.end > p
  {
  }

  /**
   * A string literal is the text strictly between a quote and the next
   * quote, with no escapes; so its value never holds a quote.
   */
  lemma StringLiteralShape(q: string, p: nat)
    requires p <= |q|
    requires Lex(q, p).Ok? && Lex(q, p).value.token.kind == StringLiteral
    ensures var lx := Lex(q, p).value;
      var open := lx.end - |lx.token.value| - 2;
      && p <= open && q[open] == '\'' && q[lx.end - 1] == '\''
      && lx.token.value == q[open + 1..lx.end - 1]
      && forall i :: 0 <= i < |lx.token.value| ==> lx.token.value[i] != '\''
  {
  }

  /**
   * A JSON token runs from an opening brace to the brace that balances it,
   * inclusive.
   */
  lemma JsonShape(q: string, p: nat)
    requires p <= |q|
    requires Lex(q, p).Ok? && Lex(q, p).value.token.kind == Json
    ensures var v := Lex(q, p).value.token.value;
      && |v| >= 2 && v[0] == '{' && v[|v| - 1] == '}'
      && Balance(v) == 0
      && forall j :: 1 <= j < |v| ==> Balance(v[..j]) > 0
  {
    var s := RunEnd(q, p, Blank);
    JsonTextBalances(q, s);
  }

  lemma JsonTextBalances(q: string, s: nat)
    requires s < |q| && q[s] == '{'
    requires JsonEnd(q, s + 1, 1).Some?
    ensures var v := q[s..JsonEnd(q, s + 1, 1).value];
      && |v| >= 2 && v[0] == '{' && v[|v| - 1] == '}'
      && Balance(v) == 0
      && forall j :: 1 <= j < |v| ==> Balance(v[..j]) > 0
  {
    JsonEndBalances(q, s + 1, 1);
    var e := JsonEnd(q, s + 1, 1).value;
    var v := q[s..e];
    assert v[1..] == q[s + 1..e];
    forall j | 1 <= j < |v|
      ensures Balance(v[..j]) > 0
    {
      assert v[..j][1..] == q[s + 1..s + j];
    }
  }

  /**
   * A keyword starts with a letter and runs over letters and underscores;
   * a digit, like any other character, ends it.
   */
  lemma KeywordShape(q: string, p: nat)
    requires p <= |q|
    requires Lex(q, p).Ok? && Lex(q, p).value.token.kind == Keyword
    ensures var lx := Lex(q, p).value;
      && |lx.token.value| > 0 && IsAlpha(lx.token.value[0])
      && (forall i :: 0 <= i < |lx.token.value| ==> IsAlpha(lx.token.value[i]) || lx.token.value[i] == '_')
      && lx.token.value == q[lx.end - |lx.token.value|..lx.end]
      && (lx.end == |q| || !(IsAlpha(q[lx.end]) || q[lx.end] == '_'))
  {
  }

  /** A number is a maximal non-empty run of digits. */
  lemma NumberShape(q: string, p: nat)
    requires p <= |q|
    requires Lex(q, p).Ok? && Lex(q, p).value.token.kind == Number
    ensures var lx := Lex(q, p).value;
      && |lx.token.value| > 0
      && (forall i :: 0 <= i < |lx.token.value| ==> IsDigit(lx.token.value[i]))
      && lx.token.value == q[lx.end - |lx.token.value|..lx.end]
      && (lx.end == |q| || !IsDigit(q[lx.end]))
  {
  }

  /** `;`, `,` and `=` are one-character symbols; `(` and `)` one-character parentheses. */
  lemma PunctuationShape(q: string, p: nat)
    requires p <= |q|
    requires Lex(q, p).Ok?
    ensures var t := Lex(q, p).value.token;
      && (t.kind == Symbol ==> t.value in {";", ",", "="})
      && (t.kind == Parenthesis ==> t.value in {"(", ")"})
      && (t.kind in {Symbol, Parenthesis} ==> Lex(q, p).value.end == RunEnd(q, p, Blank) + 1)
  {
  }

  /** Tokens read so far and the position after the last of them. */
  datatype Scanned = Scanned(tokens: seq<Token>, end: nat)

  /** `ts` in front of the tokens of `r`, when `r` succeeded. */
  function Prepend(ts: seq<Token>, r: Result<Scanned, string>): Result<Scanned, string>
  {
    if r.Ok? then Ok(Scanned(ts + r.value.tokens, r.value.end)) else r
  }

  lemma PrependPrepend(a: seq<Token>, b: seq<Token>, r: Result<Scanned, string>)
    ensures Prepend(a, Prepend(b, r)) == Prepend(a + b, r)
    ensures Prepend([], r) == r
  {
    if r.Ok? {
      assert a + (b + r.value.tokens) == (a + b) + r.value.tokens;
      assert [] + r.value.tokens == r.value.tokens;
    }
  }

  /** The first `k` tokens from position `p`, or the first lexing error among them. */
  function Tokens(q: string, p: nat, k: nat): (r: Result<Scanned, string>)
    requires p <= |q|
    ensures r.Ok? ==> |r.value.tokens| == k && p <= r.value.end <= |q|
    decreases k
  {
    if k == 0 then Ok(Scanned([], p))
    else
      var lx :- Lex(q, p);
      Prepend([lx.token], Tokens(q, lx.end, k - 1))
  }

  /** Reading `a + b` tokens is reading `a` tokens, then `b` more from where they ended. */
  lemma {:induction false} TokensSplit(q: string, p: nat, a: nat, b: nat)
    requires p <= |q|
    requires Tokens(q, p, a).Ok?
    ensures Tokens(q, p, a + b) == Prepend(Tokens(q, p, a).value.tokens, Tokens(q, Tokens(q, p, a).value.end, b))
    decreases a
  {
    if a > 0 {
      var lx := Lex(q, p).value;
      var first := Tokens(q, lx.end, a - 1);
      TokensSplit(q, lx.end, a - 1, b);
      assert Tokens(q, p, a + b) == Prepend([lx.token], Tokens(q, lx.end, (a - 1) + b));
      PrependPrepend([lx.token], first.value.tokens, Tokens(q, first.value.end, b));
    } else {
      PrependPrepend([], [], Tokens(q, p, b));
    }
  }

  /** A lexing error among the first `a` tokens is the error of reading more. */
  lemma {:induction false} TokensSplitErr(q: string, p: nat, a: nat, b: nat)
    requires p <= |q|
    requires Tokens(q, p, a).Err?
    ensures Tokens(q, p, a + b) == Tokens(q, p, a)
    decreases a
  {
    if Lex(q, p).Ok? {
      var lx := Lex(q, p).value;
      TokensSplitErr(q, lx.end, a - 1, b);
      assert Tokens(q, p, a + b) == Prepend([lx.token], Tokens(q, lx.end, (a - 1) + b));
    }
  }

  /** No string literal or keyword read from a query holds a quote. */
  lemma {:induction false} LiteralsHaveNoQuote(q: string, p: nat, k: nat)
    requires p <= |q|
    requires Tokens(q, p, k).Ok?
    ensures forall i :: 0 <= i < k && Tokens(q, p, k).value.tokens[i].kind in {StringLiteral, Keyword} ==>
      Avoids(Tokens(q, p, k).value.tokens[i].value, '\'')
    decreases k
  {
    if k > 0 {
      var lx := Lex(q, p).value;
      LiteralsHaveNoQuote(q, lx.end, k - 1);
      if lx.token.kind == StringLiteral {
        StringLiteralShape(q, p);
      } else if lx.token.kind == Keyword {
        KeywordShape(q, p);
      }
      var ts := Tokens(q, p, k).value.tokens;
      assert ts == [lx.token] + Tokens(q, lx.end, k - 1).value.tokens;
      forall i | 0 < i < k
        ensures ts[i] == Tokens(q, lx.end, k - 1).value.tokens[i - 1]
      {
      }
    }
  }

  /** The lexer proper: a query and a read position that only moves forward. */
  class Tokenizer {
    const query: string
    var position: nat

    ghost predicate Valid()
      reads this
    {
      position <= |query|
    }

    constructor(q: string)
      ensures query == q && position == 0
      ensures Valid()
    {
      query := q;
      position := 0;
    }

    /** Advances over blanks. */
    method SkipWhitespace()
      requires Valid()
      modifies this
      ensures Valid()
      ensures RunTo(query, old(position), position, Blank)
    {
      while position < |query| && IsSpace(query[position])
        invariant old(position) <= position <= |query|
        invariant forall i :: old(position) <= i < position ==> IsSpace(query[i])
      {
        position := position + 1;
      }
    }

    /**
     * A quoted string: its value is what lies between the quotes, and the
     * position moves past the closing quote.
     */
    method ParseStringLiteral() returns (r: Result<Token, string>)
      requires Valid()
      modifies this
      ensures Valid()
      ensures At(query, old(position)) != '\'' ==> r == Err("String literal should start with a single quote.")
      ensures At(query, old(position)) == '\'' ==>
        var e := RunEnd(query, old(position) + 1, NotQuote);
        && (r.Err? <==> e == |query|)
        && (r.Err? ==> r.error == "Unterminated string literal.")
        && (r.Ok? ==> r.value == Token(StringLiteral, query[old(position) + 1..e]) && position == e + 1)
    {
      if At(query, position) != '\'' {
        return Err("String literal should start with a single quote.");
      }
      position := position + 1;
      var start := position;
      while position < |query| && query[position] != '\''
        invariant start <= position <= |query|
        invariant RunEnd(query, start, NotQuote) == RunEnd(query, position, NotQuote)
      {
        position := position + 1;
      }
      if position == |query| {
        return Err("Unterminated string literal.");
      }
      var value := query[start..position];
      position := position + 1;
      return Ok(Token(StringLiteral, value));
    }

    /** A JSON text: from the opening brace up to and including the brace that balances it. */
    method ParseJson() returns (r: Result<Token, string>)
      requires Valid()
      modifies this
      ensures Valid()
      ensures At(query, old(position)) != '{' ==> r == Err("JSON should start with a curly brace.")
      ensures At(query, old(position)) == '{' ==>
        && (r.Err? <==> JsonEnd(query, old(position) + 1, 1).None?)
        && (r.Err? ==> r.error == "Unterminated JSON.")
        && (r.Ok? ==> var e := JsonEnd(query, old(position) + 1, 1).value;
                      r.value == Token(Json, query[old(position)..e]) && position == e)
    {
      if At(query, position) != '{' {
        return Err("JSON should start with a curly brace.");
      }
      var start := position;
      position := position + 1;
      var braceCount: nat := 1;
      while position < |query| && braceCount > 0
        invariant start < position <= |query|
        invariant braceCount > 0 ==> JsonEnd(query, start + 1, 1) == JsonEnd(query, position, braceCount)
        invariant braceCount == 0 ==> JsonEnd(query, start + 1, 1) == Some(position)
      {
        if query[position] == '{' {
          braceCount := braceCount + 1;
        } else if query[position] == '}' {
          braceCount := braceCount - 1;
        }
        position := position + 1;
      }
      if braceCount > 0 {
        return Err("Unterminated JSON.");
      }
      return Ok(Token(Json, query[start..position]));
    }

    /** A maximal run of letters and underscores. */
    method ParseKeyword() returns (t: Token)
      requires Valid()
      modifies this
      ensures Valid()
      ensures position == RunEnd(query, old(position), KeywordChar)
      ensures t == Token(Keyword, query[old(position)..position])
    {
      var start := position;
      while position < |query| && (IsAlpha(query[position]) || query[position] == '_')
        invariant start <= position <= |query|
        invariant RunEnd(query, start, KeywordChar) == RunEnd(query, position, KeywordChar)
      {
        position := position + 1;
      }
      t := Token(Keyword, query[start..position]);
    }

    /** The one character at the position, as a symbol. */
    method ParseSymbol() returns (t: Token)
      requires Valid() && position < |query|
      modifies this
      ensures Valid()
      ensures position == old(position) + 1
      ensures t == Token(Symbol, [query[old(position)]])
    {
      var ch := query[position];
      position := position + 1;
      t := Token(Symbol, [ch]);
    }

    /** A maximal run of digits. */
    method ParseNumber() returns (t: Token)
      requires Valid()
      modifies this
      ensures Valid()
      ensures position == RunEnd(query, old(position), Digit)
      ensures t == Token(Number, query[old(position)..position])
    {
      var start := position;
      while position < |query| && IsDigit(query[position])
        invariant start <= position <= |query|
        invariant RunEnd(query, start, Digit) == RunEnd(query, position, Digit)
      {
        position := position + 1;
      }
      t := Token(Number, query[start..position]);
    }

    /** The one character at the position, as a parenthesis. */
    method ParseParenthesis() returns (t: Token)
      requires Valid() && position < |query|
      modifies this
      ensures Valid()
      ensures position == old(position) + 1
      ensures t == Token(Parenthesis, [query[old(position)]])
    {
      var ch := query[position];
      position := position + 1;
      t := Token(Parenthesis, [ch]);
    }

    /** The next token: exactly one step of `Lex`. */
    method GetNextToken() returns (r: Result<Token, string>)
      requires Valid()
      modifies this
      ensures Valid()
      ensures r.Ok? <==> Lex(query, old(position)).Ok?
      ensures r.Ok? ==> r.value == Lex(query, old(position)).value.token
                        && position == Lex(query, old(position)).value.end
      ensures r.Err? ==> r.error == Lex(query, old(position)).error
    {
      SkipWhitespace();
      RunToUnique(query, old(position), position, RunEnd(query, old(position), Blank), Blank);
      if position >= |query| {
        return Ok(Token(EndOfFile, ""));
      }
      var ch := query[position];
      if ch == '\'' {
        r := ParseStringLiteral();
      } else if ch == '{' {
        r := ParseJson();
      } else if IsAlpha(ch) {
        var t := ParseKeyword();
        r := Ok(t);
      } else if ch == ';' || ch == ',' {
        var t := ParseSymbol();
        r := Ok(t);
      } else if ch == '=' {
        var t := ParseSymbol();
        r := Ok(t);
      } else if ch == '(' || ch == ')' {
        var t := ParseParenthesis();
        r := Ok(t);
      } else if IsDigit(ch) {
        var t := ParseNumber();
        r := Ok(t);
      } else {
        r := Ok(Token(Unknown, [ch]));
      }
    }
  }
}
