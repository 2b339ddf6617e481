/**
 * What the recursive-descent parsers of the DDL statements expect of each
 * token in turn. Both parsers read a fixed run of tokens, checking each
 * against an expectation and throwing that expectation's message at the
 * first token that does not meet it; `Match` is the meaning of such a run
 * and `ExpectAll` the reading loop.
 */
module Grammar {
  import opened Wrappers
  import opened Text
  import opened Lexer

  /** One expected token and the message thrown when the token read is not it. */
  datatype Expect =
      /** A keyword whose upper-cased text is one of `words`; `showValue` appends the text read to the message. */
    | Word(words: set<string>, msg: string, showValue: bool)
      /** A token of kind `kind` with exactly the text `text`. */
    | Exactly(kind: TokenType, text: string, msg: string)
      /** A token of kind `kind` with non-empty text. */
    | NonEmpty(kind: TokenType, msg: string)
      /** The end of the input. */
    | End(msg: string)
      /** Any symbol, or any token whose text is a semicolon. */
    | Terminator(msg: string)

  predicate Meets(t: Token, e: Expect)
  {
    match e
    case Word(words, _, _) => t.kind == Keyword && Upper(t.value) in words
    case Exactly(kind, text, _) => t.kind == kind && t.value == text
    case NonEmpty(kind, _) => t.kind == kind && t.value != ""
    case End(_) => t.kind == EndOfFile
    case Terminator(_) => t.kind == Symbol || t.value == ";"
  }

  /** The message thrown for a token that does not meet `e`. */
  function Complaint(t: Token, e: Expect): string
  {
    if e.Word? && e.showValue then e.msg + t.value else e.msg
  }

  /** Token `i` meets expectation `i`, for every `i`. */
  predicate Conforms(ts: seq<Token>, es: seq<Expect>)
  {
    |ts| == |es| && forall i :: 0 <= i < |es| ==> Meets(ts[i], es[i])
  }

  /**
   * Reading one token per expectation from `p`: the tokens and where they
   * end, or the first lexing error or complaint.
   */
  function Match(q: string, p: nat, es: seq<Expect>): (r: Result<Scanned, string>)
    requires p <= |q|
    ensures r.Ok? ==> |r.value.tokens| == |es| && p <= r.value.end <= |q|
    decreases |es|
  {
    if |es| == 0 then Ok(Scanned([], p))
    else
      var lx :- Lex(q, p);
      if !Meets(lx.token, es[0]) then Err(Complaint(lx.token, es[0]))
      else Prepend([lx.token], Match(q, lx.end, es[1..]))
  }

  /**
   * A run of expectations is met exactly when as many tokens can be read and
   * each meets its expectation; the tokens are then the ones read.
   */
  lemma {:induction false} MatchIsTokens(q: string, p: nat, es: seq<Expect>)
    requires p <= |q|
    ensures Match(q, p, es).Ok? <==> Tokens(q, p, |es|).Ok? && Conforms(Tokens(q, p, |es|).value.tokens, es)
    ensures Match(q, p, es).Ok? ==> Match(q, p, es) == Tokens(q, p, |es|)
    decreases |es|
  {
    if |es| > 0 && Lex(q, p).Ok? {
      var lx := Lex(q, p).value;
      MatchIsTokens(q, lx.end, es[1..]);
      var rest := Tokens(q, lx.end, |es| - 1);
      assert Tokens(q, p, |es|) == Prepend([lx.token], rest);
      assert Match(q, p, es) == if Meets(lx.token, es[0]) then Prepend([lx.token], Match(q, lx.end, es[1..]))
                                else Err(Complaint(lx.token, es[0]));
      if rest.Ok? {
        ConformsCons(lx.token, rest.value.tokens, es);
      }
    }
  }

  /** Tokens meet a non-empty run when the first meets its head and the others the rest. */
  lemma ConformsCons(t: Token, ts: seq<Token>, es: seq<Expect>)
    requires |es| > 0
    ensures Conforms([t] + ts, es) <==> Meets(t, es[0]) && Conforms(ts, es[1..])
  {
    if Conforms([t] + ts, es) {
      forall i | 0 <= i < |es| - 1
        ensures Meets(ts[i], es[1..][i])
      {
        assert ([t] + ts)[i + 1] == ts[i];
      }
    }
    if Meets(t, es[0]) && Conforms(ts, es[1..]) {
      forall i | 1 <= i < |es|
        ensures Meets(([t] + ts)[i], es[i])
      {
        assert ([t] + ts)[i] == ts[i - 1];
      }
    }
  }

  /** Meeting `a + b` is meeting `a`, then `b` from where `a` ended. */
  lemma {:induction false} MatchAppend(q: string, p: nat, a: seq<Expect>, b: seq<Expect>)
    requires p <= |q|
    ensures Match(q, p, a).Err? ==> Match(q, p, a + b) == Match(q, p, a)
    ensures Match(q, p, a).Ok? ==>
      Match(q, p, a + b) == Prepend(Match(q, p, a).value.tokens, Match(q, Match(q, p, a).value.end, b))
    decreases |a|
  {
    if |a| == 0 {
      assert a + b == b;
      PrependPrepend([], [], Match(q, p, b));
    } else if Lex(q, p).Ok? {
      var lx := Lex(q, p).value;
      assert (a + b)[0] == a[0];
      assert (a + b)[1..] == a[1..] + b;
      if Meets(lx.token, a[0]) {
        MatchAppend(q, lx.end, a[1..], b);
        var first := Match(q, lx.end, a[1..]);
        if first.Ok? {
          PrependPrepend([lx.token], first.value.tokens, Match(q, first.value.end, b));
        }
      }
    }
  }

  /** Meeting `[e] + es` is reading a token that meets `e`, then meeting `es`. */
  lemma MatchCons(q: string, p: nat, e: Expect, es: seq<Expect>)
    requires p <= |q|
    ensures Match(q, p, [e] + es).Ok? <==>
      Lex(q, p).Ok? && Meets(Lex(q, p).value.token, e) && Match(q, Lex(q, p).value.end, es).Ok?
    ensures Match(q, p, [e] + es).Ok? ==>
      && Match(q, p, [e] + es).value.tokens[0] == Lex(q, p).value.token
      && Match(q, p, [e] + es).value.tokens[1..] == Match(q, Lex(q, p).value.end, es).value.tokens
  {
    assert ([e] + es)[0] == e && ([e] + es)[1..] == es;
  }

  /**
   * A token that meets a keyword expectation or a string-literal one holds
   * no quote, and neither does its upper-cased text.
   */
  lemma FieldQuoteFree(q: string, k: nat, g: seq<Expect>, i: nat)
    requires Tokens(q, 0, k).Ok? && Conforms(Tokens(q, 0, k).value.tokens, g)
    requires i < |g| && (g[i].Word? || (g[i].NonEmpty? && g[i].kind == StringLiteral))
    ensures Avoids(Tokens(q, 0, k).value.tokens[i].value, '\'')
    ensures Avoids(Upper(Tokens(q, 0, k).value.tokens[i].value), '\'')
  {
    LiteralsHaveNoQuote(q, 0, k);
    assert Meets(Tokens(q, 0, k).value.tokens[i], g[i]);
    UpperKeepsQuotes(Tokens(q, 0, k).value.tokens[i].value);
  }

  /** Meeting a non-empty run reads one token, checks it, then meets the rest. */
  lemma MatchStep(q: string, p: nat, es: seq<Expect>)
    requires p <= |q| && |es| > 0
    ensures Lex(q, p).Err? ==> Match(q, p, es) == Err(Lex(q, p).error)
    ensures Lex(q, p).Ok? && !Meets(Lex(q, p).value.token, es[0]) ==>
      Match(q, p, es) == Err(Complaint(Lex(q, p).value.token, es[0]))
    ensures Lex(q, p).Ok? && Meets(Lex(q, p).value.token, es[0]) ==>
      Match(q, p, es) == Prepend([Lex(q, p).value.token], Match(q, Lex(q, p).value.end, es[1..]))
  {
  }

  /**
   * The parsers' reading loop: one token per expectation, stopping at the
   * first lexing error or the first token that does not meet its
   * expectation.
   */
  method ExpectAll(t: Tokenizer, es: seq<Expect>) returns (r: Result<seq<Token>, string>)
    requires t.Valid()
    modifies t
    ensures t.Valid()
    ensures r.Ok? <==> Match(t.query, old(t.position), es).Ok?
    ensures r.Ok? ==> r.value == Match(t.query, old(t.position), es).value.tokens
                      && t.position == Match(t.query, old(t.position), es).value.end
    ensures r.Err? ==> r.error == Match(t.query, old(t.position), es).error
  {
    ghost var p0 := t.position;
    var tokens: seq<Token> := [];
    var i := 0;
    assert es[0..] == es;
    PrependPrepend([], [], Match(t.query, p0, es));
    while i < |es|
      invariant t.Valid()
      invariant 0 <= i <= |es| && |tokens| == i
      invariant Match(t.query, p0, es) == Prepend(tokens, Match(t.query, t.position, es[i..]))
    {
      assert es[i..][0] == es[i] && es[i..][1..] == es[i + 1..];
      MatchStep(t.query, t.position, es[i..]);
      var next := t.GetNextToken();
      if next.Err? {
        return Err(next.error);
      }
      var tok := next.value;
      if !Meets(tok, es[i]) {
        return Err(Complaint(tok, es[i]));
      }
      PrependPrepend(tokens, [tok], Match(t.query, t.position, es[i + 1..]));
      tokens := tokens + [tok];
      i := i + 1;
    }
    assert es[i..] == [];
    r := Ok(tokens);
  }

  /** The largest `int`. */
  const IntMax: int := 0x7fff_ffff

  /** Length of the run of digits `s` starts with. */
  function LeadingDigits(s: string): (k: nat)
    ensures k <= |s|
    ensures forall i :: 0 <= i < k ==> IsDigit(s[i])
    ensures k == |s| || !IsDigit(s[k])
  {
    if |s| > 0 && IsDigit(s[0]) then 1 + LeadingDigits(s[1..]) else 0
  }

  /**
   * `std::stoi` on text that starts with a digit: the value of the leading
   * digits, or an exception when there are none or the value does not fit in
   * an `int`.
   */
  function StoI(s: string): (r: Result<int, string>)
  {
    var k := LeadingDigits(s);
    if k == 0 then Err("stoi")
    else if DigitsValue(s[..k]) > IntMax then Err("stoi")
    else Ok(DigitsValue(s[..k]))
  }

  /** Reading back a printed number that fits in an `int` gives the number. */
  lemma StoIOfNatToString(n: nat)
    requires n <= IntMax
    ensures StoI(NatToString(n)) == Ok(n)
  {
    var s := NatToString(n);
    assert LeadingDigits(s) == |s|;
    assert s[..|s|] == s;
    DigitsValueOfNatToString(n);
  }

  /** A number too large for an `int` is refused. */
  lemma StoIRefusesOverflow(n: nat)
    requires n > IntMax
    ensures StoI(NatToString(n)) == Err("stoi")
  {
    var s := NatToString(n);
    assert LeadingDigits(s) == |s|;
    assert s[..|s|] == s;
    DigitsValueOfNatToString(n);
  }
}
