/**
 * The parser of the secret DDL (`CREATE SECRET KEY = '...'`, `DELETE SECRET
 * KEY`, `UPDATE SECRET KEY = '...'`, `GET SECRET KEY`, `GET SECRETS`) and its
 * translation to SQL over the secret table. Unlike the model DDL, a
 * statement ends at its first symbol (or `;`); nothing after it is read.
 */
module SecretParser {
  import opened Wrappers
  import opened Text
  import opened Lexer
  import opened Grammar
  import opened Statements

  /** The secret keys the parser knows, upper-cased. */
  const SecretKeys: set<string> := {"OPENAI_API_KEY", "AZURE_API_KEY", "AZURE_RESOURCE_NAME", "AZURE_API_VERSION", "OLLAMA_API_URL"}

  const SecretWord := Word({"SECRET"}, "Unknown keyword: ", true)
  const KeyWord := Word(SecretKeys, "Unknown SECRET key: ", true)
  const SecretValue := NonEmpty(StringLiteral, "Expected non-empty string literal for secret.")
  const SecretEnd := Terminator("Unexpected characters after the secret. Only a semicolon is allowed.")

  const CreateRun: seq<Expect> := [
    SecretWord, KeyWord, Exactly(Symbol, "=", "Expected '=' after your SECRET name."), SecretValue, SecretEnd]

  const DeleteRun: seq<Expect> := [SecretWord, KeyWord, SecretEnd]

  const UpdateRun: seq<Expect> := [
    SecretWord, KeyWord, Exactly(Symbol, "=", "Expected '=' after SECRET key."), SecretValue, SecretEnd]

  /** `GET` is followed by `SECRET` or `SECRETS`. */
  const GetHead: seq<Expect> := [Word({"SECRET", "SECRETS"}, "Unknown keyword: ", true)]

  function CreateSecretAt(q: string, p: nat): (r: Result<Statement, string>)
    requires p <= |q|
    ensures r.Ok? ==> r.value.CreateSecret?
  {
    var run :- Match(q, p, CreateRun);
    Ok(CreateSecret(Upper(run.tokens[1].value), run.tokens[3].value))
  }

  function DeleteSecretAt(q: string, p: nat): (r: Result<Statement, string>)
    requires p <= |q|
    ensures r.Ok? ==> r.value.DeleteSecret?
  {
    var run :- Match(q, p, DeleteRun);
    Ok(DeleteSecret(Upper(run.tokens[1].value)))
  }

  function UpdateSecretAt(q: string, p: nat): (r: Result<Statement, string>)
    requires p <= |q|
    ensures r.Ok? ==> r.value.UpdateSecret?
  {
    var run :- Match(q, p, UpdateRun);
    Ok(UpdateSecret(Upper(run.tokens[1].value), run.tokens[3].value))
  }

  /**
   * After `GET SECRETS`, a symbol (or any token reading `;`) asks for every
   * secret. Otherwise, after `SECRET` or `SECRETS`, a key must follow, then
   * a symbol or `;`.
   */
  function GetSecretAt(q: string, p: nat): (r: Result<Statement, string>)
    requires p <= |q|
    ensures r.Ok? ==> r.value.GetSecret? || r.value.GetAllSecrets?
  {
    var head :- Match(q, p, GetHead);
    var next :- Lex(q, head.end);
    if Meets(next.token, SecretEnd) && Upper(head.tokens[0].value) == "SECRETS" then Ok(GetAllSecrets)
    else if !Meets(next.token, KeyWord) then Err(Complaint(next.token, KeyWord))
    else
      var tail :- Match(q, next.end, [SecretEnd]);
      Ok(GetSecret(Upper(next.token.value)))
  }

  /** A secret statement: the first token must be a keyword, and it chooses the statement case-insensitively. */
  function ParseQuery(q: string): (r: Result<Statement, string>)
  {
    var first :- Lex(q, 0);
    var value := Upper(first.token.value);
    if first.token.kind == Keyword then
      if value == "CREATE" then CreateSecretAt(q, first.end)
      else if value == "DELETE" then DeleteSecretAt(q, first.end)
      else if value == "UPDATE" then UpdateSecretAt(q, first.end)
      else if value == "GET" then GetSecretAt(q, first.end)
      else Err("Unknown keyword: " + first.token.value)
    else Err("Unknown keyword: " + first.token.value)
  }

  method ParseCreateSecret(t: Tokenizer) returns (r: Result<Statement, string>)
    requires t.Valid()
    modifies t
    ensures r == CreateSecretAt(t.query, old(t.position))
  {
    var run :- ExpectAll(t, CreateRun);
    return Ok(CreateSecret(Upper(run[1].value), run[3].value));
  }

  method ParseDeleteSecret(t: Tokenizer) returns (r: Result<Statement, string>)
    requires t.Valid()
    modifies t
    ensures r == DeleteSecretAt(t.query, old(t.position))
  {
    var run :- ExpectAll(t, DeleteRun);
    return Ok(DeleteSecret(Upper(run[1].value)));
  }

  method ParseUpdateSecret(t: Tokenizer) returns (r: Result<Statement, string>)
    requires t.Valid()
    modifies t
    ensures r == UpdateSecretAt(t.query, old(t.position))
  {
    var run :- ExpectAll(t, UpdateRun);
    return Ok(UpdateSecret(Upper(run[1].value), run[3].value));
  }

  method ParseGetSecret(t: Tokenizer) returns (r: Result<Statement, string>)
    requires t.Valid()
    modifies t
    ensures r == GetSecretAt(t.query, old(t.position))
  {
    var head :- ExpectAll(t, GetHead);
    var value := Upper(head[0].value);
    var next :- t.GetNextToken();
    if Meets(next, SecretEnd) && value == "SECRETS" {
      return Ok(GetAllSecrets);
    }
    if !Meets(next, KeyWord) {
      return Err(Complaint(next, KeyWord));
    }
    var tail :- ExpectAll(t, [SecretEnd]);
    return Ok(GetSecret(Upper(next.value)));
  }

  /** Parses one secret statement. */
  method Parse(query: string) returns (r: Result<Statement, string>)
    ensures r == ParseQuery(query)
  {
    var t := new Tokenizer(query);
    var first :- t.GetNextToken();
    var value := Upper(first.value);
    if first.kind == Keyword {
      if value == "CREATE" {
        r := ParseCreateSecret(t);
      } else if value == "DELETE" {
        r := ParseDeleteSecret(t);
      } else if value == "UPDATE" {
        r := ParseUpdateSecret(t);
      } else if value == "GET" {
        r := ParseGetSecret(t);
      } else {
        r := Err("Unknown keyword: " + first.value);
      }
    } else {
      r := Err("Unknown keyword: " + first.value);
    }
  }

  /** The leading keyword of each statement, as an expectation on the first token. */
  const CreateWord := Word({"CREATE"}, "Unknown keyword: ", true)
  const DeleteWord := Word({"DELETE"}, "Unknown keyword: ", true)
  const UpdateWord := Word({"UPDATE"}, "Unknown keyword: ", true)
  const GetWord := Word({"GET"}, "Unknown keyword: ", true)

  predicate IsCreate(r: Result<Statement, string>) { r.Ok? && r.value.CreateSecret? }
  predicate IsDelete(r: Result<Statement, string>) { r.Ok? && r.value.DeleteSecret? }
  predicate IsUpdate(r: Result<Statement, string>) { r.Ok? && r.value.UpdateSecret? }
  predicate IsGet(r: Result<Statement, string>) { r.Ok? && r.value.GetSecret? }
  predicate IsGetAll(r: Result<Statement, string>) { r.Ok? && r.value.GetAllSecrets? }

  /** The statement a query parses to, read off its first token. */
  lemma Dispatch(q: string)
    ensures IsCreate(ParseQuery(q)) <==> Lex(q, 0).Ok? && Meets(Lex(q, 0).value.token, CreateWord) && CreateSecretAt(q, Lex(q, 0).value.end).Ok?
    ensures IsCreate(ParseQuery(q)) ==> ParseQuery(q) == CreateSecretAt(q, Lex(q, 0).value.end)
    ensures IsDelete(ParseQuery(q)) <==> Lex(q, 0).Ok? && Meets(Lex(q, 0).value.token, DeleteWord) && DeleteSecretAt(q, Lex(q, 0).value.end).Ok?
    ensures IsDelete(ParseQuery(q)) ==> ParseQuery(q) == DeleteSecretAt(q, Lex(q, 0).value.end)
    ensures IsUpdate(ParseQuery(q)) <==> Lex(q, 0).Ok? && Meets(Lex(q, 0).value.token, UpdateWord) && UpdateSecretAt(q, Lex(q, 0).value.end).Ok?
    ensures IsUpdate(ParseQuery(q)) ==> ParseQuery(q) == UpdateSecretAt(q, Lex(q, 0).value.end)
    ensures IsGet(ParseQuery(q)) <==> Lex(q, 0).Ok? && Meets(Lex(q, 0).value.token, GetWord) && IsGet(GetSecretAt(q, Lex(q, 0).value.end))
    ensures IsGetAll(ParseQuery(q)) <==> Lex(q, 0).Ok? && Meets(Lex(q, 0).value.token, GetWord) && IsGetAll(GetSecretAt(q, Lex(q, 0).value.end))
    ensures (IsGet(ParseQuery(q)) || IsGetAll(ParseQuery(q))) ==> ParseQuery(q) == GetSecretAt(q, Lex(q, 0).value.end)
  {
  }

  /** A secret key is a keyword, so it never reads as the end of a statement. */
  lemma KeyIsNotEnd(t: Token)
    requires Meets(t, KeyWord)
    ensures !Meets(t, SecretEnd)
  {
  }

  /**
   * `GET ...` after the keyword asks for every secret when the head word is
   * `SECRETS` and the next token ends the statement, and for one secret when
   * the next token is a key followed by the end of the statement.
   */
  lemma GetIsMatch(q: string, p: nat)
    requires p <= |q|
    ensures var m := Match(q, p, GetHead + [SecretEnd]);
      IsGetAll(GetSecretAt(q, p)) <==> m.Ok? && Upper(m.value.tokens[0].value) == "SECRETS"
    ensures var m := Match(q, p, GetHead + [KeyWord, SecretEnd]);
      && (IsGet(GetSecretAt(q, p)) <==> m.Ok?)
      && (m.Ok? ==> GetSecretAt(q, p).value == GetSecret(Upper(m.value.tokens[1].value)))
  {
    MatchAppend(q, p, GetHead, [SecretEnd]);
    MatchAppend(q, p, GetHead, [KeyWord, SecretEnd]);
    var head := Match(q, p, GetHead);
    if head.Ok? {
      assert [KeyWord, SecretEnd] == [KeyWord] + [SecretEnd];
      MatchCons(q, head.value.end, SecretEnd, []);
      MatchCons(q, head.value.end, KeyWord, [SecretEnd]);
      if Lex(q, head.value.end).Ok? && Meets(Lex(q, head.value.end).value.token, KeyWord) {
        KeyIsNotEnd(Lex(q, head.value.end).value.token);
      }
      var rest := Match(q, head.value.end, [KeyWord, SecretEnd]);
      if rest.Ok? {
        assert (head.value.tokens + rest.value.tokens)[1] == rest.value.tokens[0];
      }
    }
  }

  /**
   * A query is a `CREATE SECRET` statement exactly when its first six
   * tokens are `CREATE SECRET KEY = 'value'` and a symbol or `;`, whatever
   * follows; the statement holds the upper-cased key and the value.
   */
  lemma AcceptsCreate(q: string)
    ensures IsCreate(ParseQuery(q)) <==>
      Tokens(q, 0, 6).Ok? && Conforms(Tokens(q, 0, 6).value.tokens, [CreateWord] + CreateRun)
    ensures IsCreate(ParseQuery(q)) ==>
      var ts := Tokens(q, 0, 6).value.tokens;
      ParseQuery(q).value == CreateSecret(Upper(ts[2].value), ts[4].value)
  {
    var g := [CreateWord] + CreateRun;
    MatchIsTokens(q, 0, g);
    MatchCons(q, 0, CreateWord, CreateRun);
    Dispatch(q);
  }

  /**
   * A query is a `DELETE SECRET` statement exactly when its first four
   * tokens are `DELETE SECRET KEY` and a symbol or `;`.
   */
  lemma AcceptsDelete(q: string)
    ensures IsDelete(ParseQuery(q)) <==>
      Tokens(q, 0, 4).Ok? && Conforms(Tokens(q, 0, 4).value.tokens, [DeleteWord] + DeleteRun)
    ensures IsDelete(ParseQuery(q)) ==>
      ParseQuery(q).value == DeleteSecret(Upper(Tokens(q, 0, 4).value.tokens[2].value))
  {
    var g := [DeleteWord] + DeleteRun;
    MatchIsTokens(q, 0, g);
    MatchCons(q, 0, DeleteWord, DeleteRun);
    Dispatch(q);
  }

  /**
   * A query is an `UPDATE SECRET` statement exactly when its first six
   * tokens are `UPDATE SECRET KEY = 'value'` and a symbol or `;`.
   */
  lemma AcceptsUpdate(q: string)
    ensures IsUpdate(ParseQuery(q)) <==>
      Tokens(q, 0, 6).Ok? && Conforms(Tokens(q, 0, 6).value.tokens, [UpdateWord] + UpdateRun)
    ensures IsUpdate(ParseQuery(q)) ==>
      var ts := Tokens(q, 0, 6).value.tokens;
      ParseQuery(q).value == UpdateSecret(Upper(ts[2].value), ts[4].value)
  {
    var g := [UpdateWord] + UpdateRun;
    MatchIsTokens(q, 0, g);
    MatchCons(q, 0, UpdateWord, UpdateRun);
    Dispatch(q);
  }

  /**
   * A query asks for every secret exactly when its first three tokens are
   * `GET SECRETS` and a symbol or `;`; `GET SECRET ;` is not such a query.
   */
  lemma AcceptsGetAll(q: string)
    ensures IsGetAll(ParseQuery(q)) <==>
      Tokens(q, 0, 3).Ok? && Conforms(Tokens(q, 0, 3).value.tokens, [GetWord] + (GetHead + [SecretEnd]))
      && Upper(Tokens(q, 0, 3).value.tokens[1].value) == "SECRETS"
  {
    var g := [GetWord] + (GetHead + [SecretEnd]);
    MatchIsTokens(q, 0, g);
    MatchCons(q, 0, GetWord, GetHead + [SecretEnd]);
    Dispatch(q);
    if Lex(q, 0).Ok? {
      GetIsMatch(q, Lex(q, 0).value.end);
    }
  }

  /**
   * A query asks for one secret exactly when its first four tokens are
   * `GET SECRET KEY` (or `SECRETS`) and a symbol or `;`.
   */
  lemma AcceptsGet(q: string)
    ensures IsGet(ParseQuery(q)) <==>
      Tokens(q, 0, 4).Ok? && Conforms(Tokens(q, 0, 4).value.tokens, [GetWord] + (GetHead + [KeyWord, SecretEnd]))
    ensures IsGet(ParseQuery(q)) ==>
      ParseQuery(q).value == GetSecret(Upper(Tokens(q, 0, 4).value.tokens[2].value))
  {
    var g := [GetWord] + (GetHead + [KeyWord, SecretEnd]);
    MatchIsTokens(q, 0, g);
    MatchCons(q, 0, GetWord, GetHead + [KeyWord, SecretEnd]);
    Dispatch(q);
    if Lex(q, 0).Ok? {
      var first := Lex(q, 0).value;
      GetIsMatch(q, first.end);
      var m := Match(q, 0, g);
      if m.Ok? {
        assert m.value.tokens[2] == Match(q, first.end, GetHead + [KeyWord, SecretEnd]).value.tokens[1];
      }
    }
  }

  /** The secret a parsed statement names is always one of the known keys, upper-cased. */
  lemma ParsedSecretKey(q: string)
    requires ParseQuery(q).Ok? && !ParseQuery(q).value.GetAllSecrets?
    ensures ParseQuery(q).value.secretName in SecretKeys
  {
    var r := ParseQuery(q);
    if IsCreate(r) {
      CreateSecretKey(q);
    } else if IsDelete(r) {
      DeleteSecretKey(q);
    } else if IsUpdate(r) {
      UpdateSecretKey(q);
    } else {
      GetSecretKey(q);
    }
  }

  lemma CreateSecretKey(q: string)
    requires IsCreate(ParseQuery(q))
    ensures ParseQuery(q).value.secretName in SecretKeys
  {
    AcceptsCreate(q);
    var g := [CreateWord] + CreateRun;
    assert g[2] == KeyWord;
    assert Meets(Tokens(q, 0, 6).value.tokens[2], g[2]);
  }

  lemma DeleteSecretKey(q: string)
    requires IsDelete(ParseQuery(q))
    ensures ParseQuery(q).value.secretName in SecretKeys
  {
    AcceptsDelete(q);
    var g := [DeleteWord] + DeleteRun;
    assert g[2] == KeyWord;
    assert Meets(Tokens(q, 0, 4).value.tokens[2], g[2]);
  }

  lemma UpdateSecretKey(q: string)
    requires IsUpdate(ParseQuery(q))
    ensures ParseQuery(q).value.secretName in SecretKeys
  {
    AcceptsUpdate(q);
    var g := [UpdateWord] + UpdateRun;
    assert g[2] == KeyWord;
    assert Meets(Tokens(q, 0, 6).value.tokens[2], g[2]);
  }

  lemma GetSecretKey(q: string)
    requires IsGet(ParseQuery(q))
    ensures ParseQuery(q).value.secretName in SecretKeys
  {
    AcceptsGet(q);
    var g := [GetWord] + (GetHead + [KeyWord, SecretEnd]);
    assert g[2] == KeyWord;
    assert Meets(Tokens(q, 0, 4).value.tokens[2], g[2]);
  }

  lemma CreateFieldsQuoteFree(q: string)
    requires IsCreate(ParseQuery(q))
    ensures QuoteFree(ParseQuery(q).value)
  {
    AcceptsCreate(q);
    FieldQuoteFree(q, 6, [CreateWord] + CreateRun, 2);
    FieldQuoteFree(q, 6, [CreateWord] + CreateRun, 4);
  }

  lemma UpdateFieldsQuoteFree(q: string)
    requires IsUpdate(ParseQuery(q))
    ensures QuoteFree(ParseQuery(q).value)
  {
    AcceptsUpdate(q);
    FieldQuoteFree(q, 6, [UpdateWord] + UpdateRun, 2);
    FieldQuoteFree(q, 6, [UpdateWord] + UpdateRun, 4);
  }

  /** No text a parsed secret statement holds contains a quote. */
  lemma ParsedFieldsQuoteFree(q: string)
    requires ParseQuery(q).Ok?
    ensures QuoteFree(ParseQuery(q).value)
  {
    var r := ParseQuery(q);
    if IsCreate(r) {
      CreateFieldsQuoteFree(q);
    } else if IsDelete(r) {
      AcceptsDelete(q);
      FieldQuoteFree(q, 4, [DeleteWord] + DeleteRun, 2);
    } else if IsUpdate(r) {
      UpdateFieldsQuoteFree(q);
    } else if IsGet(r) {
      AcceptsGet(q);
      FieldQuoteFree(q, 4, [GetWord] + (GetHead + [KeyWord, SecretEnd]), 2);
    }
  }

  /** The text before the first field of each rendering, written as the source's adjacent pieces. */
  const InsertPrefix := " INSERT INTO flockmtl_config.FLOCKMTL_SECRET_INTERNAL_TABLE " + " (secret_name, secret) " + " VALUES ('"
  const DeletePrefix := " DELETE FROM flockmtl_config.FLOCKMTL_SECRET_INTERNAL_TABLE " + "  WHERE secret_name = '"
  const UpdatePrefix := " UPDATE flockmtl_config.FLOCKMTL_SECRET_INTERNAL_TABLE " + "    SET secret = '"
  const LookupPrefix := " SELECT * " + "   FROM flockmtl_config.FLOCKMTL_SECRET_INTERNAL_TABLE " + "  WHERE secret_name = '"
  const GetAllSql := " SELECT * " + "   FROM flockmtl_config.FLOCKMTL_SECRET_INTERNAL_TABLE; "

  /** Separators, each opening with the quote that ends the field before it. */
  const Sep := "', '"
  const CloseValues := "'); "
  const CloseName := "'; "
  const ThenName := "' " + " WHERE secret_name = '"

  function InsertSql(n: string, v: string): string
  {
    InsertPrefix + (n + (Sep + (v + CloseValues)))
  }

  function DeleteSql(n: string): string
  {
    DeletePrefix + (n + CloseName)
  }

  function UpdateSql(n: string, v: string): string
  {
    UpdatePrefix + (v + (ThenName + (n + CloseName)))
  }

  /** The query that looks a secret up; `GET SECRET` runs it, and so do the existence checks. */
  function LookupSql(n: string): string
  {
    LookupPrefix + (n + CloseName)
  }

  /**
   * The SQL over the secret table that carries out a secret statement.
   * `rowCount` is the number of rows the database returns for a query:
   * creating a secret that is stored already, or updating one that is not,
   * is refused. Model statements are refused.
   */
  function SecretToSQL(s: Statement, rowCount: string -> nat): (r: Result<string, string>)
    ensures s.Type() in {CreateModelType, DeleteModelType, UpdateModelType, GetModelType, GetAllModelType}
            ==> r == Err("Unknown statement type.")
    ensures s.CreateSecret? ==> (r.Err? <==> rowCount(LookupSql(s.secretName)) > 0)
    ensures s.CreateSecret? && r.Err? ==> r.error == s.secretName + " already exists."
    ensures s.UpdateSecret? ==> (r.Err? <==> rowCount(LookupSql(s.secretName)) == 0)
    ensures s.UpdateSecret? && r.Err? ==> r.error == "Secret key '" + s.secretName + "' does not exist."
    ensures s.DeleteSecret? || s.GetSecret? || s.GetAllSecrets? ==> r.Ok?
  {
    match s
    case CreateSecret(n, v) =>
      if rowCount(LookupSql(n)) > 0 then Err(n + " already exists.") else Ok(InsertSql(n, v))
    case DeleteSecret(n) => Ok(DeleteSql(n))
    case UpdateSecret(n, v) =>
      if rowCount(LookupSql(n)) == 0 then Err("Secret key '" + n + "' does not exist.") else Ok(UpdateSql(n, v))
    case GetSecret(n) => Ok(LookupSql(n))
    case GetAllSecrets => Ok(GetAllSql)
    case _ => Err("Unknown statement type.")
  }

  lemma InsertSqlInjective(n1: string, v1: string, n2: string, v2: string)
    requires Avoids(n1, '\'') && Avoids(v1, '\'') && Avoids(n2, '\'') && Avoids(v2, '\'')
    requires InsertSql(n1, v1) == InsertSql(n2, v2)
    ensures n1 == n2 && v1 == v2
  {
    StripPrefix(InsertPrefix, n1 + (Sep + (v1 + CloseValues)), n2 + (Sep + (v2 + CloseValues)));
    Peel(n1, Sep, v1 + CloseValues, n2, v2 + CloseValues, '\'');
    UniqueSplit(v1, CloseValues, v2, CloseValues, '\'');
  }

  lemma UpdateSqlInjective(n1: string, v1: string, n2: string, v2: string)
    requires Avoids(n1, '\'') && Avoids(v1, '\'') && Avoids(n2, '\'') && Avoids(v2, '\'')
    requires UpdateSql(n1, v1) == UpdateSql(n2, v2)
    ensures n1 == n2 && v1 == v2
  {
    StripPrefix(UpdatePrefix, v1 + (ThenName + (n1 + CloseName)), v2 + (ThenName + (n2 + CloseName)));
    Peel(v1, ThenName, n1 + CloseName, v2, n2 + CloseName, '\'');
    UniqueSplit(n1, CloseName, n2, CloseName, '\'');
  }

  /** A one-field rendering `prefix + n + "'; "` determines its quote-free field. */
  lemma OneFieldInjective(prefix: string, n1: string, n2: string)
    requires Avoids(n1, '\'') && Avoids(n2, '\'')
    requires prefix + (n1 + CloseName) == prefix + (n2 + CloseName)
    ensures n1 == n2
  {
    StripPrefix(prefix, n1 + CloseName, n2 + CloseName);
    UniqueSplit(n1, CloseName, n2, CloseName, '\'');
  }

  /**
   * Two quote-free secret statements of the same type whose SQL is the same
   * are the same statement.
   */
  lemma SecretToSQLInjective(s1: Statement, s2: Statement, rowCount: string -> nat)
    requires s1.Type() == s2.Type() && QuoteFree(s1) && QuoteFree(s2)
    requires SecretToSQL(s1, rowCount).Ok? && SecretToSQL(s1, rowCount) == SecretToSQL(s2, rowCount)
    ensures s1 == s2
  {
    match s1
    case CreateSecret(n, v) => InsertSqlInjective(n, v, s2.secretName, s2.secret);
    case DeleteSecret(n) => OneFieldInjective(DeletePrefix, n, s2.secretName);
    case UpdateSecret(n, v) => UpdateSqlInjective(n, v, s2.secretName, s2.secret);
    case GetSecret(n) => OneFieldInjective(LookupPrefix, n, s2.secretName);
    case GetAllSecrets =>
  }

  /**
   * Two queries that parse to secret statements of one type and render to
   * the same SQL parse to the same statement.
   */
  lemma ParsedRendering(q1: string, q2: string, rowCount: string -> nat)
    requires ParseQuery(q1).Ok? && ParseQuery(q2).Ok?
    requires ParseQuery(q1).value.Type() == ParseQuery(q2).value.Type()
    requires SecretToSQL(ParseQuery(q1).value, rowCount).Ok?
    requires SecretToSQL(ParseQuery(q1).value, rowCount) == SecretToSQL(ParseQuery(q2).value, rowCount)
    ensures ParseQuery(q1) == ParseQuery(q2)
  {
    ParsedFieldsQuoteFree(q1);
    ParsedFieldsQuoteFree(q2);
    SecretToSQLInjective(ParseQuery(q1).value, ParseQuery(q2).value, rowCount);
  }
}
