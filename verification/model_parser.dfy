/**
 * The parser of the model DDL (`CREATE MODEL(...)`, `DELETE MODEL(...)`,
 * `UPDATE MODEL(...)`, `GET MODEL ...`) and its translation to SQL over the
 * model tables. A statement must be followed by the end of the input: a
 * trailing semicolon is refused, whatever the message says.
 */
module ModelParser {
  import opened Wrappers
  import opened Text
  import opened Lexer
  import opened Grammar
  import opened Statements

  const Trailing := "Unexpected characters after the closing parenthesis. Only a semicolon is allowed."

  /** `CREATE` is followed by `MODEL ( 'name' , 'model' , 'provider' , N`... */
  const CreateHead: seq<Expect> := [
    Word({"MODEL"}, "Expected 'MODEL' after 'CREATE'.", false),
    Exactly(Parenthesis, "(", "Expected opening parenthesis '(' after 'MODEL'."),
    NonEmpty(StringLiteral, "Expected non-empty string literal for model name."),
    Exactly(Symbol, ",", "Expected comma ',' after model name."),
    NonEmpty(StringLiteral, "Expected non-empty string literal for model."),
    Exactly(Symbol, ",", "Expected comma ',' after model."),
    NonEmpty(StringLiteral, "Expected non-empty string literal for provider_name."),
    Exactly(Symbol, ",", "Expected comma ',' after provider_name."),
    NonEmpty(Number, "Expected integer value for max_tokens.")]

  /** ... and, once the number is read, by `)` and the end of the input. */
  const CreateTail: seq<Expect> := [
    Exactly(Parenthesis, ")", "Expected closing parenthesis ')' after max_tokens."),
    End(Trailing)]

  /** `DELETE` is followed by `MODEL ( 'name' , 'provider' )` and the end of the input. */
  const DeleteRun: seq<Expect> := [
    Word({"MODEL"}, "Expected 'MODEL' after 'DELETE'.", false),
    Exactly(Parenthesis, "(", "Expected opening parenthesis '(' after 'MODEL'."),
    NonEmpty(StringLiteral, "Expected non-empty string literal for model name."),
    Exactly(Symbol, ",", "Expected comma ',' after model name"),
    NonEmpty(StringLiteral, "Expected non-empty string literal for provider_name."),
    Exactly(Parenthesis, ")", "Expected closing parenthesis ')' after provider_name."),
    End(Trailing)]

  /** `UPDATE` is followed by `MODEL ( 'name' , 'new model' , 'provider' , N`... */
  const UpdateHead: seq<Expect> := [
    Word({"MODEL"}, "Expected 'MODEL' after 'UPDATE'.", false),
    Exactly(Parenthesis, "(", "Expected opening parenthesis '(' after 'MODEL'."),
    NonEmpty(StringLiteral, "Expected non-empty string literal for model name."),
    Exactly(Symbol, ",", "Expected comma ',' after model name."),
    NonEmpty(StringLiteral, "Expected non-empty string literal for model."),
    Exactly(Symbol, ",", "Expected comma ',' after model."),
    NonEmpty(StringLiteral, "Expected non-empty string literal for provider_name."),
    Exactly(Symbol, ",", "Expected comma ',' after provider_name."),
    NonEmpty(Number, "Expected integer value for new max_tokens.")]

  const UpdateTail: seq<Expect> := [
    Exactly(Parenthesis, ")", "Expected closing parenthesis ')' after new max_tokens."),
    End(Trailing)]

  /** `GET` is followed by `MODEL` or `MODELS`, which the parser does not tell apart. */
  const GetHead: seq<Expect> := [Word({"MODEL", "MODELS"}, "Expected 'MODEL' after 'GET'.", false)]

  const GetName: Expect := NonEmpty(StringLiteral, "Expected non-empty string literal for model name.")

  const GetEnd: seq<Expect> := [End("Unexpected characters after the model name. Only a semicolon is allowed.")]

  function CreateModelAt(q: string, p: nat): (r: Result<Statement, string>)
    requires p <= |q|
    ensures r.Ok? ==> r.value.CreateModel?
  {
    var head :- Match(q, p, CreateHead);
    var maxTokens :- StoI(head.tokens[8].value);
    var tail :- Match(q, head.end, CreateTail);
    Ok(CreateModel(head.tokens[2].value, head.tokens[4].value, head.tokens[6].value, maxTokens))
  }

  function DeleteModelAt(q: string, p: nat): (r: Result<Statement, string>)
    requires p <= |q|
    ensures r.Ok? ==> r.value.DeleteModel?
  {
    var run :- Match(q, p, DeleteRun);
    Ok(DeleteModel(run.tokens[2].value, run.tokens[4].value))
  }

  function UpdateModelAt(q: string, p: nat): (r: Result<Statement, string>)
    requires p <= |q|
    ensures r.Ok? ==> r.value.UpdateModel?
  {
    var head :- Match(q, p, UpdateHead);
    var newMaxTokens :- StoI(head.tokens[8].value);
    var tail :- Match(q, head.end, UpdateTail);
    Ok(UpdateModel(head.tokens[2].value, head.tokens[4].value, head.tokens[6].value, newMaxTokens))
  }

  /**
   * After `GET MODEL`, a symbol (or any token reading `;`) asks for every
   * model; otherwise a model name must follow, then the end of the input.
   */
  function GetModelAt(q: string, p: nat): (r: Result<Statement, string>)
    requires p <= |q|
    ensures r.Ok? ==> r.value.GetModel? || r.value.GetAllModels?
  {
    var head :- Match(q, p, GetHead);
    var next :- Lex(q, head.end);
    if Meets(next.token, Terminator("")) then Ok(GetAllModels)
    else if !Meets(next.token, GetName) then Err(GetName.msg)
    else
      var tail :- Match(q, next.end, GetEnd);
      Ok(GetModel(next.token.value))
  }

  /**
   * A model statement: the first token must be a keyword, and it chooses
   * the statement case-insensitively.
   */
  function ParseQuery(q: string): (r: Result<Statement, string>)
  {
    var first :- Lex(q, 0);
    var value := Upper(first.token.value);
    if first.token.kind == Keyword then
      if value == "CREATE" then CreateModelAt(q, first.end)
      else if value == "DELETE" then DeleteModelAt(q, first.end)
      else if value == "UPDATE" then UpdateModelAt(q, first.end)
      else if value == "GET" then GetModelAt(q, first.end)
      else Err("Unknown keyword: " + first.token.value)
    else Err("Expected a keyword at the beginning of the query.")
  }

  method ParseCreateModel(t: Tokenizer) returns (r: Result<Statement, string>)
    requires t.Valid()
    modifies t
    ensures r == CreateModelAt(t.query, old(t.position))
  {
    var head :- ExpectAll(t, CreateHead);
    var maxTokens :- StoI(head[8].value);
    var tail :- ExpectAll(t, CreateTail);
    return Ok(CreateModel(head[2].value, head[4].value, head[6].value, maxTokens));
  }

  method ParseDeleteModel(t: Tokenizer) returns (r: Result<Statement, string>)
    requires t.Valid()
    modifies t
    ensures r == DeleteModelAt(t.query, old(t.position))
  {
    var run :- ExpectAll(t, DeleteRun);
    return Ok(DeleteModel(run[2].value, run[4].value));
  }

  method ParseUpdateModel(t: Tokenizer) returns (r: Result<Statement, string>)
    requires t.Valid()
    modifies t
    ensures r == UpdateModelAt(t.query, old(t.position))
  {
    var head :- ExpectAll(t, UpdateHead);
    var newMaxTokens :- StoI(head[8].value);
    var tail :- ExpectAll(t, UpdateTail);
    return Ok(UpdateModel(head[2].value, head[4].value, head[6].value, newMaxTokens));
  }

  method ParseGetModel(t: Tokenizer) returns (r: Result<Statement, string>)
    requires t.Valid()
    modifies t
    ensures r == GetModelAt(t.query, old(t.position))
  {
    var head :- ExpectAll(t, GetHead);
    var next :- t.GetNextToken();
    if Meets(next, Terminator("")) {
      return Ok(GetAllModels);
    }
    if !Meets(next, GetName) {
      return Err(GetName.msg);
    }
    var tail :- ExpectAll(t, GetEnd);
    return Ok(GetModel(next.value));
  }

  /** Parses one model statement. */
  method Parse(query: string) returns (r: Result<Statement, string>)
    ensures r == ParseQuery(query)
  {
    var t := new Tokenizer(query);
    var first :- t.GetNextToken();
    var value := Upper(first.value);
    if first.kind == Keyword {
      if value == "CREATE" {
        r := ParseCreateModel(t);
      } else if value == "DELETE" {
        r := ParseDeleteModel(t);
      } else if value == "UPDATE" {
        r := ParseUpdateModel(t);
      } else if value == "GET" {
        r := ParseGetModel(t);
      } else {
        r := Err("Unknown keyword: " + first.value);
      }
    } else {
      r := Err("Expected a keyword at the beginning of the query.");
    }
  }

  /** The leading keyword of each statement, as an expectation on the first token. */
  const CreateWord := Word({"CREATE"}, "Expected a keyword at the beginning of the query.", false)
  const DeleteWord := Word({"DELETE"}, "Expected a keyword at the beginning of the query.", false)
  const UpdateWord := Word({"UPDATE"}, "Expected a keyword at the beginning of the query.", false)
  const GetWord := Word({"GET"}, "Expected a keyword at the beginning of the query.", false)

  /** The statement read after a leading `CREATE` keyword, when `ParseQuery` succeeds with one. */
  predicate IsCreate(r: Result<Statement, string>) { r.Ok? && r.value.CreateModel? }
  predicate IsDelete(r: Result<Statement, string>) { r.Ok? && r.value.DeleteModel? }
  predicate IsUpdate(r: Result<Statement, string>) { r.Ok? && r.value.UpdateModel? }
  predicate IsGet(r: Result<Statement, string>) { r.Ok? && r.value.GetModel? }
  predicate IsGetAll(r: Result<Statement, string>) { r.Ok? && r.value.GetAllModels? }

  /** `CREATE MODEL ...` after the keyword is the head, the number read, then the tail. */
  lemma CreateIsMatch(q: string, p: nat)
    requires p <= |q|
    ensures var m := Match(q, p, CreateHead + CreateTail);
      && (CreateModelAt(q, p).Ok? <==> m.Ok? && StoI(m.value.tokens[8].value).Ok?)
      && (CreateModelAt(q, p).Ok? ==>
            CreateModelAt(q, p).value
            == CreateModel(m.value.tokens[2].value, m.value.tokens[4].value, m.value.tokens[6].value,
                           StoI(m.value.tokens[8].value).value))
  {
    MatchAppend(q, p, CreateHead, CreateTail);
    var head := Match(q, p, CreateHead);
    if head.Ok? {
      var tail := Match(q, head.value.end, CreateTail);
      if tail.Ok? {
        var ts := head.value.tokens + tail.value.tokens;
        assert ts[2] == head.value.tokens[2] && ts[4] == head.value.tokens[4];
        assert ts[6] == head.value.tokens[6] && ts[8] == head.value.tokens[8];
      }
    }
  }

  /** `DELETE MODEL ...` after the keyword is one run of expectations. */
  lemma DeleteIsMatch(q: string, p: nat)
    requires p <= |q|
    ensures var m := Match(q, p, DeleteRun);
      && (DeleteModelAt(q, p).Ok? <==> m.Ok?)
      && (m.Ok? ==> DeleteModelAt(q, p).value == DeleteModel(m.value.tokens[2].value, m.value.tokens[4].value))
  {
  }

  /** `UPDATE MODEL ...` after the keyword is the head, the number read, then the tail. */
  lemma UpdateIsMatch(q: string, p: nat)
    requires p <= |q|
    ensures var m := Match(q, p, UpdateHead + UpdateTail);
      && (UpdateModelAt(q, p).Ok? <==> m.Ok? && StoI(m.value.tokens[8].value).Ok?)
      && (UpdateModelAt(q, p).Ok? ==>
            UpdateModelAt(q, p).value
            == UpdateModel(m.value.tokens[2].value, m.value.tokens[4].value, m.value.tokens[6].value,
                           StoI(m.value.tokens[8].value).value))
  {
    MatchAppend(q, p, UpdateHead, UpdateTail);
    var head := Match(q, p, UpdateHead);
    if head.Ok? {
      var tail := Match(q, head.value.end, UpdateTail);
      if tail.Ok? {
        var ts := head.value.tokens + tail.value.tokens;
        assert ts[2] == head.value.tokens[2] && ts[4] == head.value.tokens[4];
        assert ts[6] == head.value.tokens[6] && ts[8] == head.value.tokens[8];
      }
    }
  }

  /** The token that ends a `GET MODEL` asking for every model. */
  const GetAllEnd := Terminator("")

  /**
   * `GET MODEL ...` after the keyword asks for every model when the next
   * token meets `GetAllEnd`, and for one model when it is a name that does
   * not, followed by the end of the input.
   */
  lemma GetIsMatch(q: string, p: nat)
    requires p <= |q|
    ensures IsGetAll(GetModelAt(q, p)) <==> Match(q, p, GetHead + [GetAllEnd]).Ok?
    ensures var m := Match(q, p, GetHead + ([GetName] + GetEnd));
      && (IsGet(GetModelAt(q, p)) <==> m.Ok? && !Meets(m.value.tokens[1], GetAllEnd))
      && (IsGet(GetModelAt(q, p)) ==> GetModelAt(q, p).value == GetModel(m.value.tokens[1].value))
  {
    MatchAppend(q, p, GetHead, [GetAllEnd]);
    MatchAppend(q, p, GetHead, [GetName] + GetEnd);
    var head := Match(q, p, GetHead);
    if head.Ok? {
      MatchCons(q, head.value.end, GetAllEnd, []);
      MatchCons(q, head.value.end, GetName, GetEnd);
      var rest := Match(q, head.value.end, [GetName] + GetEnd);
      if rest.Ok? {
        assert (head.value.tokens + rest.value.tokens)[1] == rest.value.tokens[0];
      }
    }
  }

  /** The statement a query parses to, when it starts with the keyword `e` expects. */
  lemma Dispatch(q: string)
    ensures IsCreate(ParseQuery(q)) <==> Lex(q, 0).Ok? && Meets(Lex(q, 0).value.token, CreateWord) && CreateModelAt(q, Lex(q, 0).value.end).Ok?
    ensures IsCreate(ParseQuery(q)) ==> ParseQuery(q) == CreateModelAt(q, Lex(q, 0).value.end)
    ensures IsDelete(ParseQuery(q)) <==> Lex(q, 0).Ok? && Meets(Lex(q, 0).value.token, DeleteWord) && DeleteModelAt(q, Lex(q, 0).value.end).Ok?
    ensures IsDelete(ParseQuery(q)) ==> ParseQuery(q) == DeleteModelAt(q, Lex(q, 0).value.end)
    ensures IsUpdate(ParseQuery(q)) <==> Lex(q, 0).Ok? && Meets(Lex(q, 0).value.token, UpdateWord) && UpdateModelAt(q, Lex(q, 0).value.end).Ok?
    ensures IsUpdate(ParseQuery(q)) ==> ParseQuery(q) == UpdateModelAt(q, Lex(q, 0).value.end)
    ensures IsGet(ParseQuery(q)) <==> Lex(q, 0).Ok? && Meets(Lex(q, 0).value.token, GetWord) && IsGet(GetModelAt(q, Lex(q, 0).value.end))
    ensures IsGetAll(ParseQuery(q)) <==> Lex(q, 0).Ok? && Meets(Lex(q, 0).value.token, GetWord) && IsGetAll(GetModelAt(q, Lex(q, 0).value.end))
    ensures (IsGet(ParseQuery(q)) || IsGetAll(ParseQuery(q))) ==> ParseQuery(q) == GetModelAt(q, Lex(q, 0).value.end)
  {
  }

  /**
   * A query is a `CREATE MODEL` statement exactly when its first twelve
   * tokens are `CREATE MODEL ( 'a' , 'b' , 'c' , N )` and the end of the
   * input, and `N` fits in an `int`; the statement holds those literals and
   * that number.
   */
  lemma AcceptsCreate(q: string)
    ensures IsCreate(ParseQuery(q)) <==>
      Tokens(q, 0, 12).Ok? && Conforms(Tokens(q, 0, 12).value.tokens, [CreateWord] + (CreateHead + CreateTail))
      && StoI(Tokens(q, 0, 12).value.tokens[9].value).Ok?
    ensures IsCreate(ParseQuery(q)) ==>
      var ts := Tokens(q, 0, 12).value.tokens;
      ParseQuery(q).value == CreateModel(ts[3].value, ts[5].value, ts[7].value, StoI(ts[9].value).value)
  {
    var g := [CreateWord] + (CreateHead + CreateTail);
    MatchIsTokens(q, 0, g);
    MatchCons(q, 0, CreateWord, CreateHead + CreateTail);
    Dispatch(q);
    if Lex(q, 0).Ok? {
      var first := Lex(q, 0).value;
      CreateIsMatch(q, first.end);
      var m := Match(q, 0, g);
      if m.Ok? {
        var inner := Match(q, first.end, CreateHead + CreateTail).value.tokens;
        assert m.value.tokens[3] == inner[2] && m.value.tokens[5] == inner[4];
        assert m.value.tokens[7] == inner[6] && m.value.tokens[9] == inner[8];
      }
    }
  }

  /**
   * A query is a `DELETE MODEL` statement exactly when its first eight tokens
   * are `DELETE MODEL ( 'a' , 'b' )` and the end of the input.
   */
  lemma AcceptsDelete(q: string)
    ensures IsDelete(ParseQuery(q)) <==>
      Tokens(q, 0, 8).Ok? && Conforms(Tokens(q, 0, 8).value.tokens, [DeleteWord] + DeleteRun)
    ensures IsDelete(ParseQuery(q)) ==>
      var ts := Tokens(q, 0, 8).value.tokens;
      ParseQuery(q).value == DeleteModel(ts[3].value, ts[5].value)
  {
    var g := [DeleteWord] + DeleteRun;
    MatchIsTokens(q, 0, g);
    MatchCons(q, 0, DeleteWord, DeleteRun);
    Dispatch(q);
    if Lex(q, 0).Ok? {
      var first := Lex(q, 0).value;
      DeleteIsMatch(q, first.end);
      var m := Match(q, 0, g);
      if m.Ok? {
        var inner := Match(q, first.end, DeleteRun).value.tokens;
        assert m.value.tokens[3] == inner[2] && m.value.tokens[5] == inner[4];
      }
    }
  }

  /**
   * A query is an `UPDATE MODEL` statement exactly when its first twelve
   * tokens are `UPDATE MODEL ( 'a' , 'b' , 'c' , N )` and the end of the
   * input, and `N` fits in an `int`.
   */
  lemma AcceptsUpdate(q: string)
    ensures IsUpdate(ParseQuery(q)) <==>
      Tokens(q, 0, 12).Ok? && Conforms(Tokens(q, 0, 12).value.tokens, [UpdateWord] + (UpdateHead + UpdateTail))
      && StoI(Tokens(q, 0, 12).value.tokens[9].value).Ok?
    ensures IsUpdate(ParseQuery(q)) ==>
      var ts := Tokens(q, 0, 12).value.tokens;
      ParseQuery(q).value == UpdateModel(ts[3].value, ts[5].value, ts[7].value, StoI(ts[9].value).value)
  {
    var g := [UpdateWord] + (UpdateHead + UpdateTail);
    MatchIsTokens(q, 0, g);
    MatchCons(q, 0, UpdateWord, UpdateHead + UpdateTail);
    Dispatch(q);
    if Lex(q, 0).Ok? {
      var first := Lex(q, 0).value;
      UpdateIsMatch(q, first.end);
      var m := Match(q, 0, g);
      if m.Ok? {
        var inner := Match(q, first.end, UpdateHead + UpdateTail).value.tokens;
        assert m.value.tokens[3] == inner[2] && m.value.tokens[5] == inner[4];
        assert m.value.tokens[7] == inner[6] && m.value.tokens[9] == inner[8];
      }
    }
  }

  /**
   * A query asks for every model exactly when its first three tokens are
   * `GET MODEL` (or `MODELS`) and a symbol or a `;`, whatever follows them.
   */
  lemma AcceptsGetAll(q: string)
    ensures IsGetAll(ParseQuery(q)) <==>
      Tokens(q, 0, 3).Ok? && Conforms(Tokens(q, 0, 3).value.tokens, [GetWord] + (GetHead + [GetAllEnd]))
  {
    var g := [GetWord] + (GetHead + [GetAllEnd]);
    MatchIsTokens(q, 0, g);
    MatchCons(q, 0, GetWord, GetHead + [GetAllEnd]);
    Dispatch(q);
    if Lex(q, 0).Ok? {
      GetIsMatch(q, Lex(q, 0).value.end);
    }
  }

  /**
   * A query asks for one model exactly when its first four tokens are
   * `GET MODEL 'name'` and the end of the input, and the name does not read
   * `;` (which would ask for every model).
   */
  lemma AcceptsGet(q: string)
    ensures IsGet(ParseQuery(q)) <==>
      Tokens(q, 0, 4).Ok? && Conforms(Tokens(q, 0, 4).value.tokens, [GetWord] + (GetHead + ([GetName] + GetEnd)))
      && !Meets(Tokens(q, 0, 4).value.tokens[2], GetAllEnd)
    ensures IsGet(ParseQuery(q)) ==> ParseQuery(q).value == GetModel(Tokens(q, 0, 4).value.tokens[2].value)
  {
    var g := [GetWord] + (GetHead + ([GetName] + GetEnd));
    MatchIsTokens(q, 0, g);
    MatchCons(q, 0, GetWord, GetHead + ([GetName] + GetEnd));
    Dispatch(q);
    if Lex(q, 0).Ok? {
      var first := Lex(q, 0).value;
      GetIsMatch(q, first.end);
      var m := Match(q, 0, g);
      if m.Ok? {
        assert m.value.tokens[2] == Match(q, first.end, GetHead + ([GetName] + GetEnd)).value.tokens[1];
      }
    }
  }

  lemma CreateFieldsQuoteFree(q: string)
    requires IsCreate(ParseQuery(q))
    ensures QuoteFree(ParseQuery(q).value)
  {
    AcceptsCreate(q);
    var g := [CreateWord] + (CreateHead + CreateTail);
    assert g[3] == CreateHead[2] && g[5] == CreateHead[4] && g[7] == CreateHead[6];
    FieldQuoteFree(q, 12, g, 3);
    FieldQuoteFree(q, 12, g, 5);
    FieldQuoteFree(q, 12, g, 7);
  }

  lemma DeleteFieldsQuoteFree(q: string)
    requires IsDelete(ParseQuery(q))
    ensures QuoteFree(ParseQuery(q).value)
  {
    AcceptsDelete(q);
    var g := [DeleteWord] + DeleteRun;
    FieldQuoteFree(q, 8, g, 3);
    FieldQuoteFree(q, 8, g, 5);
  }

  lemma UpdateFieldsQuoteFree(q: string)
    requires IsUpdate(ParseQuery(q))
    ensures QuoteFree(ParseQuery(q).value)
  {
    AcceptsUpdate(q);
    var g := [UpdateWord] + (UpdateHead + UpdateTail);
    assert g[3] == UpdateHead[2] && g[5] == UpdateHead[4] && g[7] == UpdateHead[6];
    FieldQuoteFree(q, 12, g, 3);
    FieldQuoteFree(q, 12, g, 5);
    FieldQuoteFree(q, 12, g, 7);
  }

  lemma GetFieldsQuoteFree(q: string)
    requires IsGet(ParseQuery(q))
    ensures QuoteFree(ParseQuery(q).value)
  {
    AcceptsGet(q);
    FieldQuoteFree(q, 4, [GetWord] + (GetHead + ([GetName] + GetEnd)), 2);
  }

  /** Every text a parsed model statement holds came from a string literal, so it holds no quote. */
  lemma ParsedFieldsQuoteFree(q: string)
    requires ParseQuery(q).Ok?
    ensures QuoteFree(ParseQuery(q).value)
  {
    var r := ParseQuery(q);
    if IsCreate(r) {
      CreateFieldsQuoteFree(q);
    } else if IsDelete(r) {
      DeleteFieldsQuoteFree(q);
    } else if IsUpdate(r) {
      UpdateFieldsQuoteFree(q);
    } else if IsGet(r) {
      GetFieldsQuoteFree(q);
    }
  }

  /** The text before the first field of each rendering. */
  const CreatePrefix := "INSERT INTO flockmtl_config.FLOCKMTL_MODEL_USER_DEFINED_INTERNAL_TABLE(model_name, model, provider_name, max_tokens) VALUES ('"
  const DeletePrefix := "DELETE FROM flockmtl_config.FLOCKMTL_MODEL_USER_DEFINED_INTERNAL_TABLE WHERE model_name = '"
  const UpdatePrefix := "UPDATE flockmtl_config.FLOCKMTL_MODEL_USER_DEFINED_INTERNAL_TABLE SET max_tokens = "
  const GetPrefix := "SELECT * FROM flockmtl_config.FLOCKMTL_MODEL_DEFAULT_INTERNAL_TABLE WHERE model_name = '"
  const GetAllSql := "SELECT * FROM flockmtl_config.FLOCKMTL_MODEL_DEFAULT_INTERNAL_TABLE UNION ALL SELECT * FROM flockmtl_config.FLOCKMTL_MODEL_USER_DEFINED_INTERNAL_TABLE;"

  /** Separators, each opening with the quote (or comma) that ends the field before it. */
  const Sep := "', '"
  const AndProvider := "' AND provider_name = '"
  const WhereName := "' WHERE model_name = '"
  const Close := "';"
  const CloseInt := "');"
  const ThenModel := ", model = '"
  const UnionUser := "'" + " UNION ALL SELECT * FROM flockmtl_config.FLOCKMTL_MODEL_USER_DEFINED_INTERNAL_TABLE WHERE model_name = '"

  function CreateSql(n: string, m: string, p: string, k: int): string
  {
    CreatePrefix + (n + (Sep + (m + (Sep + (p + (Sep + (IntToString(k) + CloseInt)))))))
  }

  function DeleteSql(n: string, p: string): string
  {
    DeletePrefix + (n + (AndProvider + (p + Close)))
  }

  function UpdateSql(n: string, m: string, p: string, k: int): string
  {
    UpdatePrefix + (IntToString(k) + (ThenModel + (m + (WhereName + (n + (AndProvider + (p + Close)))))))
  }

  function GetSql(n: string): string
  {
    GetPrefix + (n + (UnionUser + (n + Close)))
  }

  /**
   * The SQL over the model tables that carries out a model statement; the
   * fields are pasted between quotes as they are. Secret statements are
   * refused.
   */
  function ModelToSQL(s: Statement): (r: Result<string, string>)
    ensures r.Err? <==> s.Type() in {CreateSecretType, DeleteSecretType, UpdateSecretType, GetSecretType, GetAllSecretType}
    ensures r.Err? ==> r.error == "Unknown statement type."
  {
    match s
    case CreateModel(n, m, p, k) => Ok(CreateSql(n, m, p, k))
    case DeleteModel(n, p) => Ok(DeleteSql(n, p))
    case UpdateModel(n, m, p, k) => Ok(UpdateSql(n, m, p, k))
    case GetModel(n) => Ok(GetSql(n))
    case GetAllModels => Ok(GetAllSql)
    case _ => Err("Unknown statement type.")
  }

  /** A printed number holds neither a quote nor a comma. */
  lemma IntToStringPlain(k: int)
    ensures Avoids(IntToString(k), '\'') && Avoids(IntToString(k), ',')
  {
  }

  lemma CreateSqlInjective(n1: string, m1: string, p1: string, k1: int, n2: string, m2: string, p2: string, k2: int)
    requires Avoids(n1, '\'') && Avoids(m1, '\'') && Avoids(p1, '\'')
    requires Avoids(n2, '\'') && Avoids(m2, '\'') && Avoids(p2, '\'')
    requires CreateSql(n1, m1, p1, k1) == CreateSql(n2, m2, p2, k2)
    ensures n1 == n2 && m1 == m2 && p1 == p2 && k1 == k2
  {
    var i1, i2 := IntToString(k1), IntToString(k2);
    var d1, d2 := i1 + CloseInt, i2 + CloseInt;
    var c1, c2 := p1 + (Sep + d1), p2 + (Sep + d2);
    var b1, b2 := m1 + (Sep + c1), m2 + (Sep + c2);
    StripPrefix(CreatePrefix, n1 + (Sep + b1), n2 + (Sep + b2));
    Peel(n1, Sep, b1, n2, b2, '\'');
    Peel(m1, Sep, c1, m2, c2, '\'');
    Peel(p1, Sep, d1, p2, d2, '\'');
    IntToStringPlain(k1);
    IntToStringPlain(k2);
    UniqueSplit(i1, CloseInt, i2, CloseInt, '\'');
    IntToStringInjective(k1, k2);
  }

  lemma DeleteSqlInjective(n1: string, p1: string, n2: string, p2: string)
    requires Avoids(n1, '\'') && Avoids(p1, '\'') && Avoids(n2, '\'') && Avoids(p2, '\'')
    requires DeleteSql(n1, p1) == DeleteSql(n2, p2)
    ensures n1 == n2 && p1 == p2
  {
    StripPrefix(DeletePrefix, n1 + (AndProvider + (p1 + Close)), n2 + (AndProvider + (p2 + Close)));
    Peel(n1, AndProvider, p1 + Close, n2, p2 + Close, '\'');
    UniqueSplit(p1, Close, p2, Close, '\'');
  }

  lemma UpdateSqlInjective(n1: string, m1: string, p1: string, k1: int, n2: string, m2: string, p2: string, k2: int)
    requires Avoids(n1, '\'') && Avoids(m1, '\'') && Avoids(p1, '\'')
    requires Avoids(n2, '\'') && Avoids(m2, '\'') && Avoids(p2, '\'')
    requires UpdateSql(n1, m1, p1, k1) == UpdateSql(n2, m2, p2, k2)
    ensures n1 == n2 && m1 == m2 && p1 == p2 && k1 == k2
  {
    var i1, i2 := IntToString(k1), IntToString(k2);
    var d1, d2 := p1 + Close, p2 + Close;
    var c1, c2 := n1 + (AndProvider + d1), n2 + (AndProvider + d2);
    var b1, b2 := m1 + (WhereName + c1), m2 + (WhereName + c2);
    StripPrefix(UpdatePrefix, i1 + (ThenModel + b1), i2 + (ThenModel + b2));
    IntToStringPlain(k1);
    IntToStringPlain(k2);
    Peel(i1, ThenModel, b1, i2, b2, ',');
    IntToStringInjective(k1, k2);
    Peel(m1, WhereName, c1, m2, c2, '\'');
    Peel(n1, AndProvider, d1, n2, d2, '\'');
    UniqueSplit(p1, Close, p2, Close, '\'');
  }

  lemma GetSqlInjective(n1: string, n2: string)
    requires Avoids(n1, '\'') && Avoids(n2, '\'')
    requires GetSql(n1) == GetSql(n2)
    ensures n1 == n2
  {
    StripPrefix(GetPrefix, n1 + (UnionUser + (n1 + Close)), n2 + (UnionUser + (n2 + Close)));
    Peel(n1, UnionUser, n1 + Close, n2, n2 + Close, '\'');
  }

  /**
   * Two quote-free model statements of the same type that render to the
   * same SQL are the same statement: no field leaks into its neighbour.
   */
  lemma ModelToSQLInjective(s1: Statement, s2: Statement)
    requires s1.Type() == s2.Type() && QuoteFree(s1) && QuoteFree(s2)
    requires ModelToSQL(s1).Ok? && ModelToSQL(s1) == ModelToSQL(s2)
    ensures s1 == s2
  {
    match s1
    case CreateModel(n, m, p, k) =>
      CreateSqlInjective(n, m, p, k, s2.modelName, s2.model, s2.providerName, s2.maxTokens);
    case DeleteModel(n, p) =>
      DeleteSqlInjective(n, p, s2.modelName, s2.providerName);
    case UpdateModel(n, m, p, k) =>
      UpdateSqlInjective(n, m, p, k, s2.modelName, s2.newModel, s2.providerName, s2.newMaxTokens);
    case GetModel(n) =>
      GetSqlInjective(n, s2.modelName);
    case GetAllModels =>
  }

  /**
   * Every parsed model statement renders to SQL, and two queries that parse
   * to statements of one type with the same SQL parse to the same statement.
   */
  lemma ParsedRendering(q1: string, q2: string)
    requires ParseQuery(q1).Ok? && ParseQuery(q2).Ok?
    ensures ModelToSQL(ParseQuery(q1).value).Ok?
    ensures ParseQuery(q1).value.Type() == ParseQuery(q2).value.Type()
            && ModelToSQL(ParseQuery(q1).value) == ModelToSQL(ParseQuery(q2).value)
            ==> ParseQuery(q1) == ParseQuery(q2)
  {
    var s1, s2 := ParseQuery(q1).value, ParseQuery(q2).value;
    Dispatch(q1);
    ParsedFieldsQuoteFree(q1);
    ParsedFieldsQuoteFree(q2);
    if s1.Type() == s2.Type() && ModelToSQL(s1) == ModelToSQL(s2) {
      ModelToSQLInjective(s1, s2);
    }
  }
}
