/**
 * The statements the DDL parsers produce, and the string facts their SQL
 * renderings rest on.
 */
module Statements {
  import opened Text

  /** The statement types of the model and secret DDL. */
  datatype StatementType =
    | CreateModelType | DeleteModelType | UpdateModelType | GetModelType | GetAllModelType
    | CreateSecretType | DeleteSecretType | UpdateSecretType | GetSecretType | GetAllSecretType

  datatype Statement =
    | CreateModel(modelName: string, model: string, providerName: string, maxTokens: int)
    | DeleteModel(modelName: string, providerName: string)
    | UpdateModel(modelName: string, newModel: string, providerName: string, newMaxTokens: int)
    | GetModel(modelName: string)
    | GetAllModels
    | CreateSecret(secretName: string, secret: string)
    | DeleteSecret(secretName: string)
    | UpdateSecret(secretName: string, secret: string)
    | GetSecret(secretName: string)
    | GetAllSecrets
  {
    function Type(): StatementType
    {
      match this
      case CreateModel(_, _, _, _) => CreateModelType
      case DeleteModel(_, _) => DeleteModelType
      case UpdateModel(_, _, _, _) => UpdateModelType
      case GetModel(_) => GetModelType
      case GetAllModels => GetAllModelType
      case CreateSecret(_, _) => CreateSecretType
      case DeleteSecret(_) => DeleteSecretType
      case UpdateSecret(_, _) => UpdateSecretType
      case GetSecret(_) => GetSecretType
      case GetAllSecrets => GetAllSecretType
    }
  }

  /** No text field of the statement holds a single quote. */
  predicate QuoteFree(s: Statement)
  {
    match s
    case CreateModel(n, m, p, _) => Avoids(n, '\'') && Avoids(m, '\'') && Avoids(p, '\'')
    case DeleteModel(n, p) => Avoids(n, '\'') && Avoids(p, '\'')
    case UpdateModel(n, m, p, _) => Avoids(n, '\'') && Avoids(m, '\'') && Avoids(p, '\'')
    case GetModel(n) => Avoids(n, '\'')
    case GetAllModels => true
    case CreateSecret(n, v) => Avoids(n, '\'') && Avoids(v, '\'')
    case DeleteSecret(n) => Avoids(n, '\'')
    case UpdateSecret(n, v) => Avoids(n, '\'') && Avoids(v, '\'')
    case GetSecret(n) => Avoids(n, '\'')
    case GetAllSecrets => true
  }

  /** Decimal rendering of an `int`, as `operator<<` prints it. */
  function IntToString(n: int): (s: string)
    ensures |s| > 0
    ensures forall i :: 0 <= i < |s| ==> s[i] == '-' || IsDigit(s[i])
  {
    if n < 0 then "-" + NatToString(-n) else NatToString(n)
  }

  /** Different numbers print differently. */
  lemma IntToStringInjective(a: int, b: int)
    requires IntToString(a) == IntToString(b)
    ensures a == b
  {
    assert IntToString(a)[0] == IntToString(b)[0];
    if a < 0 && b < 0 {
      assert NatToString(-a) == IntToString(a)[1..];
      DigitsValueOfNatToString(-a);
      DigitsValueOfNatToString(-b);
    } else if a >= 0 && b >= 0 {
      DigitsValueOfNatToString(a);
      DigitsValueOfNatToString(b);
    }
  }

  /**
   * When two texts each continue a `c`-free prefix with `c`, and are equal,
   * the prefixes are equal: the first `c` marks the same place in both.
   */
  lemma UniqueSplit(a: string, x: string, b: string, y: string, c: char)
    requires Avoids(a, c) && Avoids(b, c)
    requires |x| > 0 && x[0] == c && |y| > 0 && y[0] == c
    requires a + x == b + y
    ensures a == b && x == y
  {
    var k := if |a| < |b| then |a| else |b|;
    assert (a + x)[k] == (b + y)[k];
    assert |a| == |b|;
    assert a == (a + x)[..|a|] && b == (b + y)[..|b|];
    assert x == (a + x)[|a|..] && y == (b + y)[|b|..];
  }

  lemma StripPrefix(p: string, x: string, y: string)
    requires p + x == p + y
    ensures x == y
  {
    assert x == (p + x)[|p|..] && y == (p + y)[|p|..];
  }

  /**
   * Peeling one `c`-free field off two equal texts that continue it with the
   * same separator, which opens with `c`: the fields and the rests are equal.
   */
  lemma Peel(f1: string, sep: string, r1: string, f2: string, r2: string, c: char)
    requires Avoids(f1, c) && Avoids(f2, c) && |sep| > 0 && sep[0] == c
    requires f1 + (sep + r1) == f2 + (sep + r2)
    ensures f1 == f2 && r1 == r2
  {
    UniqueSplit(f1, sep + r1, f2, sep + r2, c);
    StripPrefix(sep, r1, r2);
  }
}
