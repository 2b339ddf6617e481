/**
 * The prompt templates: the response-format section each scalar function
 * asks for, and the placeholder rewriting that fills it (and the min/max
 * relevance word) into the template text.
 */
module PromptTemplates {
  import opened Wrappers
  import opened Text

  // ---------------------------------------------------------------------
  // Searching and rewriting text
  // ---------------------------------------------------------------------

  /** `pat` occurs in `s` at `j`. */
  predicate OccursAt(s: string, pat: string, j: int)
  {
    0 <= j && j + |pat| <= |s| && s[j..j + |pat|] == pat
  }

  /** `pat` occurs nowhere in `s`. */
  predicate Free(s: string, pat: string)
  {
    forall j :: 0 <= j <= |s| ==> !OccursAt(s, pat, j)
  }

  /** Where `pat` first occurs in `s`, if anywhere. */
  function FindIn(s: string, pat: string): (r: Option<nat>)
    ensures r.Some? ==> r.value + |pat| <= |s|
    decreases |s|
  {
    if |s| < |pat| then None
    else if s[..|pat|] == pat then Some(0)
    else match FindIn(s[1..], pat)
      case None => None
      case Some(i) => Some(i + 1)
  }

  /** The position found is the first occurrence; when none is found there is none. */
  lemma {:induction false} FindInFirst(s: string, pat: string)
    ensures FindIn(s, pat).Some? ==>
      OccursAt(s, pat, FindIn(s, pat).value) && forall j :: 0 <= j < FindIn(s, pat).value ==> !OccursAt(s, pat, j)
    ensures FindIn(s, pat).None? ==> Free(s, pat)
    decreases |s|
  {
    if |s| >= |pat| && s[..|pat|] != pat {
      FindInFirst(s[1..], pat);
      forall j | 1 <= j <= |s|
        ensures OccursAt(s, pat, j) <==> OccursAt(s[1..], pat, j - 1)
      {
        if j + |pat| <= |s| {
          assert s[1..][j - 1..j - 1 + |pat|] == s[j..j + |pat|];
        }
      }
    }
  }

  /** The position found is an occurrence. */
  lemma {:induction false} FoundOccurs(s: string, pat: string)
    ensures FindIn(s, pat).Some? ==> OccursAt(s, pat, FindIn(s, pat).value)
    decreases |s|
  {
    if |s| >= |pat| && s[..|pat|] != pat {
      FoundOccurs(s[1..], pat);
      if FindIn(s[1..], pat).Some? {
        var j := FindIn(s[1..], pat).value;
        assert s[1..][j..j + |pat|] == s[j + 1..j + 1 + |pat|];
      }
    }
  }

  /** `std::string::find` from position `from`. */
  function Find(s: string, pat: string, from: nat): Option<nat>
    requires from <= |s|
  {
    match FindIn(s[from..], pat)
    case None => None
    case Some(i) => Some(from + i)
  }

  /**
   * The placeholder rewriting: at each leftmost occurrence of `pat`, the
   * first `k` characters are replaced by `rep` and the search resumes after
   * `rep`.
   */
  function ReplaceAll(s: string, pat: string, k: nat, rep: string): string
    requires 0 < k <= |pat|
    decreases |s|
  {
    match FindIn(s, pat)
    case None => s
    case Some(i) => s[..i] + rep + ReplaceAll(s[i + k..], pat, k, rep)
  }

  /** The text between the rewritten occurrences. */
  function Segments(s: string, pat: string, k: nat): (segs: seq<string>)
    requires 0 < k <= |pat|
    ensures |segs| > 0
    decreases |s|
  {
    match FindIn(s, pat)
    case None => [s]
    case Some(i) => [s[..i]] + Segments(s[i + k..], pat, k)
  }

  /** The text before the first occurrence holds none. */
  lemma FirstPieceFree(s: string, pat: string, i: nat)
    requires |pat| > 0 && FindIn(s, pat) == Some(i)
    ensures Free(s[..i], pat)
  {
    FindInFirst(s, pat);
    forall j | 0 <= j <= i && OccursAt(s[..i], pat, j)
      ensures false
    {
      assert s[..i][j..j + |pat|] == s[j..j + |pat|];
      assert OccursAt(s, pat, j);
    }
  }

  /** At the first occurrence the text is the part before, the erased characters, and the rest. */
  lemma SplitAtFirst(s: string, pat: string, k: nat, i: nat)
    requires 0 < k <= |pat| && FindIn(s, pat) == Some(i)
    ensures i + k <= |s| && s == s[..i] + pat[..k] + s[i + k..]
  {
    FoundOccurs(s, pat);
    assert s[i..i + k] == s[i..i + |pat|][..k];
    assert s == s[..i] + s[i..i + k] + s[i + k..];
  }

  /** One step of the rewriting. */
  lemma ReplaceAllStep(s: string, pat: string, k: nat, rep: string, i: nat)
    requires 0 < k <= |pat| && FindIn(s, pat) == Some(i)
    ensures i + k <= |s|
    ensures ReplaceAll(s, pat, k, rep) == s[..i] + rep + ReplaceAll(s[i + k..], pat, k, rep)
  {
  }

  lemma SegmentsStep(s: string, pat: string, k: nat, i: nat)
    requires 0 < k <= |pat| && FindIn(s, pat) == Some(i)
    ensures i + k <= |s|
    ensures Segments(s, pat, k) == [s[..i]] + Segments(s[i + k..], pat, k)
  {
  }

  /** Text without an occurrence is left as it is. */
  lemma ReplaceAllNone(s: string, pat: string, k: nat, rep: string)
    requires 0 < k <= |pat| && FindIn(s, pat).None?
    ensures ReplaceAll(s, pat, k, rep) == s
  {
  }

  /** Joining a first part onto at least one more. */
  lemma JoinCons(x: string, rest: seq<string>, sep: string)
    requires |rest| > 0
    ensures Join([x] + rest, sep) == x + sep + Join(rest, sep)
  {
    assert ([x] + rest)[1..] == rest;
  }

  /**
   * The rewriting cuts the text into pieces: the input is the pieces joined
   * by the erased characters, the output the same pieces joined by `rep`.
   * Nothing else changes and the inserted text is never searched again.
   */
  lemma {:induction false} ReplaceAllSplits(s: string, pat: string, k: nat, rep: string)
    requires 0 < k <= |pat|
    ensures s == Join(Segments(s, pat, k), pat[..k])
    ensures ReplaceAll(s, pat, k, rep) == Join(Segments(s, pat, k), rep)
    decreases |s|
  {
    match FindIn(s, pat)
    case None =>
    case Some(i) =>
      var rest := s[i + k..];
      ReplaceAllSplits(rest, pat, k, rep);
      ReplaceAllStep(s, pat, k, rep, i);
      SegmentsStep(s, pat, k, i);
      SplitAtFirst(s, pat, k, i);
      JoinCons(s[..i], Segments(rest, pat, k), pat[..k]);
      JoinCons(s[..i], Segments(rest, pat, k), rep);
  }

  /** No piece holds an occurrence of `pat`: every occurrence was rewritten. */
  lemma {:induction false} SegmentsFree(s: string, pat: string, k: nat)
    requires 0 < k <= |pat|
    ensures forall j :: 0 <= j < |Segments(s, pat, k)| ==> Free(Segments(s, pat, k)[j], pat)
    decreases |s|
  {
    FindInFirst(s, pat);
    match FindIn(s, pat)
    case None =>
    case Some(i) =>
      var rest := s[i + k..];
      SegmentsFree(rest, pat, k);
      SegmentsStep(s, pat, k, i);
      FirstPieceFree(s, pat, i);
      var segs := Segments(rest, pat, k);
      forall j | 0 < j < |[s[..i]] + segs|
        ensures Free(([s[..i]] + segs)[j], pat)
      {
        assert ([s[..i]] + segs)[j] == segs[j - 1];
      }
  }

  /** The first character of `pat` appears nowhere else in it, so two occurrences cannot overlap. */
  predicate UniqueOpening(pat: string)
  {
    |pat| > 0 && forall j :: 0 < j < |pat| ==> pat[j] != pat[0]
  }

  /**
   * When fewer characters are erased than the pattern has, the rest of the
   * pattern stays in front of every piece after the first.
   */
  lemma {:induction false} SegmentsKeepRest(s: string, pat: string, k: nat)
    requires 0 < k <= |pat| && UniqueOpening(pat)
    ensures forall j :: 0 < j < |Segments(s, pat, k)| ==>
      |pat| - k <= |Segments(s, pat, k)[j]| && Segments(s, pat, k)[j][..|pat| - k] == pat[k..]
    decreases |s|
  {
    match FindIn(s, pat)
    case None =>
    case Some(i) =>
      SegmentsStep(s, pat, k, i);
      var rest := s[i + k..];
      SegmentsKeepRest(rest, pat, k);
      RestAfterFirst(s, pat, k, i);
      var segs := Segments(rest, pat, k);
      forall j | 0 < j < |[s[..i]] + segs|
        ensures |pat| - k <= |([s[..i]] + segs)[j]| && ([s[..i]] + segs)[j][..|pat| - k] == pat[k..]
      {
        assert ([s[..i]] + segs)[j] == segs[j - 1];
      }
  }

  /** After the first occurrence loses its first `k` characters, the first piece of the rest opens with the pattern's remainder. */
  lemma RestAfterFirst(s: string, pat: string, k: nat, i: nat)
    requires 0 < k <= |pat| && UniqueOpening(pat) && FindIn(s, pat) == Some(i)
    ensures |pat| - k <= |Segments(s[i + k..], pat, k)[0]|
    ensures Segments(s[i + k..], pat, k)[0][..|pat| - k] == pat[k..]
  {
    FoundOccurs(s, pat);
    var rest := s[i + k..];
    assert rest[..|pat| - k] == pat[k..] by {
      assert rest[..|pat| - k] == s[i..i + |pat|][k..];
    }
    forall j | 0 <= j < |pat| - k
      ensures !OccursAt(rest, pat, j)
    {
      assert rest[j] == pat[k + j];
    }
    SegmentsHead(rest, pat, k, |pat| - k);
  }

  /** The first piece runs up to the first occurrence: a prefix free of `pat` stays in it. */
  lemma SegmentsHead(s: string, pat: string, k: nat, n: nat)
    requires 0 < k <= |pat| && n <= |s|
    requires forall j :: 0 <= j < n ==> !OccursAt(s, pat, j)
    ensures n <= |Segments(s, pat, k)[0]| && Segments(s, pat, k)[0][..n] == s[..n]
  {
    FindInFirst(s, pat);
  }

  /** Where the text stands after splicing `rep` in place of `k` characters at `from + i`. */
  lemma Splice(prompt: string, from: nat, i: nat, k: nat, rep: string)
    requires from + i + k <= |prompt|
    ensures var p, tail := from + i, prompt[from..];
      var next := prompt[..p] + rep + prompt[p + k..];
      && next[..p + |rep|] == prompt[..from] + tail[..i] + rep
      && next[p + |rep|..] == tail[i + k..]
  {
    var p, tail := from + i, prompt[from..];
    assert prompt[..p] == prompt[..from] + tail[..i];
  }

  /** Replacing at the occurrence found keeps the loop's invariant and shortens what is left to search. */
  lemma ReplaceLoopStep(prompt: string, pat: string, k: nat, rep: string, from: nat, i: nat, next: string)
    requires 0 < k <= |pat| && from <= |prompt| && Find(prompt, pat, from) == Some(from + i)
    requires next == prompt[..from + i] + rep + prompt[from + i + k..]
    ensures from + i + |rep| <= |next| && |next| - (from + i + |rep|) < |prompt| - from
    ensures next[..from + i + |rep|] + ReplaceAll(next[from + i + |rep|..], pat, k, rep)
         == prompt[..from] + ReplaceAll(prompt[from..], pat, k, rep)
  {
    var tail := prompt[from..];
    var p := from + i;
    assert FindIn(tail, pat) == Some(i);
    ReplaceAllStep(tail, pat, k, rep, i);
    Splice(prompt, from, i, k, rep);
    var r := ReplaceAll(tail[i + k..], pat, k, rep);
    assert ReplaceAll(next[p + |rep|..], pat, k, rep) == r;
    Regroup(prompt[..from], tail[..i], rep, r);
  }

  lemma Regroup(a: string, b: string, c: string, d: string)
    ensures a + b + c + d == a + (b + c + d)
  {
  }

  /**
   * The rewriting loop: find, replace, and search again after the inserted
   * text until nothing is found.
   */
  method ReplaceEach(s: string, pat: string, k: nat, rep: string) returns (prompt: string)
    requires 0 < k <= |pat|
    ensures prompt == ReplaceAll(s, pat, k, rep)
  {
    prompt := s;
    var pos := Find(prompt, pat, 0);
    var from: nat := 0;
    ghost var target := ReplaceAll(s, pat, k, rep);
    assert prompt[..0] + prompt[0..] == prompt;
    while pos.Some?
      invariant from <= |prompt|
      invariant pos == Find(prompt, pat, from)
      invariant prompt[..from] + ReplaceAll(prompt[from..], pat, k, rep) == target
      decreases |prompt| - from
    {
      var p := pos.value;
      var next := prompt[..p] + rep + prompt[p + k..];
      ReplaceLoopStep(prompt, pat, k, rep, from, p - from, next);
      prompt := next;
      from := p + |rep|;
      pos := Find(prompt, pat, from);
    }
    ReplaceAllNone(prompt[from..], pat, k, rep);
    assert prompt[..from] + prompt[from..] == prompt;
  }

  // ---------------------------------------------------------------------
  // Scalar prompts
  // ---------------------------------------------------------------------

  /**
   * The scalar function a prompt is for. `Unlisted` stands for a value
   * outside the three enumerators.
   */
  datatype ScalarPromptType = CompleteJson | Complete | Filter | Unlisted

  const SectionOpening := "The system should interpret database tuples and provide a response to the user's prompt for each tuple in "
  const SectionFormat := "\n\nThe tool should respond in JSON format as follows:\n\n```json\n{\n    \"tuples\": [\n"
  const SectionClosing := "    ]\n}\n```"

  /** A section: the common opening, what each tuple's answer is, the common format line, and the example rows. */
  function Section(answer: string, rows: string): string
  {
    SectionOpening + (answer + (SectionFormat + (rows + SectionClosing)))
  }

  /** What each tuple's answer is to be, per scalar function. */
  function Answer(option: ScalarPromptType): string
    requires option != Unlisted
  {
    match option
    case CompleteJson => "a JSON format that contains the necessary columns for the answer."
    case Complete => "plain text."
    case Filter => "a BOOL format that would be true/false."
  }

  /** The example rows of the answer, per scalar function. */
  function Rows(option: ScalarPromptType): string
    requires option != Unlisted
  {
    match option
    case CompleteJson => "        {<response 1>},\n        {<response 2>},\n             ...\n        {<response n>}\n"
    case Complete => "        \"<response 1>\",\n        \"<response 2>\",\n             ...\n        \"<response n>\"\n"
    case Filter => "        <bool response 1>,\n        <bool response 2>,\n             ...\n        <bool response n>\n"
  }

  /** The response-format section for each scalar function; none for an unlisted value. */
  function CustomizedSection(option: ScalarPromptType): string
  {
    if option == Unlisted then "" else Section(Answer(option), Rows(option))
  }

  /** A section is never empty: it opens with the common text. */
  lemma SectionNonEmpty(answer: string, rows: string)
    ensures |Section(answer, rows)| > 0
  {
    assert |SectionOpening| > 0;
  }

  /** Exactly the three scalar functions get a section; an unlisted value gets none. */
  lemma SectionOnlyIfListed(a: ScalarPromptType)
    ensures CustomizedSection(a) == "" <==> a == Unlisted
  {
    if a != Unlisted {
      SectionNonEmpty(Answer(a), Rows(a));
    }
  }

  const ResponseFormat := "{{RESPONSE_FORMAT}}"

  const ScalarTemplate :=
    "You are a semantic analysis tool for DBMS. The tool will analyze each tuple in the provided data and respond to user requests based on this context.\n\n"
    + "User Prompt:\n\n{{user_prompt}}\n\nTuples Table:\n\n{{tuples}}\n\nExpected Response Format\n\n{{RESPONSE_FORMAT}}\n\n"
    + "Instructions\n- The response should be directly relevant to each tuple without additional formatting, purely answering the prompt as if each tuple were a standalone entity.\n"
    + "- Use clear, context-relevant language to generate a meaningful and concise answer for each tuple."

  /** The scalar prompt: every `{{RESPONSE_FORMAT}}` replaced by the section. */
  method GetScalarPromptTemplate(option: ScalarPromptType) returns (prompt: string)
    ensures prompt == ReplaceAll(ScalarTemplate, ResponseFormat, |ResponseFormat|, CustomizedSection(option))
  {
    var section := CustomizedSection(option);
    prompt := ReplaceEach(ScalarTemplate, ResponseFormat, |ResponseFormat|, section);
  }

  // ---------------------------------------------------------------------
  // Min/max prompts
  // ---------------------------------------------------------------------

  /** The word filled in: `most` for the maximum (N = 1), `least` otherwise. */
  function Relevance(n: int): (r: string)
    ensures r == "most" <==> n == 1
    ensures r == "least" <==> n != 1
  {
    if n == 1 then "most" else "least"
  }

  const RelevancePlaceholder := "{relevance}"

  /** How many characters of the placeholder are replaced: one fewer than it has. */
  const RelevanceErased := 10

  const MinOrMaxTemplate :=
    "\nYou are RankLLM, an intelligent assistant that ranks tuples based on their relevance to the search query.\n\n"
    + "I will provide you with some tuples, each indicated by a numerical identifier []. Identify and return the {relevance} relevant tuple to the search query.\n\n"
    + "Tuples:\n\n{% for tuple in tuples %}\n[{{tuple.id}}] {{tuple.content}}\n{% endfor %}\n\nSearch Query: {{user_prompt}}\n\n"
    + "Select the **single {relevance} relevant tuples** from the tuples provided. The output format should be a JSON object with the identifier, e.g., `{\"selected\": id}`. Only respond with the result, do not explain or add additional words.\n\n"
    + "Response Format:\n\n```json\n{\n  \"selected\": id\n}\n```\n"

  /** The min/max prompt: `{relevance` of every `{relevance}` replaced by the word. */
  method GetMinOrMaxPromptTemplate(n: int) returns (prompt: string)
    ensures prompt == ReplaceAll(MinOrMaxTemplate, RelevancePlaceholder, RelevanceErased, Relevance(n))
  {
    var relevance := if n == 1 then "most" else "least";
    prompt := ReplaceEach(MinOrMaxTemplate, RelevancePlaceholder, RelevanceErased, relevance);
  }

  /**
   * Only ten of the placeholder's eleven characters are replaced, so each
   * occurrence becomes the word followed by `}`: the text is cut into pieces
   * free of the placeholder, the input joins them with `{relevance`, the
   * output with the word, and every piece after the first starts with the
   * `}` left behind.
   */
  lemma RelevanceKeepsBrace(template: string, n: int)
    ensures var segs := Segments(template, RelevancePlaceholder, RelevanceErased);
      && template == Join(segs, "{relevance")
      && ReplaceAll(template, RelevancePlaceholder, RelevanceErased, Relevance(n)) == Join(segs, Relevance(n))
      && (forall j :: 0 <= j < |segs| ==> Free(segs[j], RelevancePlaceholder))
      && forall j :: 0 < j < |segs| ==> |segs[j]| >= 1 && segs[j][0] == '}'
  {
    var segs := Segments(template, RelevancePlaceholder, RelevanceErased);
    assert RelevancePlaceholder[..RelevanceErased] == "{relevance";
    assert RelevancePlaceholder[RelevanceErased..] == "}";
    ReplaceAllSplits(template, RelevancePlaceholder, RelevanceErased, Relevance(n));
    SegmentsFree(template, RelevancePlaceholder, RelevanceErased);
    SegmentsKeepRest(template, RelevancePlaceholder, RelevanceErased);
    assert |RelevancePlaceholder| - RelevanceErased == 1;
    forall j | 0 < j < |segs|
      ensures |segs[j]| >= 1 && segs[j][0] == '}'
    {
      assert segs[j][..|RelevancePlaceholder| - RelevanceErased] == RelevancePlaceholder[RelevanceErased..];
      assert segs[j][..1][0] == '}';
    }
  }
}
