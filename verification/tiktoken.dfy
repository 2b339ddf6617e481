/**
 * The token estimate used for every budget decision: the number of
 * non-overlapping, left-to-right matches of the pattern `\w+|[^\w\s]`
 * in a string, that is, one token per maximal run of word characters
 * and one per character that is neither a word character nor a space.
 */
module Tiktoken {
  import opened Text

  /** Length of the run of word characters at the front of `s`. */
  function WordRunLength(s: string): (k: nat)
    ensures k <= |s|
    ensures forall i :: 0 <= i < k ==> IsWordChar(s[i])
    ensures k < |s| ==> !IsWordChar(s[k])
  {
    if |s| == 0 || !IsWordChar(s[0]) then 0 else 1 + WordRunLength(s[1..])
  }

  /**
   * The matcher: at a word character the greedy `\w+` alternative consumes
   * the whole run; at any other non-space character `[^\w\s]` consumes that
   * character; a space matches nothing and the search moves on.
   */
  function CountTokens(s: string): (n: nat)
    ensures n <= |s|
    ensures |s| > 0 && !IsSpace(s[0]) ==> n >= 1
    decreases |s|
  {
    if |s| == 0 then 0
    else if IsWordChar(s[0]) then
      var k := WordRunLength(s);
      1 + CountTokens(s[k..])
    else if IsSpace(s[0]) then CountTokens(s[1..])
    else 1 + CountTokens(s[1..])
  }

  /**
   * Reference definition, one character at a time: a match starts at every
   * non-space character except a word character that follows a word
   * character. `inWord` says whether the previous character was one.
   */
  function MatchStarts(s: string, inWord: bool): nat
  {
    if |s| == 0 then 0
    else if IsWordChar(s[0]) then (if inWord then 0 else 1) + MatchStarts(s[1..], true)
    else if IsSpace(s[0]) then MatchStarts(s[1..], false)
    else 1 + MatchStarts(s[1..], false)
  }

  /** Inside a word run no match starts; the run ends in front of a non-word character. */
  lemma {:induction false} MatchStartsSkipsRun(s: string)
    ensures MatchStarts(s, true) == MatchStarts(s[WordRunLength(s)..], false)
  {
    if |s| > 0 && IsWordChar(s[0]) {
      MatchStartsSkipsRun(s[1..]);
      assert s[WordRunLength(s)..] == s[1..][WordRunLength(s[1..])..];
    } else if |s| > 0 {
      assert s[WordRunLength(s)..] == s;
    }
  }

  /** The matcher counts exactly the positions where a match starts. */
  lemma {:induction false} CountTokensIsMatchStarts(s: string)
    ensures CountTokens(s) == MatchStarts(s, false)
    decreases |s|
  {
    if |s| == 0 {
    } else if IsWordChar(s[0]) {
      var k := WordRunLength(s);
      MatchStartsSkipsRun(s[1..]);
      assert s[1..][WordRunLength(s[1..])..] == s[k..];
      CountTokensIsMatchStarts(s[k..]);
    } else {
      CountTokensIsMatchStarts(s[1..]);
    }
  }

  /** A space ends any word run: matching restarts after it as at the beginning. */
  lemma {:induction false} MatchStartsAcrossSpace(a: string, b: string, inWord: bool)
    ensures MatchStarts(a + " " + b, inWord) == MatchStarts(a, inWord) + MatchStarts(b, false)
  {
    if |a| == 0 {
      assert a + " " + b == [' '] + b;
      assert ([' '] + b)[1..] == b;
    } else {
      assert (a + " " + b)[0] == a[0];
      assert (a + " " + b)[1..] == a[1..] + " " + b;
      MatchStartsAcrossSpace(a[1..], b, IsWordChar(a[0]));
    }
  }

  /** Counting is additive across one separating space. */
  lemma CountTokensAdditive(a: string, b: string)
    ensures CountTokens(a + " " + b) == CountTokens(a) + CountTokens(b)
  {
    CountTokensIsMatchStarts(a + " " + b);
    CountTokensIsMatchStarts(a);
    CountTokensIsMatchStarts(b);
    MatchStartsAcrossSpace(a, b, false);
  }

  /** A string of spaces only (in particular the empty string) counts 0. */
  lemma {:induction false} CountTokensOfSpaces(s: string)
    requires forall i :: 0 <= i < |s| ==> IsSpace(s[i])
    ensures CountTokens(s) == 0
  {
    if |s| > 0 {
      assert !IsWordChar(s[0]);
      CountTokensOfSpaces(s[1..]);
    }
  }

  /** A non-empty run of word characters is a single token. */
  lemma WordRunIsOneToken(s: string)
    requires |s| > 0
    requires forall i :: 0 <= i < |s| ==> IsWordChar(s[i])
    ensures CountTokens(s) == 1
  {
    WordRunFull(s);
    assert s[|s|..] == [];
  }

  lemma {:induction false} WordRunFull(s: string)
    requires forall i :: 0 <= i < |s| ==> IsWordChar(s[i])
    ensures WordRunLength(s) == |s|
  {
    if |s| > 0 {
      WordRunFull(s[1..]);
    }
  }

  /** Every character that is neither a word character nor a space is a token of its own. */
  lemma {:induction false} PunctuationCountsEach(s: string)
    requires forall i :: 0 <= i < |s| ==> !IsWordChar(s[i]) && !IsSpace(s[i])
    ensures CountTokens(s) == |s|
  {
    if |s| > 0 {
      PunctuationCountsEach(s[1..]);
    }
  }

  /** For instance, an empty JSON array is two tokens. */
  lemma EmptyArrayIsTwoTokens()
    ensures CountTokens("[]") == 2
  {
    PunctuationCountsEach("[]");
  }
}
