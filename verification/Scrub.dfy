/** Content redaction (app/compliance-erasure/src/scrub.ts): every whole-token occurrence of a term is replaced by
    a placeholder, longest term first. */
module Scrub {
  import opened Wrappers
  import opened Text

  const PLACEHOLDER := "[REDACTED]"

  /** A search term is never empty. */
  type Term = t: string | |t| > 0 witness "x"

  // ---------------------------------------------------------------- what the code computes

  /** The regular expression of one term matches at the start of s; afterWord says whether the character before s
      is a word character. */
  predicate MatchAt(afterWord: bool, s: string, t: Term) {
    !afterWord && |t| <= |s| && FoldEq(s[..|t|], t) && (|s| == |t| || !IsWord(s[|t|]))
  }

  /** One global replacement pass, left to right, and the number of replacements it makes. */
  function Replace(afterWord: bool, s: string, t: Term): (r: (string, nat))
    decreases |s|
  {
    if s == [] then ([], 0)
    else if MatchAt(afterWord, s, t) then
      var rest := Replace(IsWord(s[|t| - 1]), s[|t|..], t);
      (PLACEHOLDER + rest.0, rest.1 + 1)
    else
      var rest := Replace(IsWord(s[0]), s[1..], t);
      ([s[0]] + rest.0, rest.1)
  }

  /** The passes for all terms, in order. */
  function Passes(s: string, terms: seq<Term>): (r: (string, nat))
    decreases |terms|
  {
    if |terms| == 0 then (s, 0)
    else
      var first := Replace(false, s, terms[0]);
      var rest := Passes(first.0, terms[1..]);
      (rest.0, first.1 + rest.1)
  }

  predicate Eligible(t: string) {
    |Trim(t)| >= 2
  }

  lemma EligibleNotEmpty(t: string)
    requires Eligible(t)
    ensures |t| > 0
  {
    TrimShorter(t);
  }

  /** The eligible terms, each once, in order of first occurrence. */
  function Distinct(terms: seq<string>): (r: seq<Term>)
    ensures forall t :: t in r <==> t in terms && Eligible(t)
    ensures forall i, j :: 0 <= i < j < |r| ==> r[i] != r[j]
  {
    if |terms| == 0 then []
    else
      var before := Distinct(terms[..|terms| - 1]);
      var last := terms[|terms| - 1];
      assert terms == terms[..|terms| - 1] + [last];
      if last in before || !Eligible(last) then before
      else
        EligibleNotEmpty(last);
        before + [last]
  }

  predicate LongestFirst(terms: seq<Term>) {
    forall i, j :: 0 <= i < j < |terms| ==> |terms[i]| >= |terms[j]|
  }

  /** Stable insertion into a list ordered by falling length. */
  function InsertByLength(t: Term, sorted: seq<Term>): (r: seq<Term>)
    requires LongestFirst(sorted)
    ensures |r| == |sorted| + 1
    ensures forall u :: u in r <==> u == t || u in sorted
    ensures LongestFirst(r)
  {
    if |sorted| == 0 || |sorted[0]| < |t| then [t] + sorted
    else
      var rest := InsertByLength(t, sorted[1..]);
      assert forall u :: u in sorted <==> u == sorted[0] || u in sorted[1..];
      assert forall k :: 0 < k < |sorted| ==> |sorted[0]| >= |sorted[k]|;
      assert forall u :: u in sorted ==> |u| <= |sorted[0]|;
      assert forall u :: u in rest ==> |u| <= |sorted[0]|;
      assert forall k :: 0 <= k < |rest| ==> rest[k] in rest;
      [sorted[0]] + rest
  }

  function SortByLength(terms: seq<Term>): (r: seq<Term>)
    ensures |r| == |terms|
    ensures forall u :: u in r <==> u in terms
    ensures LongestFirst(r)
  {
    if |terms| == 0 then []
    else
      var last := terms[|terms| - 1];
      assert forall u :: u in terms <==> u == last || u in terms[..|terms| - 1];
      InsertByLength(last, SortByLength(terms[..|terms| - 1]))
  }

  /** The terms in processing order: eligible, distinct, longest first. */
  function Ordered(terms: seq<string>): (r: seq<Term>)
    ensures forall t :: t in r <==> t in terms && Eligible(t)
    ensures LongestFirst(r)
  {
    SortByLength(Distinct(terms))
  }

  /** The redacted content and the number of replacements. */
  function Redact(content: string, terms: seq<string>): (r: (string, nat)) {
    Passes(content, Ordered(terms))
  }

  lemma {:induction false} PassesStep(s: string, terms: seq<Term>, k: nat)
    requires k < |terms|
    ensures Passes(s, terms[..k + 1]).0 == Replace(false, Passes(s, terms[..k]).0, terms[k]).0
    ensures Passes(s, terms[..k + 1]).1 == Passes(s, terms[..k]).1 + Replace(false, Passes(s, terms[..k]).0, terms[k]).1
    decreases k
  {
    var first := Replace(false, s, terms[0]);
    TailSlices(terms, k + 1);
    if k > 0 {
      TailSlices(terms, k);
      PassesStep(first.0, terms[1..], k - 1);
    }
  }

  method RedactContent(content: string, terms: seq<string>) returns (redacted: string, replacements: nat)
    ensures (redacted, replacements) == Redact(content, terms)
  {
    var ordered := Ordered(terms);
    redacted, replacements := content, 0;
    for k := 0 to |ordered|
      invariant (redacted, replacements) == Passes(content, ordered[..k])
    {
      PassesStep(content, ordered, k);
      hide *;
      var pass := Replace(false, redacted, ordered[k]);
      redacted, replacements := pass.0, replacements + pass.1;
    }
    WholeSlice(ordered);
  }
}
