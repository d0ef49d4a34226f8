/** Finding is at least as broad as redacting: whatever redaction would change, the search sweep surfaces. */
module IdentifyTheorems {
  import opened Text
  import opened Scrub
  import opened Identify

  /** v occurs at position i, ignoring ASCII case. */
  predicate OccursAt(content: string, i: nat, v: string) {
    i + |v| <= |content| && FoldEq(content[i..i + |v|], v)
  }

  /** The content sweep: some search term of two or more characters occurs in the content. */
  ghost predicate SweepMatches(content: string, terms: seq<string>) {
    exists t, i: nat :: t in terms && |Trim(t)| >= 2 && OccursAt(content, i, Trim(t))
  }

  /** The redaction terms are search terms, they are trimmed, and they are exactly the full name and the identifiers of
      two or more characters. */
  lemma RedactionTermsExact(subject: Subject, t: string)
    ensures t in RedactionTerms(subject) <==>
            |t| >= 2 && (t == NameOf(subject) || exists id :: id in subject.identifiers && t == Trim(id))
    ensures t in RedactionTerms(subject) ==> t in SearchTerms(subject) && Trim(t) == t
  {
    var name := NameOf(subject);
    assert Trim(name) == name by {
      if subject.name.Some? { TrimTwice(subject.name.value); }
    }
    if t in RedactionTerms(subject) && t != name {
      var id :| id in subject.identifiers && t == Trim(id) && |t| >= 2;
      TrimTwice(id);
    }
    if t == name && |t| >= 2 {
      assert NameVariants(name)[0] == name;
    }
  }

  /** Without a replacement a pass returns its input. */
  lemma {:induction false} NoReplacementSame(afterWord: bool, s: string, t: Term)
    requires Replace(afterWord, s, t).1 == 0
    ensures Replace(afterWord, s, t).0 == s
    decreases |s|
  {
    if |s| > 0 {
      NoReplacementSame(IsWord(s[0]), s[1..], t);
      assert s == [s[0]] + s[1..];
    }
  }

  lemma {:induction false} ReplacementOccurs(afterWord: bool, s: string, t: Term) returns (i: nat)
    requires Replace(afterWord, s, t).1 > 0
    ensures i + |t| <= |s| && FoldEq(s[i..i + |t|], t)
    decreases |s|
  {
    if MatchAt(afterWord, s, t) {
      i := 0;
      assert s[0..|t|] == s[..|t|];
    } else {
      var j := ReplacementOccurs(IsWord(s[0]), s[1..], t);
      i := j + 1;
      assert s[1..][j..j + |t|] == s[i..i + |t|];
    }
  }

  /** The first pass that replaces anything works on the input itself. */
  lemma {:induction false} PassesOccur(s: string, terms: seq<Term>) returns (k: nat, i: nat)
    requires Passes(s, terms).1 > 0
    ensures k < |terms| && i + |terms[k]| <= |s| && FoldEq(s[i..i + |terms[k]|], terms[k])
    decreases |terms|
  {
    if Replace(false, s, terms[0]).1 > 0 {
      k := 0;
      i := ReplacementOccurs(false, s, terms[0]);
    } else {
      NoReplacementSame(false, s, terms[0]);
      var j;
      j, i := PassesOccur(s, terms[1..]);
      k := j + 1;
    }
  }

  lemma {:induction false} NoPassesSame(s: string, terms: seq<Term>)
    requires Passes(s, terms).1 == 0
    ensures Passes(s, terms).0 == s
    decreases |terms|
  {
    if |terms| > 0 {
      NoReplacementSame(false, s, terms[0]);
      NoPassesSame(s, terms[1..]);
    }
  }

  /** NO SILENT MISS: any content in which redaction would replace something is surfaced by the sweep. */
  lemma RedactedIsFound(content: string, subject: Subject)
    ensures Redact(content, RedactionTerms(subject)).1 > 0 ==> SweepMatches(content, SearchTerms(subject))
  {
    if Redact(content, RedactionTerms(subject)).1 > 0 {
      var ordered := Ordered(RedactionTerms(subject));
      var k, i := PassesOccur(content, ordered);
      var t := ordered[k];
      assert t in ordered;
      RedactionTermsExact(subject, t);
      hide SearchTerms, RedactionTerms, Ordered;
      assert OccursAt(content, i, Trim(t));
    }
  }
}
