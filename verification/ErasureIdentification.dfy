/** Step 1 of an erasure over the whole store (app/compliance-erasure/src/identify.ts, store.ts): the rows that reference the
    target, and the rows offered to a human for confirmation. */
module ErasureIdentification {
  import opened Scrub
  import opened Identify
  import opened IdentifyTheorems
  import opened ErasureSpec

  /** The rows offered for confirmation: none when there is nothing to search for, else the rows the sweep finds that do not
      reference the target. */
  ghost function Candidates(m: Memories, target: string, subject: Subject): set<string> {
    if |SearchTerms(subject)| == 0 then {}
    else set id | id in m && id !in Referencing(m, target) && SweepMatches(m[id].content, SearchTerms(subject))
  }

  /** NO ROW IS MISSED. A row in which redaction would replace something is either known to reference the target or offered for
      confirmation; no row is both, and without search terms nothing is offered. */
  lemma NoRowIsMissed(m: Memories, target: string, subject: Subject)
    ensures forall id :: id in m && Redact(m[id].content, RedactionTerms(subject)).1 > 0 ==>
              id in Referencing(m, target) || id in Candidates(m, target, subject)
    ensures Referencing(m, target) !! Candidates(m, target, subject)
    ensures |SearchTerms(subject)| == 0 ==> Candidates(m, target, subject) == {}
  {
    hide SearchTerms, RedactionTerms, Redact;
    forall id | id in m && Redact(m[id].content, RedactionTerms(subject)).1 > 0
      ensures SweepMatches(m[id].content, SearchTerms(subject)) && |SearchTerms(subject)| > 0
    {
      RedactedIsFound(m[id].content, subject);
      SweepNeedsTerms(m[id].content, SearchTerms(subject));
    }
    hide SweepMatches;
  }

  lemma SweepNeedsTerms(content: string, terms: seq<string>)
    ensures SweepMatches(content, terms) ==> |terms| > 0
  {
  }
}
