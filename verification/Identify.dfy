/** The two term sets of an erasure subject (app/compliance-erasure/src/identify.ts): a broad one for finding records
    and a narrow one for redacting them. */
module Identify {
  import opened Wrappers
  import opened Text

  datatype Subject = Subject(name: Option<string>, identifiers: seq<string>)

  function NameOf(subject: Subject): string {
    if subject.name.Some? then Trim(subject.name.value) else ""
  }

  /** A set in order of insertion: the trimmed term is added unless it is too short or already there. */
  function AddTerm(terms: seq<string>, t: string): (r: seq<string>)
    ensures forall x :: x in r <==> x in terms || (x == Trim(t) && |Trim(t)| >= 2)
  {
    var v := Trim(t);
    if |v| >= 2 && v !in terms then terms + [v] else terms
  }

  function AddTerms(terms: seq<string>, more: seq<string>): (r: seq<string>)
    ensures forall x :: x in r <==> x in terms || (exists t :: t in more && x == Trim(t) && |x| >= 2)
    decreases |more|
  {
    if |more| == 0 then terms
    else
      assert more == [more[0]] + more[1..];
      AddTerms(AddTerm(terms, more[0]), more[1..])
  }

  /** The maximal runs without white space. */
  function Words(s: string): seq<string>
    decreases |s|
  {
    if |s| == 0 then []
    else if IsSpace(s[0]) then Words(s[1..])
    else
      var n := WordLength(s);
      [s[..n]] + Words(s[n..])
  }

  function WordLength(s: string): (n: nat)
    ensures n <= |s| && (|s| > 0 && !IsSpace(s[0]) ==> n > 0)
  {
    if |s| == 0 || IsSpace(s[0]) then 0 else 1 + WordLength(s[1..])
  }

  /** The name, its parts, and the initial-and-family variants. */
  function NameVariants(name: string): seq<string> {
    if |name| == 0 then []
    else
      var parts := Filter(Words(name), (p: string) => |p| >= 2);
      [name] + parts + if |parts| < 2 then [] else Initials(parts[0], parts[|parts| - 1])
  }

  function Initials(given: string, family: string): seq<string> {
    if |given| == 0 || |family| == 0 then [] else [given[..1] + family, given[..1] + " " + family, given + " " + family[..1]]
  }

  /** The broad set, for finding candidates. */
  function SearchTerms(subject: Subject): seq<string> {
    AddTerms(AddTerms([], NameVariants(NameOf(subject))), subject.identifiers)
  }

  /** The narrow set, for redaction: the full name and the identifiers. */
  function RedactionTerms(subject: Subject): seq<string> {
    var name := NameOf(subject);
    AddTerms(if |name| >= 2 then [name] else [], subject.identifiers)
  }
}
