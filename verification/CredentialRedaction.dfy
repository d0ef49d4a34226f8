/** Scrubbing credential material from nested JSON before it is logged (app/config-store/src/redaction.ts). The two
    classifiers, for key names and for string values, are parameters. */
module CredentialRedaction {

  datatype Json =
    | JNull | JBool(b: bool) | JNum(n: int) | JStr(s: string)
    | JArr(items: seq<Json>) | JObj(fields: seq<(string, Json)>)

  datatype Classifier = Classifier(secretKey: string -> bool, credentialValue: string -> bool)

  const REDACTED := "[REDACTED]"

  /** The placeholder itself does not look like a credential. */
  predicate Sane(c: Classifier) { !c.credentialValue(REDACTED) }

  /** A value under a secret key is replaced whatever it is; any other string is replaced if it looks like a credential. */
  function Redact(c: Classifier, j: Json): Json {
    match j
    case JStr(s) => if c.credentialValue(s) then JStr(REDACTED) else j
    case JArr(items) => JArr(seq(|items|, i requires 0 <= i < |items| => Redact(c, items[i])))
    case JObj(fields) =>
      JObj(seq(|fields|, i requires 0 <= i < |fields| =>
        (fields[i].0, if c.secretKey(fields[i].0) then JStr(REDACTED) else Redact(c, fields[i].1))))
    case _ => j
  }

  predicate Contains(c: Classifier, j: Json) {
    match j
    case JStr(s) => c.credentialValue(s)
    case JArr(items) => exists i :: 0 <= i < |items| && Contains(c, items[i])
    case JObj(fields) =>
      exists i :: 0 <= i < |fields| &&
        ((c.secretKey(fields[i].0) && fields[i].1 != JStr(REDACTED)) || Contains(c, fields[i].1))
    case _ => false
  }

  /** The scrubbed payload holds no credential material at any depth. */
  lemma {:induction false} RedactionRemovesAll(c: Classifier, j: Json)
    requires Sane(c)
    ensures !Contains(c, Redact(c, j))
    decreases j
  {
    match j
    case JArr(items) =>
      forall i | 0 <= i < |items| ensures !Contains(c, Redact(c, items[i])) { RedactionRemovesAll(c, items[i]); }
    case JObj(fields) =>
      forall i | 0 <= i < |fields| ensures !Contains(c, Redact(c, fields[i].1)) { RedactionRemovesAll(c, fields[i].1); }
    case _ =>
  }

  /** A payload without credential material is kept as it is. */
  lemma {:induction false} CleanIsKept(c: Classifier, j: Json)
    requires !Contains(c, j)
    ensures Redact(c, j) == j
    decreases j
  {
    match j
    case JArr(items) =>
      forall i | 0 <= i < |items| ensures Redact(c, items[i]) == items[i] {
        assert !Contains(c, items[i]);
        CleanIsKept(c, items[i]);
      }
      assert Redact(c, j).items == items;
    case JObj(fields) =>
      forall i | 0 <= i < |fields| ensures Redact(c, j).fields[i] == fields[i] {
        assert !Contains(c, fields[i].1);
        CleanIsKept(c, fields[i].1);
      }
      assert Redact(c, j).fields == fields;
    case _ =>
  }

  /** Scrubbing changes a payload exactly when it holds credential material, and scrubbing again changes nothing. */
  lemma RedactionFixedIff(c: Classifier, j: Json)
    requires Sane(c)
    ensures Redact(c, j) == j <==> !Contains(c, j)
    ensures Redact(c, Redact(c, j)) == Redact(c, j)
  {
    RedactionRemovesAll(c, j);
    CleanIsKept(c, Redact(c, j));
    if !Contains(c, j) { CleanIsKept(c, j); }
  }

  method RedactCredentialMaterial(c: Classifier, input: Json) returns (out: Json)
    ensures out == Redact(c, input)
    decreases input
  {
    match input {
      case JStr(s) =>
        out := if c.credentialValue(s) then JStr(REDACTED) else input;
      case JArr(items) =>
        var scrubbed: seq<Json> := [];
        for i := 0 to |items|
          invariant |scrubbed| == i && forall k :: 0 <= k < i ==> scrubbed[k] == Redact(c, items[k])
        {
          var one := RedactCredentialMaterial(c, items[i]);
          scrubbed := scrubbed + [one];
        }
        out := JArr(scrubbed);
      case JObj(fields) =>
        var rebuilt: seq<(string, Json)> := [];
        for i := 0 to |fields|
          invariant |rebuilt| == i && forall k :: 0 <= k < i ==> rebuilt[k] == Redact(c, input).fields[k]
        {
          if c.secretKey(fields[i].0) {
            rebuilt := rebuilt + [(fields[i].0, JStr(REDACTED))];
          } else {
            var one := RedactCredentialMaterial(c, fields[i].1);
            rebuilt := rebuilt + [(fields[i].0, one)];
          }
        }
        assert rebuilt == Redact(c, input).fields;
        out := JObj(rebuilt);
      case _ =>
        out := input;
    }
  }

  method ContainsCredentialMaterial(c: Classifier, input: Json) returns (found: bool)
    ensures found == Contains(c, input)
    decreases input
  {
    match input {
      case JStr(s) => found := c.credentialValue(s);
      case JArr(items) =>
        for i := 0 to |items|
          invariant forall k :: 0 <= k < i ==> !Contains(c, items[k])
        {
          found := ContainsCredentialMaterial(c, items[i]);
          if found { return true; }
        }
        found := false;
      case JObj(fields) =>
        for i := 0 to |fields|
          invariant forall k :: 0 <= k < i ==>
            !(c.secretKey(fields[k].0) && fields[k].1 != JStr(REDACTED)) && !Contains(c, fields[k].1)
        {
          if c.secretKey(fields[i].0) && fields[i].1 != JStr(REDACTED) { return true; }
          found := ContainsCredentialMaterial(c, fields[i].1);
          if found { return true; }
        }
        found := false;
      case _ => found := false;
    }
  }
}
