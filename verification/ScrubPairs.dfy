/** Two redaction terms: exactly when redacting with both leaves no token of either in any content, when one of the two is
    a single word. */
module ScrubPairs {
  import opened Wrappers
  import opened Text
  import opened Scrub
  import opened MarkedText
  import opened ScrubTheorems

  /** The term is one run of word characters. */
  predicate SingleWord(t: Term) { forall i :: 0 <= i < |t| ==> IsWord(t[i]) }

  ghost predicate TokenIn(s: string, t: Term) { exists i: nat :: TokenAt(s, i, t) }

  /** Redacting with a and then b leaves no token of either, whatever the content. */
  ghost predicate PairComplete(a: Term, b: Term) {
    forall content: string :: !TokenIn(Passes(content, [a, b]).0, a) && !TokenIn(Passes(content, [a, b]).0, b)
  }

  lemma MatchIsToken(s: string, i: nat, t: Term)
    requires i <= |s|
    ensures MatchAt(i > 0 && IsWord(s[i - 1]), s[i..], t) <==> TokenAt(s, i, t)
  {
    if i + |t| <= |s| {
      assert s[i..][..|t|] == s[i..i + |t|];
    }
  }

  lemma TwoPasses(content: string, a: Term, b: Term)
    ensures Passes(content, [a, b]).0 == Replace(false, Replace(false, content, a).0, b).0
  {
    var first := Replace(false, content, a).0;
    assert [a, b][1..] == [b] && [b][1..] == [];
    assert Passes(first, [b]).0 == Passes(Replace(false, first, b).0, []).0;
  }

  /** The characters of a token are on the same sides of the word boundary as the term's. */
  lemma TokenChars(s: string, i: nat, t: Term)
    requires TokenAt(s, i, t)
    ensures forall k :: 0 <= k < |t| ==> IsWord(s[i + k]) == IsWord(t[k])
  {
    forall k | 0 <= k < |t| ensures IsWord(s[i + k]) == IsWord(t[k]) {
      assert s[i..i + |t|][k] == s[i + k];
      FoldKeepsWord(s[i + k], t[k]);
    }
  }

  lemma NoTokenNoChange(s: string, t: Term)
    requires !TokenIn(s, t)
    ensures Replace(false, s, t).0 == s
  {
    TokenPositions(false, s, t);
    NothingToReplace(false, s, t);
  }

  // ---------------------------------------------------------------- when both are cleared

  lemma ClearedCells(content: string, a: Term, b: Term, t: Term)
    requires Plain(a) && Plain(b) && Plain(t)
    requires !HasCells(false, CutAll(Chars(content), [a, b]), t)
    ensures !TokenIn(Passes(content, [a, b]).0, t)
  {
    CharsShown(content);
    AllPassesAgree(Chars(content), [a, b]);
    PassesAgree(false, CutAll(Chars(content), [a, b]), t);
    TokenPositions(false, Passes(content, [a, b]).0, t);
  }

  lemma CompatiblePair(a: Term, b: Term)
    requires Plain(a) && Plain(b) && Compatible(a, a) && Compatible(a, b) && Compatible(b, b)
    ensures PairComplete(a, b)
  {
    forall content: string ensures !TokenIn(Passes(content, [a, b]).0, a) && !TokenIn(Passes(content, [a, b]).0, b) {
      AllAbsent(Chars(content), [a, b], 0);
      AllAbsent(Chars(content), [a, b], 1);
      ClearedCells(content, a, b, a);
      ClearedCells(content, a, b, b);
    }
  }

  lemma SecondCleared(content: string, a: Term, b: Term)
    requires Plain(a) && Plain(b) && Compatible(b, b)
    ensures !TokenIn(Passes(content, [a, b]).0, b)
  {
    var first := CutCells(false, Chars(content), a);
    CutClears(false, false, first, b);
    assert [a, b][1..] == [b] && [b][1..] == [];
    assert CutAll(first, [b]) == CutAll(CutCells(false, first, b), []);
    assert CutAll(Chars(content), [a, b]) == CutAll(first, [b]);
    ClearedCells(content, a, b, b);
  }

  /** A token of b inside a token of a is a token of b. */
  lemma TokenInToken(s: string, j: nat, a: Term, i: nat, b: Term)
    requires TokenAt(s, j, a) && TokenAt(a, i, b)
    ensures TokenAt(s, j + i, b)
  {
    var whole, inner := s[j..j + |a|], s[j + i..j + i + |b|];
    TokenChars(s, j, a);
    forall k | 0 <= k < |b| ensures FoldChar(inner[k]) == FoldChar(b[k]) {
      assert inner[k] == s[j + i + k] == whole[i + k];
      assert FoldChar(whole[i + k]) == FoldChar(a[i + k]);
      assert a[i..i + |b|][k] == a[i + k];
    }
    assert i > 0 ==> IsWord(s[j + (i - 1)]) == IsWord(a[i - 1]);
    assert i + |b| < |a| ==> IsWord(s[j + (i + |b|)]) == IsWord(a[i + |b|]);
  }

  lemma InnerTokenPair(a: Term, b: Term)
    requires Plain(a) && Plain(b) && Compatible(b, b) && TokenIn(a, b)
    ensures PairComplete(a, b)
  {
    var i: nat :| TokenAt(a, i, b);
    forall content: string ensures !TokenIn(Passes(content, [a, b]).0, a) && !TokenIn(Passes(content, [a, b]).0, b) {
      var out := Passes(content, [a, b]).0;
      SecondCleared(content, a, b);
      forall j: nat ensures !TokenAt(out, j, a) {
        if TokenAt(out, j, a) {
          TokenInToken(out, j, a, i, b);
          assert false;
        }
      }
    }
  }

  // ---------------------------------------------------------------- when one survives

  lemma NoTokenAfterWord(a: Term, b: Term, i: nat)
    requires SingleWord(b) && !StartsWithWord(a)
    ensures !TokenAt(b + a, i, a)
  {
    var s := b + a;
    assert forall k :: 0 <= k < |b| ==> s[k] == b[k] && IsWord(s[k]);
    if TokenAt(s, i, a) {
      TokenChars(s, i, a);
      assert false;
    }
  }

  /** A pass for the word replaces it and keeps the rest. */
  lemma WordReplaced(a: Term, b: Term)
    requires SingleWord(b) && !StartsWithWord(a) && !TokenIn(a, b)
    ensures Replace(false, b + a, b).0 == PLACEHOLDER + a
  {
    var s := b + a;
    assert s[..|b|] == b && s[|b|..] == a && s[|b|] == a[0] && s[|b| - 1] == b[|b| - 1];
    hide TokenAt;
    assert MatchAt(false, s, b);
    TokenPositions(true, a, b);
    NothingToReplace(true, a, b);
  }

  /** A word before a term that starts with another character: the term is no token there until the word is replaced. */
  lemma ExposedOnTheRight(a: Term, b: Term)
    requires SingleWord(b) && !StartsWithWord(a) && !TokenIn(a, b)
    ensures Passes(b + a, [a, b]).0 == PLACEHOLDER + a && TokenAt(PLACEHOLDER + a, |PLACEHOLDER|, a)
  {
    forall i: nat ensures !TokenAt(b + a, i, a) { NoTokenAfterWord(a, b, i); }
    NoTokenNoChange(b + a, a);
    TwoPasses(b + a, a, b);
    WordReplaced(a, b);
    hide Replace, Passes;
    var out := PLACEHOLDER + a;
    assert out[|PLACEHOLDER|..|PLACEHOLDER| + |a|] == a;
  }

  /** A pass keeps a stretch in which no match starts. */
  lemma {:induction false} SkipQuiet(s: string, i: nat, n: nat, t: Term)
    requires i <= n <= |s| && forall k :: i <= k < n ==> !TokenAt(s, k, t)
    ensures Replace(i > 0 && IsWord(s[i - 1]), s[i..], t).0 == s[i..n] + Replace(n > 0 && IsWord(s[n - 1]), s[n..], t).0
    decreases n - i
  {
    if i < n {
      MatchIsToken(s, i, t);
      SkipQuiet(s, i + 1, n, t);
      assert s[i..][0] == s[i] && s[i..][1..] == s[i + 1..];
      assert s[i..n] == [s[i]] + s[i + 1..n];
      Assoc([s[i]], s[i + 1..n], Replace(n > 0 && IsWord(s[n - 1]), s[n..], t).0);
    } else {
      assert s[i..n] == [];
    }
  }

  lemma NoTokenBeforeWord(a: Term, b: Term, i: nat)
    requires SingleWord(b) && !EndsWithWord(a)
    ensures !TokenAt(a + b, i, a)
  {
    var s, n := a + b, |a|;
    assert forall k :: n <= k < |s| ==> s[k] == b[k - n] && IsWord(s[k]);
    if TokenAt(s, i, a) {
      TokenChars(s, i, a);
      assert false;
    }
  }

  lemma LastWordReplaced(a: Term, b: Term)
    requires SingleWord(b) && !EndsWithWord(a) && !TokenIn(a, b)
    ensures Replace(false, a + b, b).0 == a + PLACEHOLDER
  {
    var s, n := a + b, |a|;
    forall k | 0 <= k < n ensures !TokenAt(s, k, b) {
      if TokenAt(s, k, b) { WordBefore(a, b, k); }
    }
    hide TokenAt;
    SkipQuiet(s, 0, n, b);
    assert s[0..] == s && s[0..n] == a && s[n..] == b && s[n - 1] == a[n - 1];
    WordAlone(b);
  }

  lemma WordAlone(b: Term)
    ensures Replace(false, b, b).0 == PLACEHOLDER
  {
    assert b[..|b|] == b && b[|b|..] == [];
    assert MatchAt(false, b, b);
    assert Replace(IsWord(b[|b| - 1]), [], b) == ([], 0);
    assert PLACEHOLDER + [] == PLACEHOLDER;
  }

  /** A word after a term that ends with another character. */
  lemma ExposedOnTheLeft(a: Term, b: Term)
    requires SingleWord(b) && !EndsWithWord(a) && !TokenIn(a, b)
    ensures Passes(a + b, [a, b]).0 == a + PLACEHOLDER && TokenAt(a + PLACEHOLDER, 0, a)
  {
    forall i: nat ensures !TokenAt(a + b, i, a) { NoTokenBeforeWord(a, b, i); }
    NoTokenNoChange(a + b, a);
    TwoPasses(a + b, a, b);
    LastWordReplaced(a, b);
    hide Replace, Passes;
    var out := a + PLACEHOLDER;
    assert out[0..|a|] == a && out[|a|] == '[';
  }

  /** A token of the word that starts inside a lies inside a: it cannot contain a's last character. */
  lemma WordBefore(a: Term, b: Term, k: nat)
    requires SingleWord(b) && !EndsWithWord(a) && k < |a| && TokenAt(a + b, k, b)
    ensures TokenAt(a, k, b)
  {
    var s, n := a + b, |a|;
    TokenChars(s, k, b);
    forall j | k <= j < k + |b| ensures IsWord(s[j]) {
      assert IsWord(s[k + (j - k)]) == IsWord(b[j - k]);
    }
    assert !IsWord(s[n - 1]);
    assert s[k..k + |b|] == a[k..k + |b|];
  }

  /** A SECOND TERM THAT IS ONE WORD. Redacting with a plain term and then a plain single word is complete for both if and only
      if the first term is bounded by word characters, or the word is itself a token of it. */
  lemma WordSecondCompleteIff(a: Term, b: Term)
    requires Plain(a) && Plain(b) && SingleWord(b)
    ensures PairComplete(a, b) <==> WordBounded(a) || TokenIn(a, b)
  {
    assert IsWord(b[0]) && IsWord(b[|b| - 1]);
    if WordBounded(a) {
      CompatiblePair(a, b);
    } else if TokenIn(a, b) {
      InnerTokenPair(a, b);
    } else if !StartsWithWord(a) {
      ExposedOnTheRight(a, b);
      assert TokenIn(Passes(b + a, [a, b]).0, a);
    } else {
      ExposedOnTheLeft(a, b);
      assert TokenIn(Passes(a + b, [a, b]).0, a);
    }
  }

  /** Any stretch as long as b of b twice over contains each character of b. */
  lemma DoubleHasNoWord(a: Term, b: Term, i: nat)
    requires SingleWord(a) && |a| >= |b| && StartsWithWord(b) != EndsWithWord(b)
    ensures !TokenAt(b + b, i, a)
  {
    var s, n := b + b, |b|;
    if TokenAt(s, i, a) {
      var first := if StartsWithWord(b) then n - 1 else 0;
      var at := if i <= first then first else first + n;
      assert s[at] == b[first];
      TokenChars(s, i, a);
      assert false;
    }
  }

  /** A FIRST TERM THAT IS ONE WORD, at least as long as the second. Redacting with both is complete for both if and only if the
      second term is complete alone: its two ends are on the same side of the word boundary. */
  lemma WordFirstCompleteIff(a: Term, b: Term)
    requires Plain(a) && Plain(b) && SingleWord(a) && |a| >= |b|
    ensures PairComplete(a, b) <==> StartsWithWord(b) == EndsWithWord(b)
  {
    assert IsWord(a[0]) && IsWord(a[|a| - 1]);
    if StartsWithWord(b) == EndsWithWord(b) {
      CompatiblePair(a, b);
    } else {
      var content: string := b + b;
      forall i: nat ensures !TokenAt(content, i, a) { DoubleHasNoWord(a, b, i); }
      NoTokenNoChange(content, a);
      TwoPasses(content, a, b);
      DoubledSurvives(b);
      assert TokenIn(Passes(content, [a, b]).0, b);
    }
  }

  lemma DoubledSurvives(t: Term)
    requires Plain(t) && StartsWithWord(t) != EndsWithWord(t)
    ensures TokenIn(Replace(false, t + t, t).0, t)
  {
    var cells := Chars(t + t);
    CharsShown(t + t);
    if StartsWithWord(t) { DoubledOpenEnd(t); } else { DoubledOpenStart(t); }
    PassesAgree(false, cells, t);
    PassesAgree(false, CutCells(false, cells, t), t);
    TokenPositions(false, Replace(false, t + t, t).0, t);
  }

  /** The term lists for which these passes are what redaction does: two different eligible terms, the longer one first or,
      for equal lengths, the one listed first. */
  lemma PairOrdered(a: Term, b: Term)
    requires Eligible(a) && Eligible(b) && a != b && |a| >= |b|
    ensures Ordered([a, b]) == [a, b] && (|a| > |b| ==> Ordered([b, a]) == [a, b])
  {
    DistinctPair(a, b);
    DistinctPair(b, a);
    SortedPair(a, b);
    hide Distinct, SortByLength, Eligible;
  }

  lemma SortedOne(a: Term)
    ensures SortByLength([a]) == [a]
  {
    assert [a][..0] == [];
    assert SortByLength([]) == [];
    assert InsertByLength(a, []) == [a];
  }

  lemma SortedPair(a: Term, b: Term)
    requires |a| >= |b|
    ensures SortByLength([a, b]) == [a, b]
    ensures |a| > |b| ==> SortByLength([b, a]) == [a, b]
  {
    assert [a, b][..1] == [a] && [b, a][..1] == [b] && [a][1..] == [];
    SortedOne(a);
    SortedOne(b);
    assert InsertByLength(b, []) == [b];
    assert InsertByLength(b, [a]) == [a] + InsertByLength(b, []);
    if |a| > |b| { assert InsertByLength(a, [b]) == [a] + [b]; }
  }

  lemma DistinctPair(a: Term, b: Term)
    requires Eligible(a) && Eligible(b) && a != b
    ensures Distinct([a, b]) == [a, b]
  {
    hide Eligible;
    assert [a, b][..1] == [a] && [a][..0] == [];
    assert Distinct([]) == [];
    assert Distinct([a]) == [a];
  }
}
