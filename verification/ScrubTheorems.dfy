/** What redaction guarantees: completeness, conservation of the other text, idempotence, and exactly when a term
    can survive its own redaction. */
module ScrubTheorems {
  import opened Wrappers
  import opened Text
  import opened Scrub
  import opened MarkedText

  /** A whole-token occurrence of t at position i of s, ignoring ASCII case. */
  predicate TokenAt(s: string, i: nat, t: Term) {
    i + |t| <= |s| && FoldEq(s[i..i + |t|], t)
    && (i == 0 || !IsWord(s[i - 1])) && (i + |t| == |s| || !IsWord(s[i + |t|]))
  }

  predicate WordBounded(t: Term) { StartsWithWord(t) && EndsWithWord(t) }

  /** Replacing t2 cannot turn a non-token occurrence of t1 into a token. */
  predicate Compatible(t1: Term, t2: Term) {
    (EndsWithWord(t1) || !StartsWithWord(t2)) && (StartsWithWord(t1) || !EndsWithWord(t2))
  }

  lemma TokenShift(s: string, i: nat, t: Term)
    requires |s| > 0
    ensures TokenAt(s, i + 1, t) <==> TokenAt(s[1..], i, t) && (i == 0 ==> !IsWord(s[0]))
  {
    if i + 1 + |t| <= |s| {
      assert s[1..][i..i + |t|] == s[i + 1..i + 1 + |t|];
    }
  }

  lemma TokenAtStart(s: string, t: Term)
    ensures TokenAt(s, 0, t) <==> MatchAt(false, s, t)
  {
    if |t| <= |s| {
      assert s[0..|t|] == s[..|t|];
    }
  }

  /** The recursive test agrees with the positional definition. */
  lemma {:induction false} TokenPositions(afterWord: bool, s: string, t: Term)
    ensures HasToken(afterWord, s, t) <==>
            exists i: nat :: TokenAt(s, i, t) && (i == 0 ==> !afterWord)
    decreases |s|
  {
    TokenAtStart(s, t);
    if |s| > 0 {
      TokenPositions(IsWord(s[0]), s[1..], t);
      forall i: nat ensures TokenAt(s, i + 1, t) <==> TokenAt(s[1..], i, t) && (i == 0 ==> !IsWord(s[0])) {
        TokenShift(s, i, t);
      }
      hide TokenAt;
      if i: nat :| TokenAt(s, i, t) && (i == 0 ==> !afterWord) {
        if i > 0 {
          var j: nat := i - 1;
          assert TokenAt(s, j + 1, t);
          assert TokenAt(s[1..], j, t) && (j == 0 ==> !IsWord(s[0]));
        }
      }
    }
  }

  // ---------------------------------------------------------------- completeness

  /** Where a cut text begins with n character cells, the uncut text begins with the same cells. */
  lemma {:induction false} KeptPrefix(afterWord: bool, cells: seq<Cell>, t: Term, n: nat)
    requires n <= |CutCells(afterWord, cells, t)|
    requires forall i :: 0 <= i < n ==> CutCells(afterWord, cells, t)[i].Ch?
    ensures n <= |cells| && CutCells(afterWord, cells, t)[..n] == cells[..n]
    ensures CutCells(afterWord, cells, t)[n..] == CutCells(if n == 0 then afterWord else CellWord(cells[n - 1]), cells[n..], t)
    decreases n
  {
    var cut := CutCells(afterWord, cells, t);
    if n == 0 {
      WholeSlice(cells);
      WholeSlice(cut);
    } else {
      assert cut[0].Ch?;
      var w, rest := CellWord(cells[0]), CutCells(CellWord(cells[0]), cells[1..], t);
      assert cut[1..] == rest && cut[0] == cells[0];
      hide CellsMatch;
      assert forall i :: 0 <= i < n - 1 ==> rest[i] == cut[i + 1];
      KeptPrefix(w, cells[1..], t, n - 1);
      TailSlices(cells, n);
      TailSlices(cut, n);
    }
  }

  /** The word-ness before a position of the cut text, next to that of the uncut text: they differ only just after
      a replacement, where the next cell is not a word character. */
  predicate Context(shownWord: bool, sourceWord: bool, cells: seq<Cell>, t: Term) {
    shownWord == sourceWord
    || (!shownWord && sourceWord == EndsWithWord(t) && (|cells| == 0 || !CellWord(cells[0])))
  }

  /** If the first cell of a cut text is no word character, neither was the first cell before the cut. */
  lemma NextCellReflects(afterWord: bool, cells: seq<Cell>, t: Term)
    requires |cells| > 0 && (afterWord || !StartsWithWord(t))
    ensures |CutCells(afterWord, cells, t)| > 0
    ensures !CellWord(CutCells(afterWord, cells, t)[0]) ==> !CellWord(cells[0])
  {
    if CellsMatch(afterWord, cells, t) {
      FoldKeepsWord(cells[0].c, t[0]);
    }
  }

  lemma HeadContext(shownWord: bool, sourceWord: bool, cells: seq<Cell>, t1: Term, t2: Term)
    requires Compatible(t1, t2) && Context(shownWord, sourceWord, cells, t2) && !shownWord
    requires |cells| > 0 && cells[0].Ch? && FoldChar(cells[0].c) == FoldChar(t1[0])
    ensures !sourceWord
  {
    FoldKeepsWord(cells[0].c, t1[0]);
  }

  /** A match of t1 at the head of the cut text was a match before the cut. */
  lemma HeadMatchReflects(shownWord: bool, sourceWord: bool, cells: seq<Cell>, t1: Term, t2: Term)
    requires Compatible(t1, t2) && Context(shownWord, sourceWord, cells, t2)
    requires CellsMatch(shownWord, CutCells(sourceWord, cells, t2), t1)
    ensures CellsMatch(sourceWord, cells, t1)
  {
    var cut, n := CutCells(sourceWord, cells, t2), |t1|;
    KeptPrefix(sourceWord, cells, t2, n);
    forall i | 0 <= i < n ensures cells[i].Ch? && FoldChar(cells[i].c) == FoldChar(t1[i]) {
      assert cut[..n][i] == cells[..n][i];
    }
    HeadContext(shownWord, sourceWord, cells, t1, t2);
    if |cells| > n {
      var w := CellWord(cells[n - 1]);
      FoldKeepsWord(cells[n - 1].c, t1[n - 1]);
      assert cut[n..] == CutCells(w, cells[n..], t2);
      NextCellReflects(w, cells[n..], t2);
    }
  }

  /** An occurrence further on is an occurrence. */
  lemma {:induction false} HasCellsLater(afterWord: bool, cells: seq<Cell>, t: Term, n: nat)
    requires 0 < n <= |cells| && HasCells(CellWord(cells[n - 1]), cells[n..], t)
    ensures HasCells(afterWord, cells, t)
    decreases n
  {
    if n > 1 {
      TailSlices(cells, n);
      HasCellsLater(CellWord(cells[0]), cells[1..], t, n - 1);
    }
  }

  /** Cutting t2 introduces no occurrence of t1. */
  lemma {:induction false} CutReflects(shownWord: bool, sourceWord: bool, cells: seq<Cell>, t1: Term, t2: Term)
    requires Compatible(t1, t2) && Context(shownWord, sourceWord, cells, t2)
    requires HasCells(shownWord, CutCells(sourceWord, cells, t2), t1)
    ensures HasCells(sourceWord, cells, t1)
    decreases |cells|
  {
    var cut := CutCells(sourceWord, cells, t2);
    if CellsMatch(shownWord, cut, t1) {
      HeadMatchReflects(shownWord, sourceWord, cells, t1, t2);
    } else if CellsMatch(sourceWord, cells, t2) {
      CutReflects(false, EndsWithWord(t2), cells[|t2|..], t1, t2);
      FoldKeepsWord(cells[|t2| - 1].c, t2[|t2| - 1]);
      HasCellsLater(sourceWord, cells, t1, |t2|);
    } else {
      CutReflects(CellWord(cells[0]), CellWord(cells[0]), cells[1..], t1, t2);
    }
  }

  /** After a pass for t no occurrence of t is left. */
  lemma {:induction false} CutClears(shownWord: bool, sourceWord: bool, cells: seq<Cell>, t: Term)
    requires Compatible(t, t) && Context(shownWord, sourceWord, cells, t)
    ensures !HasCells(shownWord, CutCells(sourceWord, cells, t), t)
    decreases |cells|
  {
    if |cells| > 0 {
      if CellsMatch(shownWord, CutCells(sourceWord, cells, t), t) {
        HeadMatchReflects(shownWord, sourceWord, cells, t, t);
      }
      if CellsMatch(sourceWord, cells, t) {
        CutClears(false, EndsWithWord(t), cells[|t|..], t);
      } else {
        CutClears(CellWord(cells[0]), CellWord(cells[0]), cells[1..], t);
      }
    }
  }

  /** Later passes do not bring back a term that is absent. */
  lemma {:induction false} AbsentStaysAbsent(cells: seq<Cell>, t: Term, later: seq<Term>)
    requires !HasCells(false, cells, t) && forall u :: u in later ==> Compatible(t, u)
    ensures !HasCells(false, CutAll(cells, later), t)
    decreases |later|
  {
    if |later| > 0 {
      if HasCells(false, CutCells(false, cells, later[0]), t) {
        CutReflects(false, false, cells, t, later[0]);
      }
      AbsentStaysAbsent(CutCells(false, cells, later[0]), t, later[1..]);
    }
  }

  lemma {:induction false} AllAbsent(cells: seq<Cell>, terms: seq<Term>, k: nat)
    requires k < |terms| && forall i, j :: 0 <= i <= j < |terms| ==> Compatible(terms[i], terms[j])
    ensures !HasCells(false, CutAll(cells, terms), terms[k])
    decreases |terms|
  {
    var cut := CutCells(false, cells, terms[0]);
    if k == 0 {
      CutClears(false, false, cells, terms[0]);
      AbsentStaysAbsent(cut, terms[0], terms[1..]);
    } else {
      AllAbsent(cut, terms[1..], k - 1);
    }
  }

  /** No term touches a placeholder and no later term can expose an earlier one. */
  predicate Orderly(terms: seq<string>) {
    var ordered := Ordered(terms);
    && (forall k :: 0 <= k < |ordered| ==> Plain(ordered[k]))
    && (forall j, k :: 0 <= j <= k < |ordered| ==> Compatible(ordered[j], ordered[k]))
  }

  /** The simple sufficient condition: every term is plain and starts and ends with a word character. */
  predicate Redactable(terms: seq<string>) {
    forall k :: 0 <= k < |Ordered(terms)| ==> Plain(Ordered(terms)[k]) && WordBounded(Ordered(terms)[k])
  }

  /** COMPLETENESS. For orderly terms the output holds no whole-token occurrence of any eligible term. */
  lemma RedactionIsComplete(content: string, terms: seq<string>, t: Term, i: nat)
    requires Orderly(terms)
    requires t in terms && Eligible(t)
    ensures !TokenAt(Redact(content, terms).0, i, t)
  {
    var cells, ordered := Chars(content), Ordered(terms);
    CharsShown(content);
    AllPassesAgree(cells, ordered);
    var k :| 0 <= k < |ordered| && ordered[k] == t;
    AllAbsent(cells, ordered, k);
    PassesAgree(false, CutAll(cells, ordered), t);
    TokenPositions(false, Redact(content, terms).0, t);
  }

  // ---------------------------------------------------------------- idempotence

  lemma {:induction false} NothingToReplace(afterWord: bool, s: string, t: Term)
    requires !HasToken(afterWord, s, t)
    ensures Replace(afterWord, s, t) == (s, 0)
    decreases |s|
  {
    if |s| > 0 {
      NothingToReplace(IsWord(s[0]), s[1..], t);
      assert s == [s[0]] + s[1..];
    }
  }

  lemma {:induction false} NothingToPass(s: string, terms: seq<Term>)
    requires forall k :: 0 <= k < |terms| ==> !HasToken(false, s, terms[k])
    ensures Passes(s, terms) == (s, 0)
    decreases |terms|
  {
    if |terms| > 0 {
      NothingToReplace(false, s, terms[0]);
      forall k | 0 <= k < |terms| - 1 ensures !HasToken(false, s, terms[1..][k]) {
        assert terms[1..][k] == terms[k + 1];
      }
      NothingToPass(s, terms[1..]);
    }
  }

  /** IDEMPOTENCE. Redacting the output again changes nothing and replaces nothing. */
  lemma RedactionIsIdempotent(content: string, terms: seq<string>)
    requires Orderly(terms)
    ensures Redact(Redact(content, terms).0, terms) == (Redact(content, terms).0, 0)
  {
    var ordered, out := Ordered(terms), Redact(content, terms).0;
    forall k | 0 <= k < |ordered| ensures !HasToken(false, out, ordered[k]) {
      var t := ordered[k];
      assert t in ordered;
      forall i: nat ensures !TokenAt(out, i, t) { RedactionIsComplete(content, terms, t, i); }
      TokenPositions(false, out, t);
    }
    NothingToPass(out, ordered);
  }

  lemma RedactableIsOrderly(terms: seq<string>)
    requires Redactable(terms)
    ensures Orderly(terms)
  {
  }

  // ---------------------------------------------------------------- conservation

  lemma {:induction false} SourceSplit(cells: seq<Cell>, n: nat)
    requires n <= |cells|
    ensures Source(cells) == Source(cells[..n]) + Source(cells[n..])
  {
    if n > 0 {
      SourceSplit(cells[1..], n - 1);
      TailSlices(cells, n);
      Assoc(CellSource(cells[0]), Source(cells[1..][..n - 1]), Source(cells[n..]));
    } else {
      WholeSlice(cells);
    }
  }

  lemma {:induction false} SourceOfChars(cells: seq<Cell>, n: nat)
    requires n <= |cells| && forall i :: 0 <= i < n ==> cells[i].Ch?
    ensures |Source(cells[..n])| == n
    ensures forall i :: 0 <= i < n ==> Source(cells[..n])[i] == cells[i].c
  {
    if n > 0 {
      SourceOfChars(cells[1..], n - 1);
      TailSlices(cells, n);
    }
  }

  lemma SourceOfCons(cell: Cell, cells: seq<Cell>)
    ensures Source([cell] + cells) == CellSource(cell) + Source(cells)
  {
    assert ([cell] + cells)[1..] == cells;
  }

  predicate HolesFit(cells: seq<Cell>, terms: seq<Term>) {
    forall i :: 0 <= i < |cells| && cells[i].Hole? ==> cells[i].term in terms && FoldEq(cells[i].was, cells[i].term)
  }

  lemma {:induction false} CutConserves(afterWord: bool, cells: seq<Cell>, t: Term, terms: seq<Term>)
    requires t in terms && HolesFit(cells, terms)
    ensures Source(CutCells(afterWord, cells, t)) == Source(cells)
    ensures HolesFit(CutCells(afterWord, cells, t), terms)
    decreases |cells|
  {
    if |cells| > 0 {
      if CellsMatch(afterWord, cells, t) {
        var was := Source(cells[..|t|]);
        SourceSplit(cells, |t|);
        SourceOfChars(cells, |t|);
        assert FoldEq(was, t);
        CutConserves(EndsWithWord(t), cells[|t|..], t, terms);
        SourceOfCons(Hole(was, t), CutCells(EndsWithWord(t), cells[|t|..], t));
      } else {
        CutConserves(CellWord(cells[0]), cells[1..], t, terms);
        SourceOfCons(cells[0], CutCells(CellWord(cells[0]), cells[1..], t));
      }
    }
  }

  lemma {:induction false} CutAllConserves(cells: seq<Cell>, later: seq<Term>, terms: seq<Term>)
    requires HolesFit(cells, terms) && forall t :: t in later ==> t in terms
    ensures Source(CutAll(cells, later)) == Source(cells)
    ensures HolesFit(CutAll(cells, later), terms)
    decreases |later|
  {
    if |later| > 0 {
      CutConserves(false, cells, later[0], terms);
      CutAllConserves(CutCells(false, cells, later[0]), later[1..], terms);
    }
  }

  /** The redacted content with every replaced stretch remembered. */
  function Marked(content: string, terms: seq<string>): seq<Cell> {
    CutAll(Chars(content), Ordered(terms))
  }

  /** CONSERVATION. The output is the input with exactly `replacements` disjoint stretches, each equal to an eligible
      term up to case, swapped for the placeholder; all other text is kept in order. */
  lemma RedactionIsConservative(content: string, terms: seq<string>)
    requires forall k :: 0 <= k < |Ordered(terms)| ==> Plain(Ordered(terms)[k])
    ensures var cells := Marked(content, terms);
            Source(cells) == content && Shown(cells) == Redact(content, terms).0
            && Holes(cells) == Redact(content, terms).1 && HolesFit(cells, Ordered(terms))
  {
    CharsShown(content);
    AllPassesAgree(Chars(content), Ordered(terms));
    CutAllConserves(Chars(content), Ordered(terms), Ordered(terms));
  }

  /** What precedes a cell: nothing or a non-word character, a word character, or a replaced stretch. */
  datatype Before = Open | Word | Replaced

  /** Every replaced stretch is bounded on both sides by an end of the text or a non-word character of the source. */
  predicate Spaced(before: Before, cells: seq<Cell>)
    decreases |cells|
  {
    |cells| == 0 ||
    match cells[0]
    case Hole(_, _) => before == Open && Spaced(Replaced, cells[1..])
    case Ch(c) => (before == Replaced ==> !IsWord(c)) && Spaced(if IsWord(c) then Word else Open, cells[1..])
  }

  lemma {:induction false} SpacedLater(before: Before, cells: seq<Cell>, n: nat)
    requires Spaced(before, cells) && 0 < n <= |cells| && forall i :: 0 <= i < n ==> cells[i].Ch?
    ensures Spaced(if CellWord(cells[n - 1]) then Word else Open, cells[n..])
    decreases n
  {
    if n > 1 {
      SpacedLater(if CellWord(cells[0]) then Word else Open, cells[1..], n - 1);
      TailSlices(cells, n);
    }
  }

  lemma {:induction false} CutKeepsSpacing(before: Before, source: Before, cells: seq<Cell>, t: Term)
    requires WordBounded(t) && Spaced(source, cells)
    requires before == source || (before == Replaced && source == Word && (|cells| == 0 || !CellWord(cells[0])))
    ensures Spaced(before, CutCells(source == Word, cells, t))
    decreases |cells|
  {
    if |cells| > 0 {
      if CellsMatch(source == Word, cells, t) {
        FoldKeepsWord(cells[0].c, t[0]);
        FoldKeepsWord(cells[|t| - 1].c, t[|t| - 1]);
        SpacedLater(source, cells, |t|);
        CutKeepsSpacing(Replaced, Word, cells[|t|..], t);
      } else {
        var next := if cells[0].Hole? then Replaced else if CellWord(cells[0]) then Word else Open;
        CutKeepsSpacing(next, next, cells[1..], t);
      }
    }
  }

  lemma {:induction false} CutAllKeepsSpacing(cells: seq<Cell>, terms: seq<Term>)
    requires Spaced(Open, cells) && forall k :: 0 <= k < |terms| ==> WordBounded(terms[k])
    ensures Spaced(Open, CutAll(cells, terms))
    decreases |terms|
  {
    if |terms| > 0 {
      CutKeepsSpacing(Open, Open, cells, terms[0]);
      CutAllKeepsSpacing(CutCells(false, cells, terms[0]), terms[1..]);
    }
  }

  lemma {:induction false} CharsSpaced(before: Before, s: string)
    requires before != Replaced
    ensures Spaced(before, Chars(s))
    decreases |s|
  {
    if |s| > 0 {
      assert Chars(s)[1..] == Chars(s[1..]);
      CharsSpaced(if IsWord(s[0]) then Word else Open, s[1..]);
    }
  }

  /** The neighbours of a replaced stretch. */
  lemma {:induction false} SpacedNeighbours(before: Before, cells: seq<Cell>, i: nat)
    requires Spaced(before, cells) && i < |cells| && cells[i].Hole?
    ensures i == 0 ==> before == Open
    ensures i > 0 ==> cells[i - 1].Ch? && !IsWord(cells[i - 1].c)
    ensures i + 1 < |cells| ==> cells[i + 1].Ch? && !IsWord(cells[i + 1].c)
    decreases |cells|
  {
    if i > 0 {
      SpacedNeighbours(if cells[0].Hole? then Replaced else if CellWord(cells[0]) then Word else Open, cells[1..], i - 1);
    }
  }

  lemma SourceEndsWith(cells: seq<Cell>, i: nat)
    requires 0 < i <= |cells| && cells[i - 1].Ch?
    ensures |Source(cells[..i])| > 0 && Source(cells[..i])[|Source(cells[..i])| - 1] == cells[i - 1].c
  {
    SourceSplit(cells[..i], i - 1);
    var last := cells[..i][i - 1..];
    assert last == [cells[i - 1]];
    assert Source(last) == [cells[i - 1].c];
  }

  /** A cell's source sits in the text after the sources of the cells before it. */
  lemma SourcePosition(cells: seq<Cell>, i: nat)
    requires i < |cells|
    ensures Source(cells) == Source(cells[..i]) + (CellSource(cells[i]) + Source(cells[i + 1..]))
  {
    SourceSplit(cells, i);
    assert cells[i..][1..] == cells[i + 1..];
  }

  lemma TokenBetween(pre: string, was: string, post: string, t: Term)
    requires FoldEq(was, t)
    requires |pre| > 0 ==> !IsWord(pre[|pre| - 1])
    requires |post| > 0 ==> !IsWord(post[0])
    ensures TokenAt(pre + (was + post), |pre|, t)
  {
    var s := pre + (was + post);
    assert s[|pre|..|pre| + |t|] == was;
    assert |pre| > 0 ==> s[|pre| - 1] == pre[|pre| - 1];
    assert |post| > 0 ==> s[|pre| + |t|] == post[0];
  }

  lemma HoleIsToken(cells: seq<Cell>, terms: seq<Term>, i: nat)
    requires Spaced(Open, cells) && HolesFit(cells, terms) && i < |cells| && cells[i].Hole?
    ensures TokenAt(Source(cells), |Source(cells[..i])|, cells[i].term)
  {
    SpacedNeighbours(Open, cells, i);
    SourcePosition(cells, i);
    if i > 0 {
      SourceEndsWith(cells, i);
    }
    TokenBetween(Source(cells[..i]), cells[i].was, Source(cells[i + 1..]), cells[i].term);
  }

  /** Under word-bounded terms every replaced stretch was a whole-token occurrence in the input itself. */
  lemma ReplacedStretchesAreTokens(content: string, terms: seq<string>, i: nat)
    requires Redactable(terms)
    ensures var cells := Marked(content, terms);
            i < |cells| && cells[i].Hole? ==> TokenAt(content, |Source(cells[..i])|, cells[i].term)
  {
    RedactionIsConservative(content, terms);
    CharsSpaced(Open, content);
    CutAllKeepsSpacing(Chars(content), Ordered(terms));
    if i < |Marked(content, terms)| && Marked(content, terms)[i].Hole? {
      HoleIsToken(Marked(content, terms), Ordered(terms), i);
    }
  }

  // ---------------------------------------------------------------- exactly when one term is complete

  lemma {:induction false} ShortTextUncut(afterWord: bool, cells: seq<Cell>, t: Term)
    requires |cells| < |t|
    ensures CutCells(afterWord, cells, t) == cells
    decreases |cells|
  {
    if |cells| > 0 {
      ShortTextUncut(CellWord(cells[0]), cells[1..], t);
      assert cells == [cells[0]] + cells[1..];
    }
  }

  /** No match starts at the first n cells. */
  predicate Quiet(afterWord: bool, cells: seq<Cell>, t: Term, n: nat)
    decreases n
  {
    n == 0 || (|cells| > 0 && !CellsMatch(afterWord, cells, t) && Quiet(CellWord(cells[0]), cells[1..], t, n - 1))
  }

  /** A match after n quiet cells is cut, and those cells are kept. */
  lemma {:induction false} CutAfterQuiet(afterWord: bool, cells: seq<Cell>, t: Term, n: nat)
    requires n < |cells| && Quiet(afterWord, cells, t, n)
    requires CellsMatch(if n == 0 then afterWord else CellWord(cells[n - 1]), cells[n..], t)
    ensures var cut := CutCells(afterWord, cells, t);
            |cut| > n && cut[n].Hole? && forall i :: 0 <= i < n ==> cut[i] == cells[i]
    decreases n
  {
    hide CellsMatch;
    if n == 0 {
      WholeSlice(cells);
    } else {
      TailSlices(cells, n);
      CutAfterQuiet(CellWord(cells[0]), cells[1..], t, n - 1);
    }
  }

  lemma LastCopyUncut(t: Term)
    ensures CutCells(true, Chars(t), t) == Chars(t)
  {
    var one := Chars(t);
    ShortTextUncut(CellWord(one[0]), one[1..], t);
    assert one == [one[0]] + one[1..];
  }

  /** A term that starts with a non-word character and ends with a word character survives in its own double. */
  lemma DoubledOpenStart(t: Term)
    requires !StartsWithWord(t) && EndsWithWord(t)
    ensures HasCells(false, CutCells(false, Chars(t + t), t), t)
  {
    var cells, one := Chars(t + t), Chars(t);
    assert cells[|t|..] == one;
    assert CellsMatch(false, cells, t);
    LastCopyUncut(t);
    assert CutCells(false, cells, t)[1..] == one;
    assert CellsMatch(false, one, t);
  }

  /** In text of period |t| no match of a term that starts with a word character starts before the last period: the
      character after such a match would repeat its first one. */
  lemma {:induction false} PeriodicQuiet(t: Term, afterWord: bool, cells: seq<Cell>)
    requires StartsWithWord(t) && |t| <= |cells|
    requires forall i :: 0 <= i < |cells| - |t| ==> cells[i + |t|] == cells[i]
    ensures Quiet(afterWord, cells, t, |cells| - |t|)
    decreases |cells|
  {
    if |cells| > |t| {
      var rest := cells[1..];
      assert cells[0 + |t|] == cells[0];
      if CellsMatch(afterWord, cells, t) {
        FoldKeepsWord(cells[0].c, t[0]);
        assert false;
      }
      forall i | 0 <= i < |rest| - |t| ensures rest[i + |t|] == rest[i] {
        assert cells[i + 1 + |t|] == cells[i + 1];
      }
      PeriodicQuiet(t, CellWord(cells[0]), rest);
    }
  }

  /** A term that starts with a word character and ends with a non-word character survives in its own double. */
  lemma DoubledOpenEnd(t: Term)
    requires StartsWithWord(t) && !EndsWithWord(t)
    ensures HasCells(false, CutCells(false, Chars(t + t), t), t)
  {
    var cells, one, n := Chars(t + t), Chars(t), |t|;
    assert cells[n..] == one;
    PeriodicQuiet(t, false, cells);
    assert CellsMatch(false, one, t);
    CutAfterQuiet(false, cells, t, n);
    assert CellsMatch(false, CutCells(false, cells, t), t);
  }

  /** EXACTLY WHEN. Redacting with one plain term leaves no token of it in any content if and only if the term's two
      end characters are on the same side of the word boundary. A phone number with a leading plus sign is not. */
  lemma SingleTermCompleteIff(t: Term)
    requires Plain(t)
    ensures (forall content: string, i: nat :: !TokenAt(Replace(false, content, t).0, i, t))
            <==> StartsWithWord(t) == EndsWithWord(t)
  {
    if StartsWithWord(t) == EndsWithWord(t) {
      forall content: string, i: nat ensures !TokenAt(Replace(false, content, t).0, i, t) {
        var cells := Chars(content);
        CharsShown(content);
        CutClears(false, false, cells, t);
        PassesAgree(false, cells, t);
        PassesAgree(false, CutCells(false, cells, t), t);
        TokenPositions(false, Replace(false, content, t).0, t);
      }
    } else {
      var content: string := t + t;
      var cells := Chars(content);
      CharsShown(content);
      if StartsWithWord(t) { DoubledOpenEnd(t); } else { DoubledOpenStart(t); }
      PassesAgree(false, cells, t);
      PassesAgree(false, CutCells(false, cells, t), t);
      TokenPositions(false, Replace(false, content, t).0, t);
    }
  }

  /** The term "redacted" finds itself in the placeholder, so its output always keeps a token of it. */
  lemma PlaceholderWordSurvives()
    ensures TokenAt(Replace(false, "redacted", "redacted").0, 1, "redacted")
  {
    var s, t: Term := "redacted", "redacted";
    assert s[..|t|] == t;
    assert MatchAt(false, s, t);
    assert Replace(true, s[|t|..], t) == ([], 0);
    assert Replace(false, s, t).0 == PLACEHOLDER + [];
    assert PLACEHOLDER[1..9] == "REDACTED";
  }

  /** A later word-bounded term can expose an earlier term that is bounded by non-word characters. */
  lemma LaterTermExposesEarlier()
    ensures var dashed: Term, plain: Term := "-b-", "aa";
            Passes("aa-b-", [dashed, plain]).0 == "[REDACTED]-b-" && TokenAt("[REDACTED]-b-", 10, dashed)
  {
    var dashed: Term, plain: Term := "-b-", "aa";
    var s, rest := "aa-b-", "-b-";
    assert s[2..] == rest;
    assert s[1..][1..] == rest;
    assert !HasToken(true, s[1..], dashed) by { assert !HasToken(true, rest, dashed); }
    assert !MatchAt(false, s, dashed) by { assert s[..3][0] == 'a'; }
    NothingToReplace(false, s, dashed);
    assert s[..2] == plain;
    assert !HasToken(true, rest, plain);
    NothingToReplace(true, rest, plain);
    assert Replace(false, s, plain) == (PLACEHOLDER + rest, 1);
    assert [dashed, plain][1..] == [plain];
    var second: seq<Term> := [plain];
    assert second[1..] == [];
    assert Passes(s, second).0 == PLACEHOLDER + rest;
    assert Passes(s, [dashed, plain]) == (Passes(s, second).0, 0 + Passes(s, second).1);
    assert "[REDACTED]-b-"[10..13] == dashed;
  }
}
