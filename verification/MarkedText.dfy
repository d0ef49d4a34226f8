/** Marked text: redacted content in which each replaced stretch is one cell that remembers what it replaced. The
    passes on marked text show exactly what the passes on plain text produce. */
module MarkedText {
  import opened Wrappers
  import opened Text
  import opened Scrub

  datatype Cell = Ch(c: char) | Hole(was: string, term: Term)

  function CellText(cell: Cell): string {
    match cell case Ch(c) => [c] case Hole(_, _) => PLACEHOLDER
  }

  function CellSource(cell: Cell): string {
    match cell case Ch(c) => [c] case Hole(was, _) => was
  }

  predicate CellWord(cell: Cell) {
    cell.Ch? && IsWord(cell.c)
  }

  /** The text a reader sees. */
  function Shown(cells: seq<Cell>): string {
    if |cells| == 0 then [] else CellText(cells[0]) + Shown(cells[1..])
  }

  /** The text before any redaction. */
  function Source(cells: seq<Cell>): string {
    if |cells| == 0 then [] else CellSource(cells[0]) + Source(cells[1..])
  }

  function Holes(cells: seq<Cell>): nat {
    if |cells| == 0 then 0 else (if cells[0].Hole? then 1 else 0) + Holes(cells[1..])
  }

  function Chars(s: string): seq<Cell> {
    seq(|s|, i requires 0 <= i < |s| => Ch(s[i]))
  }

  /** The term cannot touch a placeholder: no bracket in it, and it is not the placeholder's word. */
  predicate Plain(t: Term) {
    '[' !in t && ']' !in t && !FoldEq(t, "redacted")
  }

  predicate StartsWithWord(t: Term) { IsWord(t[0]) }

  predicate EndsWithWord(t: Term) { IsWord(t[|t| - 1]) }

  // ---------------------------------------------------------------- tokens by recursion

  predicate HasToken(afterWord: bool, s: string, t: Term)
    decreases |s|
  {
    |s| > 0 && (MatchAt(afterWord, s, t) || HasToken(IsWord(s[0]), s[1..], t))
  }

  predicate CellsMatch(afterWord: bool, cells: seq<Cell>, t: Term) {
    !afterWord && |t| <= |cells|
    && (forall i :: 0 <= i < |t| ==> cells[i].Ch? && FoldChar(cells[i].c) == FoldChar(t[i]))
    && (|cells| == |t| || !CellWord(cells[|t|]))
  }

  predicate HasCells(afterWord: bool, cells: seq<Cell>, t: Term)
    decreases |cells|
  {
    |cells| > 0 && (CellsMatch(afterWord, cells, t) || HasCells(CellWord(cells[0]), cells[1..], t))
  }

  /** The replacement pass on marked text. */
  function CutCells(afterWord: bool, cells: seq<Cell>, t: Term): seq<Cell>
    decreases |cells|
  {
    if |cells| == 0 then []
    else if CellsMatch(afterWord, cells, t) then
      [Hole(Source(cells[..|t|]), t)] + CutCells(EndsWithWord(t), cells[|t|..], t)
    else
      [cells[0]] + CutCells(CellWord(cells[0]), cells[1..], t)
  }

  function CutAll(cells: seq<Cell>, terms: seq<Term>): seq<Cell>
    decreases |terms|
  {
    if |terms| == 0 then cells else CutAll(CutCells(false, cells, terms[0]), terms[1..])
  }

  // ---------------------------------------------------------------- marked text and plain text agree

  lemma {:induction false} ShownPrefix(cells: seq<Cell>, n: nat)
    requires n <= |cells| && forall i :: 0 <= i < n ==> cells[i].Ch?
    ensures |Shown(cells)| >= n
    ensures forall i :: 0 <= i < n ==> Shown(cells)[i] == cells[i].c
    ensures Shown(cells)[n..] == Shown(cells[n..])
    ensures |cells| == n <==> |Shown(cells)| == n
    ensures |cells| > n ==> IsWord(Shown(cells)[n]) == CellWord(cells[n])
  {
    if n == 0 {
      assert cells[0..] == cells;
    } else {
      ShownPrefix(cells[1..], n - 1);
      TailSlices(cells, n);
      var rest := Shown(cells[1..]);
      assert Shown(cells) == [cells[0].c] + rest;
      assert Shown(cells)[n..] == rest[n - 1..];
    }
  }

  /** A bracket-free term that matches the shown text lies on character cells only. */
  lemma {:induction false} ShownMatchIsCells(cells: seq<Cell>, t: string)
    requires '[' !in t && |t| <= |Shown(cells)| && FoldEq(Shown(cells)[..|t|], t)
    ensures |t| <= |cells|
    ensures forall i :: 0 <= i < |t| ==> cells[i].Ch? && FoldChar(cells[i].c) == FoldChar(t[i])
    decreases |t|
  {
    if |t| > 0 {
      assert Shown(cells)[..|t|][0] == Shown(cells)[0];
      assert t[0] in t;
      FoldKeepsWord(Shown(cells)[0], t[0]);
      assert cells[0].Ch?;
      assert Shown(cells)[1..] == Shown(cells[1..]);
      assert Shown(cells)[..|t|][1..] == Shown(cells[1..])[..|t| - 1];
      forall i | 0 <= i < |t| - 1
        ensures FoldChar(Shown(cells[1..])[..|t| - 1][i]) == FoldChar(t[1..][i])
      {
        assert Shown(cells)[..|t|][i + 1] == Shown(cells[1..])[..|t| - 1][i];
      }
      ShownMatchIsCells(cells[1..], t[1..]);
      forall i | 0 <= i < |t| ensures cells[i].Ch? && FoldChar(cells[i].c) == FoldChar(t[i]) {
        if i > 0 { assert cells[i] == cells[1..][i - 1]; }
      }
    }
  }

  lemma MatchAgrees(afterWord: bool, cells: seq<Cell>, t: Term)
    requires '[' !in t
    ensures MatchAt(afterWord, Shown(cells), t) == CellsMatch(afterWord, cells, t)
  {
    var s := Shown(cells);
    if MatchAt(afterWord, s, t) {
      ShownMatchIsCells(cells, t);
      ShownPrefix(cells, |t|);
    }
    if CellsMatch(afterWord, cells, t) {
      ShownPrefix(cells, |t|);
      forall i | 0 <= i < |t| ensures FoldChar(s[..|t|][i]) == FoldChar(t[i]) {}
    }
  }

  /** The text does not rule out a match of t at its start, whatever follows it. */
  predicate MayMatch(afterWord: bool, text: string, t: Term) {
    !afterWord && (forall i :: 0 <= i < |t| && i < |text| ==> FoldChar(text[i]) == FoldChar(t[i]))
    && (|t| < |text| ==> !IsWord(text[|t|]))
  }

  lemma MatchMay(afterWord: bool, text: string, rest: string, t: Term)
    ensures MatchAt(afterWord, text + rest, t) ==> MayMatch(afterWord, text, t)
  {
    if MatchAt(afterWord, text + rest, t) {
      var s := text + rest;
      forall i | 0 <= i < |t| && i < |text| ensures FoldChar(text[i]) == FoldChar(t[i]) {
        assert s[..|t|][i] == text[i];
      }
    }
  }

  lemma PlaceholderWord(t: Term)
    ensures |t| == 8 && (forall i :: 0 <= i < 8 ==> FoldChar("REDACTED]"[i]) == FoldChar(t[i])) ==> FoldEq(t, "redacted")
  {
    assert forall i :: 0 <= i < 8 ==> FoldChar("REDACTED]"[i]) == "redacted"[i] == FoldChar("redacted"[i]);
  }

  /** A plain term matches nowhere inside the placeholder's tail from position k on. */
  lemma NoMatchInPlaceholder(k: nat, t: Term)
    requires Plain(t) && k < |PLACEHOLDER|
    ensures !MayMatch(k > 0 && IsWord(PLACEHOLDER[k - 1]), PLACEHOLDER[k..], t)
  {
    var text := PLACEHOLDER[k..];
    PlaceholderWord(t);
    if MayMatch(k > 0 && IsWord(PLACEHOLDER[k - 1]), text, t) {
      assert text[0] == PLACEHOLDER[k] && t[0] in t;
      FoldKeepsWord(PLACEHOLDER[k], t[0]);
      assert k == 1;
      assert text == "REDACTED]";
      if |t| > 8 {
        assert t[8] in t;
        FoldKeepsWord(text[8], t[8]);
      }
      assert false;
    }
  }

  lemma SkipChar(afterWord: bool, c: char, rest: string, t: Term)
    requires !MatchAt(afterWord, [c] + rest, t)
    ensures Replace(afterWord, [c] + rest, t).0 == [c] + Replace(IsWord(c), rest, t).0
    ensures Replace(afterWord, [c] + rest, t).1 == Replace(IsWord(c), rest, t).1
    ensures HasToken(afterWord, [c] + rest, t) == HasToken(IsWord(c), rest, t)
  {
    assert ([c] + rest)[1..] == rest;
  }

  /** A text in which no match of t starts, whatever follows, and after which a token may start. */
  predicate Inert(afterWord: bool, text: string, t: Term)
    decreases |text|
  {
    if |text| == 0 then !afterWord
    else !MayMatch(afterWord, text, t) && Inert(IsWord(text[0]), text[1..], t)
  }

  lemma {:induction false} PlaceholderInert(k: nat, t: Term)
    requires Plain(t) && k <= |PLACEHOLDER|
    ensures Inert(k > 0 && IsWord(PLACEHOLDER[k - 1]), PLACEHOLDER[k..], t)
    decreases |PLACEHOLDER| - k
  {
    if k < |PLACEHOLDER| {
      NoMatchInPlaceholder(k, t);
      PlaceholderInert(k + 1, t);
      assert PLACEHOLDER[k..][1..] == PLACEHOLDER[k + 1..];
    }
  }

  /** A pass goes over an inert text without touching it. */
  lemma {:induction false} SkipInert(afterWord: bool, text: string, rest: string, t: Term)
    requires Inert(afterWord, text, t)
    ensures Replace(afterWord, text + rest, t).0 == text + Replace(false, rest, t).0
    ensures Replace(afterWord, text + rest, t).1 == Replace(false, rest, t).1
    ensures HasToken(afterWord, text + rest, t) == HasToken(false, rest, t)
    decreases |text|
  {
    if |text| == 0 {
      assert text + rest == rest;
      assert text + Replace(false, rest, t).0 == Replace(false, rest, t).0;
    } else {
      SkipInert(IsWord(text[0]), text[1..], rest, t);
      assert [text[0]] + text[1..] == text;
      Assoc([text[0]], text[1..], rest);
      MatchMay(afterWord, text, rest, t);
      SkipChar(afterWord, text[0], text[1..] + rest, t);
      Assoc([text[0]], text[1..], Replace(false, rest, t).0);
    }
  }

  lemma AfterWordAtHole(afterWord: bool, s: string, t: Term)
    requires Plain(t) && |s| > 0 && s[0] == '['
    ensures !MatchAt(afterWord, s, t)
  {
    if MatchAt(afterWord, s, t) {
      assert s[..|t|][0] == '[';
      assert t[0] in t;
      FoldKeepsWord('[', t[0]);
      assert false;
    }
  }

  /** The pass on marked text shows what the pass on plain text produces, and finds the same tokens. */
  lemma {:induction false} PassesAgree(afterWord: bool, cells: seq<Cell>, t: Term)
    requires Plain(t)
    ensures Shown(CutCells(afterWord, cells, t)) == Replace(afterWord, Shown(cells), t).0
    ensures Holes(CutCells(afterWord, cells, t)) == Holes(cells) + Replace(afterWord, Shown(cells), t).1
    ensures HasToken(afterWord, Shown(cells), t) == HasCells(afterWord, cells, t)
    decreases |cells|
  {
    if |cells| > 0 {
      var s := Shown(cells);
      MatchAgrees(afterWord, cells, t);
      if cells[0].Hole? {
        assert s == PLACEHOLDER + Shown(cells[1..]);
        AfterWordAtHole(afterWord, s, t);
        AfterWordAtHole(false, s, t);
        PlaceholderInert(0, t);
        assert PLACEHOLDER[0..] == PLACEHOLDER;
        SkipInert(false, PLACEHOLDER, Shown(cells[1..]), t);
        PassesAgree(false, cells[1..], t);
      } else {
        assert s[1..] == Shown(cells[1..]);
        PassesAgree(CellWord(cells[0]), cells[1..], t);
        if CellsMatch(afterWord, cells, t) {
          ShownPrefix(cells, |t|);
          FoldKeepsWord(s[|t| - 1], t[|t| - 1]);
          HolesOfPrefix(cells, |t|);
          PassesAgree(EndsWithWord(t), cells[|t|..], t);
        }
      }
    }
  }

  lemma {:induction false} HolesOfPrefix(cells: seq<Cell>, n: nat)
    requires n <= |cells| && forall i :: 0 <= i < n ==> cells[i].Ch?
    ensures Holes(cells) == Holes(cells[n..])
  {
    if n > 0 {
      HolesOfPrefix(cells[1..], n - 1);
      TailSlices(cells, n);
    } else {
      assert cells[0..] == cells;
    }
  }

  lemma {:induction false} AllPassesAgree(cells: seq<Cell>, terms: seq<Term>)
    requires forall t :: t in terms ==> Plain(t)
    ensures Shown(CutAll(cells, terms)) == Passes(Shown(cells), terms).0
    ensures Holes(CutAll(cells, terms)) == Holes(cells) + Passes(Shown(cells), terms).1
    decreases |terms|
  {
    if |terms| > 0 {
      PassesAgree(false, cells, terms[0]);
      AllPassesAgree(CutCells(false, cells, terms[0]), terms[1..]);
    }
  }

  lemma {:induction false} CharsShown(s: string)
    ensures Shown(Chars(s)) == s && Source(Chars(s)) == s && Holes(Chars(s)) == 0
  {
    if |s| > 0 {
      assert Chars(s)[1..] == Chars(s[1..]);
      CharsShown(s[1..]);
      assert s == [s[0]] + s[1..];
    }
  }
}
