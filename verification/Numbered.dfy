/** Maps whose keys are handed out as consecutive numbers. */
module Numbered {

  /** The n numbers after last. */
  function Following(last: nat, n: nat): (ids: set<nat>)
    ensures forall id :: id in ids <==> last < id <= last + n
  {
    if n == 0 then {} else Following(last, n - 1) + {last + n}
  }

  /** The map with the values xs at the numbers after last. */
  function Append<T>(m: map<nat, T>, last: nat, xs: seq<T>): map<nat, T> {
    m + (map id | id in Following(last, |xs|) :: xs[id - last - 1])
  }

  lemma AppendLookup<T>(m: map<nat, T>, last: nat, xs: seq<T>, id: nat)
    ensures var t := Append(m, last, xs);
            if last < id <= last + |xs| then id in t && t[id] == xs[id - last - 1]
            else (id in t <==> id in m) && (id in m ==> t[id] == m[id])
  {
    hide Following;
  }

  lemma AppendNone<T>(m: map<nat, T>, last: nat)
    ensures Append(m, last, []) == m
  {
    hide Following;
    assert forall id :: id !in Following(last, 0);
  }

  lemma AppendOne<T>(m: map<nat, T>, last: nat, xs: seq<T>, x: T)
    ensures Append(m, last, xs + [x]) == Append(m, last, xs)[last + |xs| + 1 := x]
  {
    var t, u := Append(m, last, xs + [x]), Append(m, last, xs)[last + |xs| + 1 := x];
    forall id: nat ensures id in t <==> id in u ensures id in t ==> t[id] == u[id] {
      AppendLookup(m, last, xs + [x], id);
      AppendLookup(m, last, xs, id);
    }
    hide Append;
    assert t.Keys == u.Keys;
    assert t == u;
  }

  lemma AppendUpdate<T>(m: map<nat, T>, last: nat, xs: seq<T>, k: nat, x: T)
    requires k < |xs|
    ensures last + 1 + k in Append(m, last, xs) && Append(m, last, xs)[last + 1 + k] == xs[k]
    ensures Append(m, last, xs[k := x]) == Append(m, last, xs)[last + 1 + k := x]
  {
    var t, u := Append(m, last, xs[k := x]), Append(m, last, xs)[last + 1 + k := x];
    AppendLookup(m, last, xs, last + 1 + k);
    forall id: nat ensures id in t <==> id in u ensures id in t ==> t[id] == u[id] {
      AppendLookup(m, last, xs[k := x], id);
      AppendLookup(m, last, xs, id);
    }
    hide Append;
    assert t.Keys == u.Keys;
    assert t == u;
  }

  /** Consecutive keys stay consecutive. */
  lemma AppendKeys<T>(m: map<nat, T>, last: nat, xs: seq<T>)
    requires forall id :: id in m <==> 1 <= id <= last
    ensures forall id :: id in Append(m, last, xs) <==> 1 <= id <= last + |xs|
    ensures forall id :: id in m ==> Append(m, last, xs)[id] == m[id]
    ensures forall i :: 0 <= i < |xs| ==> last + 1 + i in Append(m, last, xs) && Append(m, last, xs)[last + 1 + i] == xs[i]
  {
    hide Following;
  }
}
