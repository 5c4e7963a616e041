/** Sums of sequences of naturals under removal, update and pointwise change. */
module Sums {
  function Sum(ws: seq<nat>): nat {
    if ws == [] then 0 else Sum(ws[..|ws| - 1]) + ws[|ws| - 1]
  }

  lemma {:induction false} SumConcat(a: seq<nat>, b: seq<nat>)
    ensures Sum(a + b) == Sum(a) + Sum(b)
  {
    if b == [] {
      assert a + b == a;
    } else {
      var n := |b| - 1;
      assert (a + b)[..|a + b| - 1] == a + b[..n];
      SumConcat(a, b[..n]);
    }
  }

  lemma {:induction false} SumOne(w: nat)
    ensures Sum([w]) == w
  {
    assert [w][..0] == [];
  }

  lemma {:induction false} SumWithout(ws: seq<nat>, k: nat)
    requires k < |ws|
    ensures Sum(ws) == Sum(ws[..k] + ws[k + 1..]) + ws[k]
  {
    assert ws == ws[..k] + ([ws[k]] + ws[k + 1..]);
    SumConcat(ws[..k], [ws[k]] + ws[k + 1..]);
    SumConcat([ws[k]], ws[k + 1..]);
    SumConcat(ws[..k], ws[k + 1..]);
    SumOne(ws[k]);
  }

  lemma {:induction false} SumUpdate(ws: seq<nat>, k: nat, w: nat)
    requires k < |ws|
    ensures Sum(ws[k := w]) + ws[k] == Sum(ws) + w
  {
    var vs := ws[k := w];
    assert vs[..k] + vs[k + 1..] == ws[..k] + ws[k + 1..];
    SumWithout(vs, k);
    SumWithout(ws, k);
  }

  lemma {:induction false} SumZero(ws: seq<nat>)
    requires forall i | 0 <= i < |ws| :: ws[i] == 0
    ensures Sum(ws) == 0
  {
    if ws != [] {
      SumZero(ws[..|ws| - 1]);
    }
  }
}
