/** Column widths of a report table: columns that fit their fair share get what they need, the rest divide what is left. */
module Columns {

  function Sum(xs: seq<real>): real {
    if xs == [] then 0.0 else Sum(xs[..|xs| - 1]) + xs[|xs| - 1]
  }

  function Lesser(a: real, b: real): real { if a <= b then a else b }

  /** Every column gets its need, capped at one common level. */
  function Capped(need: seq<real>, cap: real): (w: seq<real>)
    ensures |w| == |need| && forall c | 0 <= c < |need| :: w[c] == Lesser(need[c], cap)
  {
    seq(|need|, c requires 0 <= c < |need| => Lesser(need[c], cap))
  }

  function Stretch(x: real, scale: real): real { x * scale }

  function Scaled(xs: seq<real>, scale: real): (w: seq<real>)
    ensures |w| == |xs|
  {
    if xs == [] then [] else Scaled(xs[..|xs| - 1], scale) + [Stretch(xs[|xs| - 1], scale)]
  }

  /** n shares of the same size. */
  function Portion(share: real, n: nat): real {
    if n == 0 then 0.0 else Portion(share, n - 1) + share
  }

  function AllColumns(n: nat): (columns: seq<nat>)
    ensures |columns| == n && forall c | 0 <= c < n :: columns[c] == c && c in columns
  {
    if n == 0 then [] else
      var columns := AllColumns(n - 1) + [n - 1];
      assert forall c | 0 <= c < n :: columns[c] == c;
      columns
  }

  /** A list of distinct columns out of n. */
  ghost predicate Columns(columns: seq<nat>, n: nat) {
    && (forall i | 0 <= i < |columns| :: columns[i] < n)
    && forall i, j | 0 <= i < j < |columns| :: columns[i] != columns[j]
  }

  // ---- The shares of the rounds, from the needs and the page alone ---------------------------------

  function NeedAt(need: seq<real>, c: nat): real {
    if c < |need| then need[c] else 0.0
  }

  function Fitting(need: seq<real>, pending: seq<nat>, fair: real): seq<nat> {
    if pending == [] then []
    else
      var c := pending[|pending| - 1];
      Fitting(need, pending[..|pending| - 1], fair) + if NeedAt(need, c) <= fair then [c] else []
  }

  function Greedy(need: seq<real>, pending: seq<nat>, fair: real): (greedy: seq<nat>)
    ensures |greedy| == |pending| - |Fitting(need, pending, fair)|
  {
    if pending == [] then []
    else
      var c := pending[|pending| - 1];
      Greedy(need, pending[..|pending| - 1], fair) + if NeedAt(need, c) <= fair then [] else [c]
  }

  function NeedOf(need: seq<real>, columns: seq<nat>): real {
    if columns == [] then 0.0
    else NeedOf(need, columns[..|columns| - 1]) + NeedAt(need, columns[|columns| - 1])
  }

  function FairShare(remaining: real, n: nat): real
    requires n > 0
  {
    remaining / n as real
  }

  /** Round by round: an equal share of what is left for every pending column, until no pending column fits it. */
  function Shares(need: seq<real>, pending: seq<nat>, remaining: real): seq<real>
    decreases |pending|
  {
    if pending == [] then []
    else
      var fair := FairShare(remaining, |pending|);
      var settled := Fitting(need, pending, fair);
      [fair] + if settled == [] then []
               else Shares(need, Greedy(need, pending, fair), remaining - NeedOf(need, settled))
  }

  // ---- Sums -------------------------------------------------------------------------------------

  lemma {:induction false} SumUpdate(xs: seq<real>, c: nat, x: real)
    requires c < |xs|
    ensures Sum(xs[c := x]) == Sum(xs) - xs[c] + x
  {
    var n := |xs| - 1;
    var ys := xs[c := x];
    if c < n {
      assert ys[..n] == xs[..n][c := x];
      SumUpdate(xs[..n], c, x);
    } else {
      assert ys[..n] == xs[..n];
    }
  }

  lemma {:induction false} SumScaled(xs: seq<real>, scale: real)
    ensures Sum(Scaled(xs, scale)) == Stretch(Sum(xs), scale)
  {
    if xs != [] {
      SumScaled(xs[..|xs| - 1], scale);
      Distribute(Sum(xs[..|xs| - 1]), xs[|xs| - 1], scale);
    }
  }

  lemma Distribute(a: real, b: real, scale: real)
    ensures Stretch(a + b, scale) == Stretch(a, scale) + Stretch(b, scale)
  {
  }

  lemma {:induction false} SumOrdered(xs: seq<real>, ys: seq<real>)
    requires |xs| == |ys| && forall c | 0 <= c < |xs| :: xs[c] <= ys[c]
    ensures Sum(xs) <= Sum(ys)
    ensures Sum(xs) == Sum(ys) <==> xs == ys
  {
    if xs != [] {
      var n := |xs| - 1;
      SumOrdered(xs[..n], ys[..n]);
      assert xs == xs[..n] + [xs[n]] && ys == ys[..n] + [ys[n]];
    }
  }

  lemma {:induction false} SumPositive(xs: seq<real>)
    requires xs != [] && forall c | 0 <= c < |xs| :: xs[c] > 0.0
    ensures Sum(xs) > 0.0
  {
    if |xs| > 1 {
      SumPositive(xs[..|xs| - 1]);
    }
  }

  lemma {:induction false} SumZeros(n: nat)
    ensures Sum(seq(n, _ => 0.0)) == 0.0
  {
    if n > 0 {
      SumZeros(n - 1);
      assert seq(n, _ => 0.0)[..n - 1] == seq(n - 1, _ => 0.0);
    }
  }

  // ---- The rounds -------------------------------------------------------------------------------

  /** Split the pending columns by whether their need fits the fair share. */
  method Split(need: seq<real>, pending: seq<nat>, fair: real) returns (settled: seq<nat>, greedy: seq<nat>)
    ensures settled == Fitting(need, pending, fair) && greedy == Greedy(need, pending, fair)
  {
    settled, greedy := [], [];
    for i := 0 to |pending|
      invariant settled == Fitting(need, pending[..i], fair) && greedy == Greedy(need, pending[..i], fair)
    {
      assert pending[..i + 1][..i] == pending[..i];
      if NeedAt(need, pending[i]) <= fair {
        settled := settled + [pending[i]];
      } else {
        greedy := greedy + [pending[i]];
      }
    }
    assert pending[..|pending|] == pending;
  }

  lemma {:induction false} PartOf(need: seq<real>, pending: seq<nat>, fair: real, c: nat)
    ensures c in Fitting(need, pending, fair) <==> c in pending && NeedAt(need, c) <= fair
    ensures c in Greedy(need, pending, fair) <==> c in pending && NeedAt(need, c) > fair
  {
    if pending != [] {
      var n := |pending| - 1;
      PartOf(need, pending[..n], fair, c);
      assert pending == pending[..n] + [pending[n]];
    }
  }

  lemma OneMoreColumn(columns: seq<nat>, c: nat, n: nat)
    requires Columns(columns, n) && c < n && c !in columns
    ensures Columns(columns + [c], n)
  {
  }

  lemma {:induction false} PartsAreColumns(need: seq<real>, pending: seq<nat>, fair: real)
    requires Columns(pending, |need|)
    ensures Columns(Fitting(need, pending, fair), |need|) && Columns(Greedy(need, pending, fair), |need|)
  {
    if pending != [] {
      var n := |pending| - 1;
      var c, before := pending[n], pending[..n];
      PartsAreColumns(need, before, fair);
      PartOf(need, before, fair, c);
      if NeedAt(need, c) <= fair {
        OneMoreColumn(Fitting(need, before, fair), c, |need|);
      } else {
        OneMoreColumn(Greedy(need, before, fair), c, |need|);
      }
    }
  }

  /** The two parts are distinct columns, hold every pending one, and are told apart by the fair share. */
  lemma SplitParts(need: seq<real>, pending: seq<nat>, fair: real)
    requires Columns(pending, |need|)
    ensures Columns(Fitting(need, pending, fair), |need|) && Columns(Greedy(need, pending, fair), |need|)
    ensures forall c | c in Fitting(need, pending, fair) :: c in pending && c < |need| && need[c] <= fair
    ensures forall c | c in Greedy(need, pending, fair) :: c in pending && c < |need| && need[c] > fair
    ensures forall c | c in pending :: c in Fitting(need, pending, fair) || c in Greedy(need, pending, fair)
  {
    PartsAreColumns(need, pending, fair);
    hide Fitting, Greedy;
    forall c: nat
      ensures c in Fitting(need, pending, fair) <==> c in pending && NeedAt(need, c) <= fair
      ensures c in Greedy(need, pending, fair) <==> c in pending && NeedAt(need, c) > fair
    {
      PartOf(need, pending, fair, c);
    }
  }

  lemma {:induction false} NeedFits(need: seq<real>, settled: seq<nat>, fair: real, n: nat)
    requires |settled| <= n && forall c | c in settled :: NeedAt(need, c) <= fair
    ensures Portion(fair, n) - NeedOf(need, settled) >= Portion(fair, n - |settled|)
  {
    if settled != [] {
      var k := |settled| - 1;
      NeedFits(need, settled[..k], fair, n);
      assert settled[k] in settled;
    }
  }

  /** Give each listed column its need; every one of them fits the fair share of what `n` columns have left. */
  method SettleColumns(need: seq<real>, widths0: seq<real>, remaining0: real, settled: seq<nat>, fair: real, n: nat)
    returns (widths: seq<real>, remaining: real)
    requires |widths0| == |need| && Columns(settled, |need|) && |settled| <= n
    requires forall c | c in settled :: need[c] <= fair && widths0[c] == 0.0
    requires remaining0 >= Portion(fair, n)
    ensures |widths| == |need|
    ensures forall c | 0 <= c < |need| :: widths[c] == if c in settled then need[c] else widths0[c]
    ensures Sum(widths) + remaining == Sum(widths0) + remaining0
    ensures remaining == remaining0 - NeedOf(need, settled)
    ensures remaining >= Portion(fair, n - |settled|)
  {
    hide Sum, Portion;
    NeedFits(need, settled, fair, n);
    widths, remaining := widths0, remaining0;
    for k := 0 to |settled|
      invariant |widths| == |need|
      invariant forall c | 0 <= c < |need| :: widths[c] == if c in settled[..k] then need[c] else widths0[c]
      invariant Sum(widths) + remaining == Sum(widths0) + remaining0
      invariant remaining == remaining0 - NeedOf(need, settled[..k])
    {
      var c := settled[k];
      assert settled[..k + 1] == settled[..k] + [c] && settled[..k + 1][..k] == settled[..k];
      assert c !in settled[..k] && c in settled;
      SumUpdate(widths, c, need[c]);
      widths := widths[c := need[c]];
      remaining := remaining - need[c];
    }
    assert settled[..|settled|] == settled;
  }

  /** Give every pending column the same share. */
  method ShareOut(widths0: seq<real>, pending: seq<nat>, fair: real) returns (widths: seq<real>)
    requires Columns(pending, |widths0|)
    requires forall c | c in pending :: widths0[c] == 0.0
    ensures |widths| == |widths0|
    ensures forall c | 0 <= c < |widths| :: widths[c] == if c in pending then fair else widths0[c]
    ensures Sum(widths) == Sum(widths0) + Portion(fair, |pending|)
  {
    widths := widths0;
    for k := 0 to |pending|
      invariant |widths| == |widths0|
      invariant forall c | 0 <= c < |widths| :: widths[c] == if c in pending[..k] then fair else widths0[c]
      invariant Sum(widths) == Sum(widths0) + Portion(fair, k)
    {
      var c := pending[k];
      assert pending[..k + 1] == pending[..k] + [c];
      assert c !in pending[..k] && c in pending;
      SumUpdate(widths, c, fair);
      widths := widths[c := fair];
    }
    assert pending[..|pending|] == pending;
  }

  ghost predicate NeverDecreases(shares: seq<real>) {
    forall i, j | 0 <= i <= j < |shares| :: shares[i] <= shares[j]
  }

  /**
   The widths before scaling. When all needs fit the page each column has its need; otherwise every column has
   its need capped at the last fair share, and the page is used up. The fair share never falls from round to round.
   */
  method FairWidths(need: seq<real>, width: real) returns (widths: seq<real>, ghost shares: seq<real>)
    requires need != [] && (forall c | 0 <= c < |need| :: need[c] > 0.0) && width > 0.0
    ensures |widths| == |need| && NeverDecreases(shares) && shares != []
    ensures shares == Shares(need, AllColumns(|need|), width)
    ensures Sum(need) <= width ==> widths == need
    ensures Sum(need) > width ==> widths == Capped(need, shares[|shares| - 1]) && Sum(widths) == width
  {
    hide Sum, Portion, Capped, AllColumns, FairShare, Fitting, Greedy, NeedOf, Shares, Settled, NeverDecreases, Columns;
    widths := seq(|need|, _ => 0.0);
    SumZeros(|need|);
    var pending, remaining := AllColumns(|need|), width;
    shares := [];
    ghost var all := Shares(need, pending, width);
    NothingSettled(need, widths);
    while pending != []
      invariant Settled(need, widths, pending, shares)
      invariant shares + Shares(need, pending, remaining) == all
      invariant Sum(widths) + remaining == width && remaining >= 0.0
      invariant pending != [] ==> remaining > 0.0
      invariant shares != [] && pending != [] ==> Portion(shares[|shares| - 1], |pending|) <= remaining
      invariant pending == [] ==> shares != []
      decreases |pending|
    {
      var fair := FairShare(remaining, |pending|);
      PortionsOf(remaining, |pending|, fair);
      ghost var before, widthsBefore, pendingBefore := shares, widths, pending;
      PendingAreEmpty(need, widths, pending, shares);
      shares := NextShare(shares, fair, |pending|);
      var settled, greedy := Split(need, pending, fair);
      SplitParts(need, pending, fair);
      SharesStep(need, pending, remaining, fair, before, shares);
      if settled == [] {
        widths := ShareOut(widths, pending, fair);
        LastRound(need, widthsBefore, pending, before, fair, widths);
        return;
      }
      widths, remaining := SettleColumns(need, widths, remaining, settled, fair, |pending|);
      pending := greedy;
      RoundSettles(need, widthsBefore, pendingBefore, before, fair, settled, widths, pending);
      SharePositive(fair, |pending|);
    }
    NoMoreShares(need, remaining);
    AllSettled(need, widths, shares);
  }

  lemma NothingSettled(need: seq<real>, widths: seq<real>)
    requires |widths| == |need| && forall c | 0 <= c < |need| :: widths[c] == 0.0
    ensures Settled(need, widths, AllColumns(|need|), [])
  {
  }

  lemma PendingAreEmpty(need: seq<real>, widths: seq<real>, pending: seq<nat>, shares: seq<real>)
    requires Settled(need, widths, pending, shares)
    ensures |widths| == |need| && Columns(pending, |need|) && NeverDecreases(shares)
    ensures forall c | c in pending :: c < |widths| && widths[c] == 0.0
  {
  }

  lemma AllSettled(need: seq<real>, widths: seq<real>, shares: seq<real>)
    requires Settled(need, widths, [], shares)
    ensures widths == need && NeverDecreases(shares)
  {
  }

  /** The rounds' shares go on with this one, and with those of what it leaves. */
  lemma SharesStep(need: seq<real>, pending: seq<nat>, remaining: real, fair: real, before: seq<real>, next: seq<real>)
    requires pending != [] && fair == FairShare(remaining, |pending|)
    requires next == before + [fair]
    ensures var settled := Fitting(need, pending, fair);
            before + Shares(need, pending, remaining) ==
              if settled == [] then next
              else next + Shares(need, Greedy(need, pending, fair), remaining - NeedOf(need, settled))
  {
    hide FairShare, Fitting, Greedy, NeedOf;
  }

  lemma NoMoreShares(need: seq<real>, remaining: real)
    ensures Shares(need, [], remaining) == []
  {
  }

  /** Between rounds: settled columns have their need, which fits the last share; pending ones have nothing yet. */
  ghost predicate Settled(need: seq<real>, widths: seq<real>, pending: seq<nat>, shares: seq<real>) {
    && |widths| == |need| && Columns(pending, |need|) && NeverDecreases(shares)
    && (forall c | 0 <= c < |need| :: widths[c] == if c in pending then 0.0 else need[c])
    && (forall c | 0 <= c < |need| && c !in pending :: shares != [] && need[c] <= shares[|shares| - 1])
  }

  ghost method NextShare(shares: seq<real>, fair: real, n: nat) returns (next: seq<real>)
    requires n > 0 && NeverDecreases(shares)
    requires shares != [] ==> Portion(shares[|shares| - 1], n) <= Portion(fair, n)
    ensures next == shares + [fair] && NeverDecreases(next)
  {
    if shares != [] {
      ShareGrows(shares[|shares| - 1], fair, n);
    }
    next := shares + [fair];
  }

  lemma RoundSettles(need: seq<real>, widths: seq<real>, pending: seq<nat>, shares: seq<real>, fair: real,
                     settled: seq<nat>, after: seq<real>, greedy: seq<nat>)
    requires Settled(need, widths, pending, shares) && NeverDecreases(shares + [fair])
    requires Columns(greedy, |need|) && |after| == |need|
    requires forall c | c in settled :: c < |need| && need[c] <= fair
    requires forall c | c in greedy :: c in pending && need[c] > fair
    requires forall c | c in pending :: c in settled || c in greedy
    requires forall c | 0 <= c < |need| :: after[c] == if c in settled then need[c] else widths[c]
    ensures Settled(need, after, greedy, shares + [fair])
  {
    var next := shares + [fair];
    forall c | 0 <= c < |need| && c !in greedy
      ensures need[c] <= fair
    {
      if c !in pending {
        assert next[|shares| - 1] <= next[|shares|];
      }
    }
  }

  lemma LastRound(need: seq<real>, widths: seq<real>, pending: seq<nat>, shares: seq<real>, fair: real, after: seq<real>)
    requires Settled(need, widths, pending, shares) && NeverDecreases(shares + [fair])
    requires pending != [] && |after| == |need|
    requires forall c | c in pending :: need[c] > fair
    requires forall c | 0 <= c < |need| :: after[c] == if c in pending then fair else widths[c]
    ensures after == Capped(need, fair) && Sum(after) < Sum(need)
  {
    var next := shares + [fair];
    forall c | 0 <= c < |need|
      ensures after[c] == Lesser(need[c], fair) && after[c] <= need[c]
    {
      if c !in pending {
        assert next[|shares| - 1] <= next[|shares|];
      }
    }
    assert pending[0] in pending && after[pending[0]] < need[pending[0]];
    SumOrdered(after, need);
  }

  lemma {:induction false} PortionIsProduct(share: real, n: nat)
    ensures Portion(share, n) == share * n as real
  {
    if n > 0 {
      PortionIsProduct(share, n - 1);
      assert share * n as real == share * (n - 1) as real + share;
    }
  }

  lemma PortionsOf(remaining: real, n: nat, fair: real)
    requires n > 0 && remaining > 0.0 && fair == FairShare(remaining, n)
    ensures Portion(fair, n) == remaining && fair > 0.0
  {
    PortionIsProduct(fair, n);
  }

  lemma {:induction false} ShareGrows(share: real, fair: real, n: nat)
    requires n > 0 && Portion(share, n) <= Portion(fair, n)
    ensures share <= fair
  {
    if n > 1 && share > fair {
      ShareGrows(share, fair, n - 1);
    }
  }

  lemma {:induction false} SharePositive(fair: real, n: nat)
    requires fair > 0.0
    ensures Portion(fair, n) >= 0.0 && (n > 0 ==> Portion(fair, n) > 0.0)
  {
    if n > 0 {
      SharePositive(fair, n - 1);
    }
  }

  /**
   The final widths fill the page: needs that fit are all stretched by one factor of at least 1, and needs that do not
   are capped at the last round's share and not stretched.
   */
  method Allocate(need: seq<real>, width: real) returns (widths: seq<real>, ghost scale: real)
    requires need != [] && (forall c | 0 <= c < |need| :: need[c] > 0.0) && width > 0.0
    ensures |widths| == |need| && Sum(widths) == width
    ensures Sum(need) <= width ==> scale >= 1.0 && forall c | 0 <= c < |need| :: widths[c] == Stretch(need[c], scale)
    ensures Sum(need) > width ==>
              var shares := Shares(need, AllColumns(|need|), width);
              shares != [] && widths == Capped(need, shares[|shares| - 1])
  {
    var fair, shares := FairWidths(need, width);
    SumPositive(need);
    widths, scale := ScaleToFill(fair, width);
    if Sum(need) > width {
      ScaledByOne(fair);
    } else {
      forall c | 0 <= c < |need| ensures widths[c] == Stretch(need[c], scale) {
        ScaledAt(fair, scale, c);
      }
    }
  }

  method ScaleToFill(fair: seq<real>, width: real) returns (widths: seq<real>, ghost scale: real)
    requires 0.0 < Sum(fair) <= width
    ensures widths == Scaled(fair, scale) && Sum(widths) == width
    ensures scale >= 1.0 && (Sum(fair) == width ==> scale == 1.0)
  {
    var total := Total(fair);
    var factor := width / total;
    ScaleFills(total, width, factor);
    SumScaled(fair, factor);
    widths := StretchAll(fair, factor);
    scale := factor;
  }

  method StretchAll(xs: seq<real>, scale: real) returns (ys: seq<real>)
    ensures ys == Scaled(xs, scale)
  {
    ys := [];
    for i := 0 to |xs|
      invariant ys == Scaled(xs[..i], scale)
    {
      assert xs[..i + 1] == xs[..i] + [xs[i]];
      ScaledStep(xs[..i], xs[i], scale);
      ys := ys + [Stretch(xs[i], scale)];
    }
    assert xs[..|xs|] == xs;
  }

  lemma ScaledStep(xs: seq<real>, x: real, scale: real)
    ensures Scaled(xs + [x], scale) == Scaled(xs, scale) + [Stretch(x, scale)]
  {
    assert (xs + [x])[..|xs|] == xs;
  }

  lemma {:induction false} ScaledByOne(xs: seq<real>)
    ensures Scaled(xs, 1.0) == xs
  {
    if xs != [] {
      ScaledByOne(xs[..|xs| - 1]);
    }
  }

  /** Scaling reaches every column alike. */
  lemma {:induction false} ScaledAt(xs: seq<real>, scale: real, c: nat)
    requires c < |xs|
    ensures Scaled(xs, scale)[c] == Stretch(xs[c], scale)
  {
    if c < |xs| - 1 {
      ScaledAt(xs[..|xs| - 1], scale, c);
    }
  }

  lemma ScaleFills(total: real, width: real, scale: real)
    requires 0.0 < total <= width && scale == width / total
    ensures Stretch(total, scale) == width && scale >= 1.0
    ensures total == width ==> scale == 1.0
  {
  }

  method Total(xs: seq<real>) returns (total: real)
    ensures total == Sum(xs)
  {
    total := 0.0;
    for i := 0 to |xs|
      invariant total == Sum(xs[..i])
    {
      assert xs[..i + 1][..i] == xs[..i];
      total := total + xs[i];
    }
    assert xs[..|xs|] == xs;
  }

  // ---- What the capping means -------------------------------------------------------------------

  /** The page and the needs alone decide capped widths: no other cap uses the page up differently. */
  lemma CappedWidthsAreUnique(need: seq<real>, a: real, b: real)
    requires Sum(Capped(need, a)) == Sum(Capped(need, b))
    ensures Capped(need, a) == Capped(need, b)
  {
    if a <= b {
      SumOrdered(Capped(need, a), Capped(need, b));
    } else {
      SumOrdered(Capped(need, b), Capped(need, a));
    }
  }

  /** Max-min fairness: any other division that favours a column takes from one that had no more than it. */
  lemma CappedWidthsAreMaxMinFair(need: seq<real>, cap: real, other: seq<real>, c: nat)
    requires |other| == |need| && c < |need|
    requires forall d | 0 <= d < |need| :: other[d] <= need[d]
    requires Sum(other) <= Sum(Capped(need, cap)) && other[c] > Capped(need, cap)[c]
    ensures exists d | 0 <= d < |need| :: other[d] < Capped(need, cap)[d] && Capped(need, cap)[d] <= Capped(need, cap)[c]
  {
    var fair := Capped(need, cap);
    if forall d | 0 <= d < |need| :: fair[d] <= other[d] {
      SumOrdered(fair, other);
      assert false;
    }
    var d :| 0 <= d < |need| && other[d] < fair[d];
    assert fair[c] == cap;
  }
}
