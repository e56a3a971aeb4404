/** `calc_boltzmannweights` of censo_qm/utilities.py: the Boltzmann weight of
    every conformer of an ensemble at temperature T,
      w_i = g_i exp(-(G_i - G_min) AU2J / (KB T)) / sum_j g_j exp(-(G_j - G_min) AU2J / (KB T)). */
module Boltzmann {
  import opened Builtins
  import opened Conformers

  /** Hartree to joule (`AU2J` of censo_qm/cfg.py, 4.3597482e-18). */
  const AU2J: real := 0.0000000000000000043597482
  /** Boltzmann's constant in J/K (`KB` of censo_qm/cfg.py, 1.3806485279e-23). */
  const KB: real := 0.000000000000000000000013806485279

  /** `exp` is positive, as the exponential function is. */
  ghost predicate ExpPositive(exp: real -> real)
  {
    forall x :: exp(x) > 0.0
  }

  /** `exp` is strictly increasing, as the exponential function is. */
  ghost predicate ExpIncreasing(exp: real -> real)
  {
    forall x, y :: x < y ==> exp(x) < exp(y)
  }

  /** `float(T)`, or 298.15 K when T cannot be converted (None), moved off zero
      by 0.00001 K. */
  function Temperature(t: Option<real>): (r: real)
    ensures r != 0.0
    ensures t.Some? && t.value != 0.0 ==> r == t.value
    ensures t.None? ==> r == 298.15
  {
    var v := if t.Some? then t.value else 298.15;
    if v == 0.0 then v + 0.00001 else v
  }

  /** The values of the property that are not None, in the order of the
      conformers. */
  function Values(confs: seq<Conformer>, prop: Conformer -> Option<real>): (r: seq<real>)
    ensures forall x :: x in r <==> exists i :: 0 <= i < |confs| && prop(confs[i]) == Some(x)
  {
    if |confs| == 0 then []
    else
      var init := Values(confs[..|confs| - 1], prop);
      var last := prop(confs[|confs| - 1]);
      assert forall i :: 0 <= i < |confs| - 1 ==> confs[..|confs| - 1][i] == confs[i];
      init + (if last.Some? then [last.value] else [])
  }

  /** `min(values)`. */
  function MinOf(s: seq<real>): (m: real)
    requires |s| > 0
    ensures m in s
    ensures forall x :: x in s ==> m <= x
  {
    if |s| == 1 then s[0]
    else
      var rest := MinOf(s[1..]);
      assert forall x :: x in s[1..] ==> x in s;
      assert forall x :: x in s ==> x == s[0] || x in s[1..];
      if s[0] <= rest then s[0] else rest
  }

  /** The lowest value of the property, None when no conformer has one (then
      `min` raises ValueError, which is caught and leaves `minfree` unbound). */
  function MinFree(confs: seq<Conformer>, prop: Conformer -> Option<real>): (r: Option<real>)
    ensures r.None? <==> forall i :: 0 <= i < |confs| ==> prop(confs[i]).None?
    ensures r.Some? ==> (exists i :: 0 <= i < |confs| && prop(confs[i]) == Some(r.value))
                        && forall i :: 0 <= i < |confs| && prop(confs[i]).Some? ==> r.value <= prop(confs[i]).value
  {
    var vs := Values(confs, prop);
    if |vs| == 0 then
      assert forall i :: 0 <= i < |confs| && prop(confs[i]).Some? ==> prop(confs[i]).value in vs;
      None
    else
      assert vs[0] in vs;
      assert forall i :: 0 <= i < |confs| && prop(confs[i]).Some? ==> prop(confs[i]).value in vs;
      Some(MinOf(vs))
  }

  /** The exponent -(G - G_min) AU2J / (KB T) of a conformer. */
  function Exponent(c: Conformer, minfree: real, t: real): real
    requires t != 0.0
  {
    -((c.freeEnergy - minfree) * AU2J) / (KB * t)
  }

  /** The unnormalised weight g exp(-(G - G_min) AU2J / (KB T)). */
  function Factor(c: Conformer, minfree: real, t: real, exp: real -> real): real
    requires t != 0.0
  {
    c.gi * exp(Exponent(c, minfree, t))
  }

  /** The partition sum `bsum` over the conformers. */
  function Total(confs: seq<Conformer>, minfree: real, t: real, exp: real -> real): real
    requires t != 0.0
  {
    if |confs| == 0 then 0.0
    else Total(confs[..|confs| - 1], minfree, t, exp) + Factor(confs[|confs| - 1], minfree, t, exp)
  }

  /** The conformers with their weights set to factor / bsum. */
  function Weighted(confs: seq<Conformer>, minfree: real, t: real, exp: real -> real, bsum: real)
    : (r: seq<Conformer>)
    requires t != 0.0 && bsum != 0.0
    ensures |r| == |confs|
    ensures forall i :: 0 <= i < |confs| ==>
              r[i] == confs[i].(bmWeight := Factor(confs[i], minfree, t, exp) / bsum)
  {
    if |confs| == 0 then []
    else
      var c := confs[|confs| - 1];
      Weighted(confs[..|confs| - 1], minfree, t, exp, bsum) + [c.(bmWeight := Factor(c, minfree, t, exp) / bsum)]
  }

  /** The result of `calc_boltzmannweights(confs, property, T)`: a single
      conformer gets weight 1.0; otherwise every conformer gets its Boltzmann
      weight. When no conformer has the property, the unbound `minfree` raises
      NameError in the first loop (unless the list is empty); a zero partition
      sum raises ZeroDivisionError. */
  function BoltzmannWeights(confs: seq<Conformer>, prop: Conformer -> Option<real>, t: Option<real>,
                            exp: real -> real): (r: Result<seq<Conformer>>)
    ensures r.Ok? ==> |r.value| == |confs|
                      && forall i :: 0 <= i < |confs| ==> r.value[i] == confs[i].(bmWeight := r.value[i].bmWeight)
    ensures |confs| == 1 ==> r.Ok? && r.value[0].bmWeight == 1.0
    ensures r == Err(NameError) <==> |confs| > 1 && forall i :: 0 <= i < |confs| ==> prop(confs[i]).None?
    ensures r == Err(ZeroDivisionError)
            ==> MinFree(confs, prop).Some? && Total(confs, MinFree(confs, prop).value, Temperature(t), exp) == 0.0
  {
    if |confs| == 1 then Ok([confs[0].(bmWeight := 1.0)])
    else if |confs| == 0 then Ok([])
    else
      match MinFree(confs, prop)
      case None => Err(NameError)
      case Some(m) =>
        var temp := Temperature(t);
        var bsum := Total(confs, m, temp, exp);
        if bsum == 0.0 then Err(ZeroDivisionError) else Ok(Weighted(confs, m, temp, exp, bsum))
  }

  /** `calc_boltzmannweights(confs, property, T)` with its two loops: the first
      sums the partition function, the second sets each conformer's weight.
      `prop` reads the attribute named by `property`. Both errors are raised in
      the first iteration of their loop, before any weight is set. */
  method CalcBoltzmannWeights(confs: seq<Conformer>, prop: Conformer -> Option<real>, t: Option<real>,
                              exp: real -> real)
    returns (r: Result<seq<Conformer>>)
    ensures r == BoltzmannWeights(confs, prop, t, exp)
  {
    if |confs| == 1 {
      return Ok([confs[0].(bmWeight := 1.0)]);
    }
    var temp := Temperature(t);
    var minfree := MinFree(confs, prop);
    if |confs| == 0 {
      return Ok([]);
    }
    if minfree.None? {
      return Err(NameError);
    }
    var bsum := PartitionSum(confs, minfree.value, temp, exp);
    if bsum == 0.0 {
      return Err(ZeroDivisionError);
    }
    var weighted := SetWeights(confs, minfree.value, temp, exp, bsum);
    r := Ok(weighted);
  }

  /** The first loop of `calc_boltzmannweights`. */
  method PartitionSum(confs: seq<Conformer>, minfree: real, t: real, exp: real -> real) returns (bsum: real)
    requires t != 0.0
    ensures bsum == Total(confs, minfree, t, exp)
  {
    bsum := 0.0;
    for i := 0 to |confs|
      invariant bsum == Total(confs[..i], minfree, t, exp)
    {
      assert confs[..i + 1][..i] == confs[..i];
      bsum := bsum + Factor(confs[i], minfree, t, exp);
    }
    assert confs[..|confs|] == confs;
  }

  /** The second loop of `calc_boltzmannweights`. */
  method SetWeights(confs: seq<Conformer>, minfree: real, t: real, exp: real -> real, bsum: real)
    returns (weighted: seq<Conformer>)
    requires t != 0.0 && bsum != 0.0
    ensures weighted == Weighted(confs, minfree, t, exp, bsum)
  {
    weighted := [];
    for i := 0 to |confs|
      invariant weighted == Weighted(confs[..i], minfree, t, exp, bsum)
    {
      assert confs[..i + 1][..i] == confs[..i];
      weighted := weighted + [confs[i].(bmWeight := Factor(confs[i], minfree, t, exp) / bsum)];
    }
    assert confs[..|confs|] == confs;
  }

  /** The sum of the weights. */
  function WeightSum(confs: seq<Conformer>): real
  {
    if |confs| == 0 then 0.0 else WeightSum(confs[..|confs| - 1]) + confs[|confs| - 1].bmWeight
  }

  /** Dividing every factor by the same partition sum divides their sum by it. */
  lemma {:induction false} WeightedSum(confs: seq<Conformer>, minfree: real, t: real, exp: real -> real, bsum: real)
    requires t != 0.0 && bsum != 0.0
    ensures WeightSum(Weighted(confs, minfree, t, exp, bsum)) == Total(confs, minfree, t, exp) / bsum
  {
    if |confs| > 0 {
      var init := confs[..|confs| - 1];
      var w := Weighted(confs, minfree, t, exp, bsum);
      WeightedSum(init, minfree, t, exp, bsum);
      assert w[..|w| - 1] == Weighted(init, minfree, t, exp, bsum);
      DivideSum(Total(init, minfree, t, exp), Factor(confs[|confs| - 1], minfree, t, exp), bsum);
    }
  }

  lemma DivideSum(x: real, y: real, b: real)
    requires b != 0.0
    ensures x / b + y / b == (x + y) / b
  {
  }

  /** Whenever the weights are computed, they add up to one. */
  lemma WeightsSumToOne(confs: seq<Conformer>, prop: Conformer -> Option<real>, t: Option<real>, exp: real -> real)
    requires BoltzmannWeights(confs, prop, t, exp).Ok? && |confs| > 0
    ensures WeightSum(BoltzmannWeights(confs, prop, t, exp).value) == 1.0
  {
    if |confs| == 1 {
      var w := [confs[0].(bmWeight := 1.0)];
      assert w[..0] == [];
      assert WeightSum(w) == WeightSum([]) + 1.0;
    } else {
      var m := MinFree(confs, prop).value;
      var temp := Temperature(t);
      var bsum := Total(confs, m, temp, exp);
      WeightedSum(confs, m, temp, exp, bsum);
      SelfDivide(bsum);
    }
  }

  lemma SelfDivide(x: real)
    requires x != 0.0
    ensures x / x == 1.0
  {
  }

  /** With a positive degeneracy a conformer's factor is positive. */
  lemma FactorPositive(c: Conformer, minfree: real, t: real, exp: real -> real)
    requires t != 0.0 && ExpPositive(exp) && c.gi > 0.0
    ensures Factor(c, minfree, t, exp) > 0.0
  {
    var e := exp(Exponent(c, minfree, t));
    assert e > 0.0;
    ProductPositive(c.gi, e);
  }

  /** With positive degeneracies the partition sum is positive and at least
      every single factor. */
  lemma {:induction false} TotalPositive(confs: seq<Conformer>, minfree: real, t: real, exp: real -> real)
    requires t != 0.0 && ExpPositive(exp) && |confs| > 0
    requires forall i :: 0 <= i < |confs| ==> confs[i].gi > 0.0
    ensures Total(confs, minfree, t, exp) > 0.0
    ensures forall i :: 0 <= i < |confs| ==> Factor(confs[i], minfree, t, exp) <= Total(confs, minfree, t, exp)
  {
    var init := confs[..|confs| - 1];
    FactorPositive(confs[|confs| - 1], minfree, t, exp);
    if |confs| > 1 {
      TotalPositive(init, minfree, t, exp);
      assert forall i :: 0 <= i < |confs| - 1 ==> init[i] == confs[i];
    }
  }

  lemma ProductPositive(x: real, y: real)
    requires x > 0.0 && y > 0.0
    ensures x * y > 0.0
  {
  }

  /** With positive degeneracies and some conformer having the property, the
      weights are computed and each lies in (0, 1]. */
  lemma WeightsAreProbabilities(confs: seq<Conformer>, prop: Conformer -> Option<real>, t: Option<real>,
                                exp: real -> real)
    requires ExpPositive(exp)
    requires forall i :: 0 <= i < |confs| ==> confs[i].gi > 0.0
    requires exists i :: 0 <= i < |confs| && prop(confs[i]).Some?
    ensures BoltzmannWeights(confs, prop, t, exp).Ok?
    ensures var r := BoltzmannWeights(confs, prop, t, exp).value;
            forall i :: 0 <= i < |r| ==> 0.0 < r[i].bmWeight <= 1.0
  {
    if |confs| > 1 {
      var k :| 0 <= k < |confs| && prop(confs[k]).Some?;
      var mf := MinFree(confs, prop);
      assert mf.Some?;
      var temp := Temperature(t);
      var bsum := Total(confs, mf.value, temp, exp);
      TotalPositive(confs, mf.value, temp, exp);
      WeightsComputed(confs, prop, t, exp, mf.value, bsum);
      WeightsBounded(confs, mf.value, temp, exp, bsum);
    }
  }

  /** With a lowest value and a nonzero partition sum the weights are computed. */
  lemma WeightsComputed(confs: seq<Conformer>, prop: Conformer -> Option<real>, t: Option<real>,
                        exp: real -> real, m: real, bsum: real)
    requires |confs| > 1 && MinFree(confs, prop) == Some(m)
    requires bsum == Total(confs, m, Temperature(t), exp) && bsum != 0.0
    ensures BoltzmannWeights(confs, prop, t, exp) == Ok(Weighted(confs, m, Temperature(t), exp, bsum))
  {
  }

  lemma WeightsBounded(confs: seq<Conformer>, m: real, t: real, exp: real -> real, bsum: real)
    requires t != 0.0 && ExpPositive(exp) && bsum > 0.0
    requires forall i :: 0 <= i < |confs| ==> confs[i].gi > 0.0
    requires forall i :: 0 <= i < |confs| ==> Factor(confs[i], m, t, exp) <= bsum
    ensures var r := Weighted(confs, m, t, exp, bsum);
            forall i :: 0 <= i < |r| ==> 0.0 < r[i].bmWeight <= 1.0
  {
    var r := Weighted(confs, m, t, exp, bsum);
    forall i | 0 <= i < |r|
      ensures 0.0 < r[i].bmWeight <= 1.0
    {
      FactorPositive(confs[i], m, t, exp);
      FractionBounds(Factor(confs[i], m, t, exp), bsum);
    }
  }

  lemma FractionBounds(f: real, b: real)
    requires 0.0 < f <= b
    ensures 0.0 < f / b <= 1.0
  {
  }

  /** Above zero kelvin, with positive degeneracies, of two conformers with the
      same degeneracy the one with lower free energy gets the larger weight. */
  lemma LowerEnergyHeavier(confs: seq<Conformer>, prop: Conformer -> Option<real>, t: Option<real>,
                           exp: real -> real, i: nat, j: nat)
    requires ExpPositive(exp) && ExpIncreasing(exp)
    requires |confs| > 1 && i < |confs| && j < |confs|
    requires forall k :: 0 <= k < |confs| ==> confs[k].gi > 0.0
    requires confs[i].gi == confs[j].gi
    requires confs[i].freeEnergy < confs[j].freeEnergy
    requires Temperature(t) > 0.0
    requires BoltzmannWeights(confs, prop, t, exp).Ok?
    ensures var r := BoltzmannWeights(confs, prop, t, exp).value;
            r[i].bmWeight > r[j].bmWeight
  {
    var m := MinFree(confs, prop).value;
    var temp := Temperature(t);
    var bsum := Total(confs, m, temp, exp);
    TotalPositive(confs, m, temp, exp);
    FactorOrder(confs[i], confs[j], m, temp, exp);
    DivideByPositive(Factor(confs[i], m, temp, exp), Factor(confs[j], m, temp, exp), bsum);
  }

  lemma FactorOrder(a: Conformer, b: Conformer, m: real, t: real, exp: real -> real)
    requires ExpIncreasing(exp) && t > 0.0
    requires a.gi == b.gi > 0.0 && a.freeEnergy < b.freeEnergy
    ensures Factor(a, m, t, exp) > Factor(b, m, t, exp)
  {
    ExponentDecreasing(a, b, m, t);
    var ea := exp(Exponent(a, m, t));
    var eb := exp(Exponent(b, m, t));
    assert ea > eb;
    ScaledOrder(a.gi, ea, eb);
  }

  lemma DivideByPositive(x: real, y: real, b: real)
    requires x > y && b > 0.0
    ensures x / b > y / b
  {
    assert x / b - y / b == (x - y) / b;
  }

  lemma ExponentDecreasing(a: Conformer, b: Conformer, m: real, t: real)
    requires t > 0.0 && a.freeEnergy < b.freeEnergy
    ensures Exponent(a, m, t) > Exponent(b, m, t)
  {
    var d := KB * t;
    assert d > 0.0;
    var x := (a.freeEnergy - m) * AU2J;
    var y := (b.freeEnergy - m) * AU2J;
    assert x < y;
    DivideOrder(x, y, d);
  }

  lemma DivideOrder(x: real, y: real, d: real)
    requires x < y && d > 0.0
    ensures -x / d > -y / d
  {
    assert -x / d - -y / d == (y - x) / d;
  }

  lemma ScaledOrder(g: real, x: real, y: real)
    requires g > 0.0 && x > y
    ensures g * x > g * y
  {
    assert g * x - g * y == g * (x - y);
  }
}
