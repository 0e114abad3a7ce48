/** The package's helpers: `normalize_path`, which vets a user-given path,
    and `lower_unit`, which moves an amount up its unit chain while the
    amount is large enough for the next, coarser unit. */
module Feedem {
  import opened Common
  import opened Text
  import opened Files
  import opened Yaml

  // ---------------------------------------------------------------------
  // normalize_path
  // ---------------------------------------------------------------------

  /** `normalize_path(path, fine_if_missing)`: an empty path is invalid; the
      user-expanded path must exist unless `fine_if_missing` is exactly
      `True`; the result is the expanded path. */
  function NormalizePath(path: string, fineIfMissing: Flag, tree: Tree, home: string): (r: Result<string>)
    ensures path == "" <==> r == Err(PathInvalid(path))
    ensures r == Err(PathMissing(path)) <==>
              path != "" && !tree.Exists(ExpandUser(path, home)) && !fineIfMissing.IsTrue()
    ensures r.Ok? ==> r.value == ExpandUser(path, home) && r.value != ""
  {
    if path == "" then Err(PathInvalid(path))
    else
      var realPath := ExpandUser(path, home);
      if !tree.Exists(realPath) && !fineIfMissing.IsTrue() then Err(PathMissing(path))
      else Ok(realPath)
  }

  /** Normalising a normalised path again gives the same path back, under
      either flag: the command line normalises the database path once and
      the store normalises it a second time. */
  lemma NormalizePathIdempotent(path: string, first: Flag, second: Flag, tree: Tree, home: string)
    requires SaneHome(home)
    requires NormalizePath(path, first, tree, home).Ok?
    requires tree.Exists(NormalizePath(path, first, tree, home).value)
    ensures NormalizePath(NormalizePath(path, first, tree, home).value, second, tree, home)
            == NormalizePath(path, first, tree, home)
  {
    ExpandUserIdempotent(path, home);
  }

  /** `dump_yaml(data, path)`: the path is normalised with `fine_if_missing`
      set, so only an empty path is refused, and the file at the expanded
      path is overwritten with the serialised data. */
  function DumpYaml(data: Value, path: string, tree: Tree, home: string, codec: Codec): (r: Result<Tree>)
    ensures path == "" <==> r == Err(PathInvalid(path))
    ensures r.Ok? ==> r.value.Read(ExpandUser(path, home)) == Ok(codec.serialize(data))
    ensures r.Ok? ==> forall p :: p != ExpandUser(path, home) ==> r.value.Read(p) == tree.Read(p)
  {
    var realPath :- NormalizePath(path, ExactlyTrue, tree, home);
    Ok(tree.Write(realPath, codec.serialize(data)))
  }

  // ---------------------------------------------------------------------
  // lower_unit
  // ---------------------------------------------------------------------

  /** One unit sequence: `units[0]` is the finest unit and `divisors[k]` is
      the threshold, and the divisor, for moving from `units[k]` to
      `units[k + 1]`. The finest unit's own threshold (`None` in the
      source) is never read, so it is not kept. */
  datatype Chain = Chain(units: seq<string>, divisors: seq<real>)

  const Weight: Chain := Chain(["g", "dkg", "kg"], [10.0, 100.0])
  const Volume: Chain := Chain(["ml", "dl", "l"], [100.0, 10.0])

  /** The unit sequences, searched in this order. */
  const UnitSequences: seq<Chain> := [Weight, Volume]

  predicate WellFormed(c: Chain)
  {
    |c.units| == |c.divisors| + 1 && forall k :: 0 <= k < |c.divisors| ==> c.divisors[k] > 0.0
  }

  /** The position of the first sequence that contains `unit`, if any. */
  function ChainOf(unit: string): (r: Option<nat>)
    ensures r.Some? ==> r.value < |UnitSequences| && unit in UnitSequences[r.value].units
    ensures r.None? <==> forall s :: 0 <= s < |UnitSequences| ==> unit !in UnitSequences[s].units
  {
    if unit in Weight.units then Some(0)
    else if unit in Volume.units then Some(1)
    else None
  }

  /** The first position of `u` in `units`. */
  function IndexOf(units: seq<string>, u: string): (r: nat)
    requires u in units
    ensures r < |units| && units[r] == u && u !in units[..r]
  {
    if units[0] == u then 0
    else
      assert u in units[1..];
      var r := 1 + IndexOf(units[1..], u);
      assert units[..r] == [units[0]] + units[1..][..r - 1];
      r
  }

  /** The reference definition of the climb: from position `i` with
      `amount`, stop at the top of the chain or when the amount is below the
      next threshold, otherwise divide and move one unit up. */
  function Climb(c: Chain, i: nat, amount: real): (r: (nat, real))
    requires WellFormed(c) && i < |c.units|
    ensures i <= r.0 < |c.units|
    decreases |c.units| - i
  {
    if i + 1 == |c.units| || amount < c.divisors[i] then (i, amount)
    else Climb(c, i + 1, amount / c.divisors[i])
  }

  /** What `lower_unit(unit, amount)` returns. */
  function Lowered(unit: string, amount: real): (string, real)
  {
    match ChainOf(unit)
    case None => (unit, amount)
    case Some(s) =>
      var c := UnitSequences[s];
      var (j, a) := Climb(c, IndexOf(c.units, unit), amount);
      (c.units[j], a)
  }

  /** `lower_unit`: find the sequence holding `unit` and its position in it,
      then step to coarser units while the amount reaches the threshold. */
  method LowerUnit(unit: string, amount: real) returns (u: string, a: real)
    ensures (u, a) == Lowered(unit, amount)
  {
    var s := 0;
    while s < |UnitSequences|
      invariant 0 <= s <= |UnitSequences|
      invariant forall t :: 0 <= t < s ==> unit !in UnitSequences[t].units
    {
      var c := UnitSequences[s];
      if unit !in c.units {
        s := s + 1;
        continue;
      }
      assert ChainOf(unit) == Some(s);
      assert WellFormed(c) by { ChainsSound(); }
      var i := 0;
      while c.units[i] != unit
        invariant 0 <= i < |c.units| && unit !in c.units[..i]
        decreases |c.units| - i
      {
        assert c.units[..i + 1] == c.units[..i] + [c.units[i]];
        i := i + 1;
      }
      assert i == IndexOf(c.units, unit);
      u, a := unit, amount;
      var j := i;
      while j + 1 < |c.units|
        invariant i <= j < |c.units| && u == c.units[j]
        invariant Climb(c, j, a) == Climb(c, i, amount)
      {
        if a < c.divisors[j] {
          return;
        }
        a := a / c.divisors[j];
        u := c.units[j + 1];
        j := j + 1;
      }
      return;
    }
    u, a := unit, amount;
  }

  /** Product of a run of divisors. */
  function Product(s: seq<real>): real
  {
    if s == [] then 1.0 else s[0] * Product(s[1..])
  }

  lemma {:induction false} ProductSplit(s: seq<real>, i: nat)
    requires i <= |s|
    ensures Product(s) == Product(s[..i]) * Product(s[i..])
  {
    if i > 0 {
      ProductSplit(s[1..], i - 1);
      assert s[1..][..i - 1] == s[..i][1..];
      assert s[1..][i - 1..] == s[i..];
    }
  }

  /** The product of the divisors `s[i..j]`. */
  function Span(s: seq<real>, i: nat, j: nat): real
    requires i <= j <= |s|
  {
    Product(s[i..j])
  }

  /** `amount` counted in units worth `factor` each. */
  function Measure(amount: real, factor: real): real
  {
    amount * factor
  }

  /** The product of the first `k` divisors. */
  function Below(s: seq<real>, k: nat): real
    requires k <= |s|
  {
    Product(s[..k])
  }

  /** An amount that measures `x` over the span from `i` to `j` measures
      `x` times the product below `i` over everything below `j`. */
  lemma SpanSplit(s: seq<real>, i: nat, j: nat, a: real, x: real)
    requires i <= j <= |s| && a * Span(s, i, j) == x
    ensures Measure(a, Below(s, j)) == Measure(x, Below(s, i))
  {
    ProductSplit(s[..j], i);
    assert s[..j][..i] == s[..i];
    assert s[..j][i..] == s[i..j];
    ScaleBack(a, Product(s[..i]), Product(s[i..j]), Product(s[..j]), x);
  }

  lemma {:induction false} ProductPositive(s: seq<real>)
    requires forall k :: 0 <= k < |s| ==> s[k] > 0.0
    ensures Product(s) > 0.0
  {
    if s != [] {
      ProductPositive(s[1..]);
    }
  }

  lemma MulMonotone(d: real, x: real, y: real)
    requires d > 0.0 && x >= y
    ensures d * x >= d * y
  {
  }

  lemma MulSwap(a: real, d: real, p: real)
    ensures a * (d * p) == d * (a * p)
  {
  }

  lemma ScaleBack(a: real, p: real, q: real, r: real, x: real)
    requires r == p * q && a * q == x
    ensures a * r == x * p
  {
    MulSwap(a, p, q);
  }

  lemma DivCancels(x: real, d: real)
    requires d != 0.0
    ensures d * (x / d) == x
  {
  }

  /** The climb from position `i` ends at or above `i` in the same chain,
      and stops either at the top or at the first step whose threshold the
      current amount does not reach. */
  lemma {:induction false} ClimbStops(c: Chain, i: nat, amount: real)
    requires WellFormed(c) && i < |c.units|
    ensures var (j, a) := Climb(c, i, amount);
      i <= j < |c.units| && (j + 1 < |c.units| ==> a < c.divisors[j])
    decreases |c.units| - i
  {
    if !(i + 1 == |c.units| || amount < c.divisors[i]) {
      ClimbStops(c, i + 1, amount / c.divisors[i]);
    }
  }

  /** `x` divided by each of `s` in turn. */
  function DivideBy(x: real, s: seq<real>): real
    requires forall k :: 0 <= k < |s| ==> s[k] > 0.0
    decreases |s|
  {
    if s == [] then x else DivideBy(x / s[0], s[1..])
  }

  /** The climb's amount is the starting amount divided by every divisor
      it passed. */
  lemma {:induction false} ClimbDivides(c: Chain, i: nat, amount: real)
    requires WellFormed(c) && i < |c.units|
    ensures i <= Climb(c, i, amount).0 < |c.units|
    ensures Climb(c, i, amount).1 == DivideBy(amount, c.divisors[i..Climb(c, i, amount).0])
    decreases |c.units| - i
  {
    if i + 1 == |c.units| || amount < c.divisors[i] {
      assert c.divisors[i..i] == [];
    } else {
      ClimbDivides(c, i + 1, amount / c.divisors[i]);
      var j := Climb(c, i + 1, amount / c.divisors[i]).0;
      assert c.divisors[i..j] == [c.divisors[i]] + c.divisors[i + 1..j];
    }
  }

  /** Dividing by each divisor in turn and multiplying back by their
      product gives the starting value. */
  lemma {:induction false} DivideByProduct(x: real, s: seq<real>)
    requires forall k :: 0 <= k < |s| ==> s[k] > 0.0
    ensures DivideBy(x, s) * Product(s) == x
    decreases |s|
  {
    if s != [] {
      var d := s[0];
      assert forall k :: 0 <= k < |s| - 1 ==> s[1..][k] == s[k + 1];
      DivideByProduct(x / d, s[1..]);
      var q := DivideBy(x / d, s[1..]);
      var p := Product(s[1..]);
      MulSwap(q, d, p);
      DivCancels(x, d);
    }
  }

  /** The climb conserves quantity: the resulting amount times the product
      of the divisors it passed is the starting amount. */
  lemma ClimbConserves(c: Chain, i: nat, amount: real)
    requires WellFormed(c) && i < |c.units|
    ensures i <= Climb(c, i, amount).0 < |c.units|
    ensures Climb(c, i, amount).1 * Span(c.divisors, i, Climb(c, i, amount).0) == amount
  {
    ClimbDivides(c, i, amount);
    var j := Climb(c, i, amount).0;
    DivideByProduct(amount, c.divisors[i..j]);
  }

  /** Every step the climb took fitted: for each unit passed on the way to
      the result, the amount reached the product of the thresholds up to
      it. */
  lemma {:induction false} ClimbFits(c: Chain, i: nat, amount: real)
    requires WellFormed(c) && i < |c.units|
    ensures var (j, a) := Climb(c, i, amount);
      forall k :: i < k <= j && k <= |c.divisors| ==> amount >= Product(c.divisors[i..k])
    decreases |c.units| - i
  {
    if !(i + 1 == |c.units| || amount < c.divisors[i]) {
      var d := c.divisors[i];
      var rest := amount / d;
      ClimbFits(c, i + 1, rest);
      var (j, a) := Climb(c, i + 1, rest);
      forall k | i < k <= j && k <= |c.divisors|
        ensures amount >= Product(c.divisors[i..k])
      {
        assert c.divisors[i..k] == [d] + c.divisors[i + 1..k];
        assert Product(c.divisors[i..k]) == d * Product(c.divisors[i + 1..k]);
        if k > i + 1 {
          MulMonotone(d, rest, Product(c.divisors[i + 1..k]));
          assert amount == d * rest;
        } else {
          assert c.divisors[i + 1..k] == [];
        }
      }
    }
  }

  /** Measured from the bottom of the chain, the climb from `i` keeps the
      quantity: the resulting amount over the divisors below the result
      unit measures what the start measures over the divisors below `i`. */
  lemma ClimbKeepsBase(c: Chain, i: nat, amount: real) returns (j: nat, a: real)
    requires WellFormed(c) && i < |c.units|
    ensures Climb(c, i, amount) == (j, a) && i <= j < |c.units|
    ensures Measure(a, Below(c.divisors, j)) == Measure(amount, Below(c.divisors, i))
  {
    ClimbConserves(c, i, amount);
    j, a := Climb(c, i, amount).0, Climb(c, i, amount).1;
    SpanSplit(c.divisors, i, j, a, amount);
  }

  /** How many base units (g or ml) one `unit` holds. */
  function BaseFactor(unit: string): real
  {
    match ChainOf(unit)
    case None => 1.0
    case Some(s) =>
      var c := UnitSequences[s];
      Below(c.divisors, IndexOf(c.units, unit))
  }

  /** The base factor of the unit at position `k` of sequence `s` is the
      product of the divisors below it. */
  lemma BaseFactorAt(s: nat, k: nat)
    requires s < |UnitSequences| && k < |UnitSequences[s].units|
    ensures BaseFactor(UnitSequences[s].units[k]) == Below(UnitSequences[s].divisors, k)
  {
    ChainsSound();
    ChainOfMember(s, k);
    IndexOfDistinct(UnitSequences[s].units, k);
  }

  /** The base factors of the weight units: 1, 10 and 1000 grams. */
  lemma WeightFactors()
    ensures BaseFactor("g") == 1.0 && BaseFactor("dkg") == 10.0 && BaseFactor("kg") == 1000.0
  {
    BaseFactorAt(0, 0);
    BaseFactorAt(0, 1);
    BaseFactorAt(0, 2);
    assert Below(Weight.divisors, 0) == 1.0;
    assert Below(Weight.divisors, 1) == 10.0 by {
      assert Weight.divisors[..1] == [10.0];
      assert Product([10.0]) == 10.0 * Product([]);
    }
    assert Below(Weight.divisors, 2) == 1000.0 by {
      assert Weight.divisors[..2] == [10.0, 100.0];
      assert Product([100.0]) == 100.0 * Product([]);
      assert Product([10.0, 100.0]) == 10.0 * Product([100.0]);
    }
  }

  /** The base factors of the volume units: 1, 100 and 1000 millilitres. */
  lemma VolumeFactors()
    ensures BaseFactor("ml") == 1.0 && BaseFactor("dl") == 100.0 && BaseFactor("l") == 1000.0
  {
    BaseFactorAt(1, 0);
    BaseFactorAt(1, 1);
    BaseFactorAt(1, 2);
    assert Below(Volume.divisors, 0) == 1.0;
    assert Below(Volume.divisors, 1) == 100.0 by {
      assert Volume.divisors[..1] == [100.0];
      assert Product([100.0]) == 100.0 * Product([]);
    }
    assert Below(Volume.divisors, 2) == 1000.0 by {
      assert Volume.divisors[..2] == [100.0, 10.0];
      assert Product([10.0]) == 10.0 * Product([]);
      assert Product([100.0, 10.0]) == 100.0 * Product([10.0]);
    }
  }

  /** `amount` of `unit`, measured in the base unit of its chain. */
  function InBase(unit: string, amount: real): real
  {
    Measure(amount, BaseFactor(unit))
  }

  /** Within chain `s`, a unit's base measure uses the divisors below it. */
  lemma InBaseInChain(s: nat, k: nat, amount: real)
    requires s < |UnitSequences| && k < |UnitSequences[s].units|
    requires ChainOf(UnitSequences[s].units[k]) == Some(s)
    requires IndexOf(UnitSequences[s].units, UnitSequences[s].units[k]) == k
    ensures InBase(UnitSequences[s].units[k], amount) == Measure(amount, Below(UnitSequences[s].divisors, k))
  {
  }

  /** No unit appears twice in a chain. */
  predicate Distinct(units: seq<string>)
  {
    forall a, b :: 0 <= a < b < |units| ==> units[a] != units[b]
  }

  /** In a chain without repeated units, the position of the unit at `j`
      is `j`. */
  lemma IndexOfDistinct(units: seq<string>, j: nat)
    requires Distinct(units) && j < |units|
    ensures IndexOf(units, units[j]) == j
  {
  }

  /** Both unit sequences are well formed, without repeated units, and no
      unit belongs to both. */
  lemma ChainsSound()
    ensures forall s :: 0 <= s < |UnitSequences| ==> WellFormed(UnitSequences[s]) && Distinct(UnitSequences[s].units)
    ensures forall u :: u in Weight.units ==> u !in Volume.units
  {
    assert WellFormed(Weight) && Distinct(Weight.units);
    assert WellFormed(Volume) && Distinct(Volume.units);
  }

  /** Every unit of sequence `s` is found in sequence `s`. */
  lemma ChainOfMember(s: nat, k: nat)
    requires s < |UnitSequences| && k < |UnitSequences[s].units|
    ensures ChainOf(UnitSequences[s].units[k]) == Some(s)
  {
    ChainsSound();
  }

  /** The climb of a unit within a chain without repeated units: it starts
      at the unit's position `i`, ends at a position `j` whose unit is
      found again at `j`, and keeps the quantity measured from the bottom
      of the chain. */
  lemma ClimbInChain(c: Chain, unit: string, amount: real) returns (i: nat, j: nat, a: real)
    requires WellFormed(c) && Distinct(c.units) && unit in c.units
    ensures i == IndexOf(c.units, unit) && Climb(c, i, amount) == (j, a) && i <= j < |c.units|
    ensures IndexOf(c.units, c.units[j]) == j
    ensures Measure(a, Below(c.divisors, j)) == Measure(amount, Below(c.divisors, i))
  {
    i := IndexOf(c.units, unit);
    j, a := ClimbKeepsBase(c, i, amount);
    IndexOfDistinct(c.units, j);
  }

  /** Lowering never changes the quantity: the result unit lies in the same
      chain, and measured in the chain's base unit (g or ml) the result
      equals the input. A unit outside every chain comes back unchanged
      with its amount. */
  lemma LoweredConservesQuantity(unit: string, amount: real)
    ensures ChainOf(unit).None? ==> Lowered(unit, amount) == (unit, amount)
    ensures ChainOf(unit).Some? ==>
              ChainOf(Lowered(unit, amount).0) == ChainOf(unit) &&
              InBase(Lowered(unit, amount).0, Lowered(unit, amount).1) == InBase(unit, amount)
  {
    if ChainOf(unit).Some? {
      var s := ChainOf(unit).value;
      var c := UnitSequences[s];
      ChainsSound();
      var i, j, a := ClimbInChain(c, unit, amount);
      ChainOfMember(s, j);
      assert Lowered(unit, amount) == (c.units[j], a);
      InBaseInChain(s, j, a);
      InBaseInChain(s, i, amount);
    }
  }

  /** Concrete behaviour: 400 g is 40 dkg, 1500 ml is 1.5 l, 250 g stays at
      25 dkg (100 is the threshold for kg), 0.5 kg and 7 "pcs" are left as
      they are. */
  lemma LowerUnitExamples()
    ensures Lowered("g", 400.0) == ("dkg", 40.0)
    ensures Lowered("ml", 1500.0) == ("l", 1.5)
    ensures Lowered("g", 250.0) == ("dkg", 25.0)
    ensures Lowered("kg", 0.5) == ("kg", 0.5)
    ensures Lowered("pcs", 7.0) == ("pcs", 7.0)
  {
    assert IndexOf(Weight.units, "g") == 0;
    assert IndexOf(Volume.units, "ml") == 0;
    assert IndexOf(Weight.units, "kg") == 2;
  }
}
