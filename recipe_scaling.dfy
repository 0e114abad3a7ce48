/** The scaling step of the `recipe` command: a `--scale` string of
    comma-separated `name=value` bits becomes a table of scales, and every
    ingredient with an `amount` is rescaled from the recipe's portions to
    the number of adults and then moved to the coarsest fitting unit. The
    recipe data is an input. */
module RecipeScaling {
  import opened Common
  import opened Text
  import opened Yaml
  import opened Feedem

  /** The table a `--scale` string starts from. */
  const DefaultScales: map<string, Value> := map["adults" := Num(0.0), "kids" := Num(0.0)]

  /** The bits of a scale string: split on `,`, each stripped. */
  function Bits(scale: string): seq<string>
  {
    var pieces := Split(scale, ',');
    seq(|pieces|, k requires 0 <= k < |pieces| => Strip(pieces[k]))
  }

  /** One bit: it must split on `=` into exactly a name and a value (both
      stripped), and the value must read as a number. */
  function ParseBit(bit: string): (r: Result<(string, real)>)
    ensures r.Err? ==> r == Err(ValueError)
    ensures |Split(bit, '=')| != 2 ==> r == Err(ValueError)
  {
    var parts := Split(bit, '=');
    if |parts| != 2 then Err(ValueError)
    else
      match ParseNumber(Strip(parts[1]))
      case None => Err(ValueError)
      case Some(v) => Ok((Strip(parts[0]), v))
  }

  /** A bit with exactly one `=`: it reads as the stripped name and the
      number exactly when the stripped value is a number, and fails with
      `ValueError` otherwise. */
  lemma ParseBitOf(name: string, value: string)
    requires '=' !in name && '=' !in value
    ensures ParseNumber(Strip(value)).Some? ==>
              ParseBit(name + "=" + value) == Ok((Strip(name), ParseNumber(Strip(value)).value))
    ensures ParseNumber(Strip(value)).None? ==> ParseBit(name + "=" + value) == Err(ValueError)
  {
    SplitTwo(name, value, '=');
  }

  /** Every bit parsed with `parse`; the first malformed bit is the error. */
  function ParseAll(parse: string -> Result<(string, real)>, bits: seq<string>): (r: Result<seq<(string, real)>>)
    ensures r.Ok? ==> |r.value| == |bits|
  {
    if bits == [] then Ok([])
    else
      var prev :- ParseAll(parse, bits[..|bits| - 1]);
      var last :- parse(bits[|bits| - 1]);
      Ok(prev + [last])
  }

  /** The whole string parses exactly when every bit does, and then the
      pairs are the bits' parses in order. */
  lemma {:induction false} ParseAllMeaning(parse: string -> Result<(string, real)>, bits: seq<string>)
    ensures ParseAll(parse, bits).Ok? <==> forall k :: 0 <= k < |bits| ==> parse(bits[k]).Ok?
    ensures ParseAll(parse, bits).Ok? ==> forall k :: 0 <= k < |bits| ==> parse(bits[k]) == Ok(ParseAll(parse, bits).value[k])
  {
    if bits != [] {
      var init := bits[..|bits| - 1];
      ParseAllMeaning(parse, init);
      assert forall k :: 0 <= k < |init| ==> init[k] == bits[k];
    }
  }

  /** When the bits before `i` parse and bit `i` does not, the whole
      string fails with bit `i`'s error. */
  lemma {:induction false} ParseAllFirstError(parse: string -> Result<(string, real)>, bits: seq<string>, i: nat)
    requires i < |bits| && ParseAll(parse, bits[..i]).Ok? && parse(bits[i]).Err?
    ensures ParseAll(parse, bits) == Err(parse(bits[i]).error)
  {
    var init := bits[..|bits| - 1];
    if i < |bits| - 1 {
      assert init[..i] == bits[..i] && init[i] == bits[i];
      ParseAllFirstError(parse, init, i);
    } else {
      assert init == bits[..i];
    }
  }

  /** Since every malformed bit fails the same way, so does the string. */
  lemma {:induction false} ParseAllError(bits: seq<string>)
    ensures ParseAll(ParseBit, bits).Err? ==> ParseAll(ParseBit, bits) == Err(ValueError)
  {
    if bits != [] {
      ParseAllError(bits[..|bits| - 1]);
    }
  }

  /** `scales[name] = value` for every parsed bit, in order. */
  function Assign(scales: map<string, Value>, pairs: seq<(string, real)>): (r: map<string, Value>)
    ensures scales.Keys <= r.Keys
  {
    if pairs == [] then scales
    else Assign(scales, pairs[..|pairs| - 1])[pairs[|pairs| - 1].0 := Num(pairs[|pairs| - 1].1)]
  }

  /** `scales` updated with every bit parsed by `parse`. */
  function AssignParsed(parse: string -> Result<(string, real)>, scales: map<string, Value>, bits: seq<string>): Result<map<string, Value>>
  {
    var pairs :- ParseAll(parse, bits);
    Ok(Assign(scales, pairs))
  }

  /** The table after applying `bits` in order to `scales`. */
  function ApplyBits(scales: map<string, Value>, bits: seq<string>): (r: Result<map<string, Value>>)
    ensures r.Err? ==> r == Err(ValueError)
    ensures r.Ok? ==> scales.Keys <= r.value.Keys
    ensures r.Err? <==> exists k :: 0 <= k < |bits| && ParseBit(bits[k]).Err?
  {
    ParseAllError(bits);
    ParseAllMeaning(ParseBit, bits);
    AssignParsed(ParseBit, scales, bits)
  }

  /** The scale table: with a scale string, the defaults updated bit by
      bit; without one, adults are the recipe's portions and kids 0. */
  function Scales(recipe: Value, scale: Option<string>): Result<map<string, Value>>
  {
    match scale
    case Some(s) => ApplyBits(DefaultScales, Bits(s))
    case None =>
      var portions :- Lookup(recipe, "portions");
      Ok(map["adults" := portions, "kids" := Num(0.0)])
  }

  /** The scale-string loop of `cmd_recipe`: each bit is parsed and its
      name set in the table; the first bit that does not parse ends the
      loop with its error. */
  method ApplyScaleBits(parse: string -> Result<(string, real)>, bits: seq<string>, scales: map<string, Value>)
    returns (r: Result<map<string, Value>>)
    ensures r == AssignParsed(parse, scales, bits)
  {
    var table := scales;
    ghost var pairs: seq<(string, real)> := [];
    var i := 0;
    while i < |bits|
      invariant 0 <= i <= |bits|
      invariant ParseAll(parse, bits[..i]) == Ok(pairs) && table == Assign(scales, pairs)
    {
      var parsed := parse(bits[i]);
      if parsed.Err? {
        ParseAllFirstError(parse, bits, i);
        return Err(parsed.error);
      }
      assert bits[..i + 1][..i] == bits[..i];
      table := table[parsed.value.0 := Num(parsed.value.1)];
      pairs := pairs + [parsed.value];
      i := i + 1;
    }
    assert bits[..i] == bits;
    r := Ok(table);
  }

  /** A name set by a bit ends up with the value of the last bit that sets
      it. */
  lemma {:induction false} LastBitWins(scales: map<string, Value>, pairs: seq<(string, real)>, k: nat)
    requires k < |pairs|
    requires forall j :: k < j < |pairs| ==> pairs[j].0 != pairs[k].0
    ensures pairs[k].0 in Assign(scales, pairs)
    ensures Assign(scales, pairs)[pairs[k].0] == Num(pairs[k].1)
  {
    var init := pairs[..|pairs| - 1];
    if k < |pairs| - 1 {
      assert forall j :: 0 <= j < |init| ==> init[j] == pairs[j];
      LastBitWins(scales, init, k);
    }
  }

  /** A name no bit sets keeps its default (or stays absent). */
  lemma {:induction false} UnsetNameKeepsDefault(scales: map<string, Value>, pairs: seq<(string, real)>, name: string)
    requires forall j :: 0 <= j < |pairs| ==> pairs[j].0 != name
    ensures name in Assign(scales, pairs) <==> name in scales
    ensures name in scales ==> Assign(scales, pairs)[name] == scales[name]
  {
    if pairs != [] {
      var init := pairs[..|pairs| - 1];
      assert forall j :: 0 <= j < |init| ==> init[j] == pairs[j];
      UnsetNameKeepsDefault(scales, init, name);
    }
  }

  /** The first whitespace-separated token of an amount and its last. */
  function Number(amount: string): string { Split(amount, ' ')[0] }
  function UnitOf(amount: string): string { Split(amount, ' ')[|Split(amount, ' ')| - 1] }

  /** One ingredient of the loop: one without `amount` is left alone;
      otherwise its amount text gives the number (first token) and the unit
      (last token), and the ingredient is rescaled. `portions` is the
      outcome of looking the portions up in the recipe. */
  function ScaleIngredient(ingredient: Value, portions: Result<Value>, adults: Value): (r: Result<Value>)
    ensures ContainsText(ingredient, "amount") == Ok(false) ==> r == Ok(ingredient)
  {
    var has :- ContainsText(ingredient, "amount");
    if !has then Ok(ingredient)
    else
      var amountText :- Lookup(ingredient, "amount");
      if !amountText.Str? then Err(AttributeError)
      else
        match ParseNumber(Number(amountText.s))
        case None => Err(ValueError)
        case Some(number) => Rescaled(ingredient, UnitOf(amountText.s), number, portions, adults)
  }

  /** A per-recipe number divided by the recipe's portions and multiplied
      by the adults it is scaled to. */
  function Rescale(number: real, portions: real, adults: real): real
    requires portions != 0.0
  {
    number / portions * adults
  }

  /** The number is divided by the portions and multiplied by the adults,
      and the ingredient's amount and unit become what `lower_unit` makes of
      that. */
  function Rescaled(ingredient: Value, unit: string, number: real, portions: Result<Value>, adults: Value): Result<Value>
  {
    var p :- portions;
    if !p.Num? then Err(TypeError)
    else if p.n == 0.0 then Err(ZeroDivision)
    else if !adults.Num? then Err(TypeError)
    else
      var lowered := Lowered(unit, Rescale(number, p.n, adults.n));
      var withAmount :- Store(ingredient, "amount", Num(lowered.1));
      Store(withAmount, "unit", Str(lowered.0))
  }

  /** Every item passed through `step`, in order; the first failure is the
      error. */
  function MapAll(step: Value -> Result<Value>, items: seq<Value>): (r: Result<seq<Value>>)
    ensures r.Ok? ==> |r.value| == |items|
  {
    if items == [] then Ok([])
    else
      var first :- step(items[0]);
      var rest :- MapAll(step, items[1..]);
      Ok([first] + rest)
  }

  /** Every ingredient scaled, in order. */
  function ScaleAll(items: seq<Value>, portions: Result<Value>, adults: Value): Result<seq<Value>>
  {
    MapAll(x => ScaleIngredient(x, portions, adults), items)
  }

  /** `done` followed by the outcome `r`. */
  function Prepend(done: seq<Value>, r: Result<seq<Value>>): Result<seq<Value>>
  {
    match r
    case Ok(rest) => Ok(done + rest)
    case Err(e) => Err(e)
  }

  /** Iterating the `ingredients` value: a list yields its items; a string
      yields one-character strings, none of which holds `amount`; a mapping
      yields its keys, and a key containing `amount` cannot be indexed by a
      string. */
  function ScaleIngredients(ingredients: Value, portions: Result<Value>, adults: Value): Result<Value>
  {
    match ingredients
    case List(items) =>
      var scaled :- ScaleAll(items, portions, adults);
      Ok(List(scaled))
    case Str(_) => Ok(ingredients)
    case Mapping(m) =>
      if exists key | key in m :: IsInfix("amount", key) then Err(TypeError) else Ok(ingredients)
    case _ => Err(TypeError)
  }

  /** The ingredient loop of `cmd_recipe`, with the step applied to each
      ingredient in turn. */
  method ScaleIngredientList(step: Value -> Result<Value>, items: seq<Value>) returns (r: Result<seq<Value>>)
    ensures r == MapAll(step, items)
  {
    var done: seq<Value> := [];
    var i := 0;
    assert items[0..] == items;
    match MapAll(step, items) {
      case Ok(all) => assert [] + all == all;
      case Err(_) =>
    }
    while i < |items|
      invariant 0 <= i <= |items|
      invariant MapAll(step, items) == Prepend(done, MapAll(step, items[i..]))
    {
      assert items[i..][0] == items[i] && items[i..][1..] == items[i + 1..];
      var scaled := step(items[i]);
      if scaled.Err? {
        assert MapAll(step, items[i..]) == Err(scaled.error);
        return Err(scaled.error);
      }
      var rest := MapAll(step, items[i + 1..]);
      if rest.Ok? {
        assert done + ([scaled.value] + rest.value) == (done + [scaled.value]) + rest.value;
      }
      done := done + [scaled.value];
      i := i + 1;
    }
    assert items[i..] == [] && done + [] == done;
    r := Ok(done);
  }

  /** What the scaling part of `cmd_recipe` leaves: the scale table and the
      recipe with its ingredients rewritten. */
  function Scaled(recipe: Value, scale: Option<string>): Result<(map<string, Value>, Value)>
  {
    var scales :- Scales(recipe, scale);
    var ingredients :- Lookup(recipe, "ingredients");
    var scaled :- ScaleIngredients(ingredients, Lookup(recipe, "portions"), scales["adults"]);
    var updated :- Store(recipe, "ingredients", scaled);
    Ok((scales, updated))
  }

  /** The scaling part of `cmd_recipe`. */
  method ScaleRecipe(recipe: Value, scale: Option<string>) returns (r: Result<(map<string, Value>, Value)>)
    ensures r == Scaled(recipe, scale)
  {
    var scales: map<string, Value>;
    if scale.Some? {
      scales :- ApplyScaleBits(ParseBit, Bits(scale.value), DefaultScales);
    } else {
      var portions :- Lookup(recipe, "portions");
      scales := map["adults" := portions, "kids" := Num(0.0)];
    }
    var ingredients :- Lookup(recipe, "ingredients");
    var scaled: Value;
    if ingredients.List? {
      var portions, adults := Lookup(recipe, "portions"), scales["adults"];
      var items :- ScaleIngredientList(x => ScaleIngredient(x, portions, adults), ingredients.items);
      scaled := List(items);
    } else {
      scaled :- ScaleIngredients(ingredients, Lookup(recipe, "portions"), scales["adults"]);
    }
    var updated := Store(recipe, "ingredients", scaled);
    r := Ok((scales, updated.value));
  }

  /** Scaling to as many adults as the recipe has portions gives the
      number back. */
  lemma RescaleSame(number: real, p: real)
    requires p != 0.0
    ensures Rescale(number, p, p) == number
  {
  }

  /** Without a scale string the adults are the portions, so the number is
      divided by the portions and multiplied by them again: what
      `lower_unit` receives is the original number. */
  lemma NoScaleKeepsAmount(ingredient: Value, unit: string, number: real, p: real)
    requires p != 0.0 && ingredient.Mapping?
    ensures var lowered := Lowered(unit, number);
            Rescaled(ingredient, unit, number, Ok(Num(p)), Num(p)) ==
              Ok(Mapping(ingredient.entries["amount" := Num(lowered.1)]["unit" := Str(lowered.0)]))
  {
    RescaleSame(number, p);
  }

  /** An ingredient whose amount text starts with a number, scaled from a
      nonzero number of portions: the amount becomes the number divided by
      the portions and multiplied by the adults (`Rescale`), moved by
      `lower_unit`, and the unit what `lower_unit` picks; in a known unit
      chain the quantity in the chain's base unit is exactly the rescaled
      number. The amount that is not text, the number that does not parse
      and zero portions are the errors. */
  lemma ScaleIngredientMeaning(ingredient: Value, portions: Result<Value>, adults: Value)
    requires ingredient.Mapping? && "amount" in ingredient.entries
    ensures !ingredient.entries["amount"].Str? ==> ScaleIngredient(ingredient, portions, adults) == Err(AttributeError)
    ensures ingredient.entries["amount"].Str? && ParseNumber(Number(ingredient.entries["amount"].s)).None? ==>
              ScaleIngredient(ingredient, portions, adults) == Err(ValueError)
    ensures ingredient.entries["amount"].Str? && ParseNumber(Number(ingredient.entries["amount"].s)).Some? &&
            portions == Ok(Num(0.0)) ==>
              ScaleIngredient(ingredient, portions, adults) == Err(ZeroDivision)
    ensures ingredient.entries["amount"].Str? && ParseNumber(Number(ingredient.entries["amount"].s)).Some? &&
            portions.Ok? && portions.value.Num? && portions.value.n != 0.0 && adults.Num? ==>
              var t := ingredient.entries["amount"].s;
              var n := Rescale(ParseNumber(Number(t)).value, portions.value.n, adults.n);
              var lo := Lowered(UnitOf(t), n);
              ScaleIngredient(ingredient, portions, adults) ==
                Ok(Mapping(ingredient.entries["amount" := Num(lo.1)]["unit" := Str(lo.0)])) &&
              (ChainOf(UnitOf(t)).None? ==> lo == (UnitOf(t), n)) &&
              (ChainOf(UnitOf(t)).Some? ==> InBase(lo.0, lo.1) == InBase(UnitOf(t), n))
  {
    var amount := ingredient.entries["amount"];
    assert ContainsText(ingredient, "amount") == Ok(true);
    assert Lookup(ingredient, "amount") == Ok(amount);
    if amount.Str? && ParseNumber(Number(amount.s)).Some? &&
       portions.Ok? && portions.value.Num? && portions.value.n != 0.0 && adults.Num? {
      var n := Rescale(ParseNumber(Number(amount.s)).value, portions.value.n, adults.n);
      RescaledStores(ingredient, UnitOf(amount.s), ParseNumber(Number(amount.s)).value, portions.value.n, adults.n);
      LoweredConservesQuantity(UnitOf(amount.s), n);
    }
  }

  /** With numeric, nonzero portions and numeric adults, the ingredient
      mapping gets the lowered amount and unit. */
  lemma RescaledStores(ingredient: Value, unit: string, number: real, p: real, adults: real)
    requires ingredient.Mapping? && p != 0.0
    ensures var lo := Lowered(unit, Rescale(number, p, adults));
            Rescaled(ingredient, unit, number, Ok(Num(p)), Num(adults)) ==
              Ok(Mapping(ingredient.entries["amount" := Num(lo.1)]["unit" := Str(lo.0)]))
  {
  }

  /** The amount text "200 g" splits into the number and the unit. */
  lemma AmountTextSplit()
    ensures Split("200 g", ' ') == ["200", "g"]
  {
    assert Split(" g", ' ') == ["", "g"] by {
      assert "g"[1..] == "" && Split("", ' ') == [""];
      assert "g"[0] == 'g' && ['g'] + "" == "g" && [""][1..] == [];
      assert Split("g", ' ') == ["g"];
      assert " g"[1..] == "g";
    }
    assert Split("00 g", ' ') == ["00", "g"] by {
      assert "0 g"[1..] == " g";
      assert ["", "g"][1..] == ["g"] && ['0'] + "" == "0";
      assert Split("0 g", ' ') == ["0", "g"];
      assert "00 g"[1..] == "0 g";
      assert ["0", "g"][1..] == ["g"] && ['0'] + "0" == "00";
    }
    assert "200 g"[1..] == "00 g";
    assert ["00", "g"][1..] == ["g"] && ['2'] + "00" == "200";
  }

  /** The amount text "200 g" reads as the number 200 in grams. */
  lemma AmountTextExample()
    ensures Number("200 g") == "200" && UnitOf("200 g") == "g" && ParseNumber("200") == Some(200.0)
  {
    AmountTextSplit();
    NumberTextExample();
  }

  /** The text "200" reads as the number 200. */
  lemma NumberTextExample()
    ensures ParseNumber("200") == Some(200.0)
  {
    ParseDigits("200");
    assert DigitsValue("200") == 200 by {
      assert DigitsValue("2") == 2;
      assert DigitsValue("20") == 20;
    }
  }

  /** 200 per 4 portions, for 8 adults, is 400 g, stored as 40 dkg. */
  lemma RescaledExample(ingredient: Value)
    requires ingredient == Mapping(map["amount" := Str("200 g")])
    ensures Rescaled(ingredient, "g", 200.0, Ok(Num(4.0)), Num(8.0))
            == Ok(Mapping(map["amount" := Num(40.0), "unit" := Str("dkg")]))
  {
    assert Rescale(200.0, 4.0, 8.0) == 400.0;
    assert Lowered("g", 400.0) == ("dkg", 40.0) by {
      assert IndexOf(Weight.units, "g") == 0;
    }
    assert map["amount" := Str("200 g")]["amount" := Num(40.0)]["unit" := Str("dkg")]
        == map["amount" := Num(40.0), "unit" := Str("dkg")];
  }

  /** Concrete behaviour: "200 g" for 4 portions scaled to 8 adults is
      40 dkg (not 0.4 kg: 400 g stays below the kg threshold of 100 dkg). */
  lemma ScaleExample()
    ensures ScaleIngredient(Mapping(map["amount" := Str("200 g")]), Ok(Num(4.0)), Num(8.0))
            == Ok(Mapping(map["amount" := Num(40.0), "unit" := Str("dkg")]))
  {
    var ingredient := Mapping(map["amount" := Str("200 g")]);
    AmountTextExample();
    assert ContainsText(ingredient, "amount") == Ok(true);
    assert Lookup(ingredient, "amount") == Ok(Str("200 g"));
    RescaledExample(ingredient);
  }
}
