/** Turning piece counts into package counts (`calculate_pkg_qty`) and the
    placeholder re-filter `main` applies to its result. */
module Conversion {
  import opened Strings
  import opened Seqs
  import opened Records

  /** A quantity cell that means "not reported". */
  predicate IsPlaceholder(qty: string) {
    qty == "" || qty == "na" || qty == "x" || qty == "X"
  }

  /** An observation that carries a reported quantity. */
  predicate IsReported(o: Observation) {
    !IsPlaceholder(o.qty)
  }

  /** Every reported quantity of the list is a string `int()` reads. */
  predicate Parsable(items: seq<Observation>) {
    forall i :: 0 <= i < |items| && IsReported(items[i]) ==> IsDigits(items[i].qty)
  }

  /** One observation in packages: `int(qty) / int(divisor)`. */
  function PackageOf(o: Observation, divisor: int): Package
    requires IsDigits(o.qty) && divisor > 0
  {
    Package(o.siteName, o.siteNumber, DigitsValue(o.qty) / divisor)
  }

  /** The package count keeps the site and is the floor of the piece count over
      the divisor, as Python 2's `/` on a non-negative int and a positive int
      computes it. */
  lemma PackageOfFloors(o: Observation, divisor: int)
    requires IsDigits(o.qty) && divisor > 0
    ensures PackageOf(o, divisor).siteName == o.siteName && PackageOf(o, divisor).siteNumber == o.siteNumber
    ensures var c := PackageOf(o, divisor).cartons;
      0 <= c && c * divisor <= DigitsValue(o.qty) < (c + 1) * divisor
  {
  }

  /** The converted list of one product code, built the way the inner loop of
      `calculate_pkg_qty` appends to it. */
  function Converted(items: seq<Observation>, divisor: int): seq<Package>
    requires divisor > 0 && Parsable(items)
    decreases |items|
  {
    if items == [] then []
    else
      var n := |items| - 1;
      var prefix := items[..n];
      assert forall i :: 0 <= i < n ==> prefix[i] == items[i];
      Converted(prefix, divisor) + (if IsReported(items[n]) then [PackageOf(items[n], divisor)] else [])
  }

  /** One package count per reported observation, in input order, and nothing
      for the placeholders: the `j`-th package converts the `j`-th reported
      observation. */
  lemma {:induction false} ConvertedInOrder(items: seq<Observation>, divisor: int)
    requires divisor > 0 && Parsable(items)
    ensures |Converted(items, divisor)| == |Positions(IsReported, items)|
    ensures forall j :: 0 <= j < |Converted(items, divisor)| ==>
      var i := Positions(IsReported, items)[j];
      i < |items| && IsDigits(items[i].qty) && Converted(items, divisor)[j] == PackageOf(items[i], divisor)
    decreases |items|
  {
    if items != [] {
      var n := |items| - 1;
      var prefix := items[..n];
      var x := items[n];
      assert items == prefix + [x];
      PositionsSnoc(IsReported, prefix, x);
      ConvertedInOrder(prefix, divisor);
      var before := Positions(IsReported, prefix);
      var converted := Converted(prefix, divisor);
      forall j | 0 <= j < |Converted(items, divisor)|
        ensures var i := Positions(IsReported, items)[j];
          i < |items| && IsDigits(items[i].qty) && Converted(items, divisor)[j] == PackageOf(items[i], divisor)
      {
        if j < |converted| {
          assert Positions(IsReported, items)[j] == before[j];
          assert items[before[j]] == prefix[before[j]];
        } else {
          assert Positions(IsReported, items)[j] == n;
        }
      }
    }
  }

  /** A code's converted list is empty exactly when every one of its quantities
      is a placeholder; in particular a reported quantity below the divisor is
      kept as zero packages. */
  lemma ConvertedEmpty(items: seq<Observation>, divisor: int)
    requires divisor > 0 && Parsable(items)
    ensures Converted(items, divisor) == [] <==> forall i :: 0 <= i < |items| ==> IsPlaceholder(items[i].qty)
  {
    FilterEmpty(IsReported, items);
    ConvertedInOrder(items, divisor);
  }

  /** One step of the inner loop: the list of a longer prefix. */
  lemma ConvertedSnoc(items: seq<Observation>, k: nat, divisor: int)
    requires k < |items| && divisor > 0 && Parsable(items)
    ensures Parsable(items[..k]) && Parsable(items[..k + 1])
    ensures IsReported(items[k]) ==> IsDigits(items[k].qty)
    ensures Converted(items[..k + 1], divisor)
         == Converted(items[..k], divisor) + (if IsReported(items[k]) then [PackageOf(items[k], divisor)] else [])
  {
    var next := items[..k + 1];
    assert next[..k] == items[..k];
    assert next[k] == items[k];
  }

  /** A code of the aggregate that has no divisor, or that has no observations
      at all (its output list is never created, so the length test raises). */
  predicate IsFaultyCode(data: Inventory, divisors: map<string, int>, code: string) {
    code in data && (code !in divisors || data[code] == [])
  }

  /** The inner loop of `calculate_pkg_qty` for one code: the code's output
      list is created when its first observation is met, and each reported
      observation is appended in packages. A code with no observations is
      left without a list. */
  method ConvertCode(extendedData: PackageInventory, code: string, items: seq<Observation>, divisor: int)
    returns (extended: PackageInventory)
    requires code !in extendedData
    requires divisor > 0 && Parsable(items)
    ensures items == [] ==> extended == extendedData
    ensures items != [] ==> extended == extendedData[code := Converted(items, divisor)]
  {
    extended := extendedData;
    for k := 0 to |items|
      invariant k == 0 ==> extended == extendedData
      invariant k > 0 ==> extended == extendedData[code := Converted(items[..k], divisor)]
    {
      if code !in extended {
        extended := extended[code := []];
      }
      ConvertedSnoc(items, k, divisor);
      assert items[..0] == [];
      assert extended == extendedData[code := Converted(items[..k], divisor)];
      var item := items[k];
      var qty := item.qty;
      if qty != "" && qty != "na" && qty != "x" && qty != "X" {
        extended := extended[code := extended[code] + [PackageOf(item, divisor)]];
      } else {
        assert Converted(items[..k + 1], divisor) == Converted(items[..k], divisor);
      }
    }
    assert items[..|items|] == items;
  }

  /** `calculate_pkg_qty`: converts every code's observations with the code's
      divisor, drops placeholder quantities, and deletes every code whose list
      ends up empty. A code without a divisor, or with no observations, raises
      `KeyError`; which one is reported depends on the dictionary's iteration
      order, which is left open here. */
  method CalculatePkgQty(data: Inventory, divisors: map<string, int>) returns (r: Result<PackageInventory>)
    requires forall c :: c in data && c in divisors ==> divisors[c] > 0
    requires forall c :: c in data ==> Parsable(data[c])
    ensures r.Err? <==> exists c :: IsFaultyCode(data, divisors, c)
    ensures r.Err? ==> IsFaultyCode(data, divisors, r.error.key)
    ensures r.Ok? ==> forall c :: c in r.value <==>
      c in data && exists i :: 0 <= i < |data[c]| && !IsPlaceholder(data[c][i].qty)
    ensures r.Ok? ==> forall c :: c in r.value ==>
      c in divisors && r.value[c] == Converted(data[c], divisors[c]) && r.value[c] != []
  {
    var extendedData: PackageInventory := map[];
    var remaining := data.Keys;
    while remaining != {}
      invariant remaining <= data.Keys
      invariant forall c :: c in data && c !in remaining ==> !IsFaultyCode(data, divisors, c)
      invariant forall c :: c in extendedData <==>
        c in data && c !in remaining && Converted(data[c], divisors[c]) != []
      invariant forall c :: c in extendedData ==> extendedData[c] == Converted(data[c], divisors[c])
      decreases |remaining|
    {
      var code :| code in remaining;
      if code !in divisors {
        assert IsFaultyCode(data, divisors, code);
        return Err(KeyError(code));
      }
      extendedData := ConvertCode(extendedData, code, data[code], divisors[code]);
      if code !in extendedData {
        assert IsFaultyCode(data, divisors, code);
        return Err(KeyError(code));
      }
      if |extendedData[code]| == 0 {
        extendedData := extendedData - {code};
      }
      remaining := remaining - {code};
    }
    forall c | c in data
      ensures c in extendedData <==> exists i :: 0 <= i < |data[c]| && !IsPlaceholder(data[c][i].qty)
    {
      ConvertedEmpty(data[c], divisors[c]);
    }
    return Ok(extendedData);
  }

  // ---------------------------------------------------------------------
  // The re-filter of main
  // ---------------------------------------------------------------------

  /** The placeholder test of `main`, applied to a cell value. */
  predicate IsPlaceholderCell(v: Cell) {
    v == Text("") || v == Text("na") || v == Text("x") || v == Text("X")
  }

  /** The second placeholder pass of `main` over the converted aggregate: the
      package counts it tests are numbers, never equal to the text
      placeholders, so it rebuilds every non-empty list as it was. */
  method Refilter(extendedData: PackageInventory) returns (inventoryData: PackageInventory)
    ensures inventoryData == map c | c in extendedData && extendedData[c] != [] :: extendedData[c]
  {
    inventoryData := map[];
    var remaining := extendedData.Keys;
    while remaining != {}
      invariant remaining <= extendedData.Keys
      invariant forall c :: c in inventoryData <==> c in extendedData && c !in remaining && extendedData[c] != []
      invariant forall c :: c in inventoryData ==> inventoryData[c] == extendedData[c]
      decreases |remaining|
    {
      var code :| code in remaining;
      var siteInventoryList := extendedData[code];
      ghost var before := inventoryData;
      for k := 0 to |siteInventoryList|
        invariant k == 0 ==> inventoryData == before
        invariant k > 0 ==> inventoryData == before[code := siteInventoryList[..k]]
      {
        var inventoryTuple := siteInventoryList[k];
        assert siteInventoryList[..k + 1] == siteInventoryList[..k] + [inventoryTuple];
        if !IsPlaceholderCell(Number(inventoryTuple.cartons)) {
          if code !in inventoryData {
            inventoryData := inventoryData[code := []];
          }
          inventoryData := inventoryData[code := inventoryData[code] + [inventoryTuple]];
        }
      }
      assert siteInventoryList[..|siteInventoryList|] == siteInventoryList;
      remaining := remaining - {code};
    }
  }

  /** The re-filter leaves the converted aggregate exactly as it is: the
      composition of the `ensures` of `CalculatePkgQty` (whose lists are the
      non-empty converted lists) with those of `Refilter` (which drops only
      empty lists). */
  lemma RefilterKeepsConverted(data: Inventory, divisors: map<string, int>, extendedData: PackageInventory)
    requires forall c :: c in data && c in divisors ==> divisors[c] > 0
    requires forall c :: c in data ==> Parsable(data[c])
    requires forall c :: c in extendedData ==> c in data && c in divisors && extendedData[c] == Converted(data[c], divisors[c]) && extendedData[c] != []
    ensures (map c | c in extendedData && extendedData[c] != [] :: extendedData[c]) == extendedData
  {
  }
}
