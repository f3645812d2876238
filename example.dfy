/** Whole-run scenarios: the stages composed on small inputs, as the main
    program composes them after reading its spreadsheets. */
module Example {
  import opened Strings
  import opened Records
  import opened Directory
  import opened Reports
  import opened Conversion
  import opened Writer

  /** The directory and product table of the scenario below. */
  method ScenarioTables() returns (sites: map<string, Site>, products: map<string, int>)
    ensures sites == map["RC-A" := Site("Site A", "001")]
    ensures products == map["P100" := 12]
  {
    sites := GetSites(["RC-A"], ["Site A"], ["001"]);
    NotContainsLonger("RC-A", "Totals");
    assert "RC-A" in sites;
    products := GetProducts(["P100"], [12]);
  }

  /** The report of the scenario below: one row "RC-A" with 36 pieces of
      "P100", read as a well-formed sheet whose location column resolves. */
  lemma ScenarioReport(report: Sheet, sites: map<string, Site>)
    requires sites == map["RC-A" := Site("Site A", "001")]
    requires report == map["Location" := ["RC-A"], "P100" := ["36"]]
    ensures IsReportSheet(report) && LocationOf(report) == "Location"
    ensures ProductHeaders(report) == {"P100"}
    ensures SheetResolvable(report, sites) && SheetSites(report, sites) == [Site("Site A", "001")]
  {
    NotContainsLonger("P100", "Location");
    NotContainsLonger("RC-A", "Totals");
    assert "Location" in report && IsLocationHeader("Location");
    assert IsReportSheet(report);
    assert LocationOf(report) == "Location";
    NormalizeKeyOfPlainName("RC-A");
  }

  /** The aggregate of the scenario below. */
  method ScenarioAggregate(sites: map<string, Site>) returns (r: Result<Inventory>)
    requires sites == map["RC-A" := Site("Site A", "001")]
    ensures r == Ok(map["P100" := [Observation("Site A", "001", "36")]])
  {
    var report: Sheet := map["Location" := ["RC-A"], "P100" := ["36"]];
    ScenarioReport(report, sites);
    r := AggregateReports([report], sites);
    assert [report][..0] == [];
    var empty: Inventory := map[];
    assert Aggregate([report], sites) == Merge(empty, report, [Site("Site A", "001")]);
    var merged := Merge(empty, report, [Site("Site A", "001")]);
    assert merged.Keys == {"P100"};
    assert merged["P100"] == [Observation("Site A", "001", "36")];
    assert merged == map["P100" := [Observation("Site A", "001", "36")]];
  }

  /** The package counts of the scenario below: 36 pieces at 12 per carton. */
  method ScenarioConversion(aggregated: Inventory, products: map<string, int>) returns (r: Result<PackageInventory>)
    requires aggregated == map["P100" := [Observation("Site A", "001", "36")]]
    requires products == map["P100" := 12]
    ensures r == Ok(map["P100" := [Package("Site A", "001", 3)]])
  {
    var observation := Observation("Site A", "001", "36");
    assert IsDigits("36") && DigitsValue("36") == 36;
    r := CalculatePkgQty(aggregated, products);
    assert r.Ok?;
    assert Converted([observation], 12) == [Package("Site A", "001", 3)] by {
      assert [observation][..0] == [];
    }
    assert aggregated["P100"][0] == observation && !IsPlaceholder(observation.qty);
    assert r.value.Keys == {"P100"};
    assert r.value["P100"] == Converted(aggregated["P100"], products["P100"]) == [Package("Site A", "001", 3)];
    assert r.value == map["P100" := [Package("Site A", "001", 3)]];
  }

  /** One site "RC-A" = ("Site A", "001"), one product "P100" packed 12 to a
      carton, one report row "RC-A" with 36 pieces of "P100": the inventory
      sheet has the header and exactly one data row, P100, P, 1, 3 (the site
      number is written through `int()`). */
  method OneSiteOneProduct() returns (sheet: seq<seq<Cell>>)
    ensures sheet == [HeaderRow(), [Text("P100"), Text("P"), Number(1), Number(3)]]
  {
    var sites, products := ScenarioTables();
    var aggregated := ScenarioAggregate(sites);
    var converted := ScenarioConversion(aggregated.value, products);
    var inventory := Refilter(converted.value);
    assert inventory == map["P100" := [Package("Site A", "001", 3)]];
    assert DigitsValue("001") == 1 by {
      assert "001"[..2] == "00" && "00"[..1] == "0" && "0"[..0] == "";
    }
    sheet := CreateInventoryWorkbook(inventory, ["P100"]);
  }

  /** A report naming a site the directory lacks aborts the run with the
      missing key. */
  method UnknownSiteAborts() returns (r: Result<Inventory>)
    ensures r == Err(KeyError("RC-B"))
  {
    var sites := map["RC-A" := Site("Site A", "001")];
    var report: Sheet := map["Location" := ["RC-B"], "P100" := ["36"]];
    NotContainsLonger("P100", "Location");
    NotContainsLonger("RC-B", "Totals");
    assert "Location" in report && IsLocationHeader("Location");
    assert IsReportSheet(report);
    assert LocationOf(report) == "Location";
    NormalizeKeyOfPlainName("RC-B");
    r := AggregateReports([report], sites);
  }

  /** A blank location row above a site row shifts the positional pairing:
      the site is paired with the quantity of the blank row. */
  lemma BlankRowShiftsPairing()
    ensures var sites := map["RC-A" := Site("Site A", "001")];
      Resolvable(["", "RC-A"], sites)
      && SheetObservations(SitesFor(["", "RC-A"], sites), ["", "36"]) == [Observation("Site A", "001", "")]
  {
    var sites := map["RC-A" := Site("Site A", "001")];
    NotContainsLonger("RC-A", "Totals");
    NormalizeKeyOfPlainName("RC-A");
    assert Resolvable(["", "RC-A"], sites);
    assert SitesFor(["", "RC-A"], sites) == [Site("Site A", "001")] by {
      Seqs.PositionsSnoc(IsSiteName, [""], "RC-A");
      assert [""] + ["RC-A"] == ["", "RC-A"];
    }
  }
}
