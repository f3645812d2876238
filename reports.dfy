/** Reading the report sheets: resolving each sheet's location column through
    the site directory (`parse_sites`) and appending one observation per
    resolved site to every product column's list (the aggregation loop of
    `main`). */
module Reports {
  import opened Strings
  import opened Seqs
  import opened Records
  import opened Directory

  // ---------------------------------------------------------------------
  // Site resolution (parse_sites)
  // ---------------------------------------------------------------------

  /** Every site name of the column has its normalised key in the directory. */
  predicate Resolvable(rcNames: seq<string>, sites: map<string, Site>) {
    forall i :: 0 <= i < |rcNames| && IsSiteName(rcNames[i]) ==> NormalizeKey(rcNames[i]) in sites
  }

  /** `key` is the normalised key of the first site name of the column that
      the directory lacks: every site name before it resolves. */
  predicate FirstMissingKey(rcNames: seq<string>, sites: map<string, Site>, key: string) {
    exists i :: 0 <= i < |rcNames| && Resolvable(rcNames[..i], sites)
                && IsSiteName(rcNames[i]) && key == NormalizeKey(rcNames[i]) && key !in sites
  }

  /** The resolved sites of a location column: one canonical site per site
      name, in column order. */
  function SitesFor(rcNames: seq<string>, sites: map<string, Site>): (r: seq<Site>)
    requires Resolvable(rcNames, sites)
    ensures |r| <= |rcNames|
  {
    var idx := Positions(IsSiteName, rcNames);
    seq(|idx|, j requires 0 <= j < |idx| => sites[NormalizeKey(rcNames[idx[j]])])
  }

  /** A resolvable column grows its resolved sites by the new name's site, if
      the new name is a site name. */
  lemma SitesForSnoc(rcNames: seq<string>, name: string, sites: map<string, Site>)
    requires Resolvable(rcNames + [name], sites)
    ensures Resolvable(rcNames, sites)
    ensures IsSiteName(name) ==> NormalizeKey(name) in sites
    ensures SitesFor(rcNames + [name], sites)
         == SitesFor(rcNames, sites) + (if IsSiteName(name) then [sites[NormalizeKey(name)]] else [])
  {
    var xs := rcNames + [name];
    assert forall i :: 0 <= i < |rcNames| ==> xs[i] == rcNames[i];
    assert xs[|rcNames|] == name;
    PositionsSnoc(IsSiteName, rcNames, name);
  }

  /** `parse_sites`: resolves every site name of a location column, in order,
      through the directory; blank and "Totals" names are skipped before
      normalisation, and the first site name whose key is missing raises
      `KeyError`. */
  method ParseSites(rcNames: seq<string>, sites: map<string, Site>) returns (r: Result<seq<Site>>)
    ensures r.Ok? <==> Resolvable(rcNames, sites)
    ensures r.Ok? ==> r.value == SitesFor(rcNames, sites)
    ensures r.Err? ==> FirstMissingKey(rcNames, sites, r.error.key)
  {
    var siteList: seq<Site> := [];
    for i := 0 to |rcNames|
      invariant Resolvable(rcNames[..i], sites)
      invariant siteList == SitesFor(rcNames[..i], sites)
    {
      var name := rcNames[i];
      assert rcNames[..i + 1] == rcNames[..i] + [name];
      if !Contains(name, "Totals") && name != "" {
        var key := NormalizeKey(name);
        if key !in sites {
          assert !Resolvable(rcNames, sites);
          return Err(KeyError(key));
        }
        SitesForSnoc(rcNames[..i], name, sites);
        siteList := siteList + [sites[key]];
      } else {
        SitesForSnoc(rcNames[..i], name, sites);
      }
    }
    assert rcNames[..|rcNames|] == rcNames;
    return Ok(siteList);
  }

  /** When the site rows of a location column come first and the skipped rows
      (blank, "Totals") after them, the `k`-th resolved site is the site of
      row `k`; so the positional pairing of the aggregation below pairs each
      site with the quantity of its own row. */
  lemma SiteRowsLeading(rcNames: seq<string>, sites: map<string, Site>, m: nat)
    requires m <= |rcNames|
    requires forall i :: 0 <= i < |rcNames| ==> (IsSiteName(rcNames[i]) <==> i < m)
    requires Resolvable(rcNames, sites)
    ensures |SitesFor(rcNames, sites)| == m
    ensures forall k :: 0 <= k < m ==> SitesFor(rcNames, sites)[k] == sites[NormalizeKey(rcNames[k])]
  {
    PositionsOfLeadingRun(IsSiteName, rcNames, m);
  }

  // ---------------------------------------------------------------------
  // Aggregation (the loop over the headers of a sheet in main)
  // ---------------------------------------------------------------------

  /** A header whose column holds report-local site names. */
  predicate IsLocationHeader(header: string) {
    Contains(header, "Location")
  }

  /** The headers of a sheet that name product codes. */
  function ProductHeaders(sheet: Sheet): set<string> {
    set h | h in sheet && !IsLocationHeader(h)
  }

  /** The observations of one product column: the `k`-th resolved site paired
      with the `k`-th quantity, for every resolved site. */
  function SheetObservations(siteList: seq<Site>, column: seq<string>): (obs: seq<Observation>)
    requires |column| >= |siteList|
    ensures |obs| == |siteList|
  {
    seq(|siteList|, k requires 0 <= k < |siteList| =>
      Observation(siteList[k].name, siteList[k].number, column[k]))
  }

  /** The list held for `code`, the empty list if there is none yet. */
  function ListOf(inventory: Inventory, code: string): seq<Observation> {
    if code in inventory then inventory[code] else []
  }

  /** The aggregate after one sheet: every product column's observations are
      appended to its code's list, created empty if absent; nothing is
      overwritten and other codes are untouched. */
  function Merge(inventory: Inventory, sheet: Sheet, siteList: seq<Site>): (merged: Inventory)
    requires forall h :: h in ProductHeaders(sheet) ==> |sheet[h]| >= |siteList|
    ensures merged.Keys == inventory.Keys + ProductHeaders(sheet)
    ensures forall c :: c in ProductHeaders(sheet) ==>
      merged[c] == ListOf(inventory, c) + SheetObservations(siteList, sheet[c])
      && |merged[c]| == |ListOf(inventory, c)| + |siteList|
    ensures forall c :: c in inventory && c !in ProductHeaders(sheet) ==> merged[c] == inventory[c]
  {
    map c | c in inventory.Keys + ProductHeaders(sheet) ::
      if c in ProductHeaders(sheet) then ListOf(inventory, c) + SheetObservations(siteList, sheet[c])
      else inventory[c]
  }

  /** `merged` agrees with `Merge` key by key. */
  lemma MergeByKey(inventory: Inventory, sheet: Sheet, siteList: seq<Site>, merged: Inventory)
    requires forall h :: h in ProductHeaders(sheet) ==> |sheet[h]| >= |siteList|
    requires forall c :: c in merged <==> c in inventory || c in ProductHeaders(sheet)
    requires forall c :: c in ProductHeaders(sheet) ==>
      merged[c] == ListOf(inventory, c) + SheetObservations(siteList, sheet[c])
    requires forall c :: c in inventory && c !in ProductHeaders(sheet) ==> merged[c] == inventory[c]
    ensures merged == Merge(inventory, sheet, siteList)
  {
  }

  /** The header loop of `main` for one sheet, once its sites are resolved. */
  method AddSheet(inventory: Inventory, sheet: Sheet, siteList: seq<Site>) returns (merged: Inventory)
    requires forall h :: h in ProductHeaders(sheet) ==> |sheet[h]| >= |siteList|
    ensures merged == Merge(inventory, sheet, siteList)
  {
    merged := inventory;
    var remaining := sheet.Keys;
    while remaining != {}
      invariant remaining <= sheet.Keys
      invariant forall c :: c in merged <==> c in inventory || (c in ProductHeaders(sheet) && c !in remaining)
      invariant forall c :: c in ProductHeaders(sheet) && c !in remaining ==>
        merged[c] == ListOf(inventory, c) + SheetObservations(siteList, sheet[c])
      invariant forall c :: c in inventory && !(c in ProductHeaders(sheet) && c !in remaining) ==> merged[c] == inventory[c]
      decreases |remaining|
    {
      var header :| header in remaining;
      if !Contains(header, "Location") {
        assert header in ProductHeaders(sheet);
        if header !in merged {
          merged := merged[header := []];
        }
        var column := sheet[header];
        var list := merged[header];
        assert list == ListOf(inventory, header);
        for k := 0 to |siteList|
          invariant list == ListOf(inventory, header) + SheetObservations(siteList[..k], column)
        {
          list := list + [Observation(siteList[k].name, siteList[k].number, column[k])];
          assert SheetObservations(siteList[..k + 1], column)
              == SheetObservations(siteList[..k], column) + [Observation(siteList[k].name, siteList[k].number, column[k])];
        }
        assert siteList[..|siteList|] == siteList;
        merged := merged[header := list];
      }
      remaining := remaining - {header};
    }
    MergeByKey(inventory, sheet, siteList, merged);
  }

  // ---------------------------------------------------------------------
  // One sheet, and the run over all sheets of all reports
  // ---------------------------------------------------------------------

  /** A report sheet as the reader returns it: exactly one location column,
      and every column as long as the location column (one cell per row). */
  predicate IsReportSheet(sheet: Sheet) {
    && (exists h :: h in sheet && IsLocationHeader(h))
    && (forall a, b :: a in sheet && b in sheet && IsLocationHeader(a) && IsLocationHeader(b) ==> a == b)
    && (forall a, b :: a in sheet && b in sheet ==> |sheet[a]| == |sheet[b]|)
  }

  /** The location column's header. */
  ghost function LocationOf(sheet: Sheet): (h: string)
    requires IsReportSheet(sheet)
    ensures h in sheet && IsLocationHeader(h)
  {
    var h :| h in sheet && IsLocationHeader(h); h
  }

  /** The sheet's location column resolves. */
  ghost predicate SheetResolvable(sheet: Sheet, sites: map<string, Site>)
    requires IsReportSheet(sheet)
  {
    Resolvable(sheet[LocationOf(sheet)], sites)
  }

  /** The resolved sites of the sheet's location column. */
  ghost function SheetSites(sheet: Sheet, sites: map<string, Site>): (r: seq<Site>)
    requires IsReportSheet(sheet) && SheetResolvable(sheet, sites)
    ensures forall h :: h in ProductHeaders(sheet) ==> |sheet[h]| >= |r|
  {
    SitesFor(sheet[LocationOf(sheet)], sites)
  }

  /** One sheet of one report: resolve its location column, then fold its
      product columns into the aggregate. */
  method ProcessSheet(inventory: Inventory, sheet: Sheet, sites: map<string, Site>) returns (r: Result<Inventory>)
    requires IsReportSheet(sheet)
    ensures r.Ok? <==> SheetResolvable(sheet, sites)
    ensures r.Ok? ==> r.value == Merge(inventory, sheet, SheetSites(sheet, sites))
    ensures r.Err? ==> FirstMissingKey(sheet[LocationOf(sheet)], sites, r.error.key)
  {
    var location :| location in sheet && IsLocationHeader(location);
    assert location == LocationOf(sheet);
    var parsed := ParseSites(sheet[location], sites);
    if parsed.Err? {
      return Err(parsed.error);
    }
    var merged := AddSheet(inventory, sheet, parsed.value);
    return Ok(merged);
  }

  /** Every sheet resolves. */
  ghost predicate AllResolvable(sheets: seq<Sheet>, sites: map<string, Site>)
    requires forall i :: 0 <= i < |sheets| ==> IsReportSheet(sheets[i])
  {
    forall i :: 0 <= i < |sheets| ==> SheetResolvable(sheets[i], sites)
  }

  /** The aggregate after the given sheets, folded in order from an empty one. */
  ghost function Aggregate(sheets: seq<Sheet>, sites: map<string, Site>): Inventory
    requires forall i :: 0 <= i < |sheets| ==> IsReportSheet(sheets[i])
    requires AllResolvable(sheets, sites)
    decreases |sheets|
  {
    if sheets == [] then map[]
    else
      var n := |sheets| - 1;
      Merge(Aggregate(sheets[..n], sites), sheets[n], SheetSites(sheets[n], sites))
  }

  /** Folding one more sheet into the aggregate. */
  lemma AggregateSnoc(sheets: seq<Sheet>, i: nat, sites: map<string, Site>)
    requires i < |sheets|
    requires forall j :: 0 <= j < |sheets| ==> IsReportSheet(sheets[j])
    requires AllResolvable(sheets[..i], sites) && SheetResolvable(sheets[i], sites)
    ensures AllResolvable(sheets[..i + 1], sites)
    ensures Aggregate(sheets[..i + 1], sites)
         == Merge(Aggregate(sheets[..i], sites), sheets[i], SheetSites(sheets[i], sites))
  {
    var next := sheets[..i + 1];
    assert next[..i] == sheets[..i];
    assert next[i] == sheets[i];
  }

  /** The aggregation of `main`: every sheet of every report, in processing
      order, folded into one aggregate that starts empty; the first location
      name with no directory entry aborts the run. */
  method AggregateReports(sheets: seq<Sheet>, sites: map<string, Site>) returns (r: Result<Inventory>)
    requires forall i :: 0 <= i < |sheets| ==> IsReportSheet(sheets[i])
    ensures r.Ok? <==> AllResolvable(sheets, sites)
    ensures r.Ok? ==> r.value == Aggregate(sheets, sites)
    ensures r.Err? ==> exists i :: 0 <= i < |sheets| && AllResolvable(sheets[..i], sites) && !SheetResolvable(sheets[i], sites)
                                   && FirstMissingKey(sheets[i][LocationOf(sheets[i])], sites, r.error.key)
  {
    var allData: Inventory := map[];
    for i := 0 to |sheets|
      invariant AllResolvable(sheets[..i], sites)
      invariant allData == Aggregate(sheets[..i], sites)
    {
      var step := ProcessSheet(allData, sheets[i], sites);
      if step.Err? {
        assert !SheetResolvable(sheets[i], sites);
        return Err(step.error);
      }
      AggregateSnoc(sheets, i, sites);
      allData := step.value;
    }
    assert sheets[..|sheets|] == sheets;
    return Ok(allData);
  }

  // ---------------------------------------------------------------------
  // Properties of the aggregate
  // ---------------------------------------------------------------------

  /** The product headers of all the sheets. */
  ghost function AllProductHeaders(sheets: seq<Sheet>): set<string>
    decreases |sheets|
  {
    if sheets == [] then {}
    else AllProductHeaders(sheets[..|sheets| - 1]) + ProductHeaders(sheets[|sheets| - 1])
  }

  /** A code is among all product headers exactly when some sheet has it. */
  lemma {:induction false} AllProductHeadersIff(sheets: seq<Sheet>, code: string)
    ensures code in AllProductHeaders(sheets) <==> exists i :: 0 <= i < |sheets| && code in ProductHeaders(sheets[i])
    decreases |sheets|
  {
    if sheets != [] {
      var n := |sheets| - 1;
      var prefix := sheets[..n];
      AllProductHeadersIff(prefix, code);
      if code in AllProductHeaders(prefix) {
        var i :| 0 <= i < n && code in ProductHeaders(prefix[i]);
        assert prefix[i] == sheets[i];
      }
      if exists i :: 0 <= i < |sheets| && code in ProductHeaders(sheets[i]) {
        var i :| 0 <= i < |sheets| && code in ProductHeaders(sheets[i]);
        if i < n {
          assert prefix[i] == sheets[i];
        }
      }
    }
  }

  /** The codes of the aggregate are exactly the product headers of the sheets. */
  lemma {:induction false} AggregateKeys(sheets: seq<Sheet>, sites: map<string, Site>)
    requires forall i :: 0 <= i < |sheets| ==> IsReportSheet(sheets[i])
    requires AllResolvable(sheets, sites)
    ensures Aggregate(sheets, sites).Keys == AllProductHeaders(sheets)
    decreases |sheets|
  {
    if sheets != [] {
      var n := |sheets| - 1;
      var prefix := sheets[..n];
      assert forall i :: 0 <= i < n ==> prefix[i] == sheets[i];
      AggregateKeys(prefix, sites);
    }
  }

  /** The number of observations the sheets contribute to `code`: the resolved
      site count of every sheet that has a `code` column. */
  ghost function ContributedCount(sheets: seq<Sheet>, sites: map<string, Site>, code: string): nat
    requires forall i :: 0 <= i < |sheets| ==> IsReportSheet(sheets[i])
    requires AllResolvable(sheets, sites)
    decreases |sheets|
  {
    if sheets == [] then 0
    else
      var n := |sheets| - 1;
      var prefix := sheets[..n];
      assert forall i :: 0 <= i < n ==> prefix[i] == sheets[i];
      ContributedCount(prefix, sites, code)
        + (if code in ProductHeaders(sheets[n]) then |SheetSites(sheets[n], sites)| else 0)
  }

  /** No observation is lost: each code's list holds as many observations as
      all sheets contributed to it. */
  lemma {:induction false} AggregateCount(sheets: seq<Sheet>, sites: map<string, Site>, code: string)
    requires forall i :: 0 <= i < |sheets| ==> IsReportSheet(sheets[i])
    requires AllResolvable(sheets, sites)
    ensures |ListOf(Aggregate(sheets, sites), code)| == ContributedCount(sheets, sites, code)
    decreases |sheets|
  {
    if sheets != [] {
      var n := |sheets| - 1;
      var prefix := sheets[..n];
      assert forall i :: 0 <= i < n ==> prefix[i] == sheets[i];
      AggregateCount(prefix, sites, code);
    }
  }
}
