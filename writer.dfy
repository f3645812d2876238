/** `create_inventory_workbook`: the converted aggregate written out as the
    "Inventory" sheet, modelled as the buffer of rows written at increasing
    row indices. */
module Writer {
  import opened Strings
  import opened Records

  /** Row 0 of the sheet. */
  function HeaderRow(): seq<Cell> {
    [Text("Product Code"), Text("Prefix"), Text("Site Number"), Text("Cartons")]
  }

  /** Every site number of the aggregate is a string `int()` reads. */
  predicate SiteNumbersParse(data: PackageInventory) {
    forall c, i :: c in data && 0 <= i < |data[c]| ==> IsDigits(data[c][i].siteNumber)
  }

  /** `order` lists codes of the aggregate (the dictionary's iteration order). */
  predicate InAggregate(data: PackageInventory, order: seq<string>) {
    forall k :: 0 <= k < |order| ==> order[k] in data
  }

  /** The row written for one observation:
      `(code, 'P', int(siteNumber), int(cartons))`. */
  function DataRow(code: string, p: Package): seq<Cell>
    requires IsDigits(p.siteNumber)
  {
    [Text(code), Text("P"), Number(DigitsValue(p.siteNumber)), Number(p.cartons)]
  }

  /** The rows of one code, one per observation, in list order. */
  function CodeRows(code: string, list: seq<Package>): (rows: seq<seq<Cell>>)
    requires forall i :: 0 <= i < |list| ==> IsDigits(list[i].siteNumber)
    ensures |rows| == |list|
  {
    seq(|list|, j requires 0 <= j < |list| => DataRow(code, list[j]))
  }

  /** The data rows for the codes of `order`, code after code. */
  function Rows(data: PackageInventory, order: seq<string>): seq<seq<Cell>>
    requires SiteNumbersParse(data) && InAggregate(data, order)
    decreases |order|
  {
    if order == [] then []
    else
      var n := |order| - 1;
      Rows(data, order[..n]) + CodeRows(order[n], data[order[n]])
  }

  /** The number of observations of the codes of `order`. */
  function RowCount(data: PackageInventory, order: seq<string>): nat
    requires InAggregate(data, order)
    decreases |order|
  {
    if order == [] then 0
    else
      var n := |order| - 1;
      RowCount(data, order[..n]) + |data[order[n]]|
  }

  /** The writer: the header at row 0, then from row 1 on one row per
      observation, code after code in iteration order. */
  method CreateInventoryWorkbook(data: PackageInventory, order: seq<string>) returns (sheet: seq<seq<Cell>>)
    requires SiteNumbersParse(data)
    requires forall c :: c in data <==> c in order
    requires forall j, k :: 0 <= j < k < |order| ==> order[j] != order[k]
    ensures sheet == [HeaderRow()] + Rows(data, order)
  {
    sheet := [HeaderRow()];
    var rowIndex := 1;
    for k := 0 to |order|
      invariant rowIndex == |sheet|
      invariant sheet == [HeaderRow()] + Rows(data, order[..k])
    {
      var code := order[k];
      var siteInventoryList := data[code];
      assert order[..k + 1][..k] == order[..k];
      for j := 0 to |siteInventoryList|
        invariant rowIndex == |sheet|
        invariant sheet == [HeaderRow()] + Rows(data, order[..k]) + CodeRows(code, siteInventoryList[..j])
      {
        var item := siteInventoryList[j];
        sheet := sheet + [[Text(code), Text("P"), Number(DigitsValue(item.siteNumber)), Number(item.cartons)]];
        rowIndex := rowIndex + 1;
        assert CodeRows(code, siteInventoryList[..j + 1]) == CodeRows(code, siteInventoryList[..j]) + [DataRow(code, item)];
      }
      assert siteInventoryList[..|siteInventoryList|] == siteInventoryList;
    }
    assert order[..|order|] == order;
  }

  /** Exactly one data row per observation: there are as many data rows as
      observations. */
  lemma {:induction false} RowsLength(data: PackageInventory, order: seq<string>)
    requires SiteNumbersParse(data) && InAggregate(data, order)
    ensures |Rows(data, order)| == RowCount(data, order)
    decreases |order|
  {
    if order != [] {
      RowsLength(data, order[..|order| - 1]);
    }
  }

  /** The `j`-th observation of the `k`-th code is the data row right after
      the rows of the codes before it. */
  lemma {:induction false} RowsAt(data: PackageInventory, order: seq<string>, k: nat, j: nat)
    requires SiteNumbersParse(data) && InAggregate(data, order)
    requires k < |order| && j < |data[order[k]]|
    ensures RowCount(data, order[..k]) + j < |Rows(data, order)|
    ensures Rows(data, order)[RowCount(data, order[..k]) + j] == DataRow(order[k], data[order[k]][j])
    decreases |order|
  {
    var n := |order| - 1;
    var prefix := order[..n];
    RowsLength(data, order);
    if k == n {
      assert order[..k] == prefix;
      RowsLength(data, prefix);
    } else {
      assert prefix[..k] == order[..k];
      assert prefix[k] == order[k];
      RowsAt(data, prefix, k, j);
    }
  }

  /** Every data row has the shape `(code, 'P', site number, cartons)` of some
      observation of the aggregate. */
  lemma {:induction false} RowsShape(data: PackageInventory, order: seq<string>, i: nat)
    requires SiteNumbersParse(data) && InAggregate(data, order)
    requires i < |Rows(data, order)|
    ensures exists c, j :: c in data && 0 <= j < |data[c]| && Rows(data, order)[i] == DataRow(c, data[c][j])
    ensures |Rows(data, order)[i]| == 4 && Rows(data, order)[i][1] == Text("P")
    decreases |order|
  {
    var n := |order| - 1;
    var prefix := order[..n];
    var before := Rows(data, prefix);
    if i < |before| {
      RowsShape(data, prefix, i);
    } else {
      var c := order[n];
      var j := i - |before|;
      assert Rows(data, order)[i] == DataRow(c, data[c][j]);
    }
  }

  /** With `order` listing every code once, as the dictionary's iteration does,
      every observation of the aggregate has its data row. */
  lemma RowsCoverObservations(data: PackageInventory, order: seq<string>, code: string, j: nat)
    requires SiteNumbersParse(data)
    requires forall c :: c in data <==> c in order
    requires code in data && j < |data[code]|
    ensures exists i :: 0 <= i < |Rows(data, order)| && Rows(data, order)[i] == DataRow(code, data[code][j])
  {
    var k :| 0 <= k < |order| && order[k] == code;
    RowsAt(data, order, k, j);
  }
}
