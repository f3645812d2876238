# Red Cross inventory reconciliation, modelled in Dafny

`parse_ny.py` consolidates the inventory spreadsheets of many delivery sites
into one inventory sheet for upload to a central database. It loads a site
directory (report-local "RC" site name to canonical site name and number) and
a product table (product code to units per package), reads every report sheet,
resolves each sheet's location column through the directory, appends one
observation `(siteName, siteNumber, quantity)` per resolved site to the list of
every product column, converts piece counts to package counts with integer
division while dropping the placeholder quantities `''`, `'na'`, `'x'`, `'X'`,
and writes one row `(code, 'P', siteNumber, cartons)` per observation.

This project models that pipeline stage by stage, in the imperative form the
script has: each stage is a method with the script's loops over columns, maps
and lists, specified against a reference function, and lemmas prove what the
stages promise.

| file | module | what it models |
|---|---|---|
| `strings.dfy` | `Strings` | Python's `sub in s`, ASCII, `int()` on decimal digits |
| `seqs.dfy` | `Seqs` | order-preserving filter and the positions it keeps |
| `records.dfy` | `Records` | sites, observations, package counts, cells, `KeyError` |
| `directory.dfy` | `Directory` | `get_sites`, `get_products`, the site-key normalisation |
| `reports.dfy` | `Reports` | `parse_sites` and the aggregation loop of `main` |
| `conversion.dfy` | `Conversion` | `calculate_pkg_qty` and the re-filter of `main` |
| `writer.dfy` | `Writer` | `create_inventory_workbook` as a buffer of rows |
| `example.dfy` | `Example` | whole runs on small inputs |

Modelling choices:

- Spreadsheet cells are strings. `int()` is applied only to strings of decimal
  digits (`Strings.IsDigits`), which the methods require of the quantities and
  site numbers they convert. The "Qty of Measure" column is a column of
  integers, and the divisors used are required to be positive, so Python 2's
  floor division `int(qty) / int(divisor)` is Dafny's `/`.
- A report sheet is a map from header to column. It has exactly one header
  containing `"Location"`, and its columns are as long as each other
  (`Reports.IsReportSheet`).
- A raised `KeyError` is `Err(KeyError(key))`. It aborts the run, as the
  script's re-raise does.
- Python leaves dictionary iteration order open. The header loop, the
  conversion loop and the re-filter pick their next key by `:|` from the keys
  not yet visited; their results do not depend on the order, except which
  `KeyError` the conversion reports. The writer's row order does depend on it,
  so the writer takes the iteration order as the parameter `order`.
- The output sheet is the sequence of rows written at row indices 0, 1, 2, ...
  Row 0 is the header.
- `int()` turns the site number into a number cell, so a site number `"001"`
  is written as `1`.

Behaviour of the code that the model keeps:

- A product code with a divisor but no observations at all raises `KeyError`.
  Its output list is created only inside the loop over its observations, so
  the length test after the loop finds no entry
  (`Conversion.CalculatePkgQty`, `Conversion.IsFaultyCode`). A code's list
  stays empty only when every sheet that has that product column has no site
  names in its location column; one sheet with a resolved site appends
  observations to it (`Reports.Merge`).
- Zero package counts are kept. A code is deleted only when all of its
  quantities are placeholders (`Conversion.ConvertedEmpty`).
- The `k`-th resolved site is paired with the `k`-th quantity of each product
  column. Blank and "Totals" location rows are skipped when the sites are
  resolved but not when the quantities are read. When such rows trail the site
  rows, every site gets the quantity of its own row (`Reports.SiteRowsLeading`).
  A blank row above a site row shifts the pairing (`Example.BlankRowShiftsPairing`).
- The re-filter in `main` compares package counts, which are integers, against
  the text placeholders. It never drops anything (`Conversion.Refilter`).

## Model

| member | source | states |
|---|---|---|
| `Strings.ContainsIffOccurs` | parse_ny.py:44 | the substring test used for "Totals" and "Location" holds iff the pattern occurs at some offset |
| `Seqs.Positions` | parse_ny.py:92-94 | filtering keeps exactly the elements satisfying the test, each once, in input order, at strictly increasing positions |
| `Directory.GetSites` | parse_ny.py:38-51 | the directory has key `n` iff `n` is an RC name of some row and is non-empty and lacks "Totals"; its value is `(siteName, siteNumber)` of the last row with that name |
| `Directory.GetProducts` | parse_ny.py:76-87 | every product code of the column is a key, with no filtering; its value is the qty of the last row with that code |
| `Directory.NormalizeKey` | parse_ny.py:94 | the key has the name's length, is all ASCII with no `?`, keeps every ASCII character other than `?`, and turns every other character into `-` |
| `Directory.NormalizeKeyIdempotent` | parse_ny.py:94 | normalising a key again leaves it unchanged |
| `Directory.NormalizeKeyOfPlainName` | parse_ny.py:94 | an ASCII name without `?` is its own key |
| `Reports.ParseSites` | parse_ny.py:89-95 | succeeds iff every non-empty, non-"Totals" name has its normalised key in the directory, returning one site per such name in column order; otherwise raises `KeyError` for the first name whose key is missing, every earlier one having resolved |
| `Reports.SiteRowsLeading` | parse_ny.py:192-196 | when the site rows come first, the `k`-th resolved site is the site of row `k`, so positional pairing matches rows |
| `Reports.Merge` | parse_ny.py:188-196 | after a sheet, the codes are the old ones plus the sheet's non-Location headers; each such code's list is its old list (empty if new) with one observation per resolved site appended, `|siteList|` more entries; other codes are unchanged |
| `Reports.AddSheet` | parse_ny.py:188-196 | the header loop (create the list if absent, append per site) produces exactly `Merge` of the aggregate, the sheet and the site list |
| `Reports.ProcessSheet` | parse_ny.py:184-196 | one sheet succeeds iff its location column resolves, and then yields `Merge` with the resolved sites; otherwise the error key is the normalised key of the column's first site name the directory lacks |
| `Reports.AggregateReports` | parse_ny.py:157-196 | folding all sheets from an empty aggregate succeeds iff every sheet resolves and then equals the in-order fold `Aggregate`; an error comes from the first sheet that does not resolve, all earlier ones resolving, and names the first missing key of its location column |
| `Reports.AllProductHeadersIff` | parse_ny.py:188-191 | a code is a product header of the run iff some sheet has it as a non-Location header |
| `Reports.AggregateKeys` | parse_ny.py:188-191 | the aggregate's codes are exactly the product headers of all sheets |
| `Reports.AggregateCount` | parse_ny.py:188-196 | no observation is lost: each code's list is as long as the resolved site counts of all sheets that have that code's column |
| `Conversion.PackageOfFloors` | parse_ny.py:135-137 | a package count keeps the site name and number and is the floor of pieces over divisor |
| `Conversion.ConvertedInOrder` | parse_ny.py:130-137 | a code's converted list has one entry per non-placeholder observation, the `j`-th converting the `j`-th such observation, in input order |
| `Conversion.ConvertedEmpty` | parse_ny.py:133-139 | the converted list is empty iff every quantity is a placeholder, so zero package counts are kept |
| `Conversion.ConvertCode` | parse_ny.py:130-137 | the inner loop leaves no list for a code without observations, and otherwise stores the code's converted list |
| `Conversion.CalculatePkgQty` | parse_ny.py:114-140 | raises `KeyError` iff some code lacks a divisor or has no observations, naming such a code; otherwise a code is present iff it has a non-placeholder quantity, and its list is the non-empty converted list |
| `Conversion.Refilter` | parse_ny.py:201-207 | the re-filter of `main` returns its input with only the empty lists removed, dropping no observation |
| `Conversion.RefilterKeepsConverted` | parse_ny.py:198-207 | on the output of the conversion, whose lists are never empty, the re-filter is the identity |
| `Writer.CreateInventoryWorkbook` | parse_ny.py:97-112 | the sheet is the header row followed by the data rows of the codes in iteration order |
| `Writer.RowsLength` | parse_ny.py:104-111 | there are exactly as many data rows as observations |
| `Writer.RowsAt` | parse_ny.py:104-111 | the `j`-th observation of the `k`-th code is written at the row right after the rows of the codes before it, as `(code, 'P', int(siteNumber), cartons)` |
| `Writer.RowsShape` | parse_ny.py:106-110 | every data row has four cells, `'P'` in column 1, and is the row of some observation of the aggregate |
| `Writer.RowsCoverObservations` | parse_ny.py:105-111 | with every code iterated once, every observation has its data row |
| `Example.OneSiteOneProduct` | parse_ny.py:184-208 | site "RC-A" = ("Site A", "001"), product "P100" at 12 per package, one report row with 36 pieces: the sheet is the header and the single row `P100, P, 1, 3` |
| `Example.UnknownSiteAborts` | parse_ny.py:92-94 | a report naming a site the directory lacks aborts with `KeyError` for that name |
| `Example.BlankRowShiftsPairing` | parse_ny.py:192-196 | a blank location row above a site row pairs the site with the blank row's quantity |

## Left out

- Spreadsheet I/O: `xlrdutils.open_workbook` and `read_lines`, including the
  header matching against `'Location.*'`, and `xlwt` workbook creation and
  `save`. Their results are the column lists, the sheet maps and the row
  buffer passed to and returned from the methods. Their error paths (a missing
  file, sheet or header, or a bad date cell) are not modelled.
- The `filename` argument of `get_sites` and `get_products`, including their
  early `return {}` for an empty name. The directory and the product table are
  parameters.
- Command-line parsing, file discovery with `glob`, the sorted order of the
  report files, and the fixed file and sheet names (parse_ny.py:142-161, 209).
  The sheets of all reports are given as one sequence in processing order.
- `print` and `sys.exit`. Every `sys.exit` after a `raise` is unreachable.
- Cell types: xlrd's float and date cells. `int()` of text other than decimal
  digits (signs, spaces, `ValueError`). Zero or negative divisors
  (`ZeroDivisionError`, and floor division on negatives).
- A sheet with no location column, where `siteList` is undefined or left over
  from the previous sheet, and a sheet with several location columns, where
  the one iterated last wins. `Reports.ProcessSheet` requires exactly one.
- A product column shorter than the resolved site list raises `IndexError`.
  The model assumes, as the reader returns them, that all columns of a sheet
  have equal length (`Reports.IsReportSheet`), and that the site-directory and
  product-table columns are parallel (the length `requires` of
  `Directory.GetSites` and `Directory.GetProducts`).
- Python 2 narrow builds store a character outside the Basic Multilingual
  Plane as two code units and so turn it into two `-`. The model treats a
  string as a sequence of Unicode scalar values.
- Conversion.CalculatePkgQty: when several codes are faulty, it does not say
  which one's `KeyError` is raised, because that depends on Python's
  dictionary iteration order.
