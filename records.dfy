/** The values that flow between the stages of the reconciliation pipeline. */
module Records {

  /** A canonical site: the `(siteName, siteNumber)` pair of the site directory. */
  datatype Site = Site(name: string, number: string)

  /** One reported quantity of one product at one site, the quantity as read
      from the report (digits, blank, or a placeholder token). */
  datatype Observation = Observation(siteName: string, siteNumber: string, qty: string)

  /** An observation converted to a whole number of packages. */
  datatype Package = Package(siteName: string, siteNumber: string, cartons: int)

  /** A cell of the output sheet. */
  datatype Cell = Text(text: string) | Number(value: int)

  /** The failure that aborts a run: a dictionary lookup with no entry. */
  datatype Error = KeyError(key: string)

  datatype Result<T> = Ok(value: T) | Err(error: Error)

  /** One report sheet as the reader returns it: header to column of cells. */
  type Sheet = map<string, seq<string>>

  /** The growing aggregate: product code to its observations. */
  type Inventory = map<string, seq<Observation>>

  /** The converted aggregate: product code to its package counts. */
  type PackageInventory = map<string, seq<Package>>
}
