/** The two lookup tables loaded once per run: the site directory
    (report-local name to canonical site) and the product table (product code
    to units per package), and the key normalisation applied to report-local
    names before they are looked up. */
module Directory {
  import opened Strings
  import opened Seqs
  import opened Records

  /** A report-local name that denotes a site: not blank and not a summary
      ("Totals") row. */
  predicate IsSiteName(name: string) {
    name != "" && !Contains(name, "Totals")
  }

  /** Python 2 `s.encode('ascii', 'replace')`: each non-ASCII character
      becomes one `?`. */
  function AsciiReplace(s: string): string {
    seq(|s|, i requires 0 <= i < |s| => if IsAscii(s[i]) then s[i] else '?')
  }

  /** Python `s.replace(from, to)` for single characters. */
  function ReplaceChar(s: string, from: char, to: char): string {
    seq(|s|, i requires 0 <= i < |s| => if s[i] == from then to else s[i])
  }

  /** The lookup key of a report-local site name,
      `unicode(name.encode('ascii','replace').replace('?','-'))`. */
  function NormalizeKey(name: string): (key: string)
    ensures |key| == |name|
    ensures forall i :: 0 <= i < |key| ==> IsAscii(key[i]) && key[i] != '?'
    ensures forall i :: 0 <= i < |name| && IsAscii(name[i]) && name[i] != '?' ==> key[i] == name[i]
    ensures forall i :: 0 <= i < |name| && !(IsAscii(name[i]) && name[i] != '?') ==> key[i] == '-'
  {
    ReplaceChar(AsciiReplace(name), '?', '-')
  }

  /** Normalising a key again changes nothing. */
  lemma NormalizeKeyIdempotent(name: string)
    ensures NormalizeKey(NormalizeKey(name)) == NormalizeKey(name)
  {
  }

  /** A name that is already ASCII without `?` is its own key. */
  lemma NormalizeKeyOfPlainName(name: string)
    requires forall i :: 0 <= i < |name| ==> IsAscii(name[i]) && name[i] != '?'
    ensures NormalizeKey(name) == name
  {
  }

  /** `get_sites`: zips the "RC Site Name", "Site Name" and "Site Number"
      columns into a directory, skipping blank and "Totals" names; a repeated
      name keeps the row that comes last. */
  method GetSites(rcNames: seq<string>, siteNames: seq<string>, siteNumbers: seq<string>)
    returns (sites: map<string, Site>)
    requires |siteNames| >= |rcNames| && |siteNumbers| >= |rcNames|
    ensures forall n :: n in sites <==> IsSiteName(n) && n in rcNames
    ensures forall n :: n in sites ==>
      exists k :: IsLastIndex(rcNames, n, k) && sites[n] == Site(siteNames[k], siteNumbers[k])
  {
    sites := map[];
    for k := 0 to |rcNames|
      invariant forall n :: n in sites <==> IsSiteName(n) && n in rcNames[..k]
      invariant forall n :: n in sites ==>
        exists j :: IsLastIndex(rcNames[..k], n, j) && sites[n] == Site(siteNames[j], siteNumbers[j])
    {
      var name := rcNames[k];
      if !Contains(name, "Totals") && name != "" {
        sites := sites[name := Site(siteNames[k], siteNumbers[k])];
      }
      assert rcNames[..k + 1] == rcNames[..k] + [name];
      forall n | n in sites
        ensures exists j :: IsLastIndex(rcNames[..k + 1], n, j) && sites[n] == Site(siteNames[j], siteNumbers[j])
      {
        if n == name {
          assert IsLastIndex(rcNames[..k + 1], n, k);
        } else {
          var j :| IsLastIndex(rcNames[..k], n, j) && sites[n] == Site(siteNames[j], siteNumbers[j]);
          assert IsLastIndex(rcNames[..k + 1], n, j);
        }
      }
    }
    assert rcNames[..|rcNames|] == rcNames;
  }

  /** `get_products`: zips the "Product Code" and "Qty of Measure" columns into
      the product table, with no filtering; a repeated code keeps the row that
      comes last. */
  method GetProducts(codes: seq<string>, qtys: seq<int>) returns (products: map<string, int>)
    requires |qtys| >= |codes|
    ensures products.Keys == set c | c in codes
    ensures forall c :: c in products ==> exists k :: IsLastIndex(codes, c, k) && products[c] == qtys[k]
  {
    products := map[];
    for k := 0 to |codes|
      invariant products.Keys == set c | c in codes[..k]
      invariant forall c :: c in products ==> exists j :: IsLastIndex(codes[..k], c, j) && products[c] == qtys[j]
    {
      var code := codes[k];
      products := products[code := qtys[k]];
      assert codes[..k + 1] == codes[..k] + [code];
      forall c | c in products
        ensures exists j :: IsLastIndex(codes[..k + 1], c, j) && products[c] == qtys[j]
      {
        if c == code {
          assert IsLastIndex(codes[..k + 1], c, k);
        } else {
          var j :| IsLastIndex(codes[..k], c, j) && products[c] == qtys[j];
          assert IsLastIndex(codes[..k + 1], c, j);
        }
      }
    }
    assert codes[..|codes|] == codes;
  }
}
