/** The master list of companies: every symbol a confirmation trades must be listed. */
module Companies {
  import opened Errors
  import opened Seqs
  import opened Validation
  import opened TradeConfirmations
  import opened Papers

  /** An entry of companies.json; only its symbol is consulted. */
  datatype Company = Company(symbol: string)

  function CompanySymbol(c: Company): string { c.symbol }

  function OperationSymbol(o: Operation): string { o.symbol }

  /** The position of the first symbol that no company has, or |symbols|. */
  function FirstUnknown(companies: seq<Company>, symbols: seq<string>): (k: nat)
    ensures k <= |symbols|
    ensures forall j :: 0 <= j < k ==> symbols[j] in MapSeq(CompanySymbol, companies)
    ensures k < |symbols| ==> symbols[k] !in MapSeq(CompanySymbol, companies)
    decreases |symbols|
  {
    if symbols == [] || symbols[0] !in MapSeq(CompanySymbol, companies) then 0
    else 1 + FirstUnknown(companies, symbols[1..])
  }

  predicate Listed(companies: seq<Company>, symbol: string) {
    exists j :: 0 <= j < |companies| && companies[j].symbol == symbol
  }

  /** A symbol is listed exactly when some company entry carries it. */
  lemma KnownSymbols(companies: seq<Company>)
    ensures forall s :: s in MapSeq(CompanySymbol, companies) <==> Listed(companies, s)
  {
    var known := MapSeq(CompanySymbol, companies);
    forall s ensures s in known <==> Listed(companies, s) {
      if s in known {
        var j :| 0 <= j < |known| && known[j] == s;
        assert companies[j].symbol == s;
      }
      if Listed(companies, s) {
        var j :| 0 <= j < |companies| && companies[j].symbol == s;
        assert known[j] == s;
      }
    }
  }

  /** validate_companies: every symbol must be some company's; the first one missing is reported. */
  function ValidateCompanies(companies: seq<Company>, tcCompanies: seq<string>): (o: Outcome)
    ensures o.Pass? <==> forall i :: 0 <= i < |tcCompanies| ==> Listed(companies, tcCompanies[i])
    ensures o.Fail? ==> var k := FirstUnknown(companies, tcCompanies);
      k < |tcCompanies| && o.error == UnknownCompany(tcCompanies[k]) && !Listed(companies, tcCompanies[k])
  {
    KnownSymbols(companies);
    var k := FirstUnknown(companies, tcCompanies);
    if k < |tcCompanies| then Fail(UnknownCompany(tcCompanies[k])) else Pass
  }

  /** A confirmation with no operations names no company and always passes. */
  lemma ValidateNoCompanies(companies: seq<Company>)
    ensures ValidateCompanies(companies, []) == Pass
  {
  }

  /** The symbols a confirmation trades, in operation order. */
  function TradedSymbols(c: Confirmation): seq<string> {
    MapSeq(OperationSymbol, c.operations)
  }

  /** Every symbol the confirmation trades is some company's. */
  predicate ConfirmationListed(companies: seq<Company>, c: Confirmation) {
    forall j :: 0 <= j < |c.operations| ==> Listed(companies, c.operations[j].symbol)
  }

  /** validate_companies on one confirmation's symbols passes exactly when all of them are listed. */
  lemma ValidateConfirmation(companies: seq<Company>, c: Confirmation)
    ensures ValidateCompanies(companies, TradedSymbols(c)).Pass? <==> ConfirmationListed(companies, c)
  {
    var symbols := TradedSymbols(c);
    assert forall j :: 0 <= j < |c.operations| ==> symbols[j] == c.operations[j].symbol;
  }

  /** The position of the first confirmation trading an unlisted symbol, or |cs|. */
  function FirstUnlisted(companies: seq<Company>, cs: seq<Confirmation>): (k: nat)
    ensures k <= |cs|
    ensures forall i :: 0 <= i < k ==> ConfirmationListed(companies, cs[i])
    ensures k < |cs| ==> !ConfirmationListed(companies, cs[k])
    decreases |cs|
  {
    if cs == [] || !ConfirmationListed(companies, cs[0]) then 0
    else 1 + FirstUnlisted(companies, cs[1..])
  }

  /**
   * The validation loop of get_companies over a run of confirmations: it passes when every
   * confirmation does, and otherwise reports the failure of the first one that does not.
   */
  function ValidateAll(companies: seq<Company>, cs: seq<Confirmation>): (o: Outcome)
    ensures o.Pass? <==> forall i :: 0 <= i < |cs| ==> ConfirmationListed(companies, cs[i])
    ensures o.Fail? ==> var k := FirstUnlisted(companies, cs);
      k < |cs| && o == ValidateCompanies(companies, TradedSymbols(cs[k]))
    decreases |cs|
  {
    if cs == [] then Pass
    else
      var first := ValidateCompanies(companies, TradedSymbols(cs[0]));
      ValidateConfirmation(companies, cs[0]);
      if first.Fail? then first
      else
        var rest := ValidateAll(companies, cs[1..]);
        assert forall i :: 1 <= i < |cs| ==> cs[1..][i - 1] == cs[i];
        rest
  }

  /**
   * get_companies: validates every operation of every confirmation, date by date, and
   * returns the loaded list unchanged.
   */
  function GetCompanies(companies: seq<Company>, groups: seq<DateGroup>): (r: Result<seq<Company>>)
    ensures r.Ok? ==> r.value == companies
    ensures r.Ok? <==> forall c, o :: c in AllConfirmations(groups) && o in c.operations ==> Listed(companies, o.symbol)
    ensures r.Err? ==> r.error.UnknownCompany? && !Listed(companies, r.error.symbol)
  {
    var all := AllConfirmations(groups);
    match ValidateAll(companies, all)
    case Fail(e) => Err(e)
    case Pass => Ok(companies)
  }

  /** With no confirmations there is nothing to check. */
  lemma GetCompaniesEmpty(companies: seq<Company>)
    ensures GetCompanies(companies, []) == Ok(companies)
  {
  }
}
