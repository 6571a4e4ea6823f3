/** The record the scraper fills for one real estate fund, and the rows of the
    CSV file it is written to. */
module FundData {
  import opened Wrappers
  import opened Text
  import opened JsonValues

  /** Every field of a fund at one moment. */
  datatype FundRecord = FundRecord(
    ticker: string,
    name: string,
    admin: string,
    prices: Json,
    indicators: map<string, string>,
    description: string,
    basicInfo: map<string, string>,
    dividends: Json,
    dividendYield: Json,
    equityValue: Json,
    vacancy: Json,
    assets: Json)

  /** The record of a fund just constructed: its identity, and every other
      field empty. */
  function NewRecord(ticker: string, name: string, admin: string): (f: FundRecord)
    ensures f.ticker == ticker && f.name == name && f.admin == admin
    ensures f.prices == EmptyObject && f.indicators == map[] && f.description == ""
    ensures f.basicInfo == map[] && f.vacancy == EmptyObject && f.assets == EmptyObject
    ensures f.dividends == JArray([]) && f.dividendYield == JArray([]) && f.equityValue == JArray([])
  {
    FundRecord(ticker, name, admin, EmptyObject, map[], "", map[],
      JArray([]), JArray([]), JArray([]), EmptyObject, EmptyObject)
  }

  /** `ticker: name (admin)`, how a fund prints. */
  function Label(f: FundRecord): (l: string)
    ensures StartsWith(l, f.ticker + ": ")
    ensures |l| == |f.ticker| + |f.name| + |f.admin| + 5 && l[|l| - 1] == ')'
  {
    f.ticker + ": " + f.name + " (" + f.admin + ")"
  }

  /** A ticker without a colon is the part of the label before its first colon. */
  lemma LabelStartsWithTicker(f: FundRecord)
    requires ':' !in f.ticker
    ensures UpTo(Label(f), ':') == f.ticker
  {
    var rest := " " + f.name + " (" + f.admin + ")";
    assert Label(f) == f.ticker + [':'] + rest;
    UpToOfJoin(f.ticker, ':', rest);
  }

  /** A Bovespa real estate fund, filled in field by field as its pages are scraped. */
  class RealStateFund {
    var ticker: string
    var name: string
    var admin: string
    var prices: Json
    var indicators: map<string, string>
    var description: string
    var basicInfo: map<string, string>
    var dividends: Json
    var dividendYield: Json
    var equityValue: Json
    var vacancy: Json
    var assets: Json

    function Record(): FundRecord
      reads this
    {
      FundRecord(ticker, name, admin, prices, indicators, description, basicInfo,
        dividends, dividendYield, equityValue, vacancy, assets)
    }

    constructor (ticker: string, name: string, admin: string)
      ensures Record() == NewRecord(ticker, name, admin)
    {
      this.ticker := ticker;
      this.name := name;
      this.admin := admin;
      prices := EmptyObject;
      indicators := map[];
      description := "";
      basicInfo := map[];
      dividends := JArray([]);
      dividendYield := JArray([]);
      equityValue := JArray([]);
      vacancy := EmptyObject;
      assets := EmptyObject;
    }

    method AddPrices(prices: Json)
      modifies this
      ensures Record() == old(Record()).(prices := prices)
    {
      this.prices := prices;
    }

    method AddMainIndicators(indicators: map<string, string>)
      modifies this
      ensures Record() == old(Record()).(indicators := indicators)
    {
      this.indicators := indicators;
    }

    method AddDescription(description: string)
      modifies this
      ensures Record() == old(Record()).(description := description)
    {
      this.description := description;
    }

    method AddBasicInfo(info: map<string, string>)
      modifies this
      ensures Record() == old(Record()).(basicInfo := info)
    {
      basicInfo := info;
    }

    method AddDividends(dividends: Json)
      modifies this
      ensures Record() == old(Record()).(dividends := dividends)
    {
      this.dividends := dividends;
    }

    method AddDividendYield(dividendYield: Json)
      modifies this
      ensures Record() == old(Record()).(dividendYield := dividendYield)
    {
      this.dividendYield := dividendYield;
    }

    method AddEquityValue(equityValue: Json)
      modifies this
      ensures Record() == old(Record()).(equityValue := equityValue)
    {
      this.equityValue := equityValue;
    }

    method AddVacancy(vacancy: Json)
      modifies this
      ensures Record() == old(Record()).(vacancy := vacancy)
    {
      this.vacancy := vacancy;
    }

    method AddAssets(assets: Json)
      modifies this
      ensures Record() == old(Record()).(assets := assets)
    {
      this.assets := assets;
    }
  }

  /** The header of the CSV file, in column order. */
  const CsvColumns: seq<string> := [
    "Ticker", "Nome", "Administrador", "Cotações Históricas", "Principais Indicadores",
    "Descrição", "Informações Básicas", "Dividendos Históricos", "Dividend Yield Histórico",
    "Valor Patrimonial Histórico", "Vacância Histórica", "Ativos Atuais"]

  /** The field written under column `i` of the header. */
  function FieldAt(f: FundRecord, i: nat): Json
    requires i < 12
  {
    match i
    case 0 => JString(f.ticker)
    case 1 => JString(f.name)
    case 2 => JString(f.admin)
    case 3 => f.prices
    case 4 => TextObject(f.indicators)
    case 5 => JString(f.description)
    case 6 => TextObject(f.basicInfo)
    case 7 => f.dividends
    case 8 => f.dividendYield
    case 9 => f.equityValue
    case 10 => f.vacancy
    case _ => f.assets
  }

  /** The row a fund becomes: one entry per column of the header, holding the
      matching field. */
  function CsvRow(f: FundRecord): (row: map<string, Json>)
    ensures row.Keys == set c | c in CsvColumns
    ensures forall i :: 0 <= i < 12 ==> row[CsvColumns[i]] == FieldAt(f, i)
  {
    CsvColumnsDistinct();
    var row := map i | 0 <= i < 12 :: CsvColumns[i] := FieldAt(f, i);
    assert forall c :: c in CsvColumns ==> exists i :: 0 <= i < 12 && CsvColumns[i] == c;
    row
  }

  /** The text of a column holding a text. */
  function TextAt(row: map<string, Json>, column: string): Option<string>
  {
    if column in row && row[column].JString? then Some(row[column].s) else None
  }

  /** Reads a fund back from a row: the inverse of `CsvRow`. */
  function RecordOfRow(row: map<string, Json>): (f: Option<FundRecord>)
    ensures f.Some? ==> forall c :: c in CsvColumns ==> c in row
  {
    if forall c :: c in CsvColumns ==> c in row then
      match (TextAt(row, CsvColumns[0]), TextAt(row, CsvColumns[1]), TextAt(row, CsvColumns[2]),
             TextAt(row, CsvColumns[5]), TextsOf(row[CsvColumns[4]]), TextsOf(row[CsvColumns[6]]))
      case (Some(ticker), Some(name), Some(admin), Some(description), Some(indicators), Some(basicInfo)) =>
        Some(FundRecord(ticker, name, admin, row[CsvColumns[3]], indicators, description, basicInfo,
          row[CsvColumns[7]], row[CsvColumns[8]], row[CsvColumns[9]], row[CsvColumns[10]], row[CsvColumns[11]]))
      case _ => None
    else None
  }

  /** No two columns share a name, so every field has a column of its own. */
  lemma CsvColumnsDistinct()
    ensures |CsvColumns| == 12
    ensures forall i, j :: 0 <= i < j < |CsvColumns| ==> CsvColumns[i] != CsvColumns[j]
  {
  }

  /** A row holds every field of its fund: reading the row back gives the fund. */
  lemma RowRoundTrip(f: FundRecord)
    ensures RecordOfRow(CsvRow(f)) == Some(f)
  {
    ReadRow(CsvRow(f), f);
  }

  lemma ReadRow(row: map<string, Json>, f: FundRecord)
    requires forall i :: 0 <= i < 12 ==> CsvColumns[i] in row && row[CsvColumns[i]] == FieldAt(f, i)
    ensures RecordOfRow(row) == Some(f)
  {
    assert forall c :: c in CsvColumns ==> c in row;
    assert TextAt(row, CsvColumns[0]) == Some(f.ticker);
    assert TextAt(row, CsvColumns[1]) == Some(f.name);
    assert TextAt(row, CsvColumns[2]) == Some(f.admin);
    assert TextAt(row, CsvColumns[5]) == Some(f.description);
    TextsOfTextObject(f.indicators);
    TextsOfTextObject(f.basicInfo);
    assert TextsOf(row[CsvColumns[4]]) == Some(f.indicators);
    assert TextsOf(row[CsvColumns[6]]) == Some(f.basicInfo);
  }

  /** The rows of `convert_to_csv`, one per fund and in the order of the funds. */
  method ConvertRows(funds: seq<RealStateFund>) returns (rows: seq<map<string, Json>>)
    ensures |rows| == |funds|
    ensures forall i :: 0 <= i < |funds| ==> rows[i] == CsvRow(funds[i].Record())
  {
    rows := [];
    for i := 0 to |funds|
      invariant |rows| == i
      invariant forall j :: 0 <= j < i ==> rows[j] == CsvRow(funds[j].Record())
    {
      var fund := funds[i];
      rows := rows + [CsvRow(fund.Record())];
    }
  }
}
