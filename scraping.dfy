/** What the Funds Explorer scraper does with the texts it reads off the pages:
    the fund list, the price URL, the label/value tables, the chart series cut
    out of the page script, and the list of assets. Every page read is a
    parameter: `Failure` stands for the browser raising (a time-out, a missing
    element), `Success` for the texts it returned. */
module Scraping {
  import opened Wrappers
  import opened Text
  import opened JsonValues
  import opened FundData

  // ---------------------------------------------------------------------------
  // The fund list
  // ---------------------------------------------------------------------------

  /** One item of the fund list, "TICKER\nname\n...\nadmin\n...": part 0 is
      the ticker, part 1 the name and part 3 the administrator; an item of
      fewer than four lines raises `IndexError`. */
  function FundIdentity(text: string): (r: Result<FundRecord>)
    ensures r.Failure? <==> |Split(text, "\n")| < 4
    ensures r.Failure? ==> r.exception == IndexError
    ensures r.Success? ==>
      r.value == NewRecord(Split(text, "\n")[0], Split(text, "\n")[1], Split(text, "\n")[3])
  {
    var parts := Split(text, "\n");
    if |parts| < 4 then Failure(IndexError)
    else Success(NewRecord(parts[0], parts[1], parts[3]))
  }

  /** An item written line by line is read back as the fund of its lines 0, 1 and 3. */
  lemma FundIdentityOfLines(lines: seq<string>)
    requires |lines| >= 4
    requires forall i :: 0 <= i < |lines| ==> '\n' !in lines[i]
    ensures FundIdentity(Join(lines, "\n")) == Success(NewRecord(lines[0], lines[1], lines[3]))
  {
    SplitOfJoin(lines, "\n");
  }

  /** `get_funds_list` on the texts of the items found: a fund per item, but
      the loop stops before the third item. An item too short raises. */
  method GetFundsList(texts: seq<string>) returns (r: Result<seq<RealStateFund>>)
    ensures r.Success? <==> forall i :: 0 <= i < |texts| && i < 2 ==> FundIdentity(texts[i]).Success?
    ensures r.Failure? ==> r.exception == IndexError
    ensures r.Success? ==>
      && |r.value| == (if |texts| < 2 then |texts| else 2)
      && forall i :: 0 <= i < |r.value| ==> fresh(r.value[i]) && r.value[i].Record() == FundIdentity(texts[i]).value
  {
    var fundsList: seq<RealStateFund> := [];
    var index := 0;
    while index < |texts|
      invariant index <= |texts| && index <= 2
      invariant |fundsList| == index
      invariant forall i :: 0 <= i < index ==> FundIdentity(texts[i]).Success?
      invariant forall i :: 0 <= i < index ==> fresh(fundsList[i]) && fundsList[i].Record() == FundIdentity(texts[i]).value
    {
      if index > 1 {
        break;
      }
      var splittedElement := Split(texts[index], "\n");
      if |splittedElement| < 4 {
        return Failure(IndexError);
      }
      var fund := new RealStateFund(splittedElement[0], splittedElement[1], splittedElement[3]);
      assert FundIdentity(texts[index]) == Success(fund.Record());
      fundsList := fundsList + [fund];
      index := index + 1;
    }
    return Success(fundsList);
  }

  // ---------------------------------------------------------------------------
  // Prices
  // ---------------------------------------------------------------------------

  /** `ticker[0:4]`: the first four characters, or the whole ticker when shorter. */
  function TickerRoot(ticker: string): (root: string)
    ensures |root| == if |ticker| < 4 then |ticker| else 4
    ensures StartsWith(ticker, root)
  {
    if |ticker| < 4 then ticker else ticker[..4]
  }

  /** The chart URL of a fund: every `#` of the template becomes the ticker root. */
  function PriceUrl(url: string, ticker: string): (r: string)
    ensures '#' !in url ==> r == url
    ensures '#' !in TickerRoot(ticker) ==> '#' !in r
  {
    Substitute(url, '#', TickerRoot(ticker))
  }

  /** A template made of pieces around `#` marks becomes the pieces joined by
      the ticker root. */
  lemma PriceUrlOfTemplate(pieces: seq<string>, ticker: string)
    requires forall i :: 0 <= i < |pieces| ==> '#' !in pieces[i]
    ensures PriceUrl(Join(pieces, "#"), ticker) == Join(pieces, TickerRoot(ticker))
  {
    SubstituteJoin(pieces, '#', TickerRoot(ticker));
  }

  /** The prices `get_funds_prices` stores: the `stockReports` entry of the JSON
      the price URL shows. */
  function FetchedPrices(url: string, ticker: string, page: string -> Result<string>, loads: string -> Result<Json>): (r: Result<Json>)
    ensures r.Success? <==>
      && page(PriceUrl(url, ticker)).Success?
      && loads(page(PriceUrl(url, ticker)).value).Success?
      && Lookup(loads(page(PriceUrl(url, ticker)).value).value, "stockReports").Success?
  {
    match page(PriceUrl(url, ticker))
    case Failure(e) => Failure(e)
    case Success(body) =>
      match loads(body)
      case Failure(e) => Failure(e)
      case Success(prices) => Lookup(prices, "stockReports")
  }

  /** `get_funds_prices`: on any exception the prices are left as they were. */
  method GetFundsPrices(fund: RealStateFund, url: string, page: string -> Result<string>, loads: string -> Result<Json>)
    modifies fund
    ensures FetchedPrices(url, old(fund.ticker), page, loads).Success? ==>
      fund.Record() == old(fund.Record()).(prices := FetchedPrices(url, old(fund.ticker), page, loads).value)
    ensures FetchedPrices(url, old(fund.ticker), page, loads).Failure? ==> fund.Record() == old(fund.Record())
  {
    var priceUrl := Substitute(url, '#', TickerRoot(fund.ticker));
    var body := page(priceUrl);
    if body.Failure? {
      return;
    }
    var prices := loads(body.value);
    if prices.Failure? {
      return;
    }
    var stockReports := Lookup(prices.value, "stockReports");
    if stockReports.Failure? {
      return;
    }
    fund.AddPrices(stockReports.value);
  }

  // ---------------------------------------------------------------------------
  // Label/value tables
  // ---------------------------------------------------------------------------

  /** The dictionary the pairing loop holds after visiting the labels at
      0, 2, ..., 2(k-1): a non-empty label is bound to the text after it, and
      reading past the end raises `IndexError`. */
  function PairsFold(elements: seq<string>, k: nat): (r: Result<map<string, string>>)
    requires 2 * k <= |elements| + 1
    ensures r.Success? ==> "" !in r.value
    ensures r.Failure? ==> r.exception == IndexError
  {
    if k == 0 then Success(map[])
    else match PairsFold(elements, k - 1)
      case Failure(e) => Failure(e)
      case Success(m) =>
        var i := 2 * (k - 1);
        if elements[i] == "" then Success(m)
        else if i + 1 < |elements| then Success(m[elements[i] := elements[i + 1]])
        else Failure(IndexError)
  }

  /** The whole loop `for i in range(0, len(elements), 2)`. */
  function Pairs(elements: seq<string>): (r: Result<map<string, string>>)
    ensures r.Success? ==> "" !in r.value
    ensures r.Failure? ==> r.exception == IndexError
  {
    PairsFold(elements, (|elements| + 1) / 2)
  }

  /** The loop fails only on a non-empty label in the last, odd position. */
  lemma PairsFailure(elements: seq<string>)
    ensures Pairs(elements).Failure? <==> |elements| % 2 == 1 && elements[|elements| - 1] != ""
    ensures Pairs(elements).Failure? ==> Pairs(elements).exception == IndexError
  {
    var k := (|elements| + 1) / 2;
    if k > 0 {
      PairsFoldSucceeds(elements, k - 1);
    }
  }

  /** No read past the end happens while a value follows every label. */
  lemma {:induction false} PairsFoldSucceeds(elements: seq<string>, k: nat)
    requires 2 * k <= |elements|
    ensures PairsFold(elements, k).Success?
  {
    if k > 0 {
      PairsFoldSucceeds(elements, k - 1);
    }
  }

  /** No even position in (i, n) repeats the label at position i. */
  predicate LastLabelAt(elements: seq<string>, i: nat, n: nat)
    requires i < |elements|
  {
    forall j :: i < j < n && j < |elements| && j % 2 == 0 ==> elements[j] != elements[i]
  }

  /** Once the loop has visited the labels below 2k, a text is a key exactly
      when it is a non-empty label at an even position. */
  lemma {:induction false} PairsFoldKeys(elements: seq<string>, k: nat)
    requires 2 * k <= |elements| + 1 && PairsFold(elements, k).Success?
    ensures forall x :: x in PairsFold(elements, k).value <==> x != "" && exists i :: 0 <= i < 2 * k && i % 2 == 0 && elements[i] == x
  {
    if k > 0 {
      var last := 2 * (k - 1);
      PairsFoldKeys(elements, k - 1);
      var before := PairsFold(elements, k - 1).value;
      var m := PairsFold(elements, k).value;
      forall x ensures x in m <==> x != "" && exists i :: 0 <= i < 2 * k && i % 2 == 0 && elements[i] == x {
        if x in m && x !in before {
          assert elements[last] == x;
        }
        if x != "" && x !in before && (exists i :: 0 <= i < 2 * k && i % 2 == 0 && elements[i] == x) {
          var i :| 0 <= i < 2 * k && i % 2 == 0 && elements[i] == x;
          assert i == last;
        }
      }
    }
  }

  /** Once the loop has visited the labels below 2k, each non-empty label is
      bound to the text after its last occurrence among them. */
  lemma {:induction false} PairsFoldValues(elements: seq<string>, k: nat)
    requires 2 * k <= |elements| + 1 && PairsFold(elements, k).Success?
    ensures forall i | 0 <= i < 2 * k && i % 2 == 0 && elements[i] != "" && LastLabelAt(elements, i, 2 * k) ::
      i + 1 < |elements| && elements[i] in PairsFold(elements, k).value &&
      PairsFold(elements, k).value[elements[i]] == elements[i + 1]
  {
    if k > 0 {
      var last := 2 * (k - 1);
      PairsFoldValues(elements, k - 1);
      var before := PairsFold(elements, k - 1).value;
      var m := PairsFold(elements, k).value;
      assert elements[last] != "" ==> last + 1 < |elements| && m == before[elements[last] := elements[last + 1]];
      forall i | 0 <= i < 2 * k && i % 2 == 0 && elements[i] != "" && LastLabelAt(elements, i, 2 * k)
        ensures i + 1 < |elements| && elements[i] in m && m[elements[i]] == elements[i + 1]
      {
        if i < last {
          assert elements[last] != elements[i];
          assert LastLabelAt(elements, i, 2 * (k - 1));
          assert elements[i] in before && before[elements[i]] == elements[i + 1];
        }
      }
    }
  }

  /** A successful pairing holds exactly the non-empty labels at even positions. */
  lemma PairsKeys(elements: seq<string>)
    requires Pairs(elements).Success?
    ensures forall x :: x in Pairs(elements).value <==> x != "" && exists i :: 0 <= i < |elements| && i % 2 == 0 && elements[i] == x
  {
    PairsFoldKeys(elements, (|elements| + 1) / 2);
  }

  /** A successful pairing binds each non-empty label to the text after its
      last occurrence. */
  lemma PairsValues(elements: seq<string>)
    requires Pairs(elements).Success?
    ensures forall i | 0 <= i < |elements| && i % 2 == 0 && elements[i] != "" && LastLabelAt(elements, i, |elements|) ::
      i + 1 < |elements| && elements[i] in Pairs(elements).value &&
      Pairs(elements).value[elements[i]] == elements[i + 1]
  {
    var k := (|elements| + 1) / 2;
    PairsFoldValues(elements, k);
    forall i | 0 <= i < |elements| && i % 2 == 0 && LastLabelAt(elements, i, |elements|)
      ensures LastLabelAt(elements, i, 2 * k)
    {
    }
  }

  /** The pairing loop of `get_main_indicators` and `get_basic_info`. */
  method PairLabels(elements: seq<string>) returns (r: Result<map<string, string>>)
    ensures r == Pairs(elements)
  {
    var elementsDict: map<string, string> := map[];
    var i := 0;
    while i < |elements|
      invariant i % 2 == 0 && i <= |elements| + 1
      invariant PairsFold(elements, i / 2) == Success(elementsDict)
    {
      if elements[i] != "" {
        if i + 1 >= |elements| {
          assert PairsFold(elements, i / 2 + 1) == Failure(IndexError);
          return Failure(IndexError);
        }
        elementsDict := elementsDict[elements[i] := elements[i + 1]];
      }
      assert PairsFold(elements, i / 2 + 1) == Success(elementsDict);
      i := i + 2;
    }
    return Success(elementsDict);
  }

  /** The table stored: the pairs, or `{}` when reading the page or pairing raised. */
  function TableOf(elements: Result<seq<string>>): (m: map<string, string>)
    ensures elements.Success? && Pairs(elements.value).Success? ==> m == Pairs(elements.value).value
    ensures elements.Failure? || Pairs(elements.value).Failure? ==> m == map[]
  {
    if elements.Success? && Pairs(elements.value).Success? then Pairs(elements.value).value else map[]
  }

  /** `get_main_indicators`. */
  method GetMainIndicators(fund: RealStateFund, elements: Result<seq<string>>)
    modifies fund
    ensures fund.Record() == old(fund.Record()).(indicators := TableOf(elements))
  {
    if elements.Failure? {
      fund.AddMainIndicators(map[]);
      return;
    }
    var elementsDict := PairLabels(elements.value);
    if elementsDict.Failure? {
      fund.AddMainIndicators(map[]);
    } else {
      fund.AddMainIndicators(elementsDict.value);
    }
  }

  /** `get_basic_info`. */
  method GetBasicInfo(fund: RealStateFund, elements: Result<seq<string>>)
    modifies fund
    ensures fund.Record() == old(fund.Record()).(basicInfo := TableOf(elements))
  {
    if elements.Failure? {
      fund.AddBasicInfo(map[]);
      return;
    }
    var elementsDict := PairLabels(elements.value);
    if elementsDict.Failure? {
      fund.AddBasicInfo(map[]);
    } else {
      fund.AddBasicInfo(elementsDict.value);
    }
  }

  /** `get_description`: the element's text, or "" when reading it raised. */
  method GetDescription(fund: RealStateFund, text: Result<string>)
    modifies fund
    ensures fund.Record() == old(fund.Record()).(description := if text.Success? then text.value else "")
  {
    if text.Failure? {
      fund.AddDescription("");
    } else {
      fund.AddDescription(text.value);
    }
  }

  // ---------------------------------------------------------------------------
  // Chart series
  // ---------------------------------------------------------------------------

  /** `parts[k].split("]")[0]`: the k-th piece after a `[`, up to its `]`. */
  function ChartPiece(parts: seq<string>, k: nat): (r: Result<string>)
    ensures r.Success? <==> k < |parts|
    ensures r.Failure? ==> r.exception == IndexError
    ensures r.Success? ==> ']' !in r.value && StartsWith(parts[k], r.value)
  {
    if k < |parts| then Success(UpTo(parts[k], ']')) else Failure(IndexError)
  }

  /** The text handed to `json.loads` for a two-series chart: the pieces
      `first` and `second` of the script, split on `[`, as two JSON arrays. */
  function SeriesChartText(element: string, first: nat, second: nat): (r: Result<string>)
    ensures r.Success? <==> first < |Split(element, "[")| && second < |Split(element, "[")|
    ensures r.Failure? ==> r.exception == IndexError
  {
    var parts := Split(element, "[");
    match (ChartPiece(parts, first), ChartPiece(parts, second))
    case (Success(a), Success(b)) => Success("[[" + a + "], [" + b + "]]")
    case (Failure(e), _) => Failure(e)
    case (_, Failure(e)) => Failure(e)
  }

  /** A script cut at `[` marks into `parts` gives the chart text of the
      chosen parts, each up to its first `]`. */
  lemma SeriesChartTextOfJoin(parts: seq<string>, first: nat, second: nat)
    requires first < |parts| && second < |parts|
    requires forall i :: 0 <= i < |parts| ==> '[' !in parts[i]
    ensures SeriesChartText(Join(parts, "["), first, second) ==
      Success("[[" + UpTo(parts[first], ']') + "], [" + UpTo(parts[second], ']') + "]]")
  {
    SplitOfJoin(parts, "[");
  }

  /** A part written "values]rest" contributes exactly its values. */
  lemma ChartPieceOfBracketed(parts: seq<string>, k: nat, values: string, rest: string)
    requires k < |parts| && parts[k] == values + "]" + rest && ']' !in values
    ensures ChartPiece(parts, k) == Success(values)
  {
    UpToOfJoin(values, ']', rest);
  }

  /** The five series of the vacancy chart, under their fixed keys. */
  function VacancyChartText(element: string): (r: Result<string>)
    ensures r.Success? <==> 8 < |Split(element, "[")|
    ensures r.Failure? ==> r.exception == IndexError
  {
    var parts := Split(element, "[");
    if 8 < |parts| then
      Success("{\"date\":[" + UpTo(parts[3], ']') +
        "], \"Ocupação Física\":[" + UpTo(parts[5], ']') +
        "], \"Vacância Física\":[" + UpTo(parts[6], ']') +
        "], \"Ocupação Financeira\":[" + UpTo(parts[7], ']') +
        "], \"Vacância Financeira\":[" + UpTo(parts[8], ']') + "]}")
    else Failure(IndexError)
  }

  /** A script cut at `[` marks gives the vacancy text of its parts 3, 5, 6, 7 and 8. */
  lemma VacancyChartTextOfJoin(parts: seq<string>)
    requires 8 < |parts|
    requires forall i :: 0 <= i < |parts| ==> '[' !in parts[i]
    ensures VacancyChartText(Join(parts, "[")) ==
      Success("{\"date\":[" + UpTo(parts[3], ']') +
        "], \"Ocupação Física\":[" + UpTo(parts[5], ']') +
        "], \"Vacância Física\":[" + UpTo(parts[6], ']') +
        "], \"Ocupação Financeira\":[" + UpTo(parts[7], ']') +
        "], \"Vacância Financeira\":[" + UpTo(parts[8], ']') + "]}")
  {
    SplitOfJoin(parts, "[");
  }

  /** `[[], []]`, stored when a two-series chart cannot be read. */
  const EmptySeries: Json := JArray([JArray([]), JArray([])])

  /** What a chart method stores: the JSON its text loads to, or `fallback`
      when reading the script, cutting it or loading it raised. */
  function Loaded(text: Result<string>, loads: string -> Result<Json>, fallback: Json): (j: Json)
    ensures text.Failure? ==> j == fallback
    ensures text.Success? && loads(text.value).Success? ==> j == loads(text.value).value
    ensures text.Success? && loads(text.value).Failure? ==> j == fallback
  {
    match text
    case Failure(_) => fallback
    case Success(t) =>
      match loads(t)
      case Success(v) => v
      case Failure(_) => fallback
  }

  /** The chart text of a two-series chart read off the page. */
  function SeriesText(inner: Result<string>, first: nat, second: nat): (r: Result<string>)
    ensures inner.Failure? ==> r.Failure?
    ensures inner.Success? ==> r == SeriesChartText(inner.value, first, second)
  {
    match inner
    case Failure(e) => Failure(e)
    case Success(element) => SeriesChartText(element, first, second)
  }

  /** Stores into one field what a chart method computes. */
  method LoadSeries(inner: Result<string>, first: nat, second: nat, loads: string -> Result<Json>)
    returns (j: Json)
    ensures j == Loaded(SeriesText(inner, first, second), loads, EmptySeries)
  {
    if inner.Failure? {
      return EmptySeries;
    }
    var text := SeriesChartText(inner.value, first, second);
    if text.Failure? {
      return EmptySeries;
    }
    var series := loads(text.value);
    if series.Failure? {
      return EmptySeries;
    }
    return series.value;
  }

  /** `get_dividends`: the series of parts 3 and 6. */
  method GetDividends(fund: RealStateFund, inner: Result<string>, loads: string -> Result<Json>)
    modifies fund
    ensures fund.Record() == old(fund.Record()).(dividends := Loaded(SeriesText(inner, 3, 6), loads, EmptySeries))
  {
    var dividends := LoadSeries(inner, 3, 6, loads);
    fund.AddDividends(dividends);
  }

  /** `get_dividend_yield`: the series of parts 3 and 6. */
  method GetDividendYield(fund: RealStateFund, inner: Result<string>, loads: string -> Result<Json>)
    modifies fund
    ensures fund.Record() == old(fund.Record()).(dividendYield := Loaded(SeriesText(inner, 3, 6), loads, EmptySeries))
  {
    var dividendYield := LoadSeries(inner, 3, 6, loads);
    fund.AddDividendYield(dividendYield);
  }

  /** `get_equity_value`: the series of parts 3 and 5. */
  method GetEquityValue(fund: RealStateFund, inner: Result<string>, loads: string -> Result<Json>)
    modifies fund
    ensures fund.Record() == old(fund.Record()).(equityValue := Loaded(SeriesText(inner, 3, 5), loads, EmptySeries))
  {
    var equity := LoadSeries(inner, 3, 5, loads);
    fund.AddEquityValue(equity);
  }

  /** The vacancy text read off the page. */
  function VacancyText(inner: Result<string>): (r: Result<string>)
    ensures inner.Failure? ==> r.Failure?
    ensures inner.Success? ==> r == VacancyChartText(inner.value)
  {
    match inner
    case Failure(e) => Failure(e)
    case Success(element) => VacancyChartText(element)
  }

  /** `get_vacancy`: the five series, or `{}`. */
  method GetVacancy(fund: RealStateFund, inner: Result<string>, loads: string -> Result<Json>)
    modifies fund
    ensures fund.Record() == old(fund.Record()).(vacancy := Loaded(VacancyText(inner), loads, EmptyObject))
  {
    var vacancy := EmptyObject;
    if inner.Success? {
      var text := VacancyChartText(inner.value);
      if text.Success? {
        var loaded := loads(text.value);
        if loaded.Success? {
          vacancy := loaded.value;
        }
      }
    }
    fund.AddVacancy(vacancy);
  }

  // ---------------------------------------------------------------------------
  // Assets
  // ---------------------------------------------------------------------------

  /** The details of one asset, its lines after the first read in order:
      `info.split(":")` binds part 0 to part 1, and a line without a colon
      raises `IndexError`. */
  function AssetDetails(details: map<string, string>, lines: seq<string>): (r: Result<map<string, string>>)
    ensures r.Success? ==> details.Keys <= r.value.Keys
    ensures r.Failure? ==> r.exception == IndexError
    decreases |lines|
  {
    if lines == [] then Success(details)
    else
      var infoSplit := Split(lines[0], ":");
      if |infoSplit| < 2 then Failure(IndexError)
      else AssetDetails(details[infoSplit[0] := infoSplit[1]], lines[1..])
  }

  /** The assets after processing `elements` in order: the first line of an
      element names the asset, which is reset to `{}` and then given its details. */
  function AssetsFrom(assets: map<string, map<string, string>>, elements: seq<string>): (r: Result<map<string, map<string, string>>>)
    ensures r.Success? ==> assets.Keys <= r.value.Keys
    ensures r.Success? ==> forall i :: 0 <= i < |elements| ==> Split(elements[i], "\n")[0] in r.value
    ensures r.Failure? ==> r.exception == IndexError
    decreases |elements|
  {
    if elements == [] then Success(assets)
    else
      var infoList := Split(elements[0], "\n");
      match AssetDetails(map[], infoList[1..])
      case Failure(e) => Failure(e)
      case Success(details) => AssetsFrom(assets[infoList[0] := details], elements[1..])
  }

  /** A detail line "key:value..." binds the key before its first colon to the
      text between the first and the second colon. */
  lemma AssetDetailOfLine(details: map<string, string>, key: string, value: string)
    requires ':' !in key
    ensures AssetDetails(details, [key + ":" + value]) == Success(details[key := UpTo(value, ':')])
  {
    SplitAtFirst(key, ':', value);
    assert key + ":" + value == key + [':'] + value;
    assert Split(key + ":" + value, ":")[1] == Split(value, ":")[0];
    assert [key + ":" + value][1..] == [];
  }

  /** The details of an asset fail exactly when one of its lines has no colon. */
  lemma {:induction false} AssetDetailsFailure(details: map<string, string>, lines: seq<string>)
    ensures AssetDetails(details, lines).Failure? <==> exists i :: 0 <= i < |lines| && ':' !in lines[i]
    ensures AssetDetails(details, lines).Failure? ==> AssetDetails(details, lines).exception == IndexError
    decreases |lines|
  {
    if lines != [] {
      SplitSingle(lines[0], ':');
      var infoSplit := Split(lines[0], ":");
      if |infoSplit| >= 2 {
        AssetDetailsFailure(details[infoSplit[0] := infoSplit[1]], lines[1..]);
        if exists i :: 0 <= i < |lines| && ':' !in lines[i] {
          var i :| 0 <= i < |lines| && ':' !in lines[i];
          assert ':' !in lines[1..][i - 1];
        }
        if exists i :: 0 <= i < |lines[1..]| && ':' !in lines[1..][i] {
          var i :| 0 <= i < |lines[1..]| && ':' !in lines[1..][i];
          assert ':' !in lines[i + 1];
        }
      }
    }
  }

  /** A later element naming the same asset replaces the earlier one's details:
      once the earlier one parses, the pair leaves what the later one alone leaves. */
  lemma RepeatedAssetReplaces(assets: map<string, map<string, string>>, a: string, b: string)
    requires Split(a, "\n")[0] == Split(b, "\n")[0]
    requires AssetDetails(map[], Split(a, "\n")[1..]).Success?
    ensures AssetsFrom(assets, [a, b]) == AssetsFrom(assets, [b])
  {
    var name := Split(b, "\n")[0];
    assert [a, b][1..] == [b] && [b][1..] == [];
    var da := AssetDetails(map[], Split(a, "\n")[1..]).value;
    assert AssetsFrom(assets, [a, b]) == AssetsFrom(assets[name := da], [b]);
    match AssetDetails(map[], Split(b, "\n")[1..])
    case Failure(_) =>
    case Success(db) =>
      assert assets[name := da][name := db] == assets[name := db];
  }

  /** The loops of `get_assets` over the asset texts, updating the nested
      dictionary in place. */
  method ParseAssets(elements: seq<string>) returns (r: Result<map<string, map<string, string>>>)
    ensures r == AssetsFrom(map[], elements)
  {
    var assets: map<string, map<string, string>> := map[];
    for e := 0 to |elements|
      invariant AssetsFrom(map[], elements) == AssetsFrom(assets, elements[e..])
    {
      assert elements[e..][1..] == elements[e + 1..];
      ghost var previous := assets;
      var infoList := Split(elements[e], "\n");
      var assetName := infoList[0];
      var lines := infoList[1..];
      assets := assets[assetName := map[]];
      for l := 0 to |lines|
        invariant assetName in assets
        invariant AssetDetails(map[], lines) == AssetDetails(assets[assetName], lines[l..])
        invariant assets == previous[assetName := assets[assetName]]
      {
        assert lines[l..][1..] == lines[l + 1..];
        var infoSplit := Split(lines[l], ":");
        if |infoSplit| < 2 {
          return Failure(IndexError);
        }
        assets := assets[assetName := assets[assetName][infoSplit[0] := infoSplit[1]]];
      }
      assert lines[|lines|..] == [];
    }
    assert elements[|elements|..] == [];
    return Success(assets);
  }

  /** The nested dictionary as JSON. */
  function AssetsJson(assets: map<string, map<string, string>>): (j: Json)
    ensures j.JObject? && j.fields.Keys == assets.Keys
    ensures forall n :: n in assets ==> j.fields[n] == TextObject(assets[n])
  {
    JObject(map n | n in assets :: TextObject(assets[n]))
  }

  /** What `get_assets` stores: `{"Assets": ..., "Location": ...}`, or `{}`
      when any step raised. */
  function AssetsOf(inner: Result<string>, elements: Result<seq<string>>, loads: string -> Result<Json>): (j: Json)
    ensures j != EmptyObject ==>
      && SeriesText(inner, 3, 5).Success?
      && loads(SeriesText(inner, 3, 5).value).Success?
      && elements.Success?
      && AssetsFrom(map[], elements.value).Success?
      && j == JObject(map["Assets" := AssetsJson(AssetsFrom(map[], elements.value).value),
                          "Location" := loads(SeriesText(inner, 3, 5).value).value])
    ensures
      && SeriesText(inner, 3, 5).Success?
      && loads(SeriesText(inner, 3, 5).value).Success?
      && elements.Success?
      && AssetsFrom(map[], elements.value).Success?
      ==> j == JObject(map["Assets" := AssetsJson(AssetsFrom(map[], elements.value).value),
                           "Location" := loads(SeriesText(inner, 3, 5).value).value])
  {
    match SeriesText(inner, 3, 5)
    case Failure(_) => EmptyObject
    case Success(text) =>
      match loads(text)
      case Failure(_) => EmptyObject
      case Success(location) =>
        match elements
        case Failure(_) => EmptyObject
        case Success(texts) =>
          match AssetsFrom(map[], texts)
          case Failure(_) => EmptyObject
          case Success(assets) => JObject(map["Assets" := AssetsJson(assets), "Location" := location])
  }

  /** `get_assets`. */
  method GetAssets(fund: RealStateFund, inner: Result<string>, elements: Result<seq<string>>, loads: string -> Result<Json>)
    modifies fund
    ensures fund.Record() == old(fund.Record()).(assets := AssetsOf(inner, elements, loads))
  {
    var text := SeriesText(inner, 3, 5);
    if text.Failure? {
      fund.AddAssets(EmptyObject);
      return;
    }
    var assetsData := loads(text.value);
    if assetsData.Failure? || elements.Failure? {
      fund.AddAssets(EmptyObject);
      return;
    }
    var assets := ParseAssets(elements.value);
    if assets.Failure? {
      fund.AddAssets(EmptyObject);
      return;
    }
    fund.AddAssets(JObject(map["Assets" := AssetsJson(assets.value), "Location" := assetsData.value]));
  }
}
