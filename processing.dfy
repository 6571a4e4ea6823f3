/** The normalisation script for the scraped fund table. Every column of the
    raw table is either copied verbatim into a dictionary of lists, or parsed
    as a JSON object whose fields are normalised into numbers and dates:
    liquidity, net worth, foundation date and issued quotas. */
module Processing {
  import opened Wrappers
  import opened Text

  // ---------------------------------------------------------------------------
  // Months
  // ---------------------------------------------------------------------------

  /** The Portuguese month names, January first. */
  const MonthNames: seq<string> :=
    ["janeiro", "fevereiro", "março", "abril", "maio", "junho",
     "julho", "agosto", "setembro", "outubro", "novembro", "dezembro"]

  /** `months_dict`. */
  const MonthsDict: map<string, int> :=
    map["janeiro" := 1, "fevereiro" := 2, "março" := 3, "abril" := 4, "maio" := 5, "junho" := 6,
        "julho" := 7, "agosto" := 8, "setembro" := 9, "outubro" := 10, "novembro" := 11, "dezembro" := 12]

  /** Every key of the dictionary is a month name, sent to its position in 1..12. */
  lemma MonthsDictValues()
    ensures forall m :: m in MonthsDict ==> 1 <= MonthsDict[m] <= 12 && MonthNames[MonthsDict[m] - 1] == m
  {
  }

  /** The k-th month name is a key of the dictionary, sent to k. */
  lemma MonthNamesInDict()
    ensures forall k :: 0 <= k < 12 ==> MonthNames[k] in MonthsDict && MonthsDict[MonthNames[k]] == k + 1
  {
  }

  // ---------------------------------------------------------------------------
  // Field parsers
  // ---------------------------------------------------------------------------

  /** `float(s)`, raising `ValueError` on a text that is not a number. */
  function Float(s: string): (r: Result<Option<real>>)
    ensures r.Success? <==> ParseDecimal(s).Some?
    ensures r.Success? ==> r.value == Some(ParseDecimal(s).value)
    ensures r.Failure? ==> r.exception == ValueError
  {
    match ParseDecimal(s)
    case Some(v) => Success(Some(v))
    case None => Failure(ValueError)
  }

  /** The daily liquidity: "N/A" gives `None`; dots are thousands separators. */
  function Liquidity(text: string): (r: Result<Option<real>>)
    ensures Contains(text, "N/A") ==> r == Success(None)
    ensures !Contains(text, "N/A") ==> r == Float(Substitute(text, '.', ""))
  {
    if Contains(text, "N/A") then Success(None)
    else if '.' in text then Float(Substitute(text, '.', ""))
    else Float(text)
  }

  /** The magnitude words the net worth is written with. */
  datatype Magnitude = Thousands | Millions | Billions

  /** The magnitude a text selects: "bi" is tried first, then "mi" (so "mil"
      also selects millions), and thousands otherwise. */
  function MagnitudeOf(t: string): (m: Magnitude)
    ensures Contains(t, "bi") <==> m == Billions
    ensures !Contains(t, "bi") && Contains(t, "mi") <==> m == Millions
  {
    if Contains(t, "bi") then Billions
    else if Contains(t, "mi") then Millions
    else Thousands
  }

  /** `v*1e9`, `v*1e6` or `v*1e3`. */
  function Scaled(v: real, m: Magnitude): (r: real)
    ensures v > 0.0 ==> r >= 1000.0 * v
    ensures v < 0.0 ==> r <= 1000.0 * v
    ensures r == 0.0 <==> v == 0.0
  {
    match m
    case Billions => v * 1000000000.0
    case Millions => v * 1000000.0
    case Thousands => v * 1000.0
  }

  /** `if "," in s: s = s.replace(",", ".")`. */
  function DecimalPoint(s: string): (t: string)
    ensures t == Substitute(s, ',', ".")
  {
    if ',' in s then Substitute(s, ',', ".") else s
  }

  /** The net worth, "R$ <amount> <magnitude>": the decimal comma becomes a point
      before anything else is tested; "N/A" gives `None`; the second word
      (`IndexError` when there is none) is scaled by the magnitude. */
  function NetWorth(text: string): (r: Result<Option<real>>)
    ensures var t := Substitute(text, ',', ".");
      Contains(t, "N/A") ==> r == Success(None)
    ensures var t := Substitute(text, ',', "."); var words := Split(t, " ");
      !Contains(t, "N/A") && |words| < 2 ==> r == Failure(IndexError)
    ensures var t := Substitute(text, ',', "."); var words := Split(t, " ");
      !Contains(t, "N/A") && |words| >= 2 ==>
        && (r.Success? <==> ParseDecimal(words[1]).Some?)
        && (r.Success? ==> r.value == Some(Scaled(ParseDecimal(words[1]).value, MagnitudeOf(t))))
        && (r.Failure? ==> r.exception == ValueError)
  {
    var t := DecimalPoint(text);
    if Contains(t, "N/A") then Success(None)
    else
      var words := Split(t, " ");
      if |words| < 2 then Failure(IndexError)
      else match Float(words[1])
        case Success(v) => Success(Some(Scaled(v.value, MagnitudeOf(t))))
        case Failure(e) => Failure(e)
  }

  /** The issued quotas: "N/A" gives `None`; dots are thousands separators. */
  function IssuedQuotas(text: string): (r: Result<Option<real>>)
    ensures Contains(text, "N/A") ==> r == Success(None)
    ensures !Contains(text, "N/A") ==> r == Float(Substitute(text, '.', ""))
  {
    if Contains(text, "N/A") then Success(None)
    else Float(Substitute(text, '.', ""))
  }

  /** A number written in dot-separated groups of digits reads as the number
      the groups spell once joined, both as a liquidity and as a quota count. */
  lemma DottedGroups(groups: seq<string>)
    requires |groups| >= 1 && groups[0] != []
    requires forall i :: 0 <= i < |groups| ==> AllDigits(groups[i])
    ensures AllDigits(Join(groups, "")) && Liquidity(Join(groups, ".")) == Success(Some(DigitsValue(Join(groups, "")) as real))
    ensures AllDigits(Join(groups, "")) && IssuedQuotas(Join(groups, ".")) == Success(Some(DigitsValue(Join(groups, "")) as real))
  {
    JoinOfDigits(groups);
    DottedText(groups);
    var digits := Join(groups, "");
    assert ParseDecimal(digits) == Some(DigitsValue(digits) as real);
  }

  lemma JoinOfDigits(groups: seq<string>)
    requires |groups| >= 1 && groups[0] != []
    requires forall i :: 0 <= i < |groups| ==> AllDigits(groups[i])
    ensures AllDigits(Join(groups, "")) && Join(groups, "") != []
  {
    var digits := Join(groups, "");
    JoinChars(groups, "");
    forall j | 0 <= j < |digits| ensures IsDigit(digits[j]) {
      assert digits[j] in digits;
      var i :| 0 <= i < |groups| && digits[j] in groups[i];
      var k :| 0 <= k < |groups[i]| && groups[i][k] == digits[j];
    }
    JoinLength(groups, "");
  }

  lemma DottedText(groups: seq<string>)
    requires forall i :: 0 <= i < |groups| ==> AllDigits(groups[i])
    ensures Substitute(Join(groups, "."), '.', "") == Join(groups, "")
    ensures !Contains(Join(groups, "."), "N/A")
  {
    var text := Join(groups, ".");
    forall i | 0 <= i < |groups| ensures '.' !in groups[i] && 'N' !in groups[i] {
      assert forall j :: 0 <= j < |groups[i]| ==> IsDigit(groups[i][j]);
    }
    SubstituteJoin(groups, '.', "");
    JoinChars(groups, ".");
    assert 'N' !in text;
    NotContainsWithoutFirst(text, "N/A");
  }

  /** Turning commas into points adds no space and none of the letters `NetWorth` looks for. */
  lemma PointKeepsLetters(amount: string)
    requires ' ' !in amount && 'N' !in amount && 'b' !in amount && 'm' !in amount
    ensures var point := Substitute(amount, ',', ".");
      ' ' !in point && 'N' !in point && 'b' !in point && 'm' !in point
  {
    SubstituteAbsent(amount, ',', ".", ' ');
    SubstituteAbsent(amount, ',', ".", 'N');
    SubstituteAbsent(amount, ',', ".", 'b');
    SubstituteAbsent(amount, ',', ".", 'm');
  }

  /** A net worth "R$ <amount> <magnitude>" is the amount, its decimal comma
      read as a point, times the scale its magnitude word selects. */
  lemma NetWorthOfAmount(amount: string, magnitude: string)
    requires ' ' !in amount && 'N' !in amount && 'b' !in amount && 'm' !in amount
    requires ' ' !in magnitude && ',' !in magnitude && 'N' !in magnitude
    requires ParseDecimal(Substitute(amount, ',', ".")).Some?
    ensures NetWorth("R$ " + amount + " " + magnitude) ==
      Success(Some(Scaled(ParseDecimal(Substitute(amount, ',', ".")).value, MagnitudeOf(magnitude))))
  {
    var text := "R$ " + amount + " " + magnitude;
    var point := Substitute(amount, ',', ".");
    var t := "R$ " + point + " " + magnitude;
    assert Substitute(text, ',', ".") == t by {
      CommaToPoint(amount, magnitude);
    }
    PointKeepsLetters(amount);
    assert Split(t, " ") == ["R$", point, magnitude] && !Contains(t, "N/A") && MagnitudeOf(t) == MagnitudeOf(magnitude) by {
      NetWorthWords(point, magnitude);
    }
    NetWorthOfWords(text, t, point, magnitude);
  }

  lemma NetWorthOfWords(text: string, t: string, point: string, magnitude: string)
    requires Substitute(text, ',', ".") == t && !Contains(t, "N/A")
    requires Split(t, " ") == ["R$", point, magnitude] && MagnitudeOf(t) == MagnitudeOf(magnitude)
    requires ParseDecimal(point).Some?
    ensures NetWorth(text) == Success(Some(Scaled(ParseDecimal(point).value, MagnitudeOf(magnitude))))
  {
    assert Split(t, " ")[1] == point;
  }

  lemma CommaToPoint(amount: string, magnitude: string)
    requires ',' !in magnitude
    ensures Substitute("R$ " + amount + " " + magnitude, ',', ".") == "R$ " + Substitute(amount, ',', ".") + " " + magnitude
  {
    var text := "R$ " + amount + " " + magnitude;
    assert text == ("R$ " + amount) + (" " + magnitude);
    SubstituteConcat("R$ " + amount, " " + magnitude, ',', ".");
    SubstituteConcat("R$ ", amount, ',', ".");
    assert ',' !in " " + magnitude;
    assert ',' !in "R$ ";
  }

  lemma NetWorthWords(point: string, magnitude: string)
    requires ' ' !in point && 'N' !in point && 'b' !in point && 'm' !in point
    requires ' ' !in magnitude && 'N' !in magnitude
    ensures var t := "R$ " + point + " " + magnitude;
      && Split(t, " ") == ["R$", point, magnitude]
      && !Contains(t, "N/A")
      && MagnitudeOf(t) == MagnitudeOf(magnitude)
  {
    var t := "R$ " + point + " " + magnitude;
    var front := "R$ " + point + " ";
    assert t == front + magnitude;
    assert Join(["R$", point, magnitude], " ") == "R$" + " " + Join([point, magnitude], " ");
    assert Join([point, magnitude], " ") == point + " " + magnitude;
    assert t == Join(["R$", point, magnitude], " ");
    SplitOfJoin(["R$", point, magnitude], " ");
    assert 'b' !in front && 'm' !in front && 'N' !in front;
    ContainsAfterPrefix(front, magnitude, "bi");
    ContainsAfterPrefix(front, magnitude, "mi");
    ContainsAfterPrefix(front, magnitude, "N/A");
    NotContainsWithoutFirst(magnitude, "N/A");
  }

  /** "mil" (thousand) contains "mi", so the code scales it by a million. */
  lemma NetWorthOfMil(amount: string)
    requires ' ' !in amount && 'N' !in amount && 'b' !in amount && 'm' !in amount
    requires ParseDecimal(Substitute(amount, ',', ".")).Some?
    ensures NetWorth("R$ " + amount + " mil") ==
      Success(Some(ParseDecimal(Substitute(amount, ',', ".")).value * 1000000.0))
  {
    MilIsMillions();
    ConcatAssociates("R$ " + amount, " ", "mil");
    NetWorthOfAmount(amount, "mil");
  }

  lemma MilIsMillions()
    ensures ' ' !in "mil" && ',' !in "mil" && 'N' !in "mil" && " mil" == " " + "mil"
    ensures MagnitudeOf("mil") == Millions
  {
    assert OccursAt("mil", "mi", 0);
    NotContainsWithoutFirst("mil", "bi");
  }

  /** A calendar date, as `datetime(year, month, day)` holds it. */
  datatype CivilDate = CivilDate(year: int, month: int, day: int)

  predicate IsLeapYear(y: int) {
    y % 4 == 0 && (y % 100 != 0 || y % 400 == 0)
  }

  function DaysInMonth(y: int, m: int): int
    requires 1 <= m <= 12
  {
    if m == 2 then (if IsLeapYear(y) then 29 else 28)
    else if m == 4 || m == 6 || m == 9 || m == 11 then 30
    else 31
  }

  /** The arguments `datetime` accepts without raising `ValueError`. */
  predicate ValidDate(y: int, m: int, d: int) {
    1 <= y <= 9999 && 1 <= m <= 12 && 1 <= d <= DaysInMonth(y, m)
  }

  /** `datetime` reads each of its integer arguments as a C `int`. */
  predicate InCInt(n: int) {
    -0x8000_0000 <= n <= 0x7FFF_FFFF
  }

  /** The foundation date "D de MONTH de YYYY": "N/A" gives `None`; the text
      is split on " de " and rebuilt as `datetime(int(part 2), months_dict[part
      1 lowered], int(part 0))`, whose steps raise, in this order, `IndexError`
      for fewer than three parts, `ValueError` for a year that is no integer,
      `KeyError` for an unknown month, `ValueError` for a day that is no
      integer, `OverflowError` for a year or a day beyond a C `int`, and
      `ValueError` for a date that does not exist. */
  function ConstitutionDate(text: string): (r: Result<Option<CivilDate>>)
    ensures Contains(text, "N/A") ==> r == Success(None)
    ensures !Contains(text, "N/A") && |Split(text, " de ")| < 3 ==> r == Failure(IndexError)
    ensures r.Success? && r.value.Some? ==>
      var parts := Split(text, " de "); var date := r.value.value;
      && ValidDate(date.year, date.month, date.day)
      && |parts| >= 3
      && ParseInt(parts[2]) == Some(date.year)
      && Lower(parts[1]) in MonthsDict && MonthsDict[Lower(parts[1])] == date.month
      && ParseInt(parts[0]) == Some(date.day)
    ensures r.Failure? && r.exception == KeyError ==>
      var parts := Split(text, " de "); |parts| >= 3 && Lower(parts[1]) !in MonthsDict
  {
    if Contains(text, "N/A") then Success(None)
    else
      var parts := Split(text, " de ");
      if |parts| < 3 then Failure(IndexError)
      else match ParseInt(parts[2])
        case None => Failure(ValueError)
        case Some(year) =>
          var name := Lower(parts[1]);
          if name !in MonthsDict then Failure(KeyError)
          else
            var month := MonthsDict[name];
            match ParseInt(parts[0])
            case None => Failure(ValueError)
            case Some(day) =>
              if !(InCInt(year) && InCInt(day)) then Failure(OverflowError)
              else if ValidDate(year, month, day) then Success(Some(CivilDate(year, month, day)))
              else Failure(ValueError)
  }

  /** `OverflowError` is raised exactly when the three parts are read, the
      month is known, and the year or the day lies beyond a C `int`. */
  lemma ConstitutionDateOverflow(text: string)
    ensures ConstitutionDate(text) == Failure(OverflowError) <==>
      var parts := Split(text, " de ");
      && !Contains(text, "N/A") && |parts| >= 3 && Lower(parts[1]) in MonthsDict
      && ParseInt(parts[2]).Some? && ParseInt(parts[0]).Some?
      && !(InCInt(ParseInt(parts[2]).value) && InCInt(ParseInt(parts[0]).value))
  {
  }

  /** Writing a date out in words and reading it back gives the date, whatever
      the capitalisation of the month name. */
  lemma ConstitutionDateRoundTrip(year: nat, month: int, day: nat, name: string)
    requires ValidDate(year, month, day)
    requires Lower(name) == MonthNames[month - 1] && ' ' !in name && '/' !in name
    ensures ConstitutionDate(NatText(day) + " de " + name + " de " + NatText(year)) ==
      Success(Some(CivilDate(year, month, day)))
  {
    var d, y := NatText(day), NatText(year);
    var text := d + " de " + name + " de " + y;
    DigitsHaveNoSeparator(d);
    DigitsHaveNoSeparator(y);
    DateTextParts(d, name, y);
    DateTextNotAvailable(d, name, y);
    assert ParseInt(y) == Some(year) && ParseInt(d) == Some(day);
    assert Lower(name) in MonthsDict && MonthsDict[Lower(name)] == month by {
      MonthNamesInDict();
      assert MonthNames[month - 1] in MonthsDict;
    }
    ConstitutionDateOfParts(text, d, name, y, CivilDate(year, month, day));
  }

  lemma DigitsHaveNoSeparator(s: string)
    requires AllDigits(s)
    ensures ' ' !in s && '/' !in s
  {
    assert forall j :: 0 <= j < |s| ==> IsDigit(s[j]);
  }

  /** "D de M de Y" splits on " de " into its three parts. */
  lemma DateTextParts(d: string, name: string, y: string)
    requires ' ' !in d && ' ' !in name && ' ' !in y
    ensures Split(d + " de " + name + " de " + y, " de ") == [d, name, y]
  {
    var text := d + " de " + name + " de " + y;
    assert Join([name, y], " de ") == name + " de " + y;
    assert Join([d, name, y], " de ") == d + " de " + Join([name, y], " de ");
    assert text == Join([d, name, y], " de ");
    SplitOfJoin([d, name, y], " de ");
  }

  /** "D de M de Y" holds no "N/A" when its parts hold no slash. */
  lemma DateTextNotAvailable(d: string, name: string, y: string)
    requires '/' !in d && '/' !in name && '/' !in y
    ensures !Contains(d + " de " + name + " de " + y, "N/A")
  {
    NotContainsMissingChar(d + " de " + name + " de " + y, "N/A", 1);
  }

  lemma ConstitutionDateOfParts(text: string, d: string, name: string, y: string, date: CivilDate)
    requires !Contains(text, "N/A") && Split(text, " de ") == [d, name, y]
    requires ParseInt(y) == Some(date.year) && ParseInt(d) == Some(date.day)
    requires Lower(name) in MonthsDict && MonthsDict[Lower(name)] == date.month
    requires ValidDate(date.year, date.month, date.day)
    ensures ConstitutionDate(text) == Success(Some(date))
  {
    var parts := Split(text, " de ");
    assert parts[0] == d && parts[1] == name && parts[2] == y;
    assert InCInt(date.year) && InCInt(date.day);
  }

  // ---------------------------------------------------------------------------
  // Building the processed table
  // ---------------------------------------------------------------------------

  /** `str.replace("'", '"')`, applied to a raw cell before `json.loads`, since
      the dictionaries were written out with Python's single quotes. */
  function QuoteSwap(cell: string): (r: string)
    ensures |r| == |cell| && '\'' !in r
    ensures forall i :: 0 <= i < |cell| ==> r[i] == if cell[i] == '\'' then '"' else cell[i]
  {
    SubstituteByChar(cell, '\'', '"');
    Substitute(cell, '\'', "\"")
  }

  /** A value stored in the processed table. */
  datatype Value =
    | Raw(text: string)                // a raw cell, or a text field of the JSON object
    | Amount(amount: Option<real>)     // a parsed number, `None` for "N/A"
    | Day(date: Option<CivilDate>)     // a parsed date, `None` for "N/A"

  /** An entry of `proc_data`: a list, or the scalar a key was overwritten with. */
  datatype Entry = Column(values: seq<Value>) | Scalar(value: Value)

  type Data = map<string, Entry>

  /** A cell that `json.loads` read as an object of texts. */
  type Subset = map<string, string>

  /** The keys of `proc_data`, and the order of the table's columns. */
  const NewColumns: seq<string> := [
    "Ticker", "Nome", "Administrador", "Descrição", "Data de Constituição do Fundo", "Cotas Emitidas",
    "Tipo de Gestão", "Público Alvo", "Mandato", "Segmento", "Prazo de Duração", "Taxa de Administração",
    "Taxa de Performance", "Ativos Atuais", "Liquidez Diária", "Patrimônio Líquido", "Cotações Históricas",
    "Dividendos Históricos", "Dividend Yield Histórico", "Valor Patrimonial Histórico", "Vacância Histórica"]

  const IndicatorsKey: string := "Principais Indicadores"
  const BasicInfoKey: string := "Informações Básicas"
  const LiquidityKey: string := "Liquidez Diária"
  const NetWorthKey: string := "Patrimônio Líquido"

  /** The fields read from the basic information, in the order they are read. */
  const InfoFields: seq<string> := [
    "DATA DA CONSTITUIÇÃO DO FUNDO", "COTAS EMITIDAS", "TIPO DE GESTÃO", "PÚBLICO-ALVO", "MANDATO",
    "SEGMENTO", "PRAZO DE DURAÇÃO", "TAXA DE ADMINISTRAÇÃO", "TAXA DE PERFORMANCE"]

  /** The keys of `proc_data` they are stored under, in the same order. */
  const InfoColumns: seq<string> := [
    "Data de Constituição do Fundo", "Cotas Emitidas", "Tipo de Gestão", "Público Alvo", "Mandato",
    "Segmento", "Prazo de Duração", "Taxa de Administração", "Taxa de Performance"]

  /** `proc_data` before the first cell: every key bound to an empty list. */
  function InitialData(): (data: Data)
    ensures forall k :: k in data <==> k in NewColumns
    ensures forall k :: k in data ==> data[k] == Column([])
  {
    map k | k in NewColumns :: Column([])
  }

  /** `proc_data[key].append(v)`: `KeyError` for a missing key, `AttributeError`
      when the key was overwritten with a scalar. */
  function Append(data: Data, key: string, v: Value): (r: Result<Data>)
    ensures r.Success? <==> key in data && data[key].Column?
    ensures r.Success? ==> r.value == data[key := Column(data[key].values + [v])]
    ensures r.Failure? ==> r.exception == if key in data then AttributeError else KeyError
  {
    if key !in data then Failure(KeyError)
    else match data[key]
      case Column(vs) => Success(data[key := Column(vs + [v])])
      case Scalar(_) => Failure(AttributeError)
  }

  /** One row of "Principais Indicadores": the liquidity and the net worth are
      parsed, then appended to their lists. */
  function Indicators(data: Data, subset: Subset): (r: Result<Data>)
    ensures r.Success? ==>
      && LiquidityKey in subset && NetWorthKey in subset
      && Liquidity(subset[LiquidityKey]).Success? && NetWorth(subset[NetWorthKey]).Success?
      && LiquidityKey in data && data[LiquidityKey].Column?
      && NetWorthKey in data && data[NetWorthKey].Column?
      && r.value == data[LiquidityKey := Column(data[LiquidityKey].values + [Amount(Liquidity(subset[LiquidityKey]).value)])]
                        [NetWorthKey := Column(data[NetWorthKey].values + [Amount(NetWorth(subset[NetWorthKey]).value)])]
    ensures LiquidityKey !in subset ==> r == Failure(KeyError)
    ensures LiquidityKey in subset && Liquidity(subset[LiquidityKey]).Failure? ==>
      r == Failure(Liquidity(subset[LiquidityKey]).exception)
    ensures LiquidityKey in subset && Liquidity(subset[LiquidityKey]).Success? && NetWorthKey !in subset ==>
      r == Failure(KeyError)
    ensures LiquidityKey in subset && Liquidity(subset[LiquidityKey]).Success? && NetWorthKey in subset && NetWorth(subset[NetWorthKey]).Failure? ==>
      r == Failure(NetWorth(subset[NetWorthKey]).exception)
    ensures
      && LiquidityKey in subset && Liquidity(subset[LiquidityKey]).Success?
      && NetWorthKey in subset && NetWorth(subset[NetWorthKey]).Success?
      && LiquidityKey in data && data[LiquidityKey].Column?
      && NetWorthKey in data && data[NetWorthKey].Column?
      ==> r.Success?
  {
    if LiquidityKey !in subset then Failure(KeyError)
    else match Liquidity(subset[LiquidityKey])
      case Failure(e) => Failure(e)
      case Success(liquidity) =>
        if NetWorthKey !in subset then Failure(KeyError)
        else match NetWorth(subset[NetWorthKey])
          case Failure(e) => Failure(e)
          case Success(netWorth) =>
            match Append(data, LiquidityKey, Amount(liquidity))
            case Failure(e) => Failure(e)
            case Success(d) => Append(d, NetWorthKey, Amount(netWorth))
  }

  /** The nine values one row of "Informações Básicas" yields, in the order of
      `InfoColumns`: `KeyError` when a field is missing (all are read before
      any is parsed), then the date and the quota count are parsed. */
  function InfoValues(subset: Subset): (r: Result<seq<Value>>)
    ensures r.Success? ==> |r.value| == 9 && forall i :: 0 <= i < 9 ==> InfoFields[i] in subset
    ensures r.Success? ==> forall i :: 2 <= i < 9 ==> r.value[i] == Raw(subset[InfoFields[i]])
    ensures (forall i :: 0 <= i < 9 ==> InfoFields[i] in subset) ==> r.Failure? ==> r.exception != KeyError || ConstitutionDate(subset[InfoFields[0]]) == Failure(KeyError)
    ensures (exists i :: 0 <= i < 9 && InfoFields[i] !in subset) ==> r == Failure(KeyError)
    ensures r.Success? ==>
      && ConstitutionDate(subset[InfoFields[0]]).Success? && r.value[0] == Day(ConstitutionDate(subset[InfoFields[0]]).value)
      && IssuedQuotas(subset[InfoFields[1]]).Success? && r.value[1] == Amount(IssuedQuotas(subset[InfoFields[1]]).value)
    ensures (forall i :: 0 <= i < 9 ==> InfoFields[i] in subset) ==>
      (r.Success? <==> ConstitutionDate(subset[InfoFields[0]]).Success? && IssuedQuotas(subset[InfoFields[1]]).Success?)
  {
    if exists i :: 0 <= i < 9 && InfoFields[i] !in subset then Failure(KeyError)
    else match ConstitutionDate(subset[InfoFields[0]])
      case Failure(e) => Failure(e)
      case Success(date) =>
        match IssuedQuotas(subset[InfoFields[1]])
        case Failure(e) => Failure(e)
        case Success(quotas) =>
          Success([Day(date), Amount(quotas)] + RawFields(subset))
  }

  /** The seven fields stored unconverted, in column order. */
  function RawFields(subset: Subset): (r: seq<Value>)
    requires forall i :: 2 <= i < 9 ==> InfoFields[i] in subset
    ensures |r| == 7 && forall i :: 0 <= i < 7 ==> r[i] == Raw(subset[InfoFields[i + 2]])
  {
    seq(7, i requires 0 <= i < 7 => Raw(subset[InfoFields[i + 2]]))
  }

  /** The nine assignments `proc_data[InfoColumns[i]] = values[i]`. */
  function Assign(data: Data, values: seq<Value>): (r: Data)
    requires |values| == 9
  {
    data[InfoColumns[0] := Scalar(values[0])][InfoColumns[1] := Scalar(values[1])]
        [InfoColumns[2] := Scalar(values[2])][InfoColumns[3] := Scalar(values[3])]
        [InfoColumns[4] := Scalar(values[4])][InfoColumns[5] := Scalar(values[5])]
        [InfoColumns[6] := Scalar(values[6])][InfoColumns[7] := Scalar(values[7])]
        [InfoColumns[8] := Scalar(values[8])]
  }

  /** After the assignments every info column holds its value as a scalar,
      whatever it held before, and every other key is untouched. */
  lemma AssignFields(data: Data, values: seq<Value>)
    requires |values| == 9
    ensures forall i :: 0 <= i < 9 ==> InfoColumns[i] in Assign(data, values) && Assign(data, values)[InfoColumns[i]] == Scalar(values[i])
    ensures forall k :: k !in InfoColumns ==> (k in Assign(data, values) <==> k in data)
    ensures forall k :: k !in InfoColumns && k in data ==> Assign(data, values)[k] == data[k]
  {
  }

  /** One row of "Informações Básicas". */
  function BasicInfo(data: Data, subset: Subset): (r: Result<Data>)
    ensures r.Success? <==> InfoValues(subset).Success?
    ensures r.Success? ==> r.value == Assign(data, InfoValues(subset).value)
    ensures r.Failure? ==> r.exception == InfoValues(subset).exception
  {
    match InfoValues(subset)
    case Failure(e) => Failure(e)
    case Success(values) => Success(Assign(data, values))
  }

  /** One step of the inner loop: the cell at `line` of column `key`. */
  function Step(data: Data, key: string, cell: string, loads: string -> Result<Subset>): (r: Result<Data>)
  {
    if key in data then Append(data, key, Raw(cell)) else ParsedCell(data, key, cell, loads)
  }

  /** A cell of a column that is not a key of `proc_data`: the text is read as
      JSON, and only the two dictionary columns use it. */
  function ParsedCell(data: Data, key: string, cell: string, loads: string -> Result<Subset>): Result<Data>
  {
    match loads(QuoteSwap(cell))
    case Failure(e) => Failure(e)
    case Success(subset) =>
      if key == IndicatorsKey then Indicators(data, subset)
      else if key == BasicInfoKey then BasicInfo(data, subset)
      else Success(data)
  }

  /** The inner loop over the cells of one column, as a fold from the left. */
  function RunCells(data: Data, key: string, cells: seq<string>, loads: string -> Result<Subset>): (r: Result<Data>)
    decreases |cells|
  {
    if cells == [] then Success(data)
    else match RunCells(data, key, cells[..|cells| - 1], loads)
      case Failure(e) => Failure(e)
      case Success(d) => Step(d, key, cells[|cells| - 1], loads)
  }

  /** The outer loop over the columns of the raw table. */
  function RunKeys(data: Data, keys: seq<string>, raw: map<string, seq<string>>, loads: string -> Result<Subset>): (r: Result<Data>)
    requires forall k :: k in keys ==> k in raw
    decreases |keys|
  {
    if keys == [] then Success(data)
    else match RunKeys(data, keys[..|keys| - 1], raw, loads)
      case Failure(e) => Failure(e)
      case Success(d) => RunCells(d, keys[|keys| - 1], raw[keys[|keys| - 1]], loads)
  }

  /** A step that succeeds keeps every key it was given: it appends to a list,
      or assigns columns. */
  lemma StepKeepsKeys(data: Data, key: string, cell: string, loads: string -> Result<Subset>)
    requires Step(data, key, cell, loads).Success?
    ensures forall k :: k in data ==> k in Step(data, key, cell, loads).value
  {
    if key !in data && key != IndicatorsKey && key == BasicInfoKey {
      AssignFields(data, InfoValues(loads(QuoteSwap(cell)).value).value);
    }
  }

  /** A column processed without an exception keeps every key. */
  lemma {:induction false} RunCellsKeepsKeys(data: Data, key: string, cells: seq<string>, loads: string -> Result<Subset>)
    requires RunCells(data, key, cells, loads).Success?
    ensures forall k :: k in data ==> k in RunCells(data, key, cells, loads).value
    decreases |cells|
  {
    if cells != [] {
      var prefix := cells[..|cells| - 1];
      RunCellsKeepsKeys(data, key, prefix, loads);
      StepKeepsKeys(RunCells(data, key, prefix, loads).value, key, cells[|cells| - 1], loads);
    }
  }

  /** A table processed without an exception keeps every key it started with. */
  lemma {:induction false} RunKeysKeepsKeys(data: Data, keys: seq<string>, raw: map<string, seq<string>>, loads: string -> Result<Subset>)
    requires forall k :: k in keys ==> k in raw
    requires RunKeys(data, keys, raw, loads).Success?
    ensures forall k :: k in data ==> k in RunKeys(data, keys, raw, loads).value
    decreases |keys|
  {
    if keys != [] {
      var prefix := keys[..|keys| - 1];
      RunKeysKeepsKeys(data, prefix, raw, loads);
      RunCellsKeepsKeys(RunKeys(data, prefix, raw, loads).value, keys[|keys| - 1], raw[keys[|keys| - 1]], loads);
    }
  }

  lemma {:induction false} RunCellsFailed(data: Data, key: string, cells: seq<string>, n: nat, loads: string -> Result<Subset>)
    requires n <= |cells| && RunCells(data, key, cells[..n], loads).Failure?
    ensures RunCells(data, key, cells, loads) == RunCells(data, key, cells[..n], loads)
    decreases |cells|
  {
    if n < |cells| {
      assert cells[..|cells| - 1][..n] == cells[..n];
      RunCellsFailed(data, key, cells[..|cells| - 1], n, loads);
    } else {
      assert cells[..n] == cells;
    }
  }

  lemma {:induction false} RunKeysFailed(data: Data, keys: seq<string>, raw: map<string, seq<string>>, n: nat, loads: string -> Result<Subset>)
    requires forall k :: k in keys ==> k in raw
    requires n <= |keys| && RunKeys(data, keys[..n], raw, loads).Failure?
    ensures RunKeys(data, keys, raw, loads) == RunKeys(data, keys[..n], raw, loads)
    decreases |keys|
  {
    if n < |keys| {
      assert keys[..|keys| - 1][..n] == keys[..n];
      RunKeysFailed(data, keys[..|keys| - 1], raw, n, loads);
    } else {
      assert keys[..n] == keys;
    }
  }

  /** The script's two nested loops over the raw table, whose column `k` holds
      `raw[k]`, one cell per fund. An exception ends the script. */
  method ProcessFunds(keys: seq<string>, raw: map<string, seq<string>>, rows: nat, loads: string -> Result<Subset>)
    returns (r: Result<Data>)
    requires forall k :: k in keys ==> k in raw && |raw[k]| == rows
    ensures r == RunKeys(InitialData(), keys, raw, loads)
  {
    var procData := InitialData();
    for i := 0 to |keys|
      invariant RunKeys(InitialData(), keys[..i], raw, loads) == Success(procData)
    {
      var key := keys[i];
      assert keys[..i + 1][..i] == keys[..i];
      var next := ProcessColumn(procData, key, raw[key], rows, loads);
      if next.Failure? {
        RunKeysFailed(InitialData(), keys, raw, i + 1, loads);
        return Failure(next.exception);
      }
      procData := next.value;
    }
    assert keys[..|keys|] == keys;
    return Success(procData);
  }

  /** The inner loop over the `rows` cells of column `key`. */
  method ProcessColumn(procData: Data, key: string, cells: seq<string>, rows: nat, loads: string -> Result<Subset>)
    returns (r: Result<Data>)
    requires |cells| == rows
    ensures r == RunCells(procData, key, cells, loads)
  {
    var data := procData;
    for line := 0 to rows
      invariant RunCells(procData, key, cells[..line], loads) == Success(data)
    {
      assert cells[..line + 1][..line] == cells[..line];
      var next := ProcessCell(data, key, cells[line], loads);
      if next.Failure? {
        RunCellsFailed(procData, key, cells, line + 1, loads);
        return Failure(next.exception);
      }
      data := next.value;
    }
    assert cells[..rows] == cells;
    return Success(data);
  }

  /** The body of the inner loop: one cell of column `key`. */
  method ProcessCell(procData: Data, key: string, cell: string, loads: string -> Result<Subset>)
    returns (next: Result<Data>)
    ensures next == Step(procData, key, cell, loads)
  {
    if key in procData {
      next := Append(procData, key, Raw(cell));
    } else {
      var subset := loads(QuoteSwap(cell));
      if subset.Failure? {
        next := Failure(subset.exception);
      } else if key == IndicatorsKey {
        next := Indicators(procData, subset.value);
      } else if key == BasicInfoKey {
        next := BasicInfo(procData, subset.value);
      } else {
        next := Success(procData);
      }
    }
  }

  // ---------------------------------------------------------------------------
  // What the loops do to one column
  // ---------------------------------------------------------------------------

  function Raws(cells: seq<string>): (vs: seq<Value>)
    ensures |vs| == |cells| && forall i :: 0 <= i < |cells| ==> vs[i] == Raw(cells[i])
  {
    seq(|cells|, i requires 0 <= i < |cells| => Raw(cells[i]))
  }

  /** A column whose name is a key of `proc_data` is appended verbatim. */
  lemma {:induction false} AppendsVerbatim(data: Data, key: string, cells: seq<string>, loads: string -> Result<Subset>)
    requires key in data && data[key].Column?
    ensures RunCells(data, key, cells, loads) == Success(data[key := Column(data[key].values + Raws(cells))])
    decreases |cells|
  {
    if cells == [] {
      assert Raws(cells) == [];
      assert data[key].values + Raws(cells) == data[key].values;
      assert data[key := data[key]] == data;
    } else {
      var prefix, last := cells[..|cells| - 1], cells[|cells| - 1];
      AppendsVerbatim(data, key, prefix, loads);
      var d0 := data[key := Column(data[key].values + Raws(prefix))];
      assert RunCells(data, key, cells, loads) == Step(d0, key, last, loads);
      assert Step(d0, key, last, loads) == Success(d0[key := Column(d0[key].values + [Raw(last)])]);
      assert Raws(prefix) + [Raw(last)] == Raws(cells);
      assert d0[key].values + [Raw(last)] == data[key].values + Raws(cells);
      assert d0[key := Column(data[key].values + Raws(cells))] == data[key := Column(data[key].values + Raws(cells))];
    }
  }

  /** Each row of "Principais Indicadores" adds one entry to the liquidity
      list and one to the net-worth list; nothing else changes. */
  lemma {:induction false} IndicatorsGrowColumns(data: Data, cells: seq<string>, loads: string -> Result<Subset>)
    requires IndicatorsKey !in data
    requires LiquidityKey in data && data[LiquidityKey].Column?
    requires NetWorthKey in data && data[NetWorthKey].Column?
    requires RunCells(data, IndicatorsKey, cells, loads).Success?
    ensures var d := RunCells(data, IndicatorsKey, cells, loads).value;
      && d.Keys == data.Keys
      && d[LiquidityKey].Column? && d[NetWorthKey].Column?
      && |d[LiquidityKey].values| == |data[LiquidityKey].values| + |cells|
      && |d[NetWorthKey].values| == |data[NetWorthKey].values| + |cells|
      && d[LiquidityKey].values[..|data[LiquidityKey].values|] == data[LiquidityKey].values
      && d[NetWorthKey].values[..|data[NetWorthKey].values|] == data[NetWorthKey].values
      && forall k :: k in data && k != LiquidityKey && k != NetWorthKey ==> d[k] == data[k]
    decreases |cells|
  {
    if cells != [] {
      var prefix := cells[..|cells| - 1];
      assert RunCells(data, IndicatorsKey, prefix, loads).Success?;
      IndicatorsGrowColumns(data, prefix, loads);
      var d0 := RunCells(data, IndicatorsKey, prefix, loads).value;
      assert IndicatorsKey !in d0;
      var subset := loads(QuoteSwap(cells[|cells| - 1])).value;
      assert Step(d0, IndicatorsKey, cells[|cells| - 1], loads) == Indicators(d0, subset);
      assert RunCells(data, IndicatorsKey, cells, loads) == Indicators(d0, subset);
      var n := |data[LiquidityKey].values|;
      assert d0[LiquidityKey].values[..n] == data[LiquidityKey].values;
      var m := |data[NetWorthKey].values|;
      assert d0[NetWorthKey].values[..m] == data[NetWorthKey].values;
    }
  }

  /** While the basic information is processed, the keys outside the info
      columns keep their entries, and the column's own name never becomes a key. */
  lemma {:induction false} BasicInfoFrame(data: Data, cells: seq<string>, loads: string -> Result<Subset>)
    requires BasicInfoKey !in data
    requires RunCells(data, BasicInfoKey, cells, loads).Success?
    ensures var d := RunCells(data, BasicInfoKey, cells, loads).value;
      && BasicInfoKey !in d
      && (forall k :: k !in InfoColumns ==> (k in d <==> k in data))
      && (forall k :: k !in InfoColumns && k in data ==> d[k] == data[k])
    decreases |cells|
  {
    if cells != [] {
      var prefix := cells[..|cells| - 1];
      assert RunCells(data, BasicInfoKey, prefix, loads).Success?;
      BasicInfoFrame(data, prefix, loads);
      var d0 := RunCells(data, BasicInfoKey, prefix, loads).value;
      var subset := loads(QuoteSwap(cells[|cells| - 1])).value;
      assert BasicInfoKey !in InfoColumns;
      AssignFields(d0, InfoValues(subset).value);
    }
  }

  /** The info columns end up holding, as scalars, the values of the last row
      alone: every earlier row is overwritten. */
  lemma BasicInfoKeepsLastRow(data: Data, cells: seq<string>, loads: string -> Result<Subset>)
    requires BasicInfoKey !in data && cells != []
    requires RunCells(data, BasicInfoKey, cells, loads).Success?
    ensures var d := RunCells(data, BasicInfoKey, cells, loads).value;
      var subset := loads(QuoteSwap(cells[|cells| - 1]));
      && subset.Success? && InfoValues(subset.value).Success?
      && forall i :: 0 <= i < 9 ==> InfoColumns[i] in d && d[InfoColumns[i]] == Scalar(InfoValues(subset.value).value[i])
  {
    var prefix := cells[..|cells| - 1];
    assert RunCells(data, BasicInfoKey, prefix, loads).Success?;
    BasicInfoFrame(data, prefix, loads);
    var d0 := RunCells(data, BasicInfoKey, prefix, loads).value;
    var subset := loads(QuoteSwap(cells[|cells| - 1])).value;
    AssignFields(d0, InfoValues(subset).value);
  }
}
