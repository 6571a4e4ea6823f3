/** The clean-up transforms of the notebook's pipeline: stripping the heading
    word from the description column, normalising its punctuation and spacing,
    filling missing foundation dates, and the registry of categories the
    pipeline's encoders write into. */
module Cleaning {
  import opened Wrappers
  import opened Text
  import opened Series

  // ---------------------------------------------------------------------------
  // Text cells
  // ---------------------------------------------------------------------------

  /** A cell of a text column as pandas holds it: `None`, the float NaN of an
      empty CSV field, or a text. */
  datatype Cell = Null | NaN | Str(text: string)

  /** The test `not series == None and str(series) != 'nan'`: the float NaN
      and the text "nan" both print as `nan`. */
  predicate Present(c: Cell) {
    c.Str? && c.text != "nan"
  }

  /** The heading word the scraped descriptions start with: nine characters. */
  const Heading: string := "DESCRI\U{C7}\U{C3}O"

  /** One cell of `CleanHeaders`: a present text loses a leading heading word
      (`find` returns 0 exactly when the text starts with it); any other
      cell becomes `None`. */
  function CleanHeader(c: Cell): (r: Cell)
    ensures r.Null? <==> !Present(c)
    ensures Present(c) ==> r.Str?
    ensures Present(c) && StartsWith(c.text, Heading) ==> Heading + r.text == c.text
    ensures Present(c) && !StartsWith(c.text, Heading) ==> r == c
  {
    if !Present(c) then Null
    else if StartsWith(c.text, Heading) then
      assert c.text == c.text[..9] + c.text[9..];
      Str(c.text[9..])
    else c
  }

  /** Stripping undoes prefixing the heading word. */
  lemma CleanHeaderOfHeaded(t: string)
    ensures CleanHeader(Str(Heading + t)) == Str(t)
  {
    assert StartsWith(Heading + t, Heading);
    assert (Heading + t)[9..] == t;
  }

  // The characters of Python's `string.punctuation`.
  predicate IsPunctuation(ch: char) {
    ('!' <= ch <= '/') || (':' <= ch <= '@') || ('[' <= ch <= '`') || ('{' <= ch <= '~')
  }

  /** The keys of `table_punct`: punctuation except `$` and `%`, the six ASCII
      white-space characters and the en dash. */
  predicate Blanked(ch: char) {
    || (IsPunctuation(ch) && ch != '$' && ch != '%')
    || ch == ' ' || ('\t' <= ch <= '\r')
    || ch == '\U{2013}'
  }

  /** `s.translate(table_punct)`: every key of the table becomes a space. */
  function Translate(s: string): (r: string)
    ensures |r| == |s|
    ensures forall i :: 0 <= i < |s| ==> r[i] == if Blanked(s[i]) then ' ' else s[i]
  {
    if s == [] then [] else [if Blanked(s[0]) then ' ' else s[0]] + Translate(s[1..])
  }

  /** `' '.join(s.lower().translate(table_punct).split())`. */
  function CleanText(s: string): (r: string)
    ensures SingleSpaced(r)
    ensures forall i :: 0 <= i < |r| ==> !IsUpper(r[i])
    ensures forall i :: 0 <= i < |r| ==> r[i] == ' ' || !Blanked(r[i])
  {
    var t := Translate(Lower(s));
    var words := Words(t);
    JoinWordsSingleSpaced(words);
    var r := Join(words, " ");
    forall i | 0 <= i < |r| ensures r[i] == ' ' || (!IsUpper(r[i]) && !Blanked(r[i])) {
      if r[i] != ' ' {
        assert r[i] in r;
        var w :| 0 <= w < |words| && r[i] in words[w];
        var j :| 0 <= j < |words[w]| && words[w][j] == r[i];
        assert !IsSpace(words[w][j]);
        assert r[i] in t;
        var k :| 0 <= k < |t| && t[k] == r[i];
      }
    }
    r
  }

  /** Cleaning a text that is already clean changes nothing. */
  lemma CleanTextIdempotent(s: string)
    ensures CleanText(CleanText(s)) == CleanText(s)
  {
    var c := CleanText(s);
    var words := Words(Translate(Lower(s)));
    assert c == Join(words, " ");
    assert Lower(c) == c;
    assert Translate(c) == c;
    WordsOfJoin(words);
  }

  /** The text left is made of the words of the original once punctuation is
      blanked: `CleanText` joins those words with single spaces. */
  lemma CleanTextWords(s: string)
    ensures Words(CleanText(s)) == Words(Translate(Lower(s)))
  {
    WordsOfJoin(Words(Translate(Lower(s))));
  }

  /** One cell of `CleanPunct`. */
  function CleanPunctCell(c: Cell): (r: Cell)
    ensures r.Null? <==> !Present(c)
    ensures r.Str? ==> CleanText(r.text) == r.text
  {
    if Present(c) then
      CleanTextIdempotent(c.text);
      Str(CleanText(c.text))
    else Null
  }

  /** Running `CleanPunct` twice equals running it once, except that a cell
      cleaned to the text "nan" is read as missing the second time. */
  lemma CleanPunctCellTwice(c: Cell)
    ensures CleanPunctCell(CleanPunctCell(c)) ==
      if CleanPunctCell(c) == Str("nan") then Null else CleanPunctCell(c)
  {
    if Present(c) {
      CleanTextIdempotent(c.text);
    }
  }

  /** `CleanHeaders.transform`: builds the cleaned column, then stores it over
      the column in place. */
  method CleanHeaders(column: array<Cell>)
    modifies column
    ensures forall i :: 0 <= i < column.Length ==> column[i] == CleanHeader(old(column[i]))
  {
    var allRows := column[..];
    var changed := new Cell[column.Length](_ => Null);
    for row := 0 to column.Length
      invariant forall i :: 0 <= i < row ==> changed[i] == CleanHeader(old(column[i]))
      invariant forall i :: row <= i < column.Length ==> changed[i] == Null
    {
      var series := allRows[row];
      if series != Null && !(series.NaN? || series.text == "nan") {
        if StartsWith(series.text, Heading) {
          changed[row] := Str(series.text[9..]);
        } else {
          changed[row] := series;
        }
      }
    }
    forall i | 0 <= i < column.Length {
      column[i] := changed[i];
    }
  }

  /** `CleanPunct.transform`. */
  method CleanPunct(column: array<Cell>)
    modifies column
    ensures forall i :: 0 <= i < column.Length ==> column[i] == CleanPunctCell(old(column[i]))
  {
    var allRows := column[..];
    var changed := new Cell[column.Length](_ => Null);
    for row := 0 to column.Length
      invariant forall i :: 0 <= i < row ==> changed[i] == CleanPunctCell(allRows[i])
      invariant forall i :: row <= i < column.Length ==> changed[i] == Null
    {
      CleanPunctRow(changed, row, allRows[row]);
    }
    forall i | 0 <= i < column.Length {
      column[i] := changed[i];
    }
  }

  /** The body of `CleanPunct`'s loop for one row. */
  method CleanPunctRow(changed: array<Cell>, row: nat, series: Cell)
    requires row < changed.Length && changed[row] == Null
    modifies changed
    ensures changed[row] == CleanPunctCell(series)
    ensures forall i :: 0 <= i < changed.Length && i != row ==> changed[i] == old(changed[i])
  {
    if series != Null && !(series.NaN? || series.text == "nan") {
      var cleanDoc := CleanText(series.text);
      changed[row] := Str(cleanDoc);
    }
  }

  // ---------------------------------------------------------------------------
  // Foundation dates
  // ---------------------------------------------------------------------------

  /** A cell of the foundation-date column: pandas' "not a time", `None`, or a date. */
  datatype DateCell = NaT | Unset | Date(at: Stamp)

  predicate StampLe(a: Stamp, b: Stamp) {
    !StampGt(a, b)
  }

  /** The first element of `sorted(ds)`: the earliest stamp. */
  function Earliest(ds: seq<Stamp>): (e: Stamp)
    requires ds != []
    ensures e in ds
    ensures forall i :: 0 <= i < |ds| ==> StampLe(e, ds[i])
  {
    if |ds| == 1 then ds[0]
    else
      var e := Earliest(ds[1..]);
      assert forall i :: 1 <= i < |ds| ==> ds[i] == ds[1..][i - 1];
      if StampLe(ds[0], e) then ds[0] else e
  }

  /** Exactly one stamp of a list is no later than all of them, so the head of
      Python's ascending sort is `Earliest`. */
  lemma EarliestIsUnique(ds: seq<Stamp>, m: Stamp)
    requires m in ds && forall i :: 0 <= i < |ds| ==> StampLe(m, ds[i])
    ensures m == Earliest(ds)
  {
    var e := Earliest(ds);
    assert StampLe(m, e);
    var k :| 0 <= k < |ds| && ds[k] == m;
    assert StampLe(e, ds[k]);
  }

  /** One cell of `InputDate`: "not a time" takes the earliest date of the
      reference series, or `None` when there is no reference series; indexing
      the sorted dates of an empty series raises `IndexError`. Every other
      cell is kept. */
  function FilledDate(c: DateCell, reference: Option<seq<Stamp>>): (r: Result<DateCell>)
    ensures c != NaT ==> r == Success(c)
    ensures c == NaT && reference.None? ==> r == Success(Unset)
    ensures c == NaT && reference.Some? ==> (r.Failure? <==> reference.value == [])
    ensures r.Failure? ==> r.exception == IndexError
    ensures c == NaT && r.Success? && reference.Some? ==>
      r.value.Date? && r.value.at in reference.value &&
      forall i :: 0 <= i < |reference.value| ==> StampLe(r.value.at, reference.value[i])
  {
    if c != NaT then Success(c)
    else if reference.None? then Success(Unset)
    else if reference.value == [] then Failure(IndexError)
    else Success(Date(Earliest(reference.value)))
  }

  /** `InputDate.transform`: fills the date column in place, row by row. An
      `IndexError` at row k leaves rows k and later as they were. */
  method InputDate(column: array<DateCell>, references: seq<Option<seq<Stamp>>>) returns (failedAt: Option<nat>)
    requires column.Length == |references|
    modifies column
    ensures failedAt.None? ==> forall i :: 0 <= i < column.Length ==>
      FilledDate(old(column[i]), references[i]) == Success(column[i])
    ensures failedAt.Some? ==>
      && failedAt.value < column.Length
      && FilledDate(old(column[failedAt.value]), references[failedAt.value]) == Failure(IndexError)
      && (forall i :: 0 <= i < failedAt.value ==> FilledDate(old(column[i]), references[i]) == Success(column[i]))
      && (forall i :: failedAt.value <= i < column.Length ==> column[i] == old(column[i]))
  {
    for row := 0 to column.Length
      invariant forall i :: 0 <= i < row ==> FilledDate(old(column[i]), references[i]) == Success(column[i])
      invariant forall i :: row <= i < column.Length ==> column[i] == old(column[i])
    {
      if column[row] == NaT {
        var refSeries := references[row];
        if refSeries.None? {
          column[row] := Unset;
        } else {
          if refSeries.value == [] {
            return Some(row);
          }
          column[row] := Date(Earliest(refSeries.value));
        }
      }
    }
    return None;
  }

  // ---------------------------------------------------------------------------
  // Categories
  // ---------------------------------------------------------------------------

  /** The registry where the encoders record, per group, the categories they saw. */
  class CategoryManager {
    var categories: map<string, seq<string>>

    constructor ()
      ensures categories == map[]
    {
      categories := map[];
    }

    /** Records `cats` under `groupName`, replacing what the group held. */
    method AddCategory(groupName: string, cats: seq<string>)
      modifies this
      ensures groupName in categories && categories[groupName] == cats
      ensures forall g :: g != groupName ==> (g in categories <==> g in old(categories))
      ensures forall g :: g != groupName && g in categories ==> categories[g] == old(categories)[g]
    {
      categories := categories[groupName := cats];
    }
  }
}
