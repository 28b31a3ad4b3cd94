/** The status scraper (custom_components/termo_bucuresti/sensor.py): every page element that
    mentions the configured street or thermal point is read either as a table (rows of cells,
    the first cell a header and the second a value) or as text lines of the form
    `header: value`; an ordered keyword cascade maps each header to at most one of five fields.
    A page element is given as its tag name, its text and the texts of the cells of its rows. */
module Status {
  import opened Text

  const Unknown: string := "Necunoscut"
  const NotAvailable: string := "N/A"
  const Stopped: string := "Oprită"
  const Running: string := "Funcționează"

  const StopWords: seq<string> := ["oprit", "stop", "întrerupt", "intrerupt", "suspendat", "avarie"]
  const RunningWords: seq<string> := ["funcțiune", "funcţiune", "funcțiune", "activ", "normal", "funcționează"]

  // ---------------------------------------------------------------- _parse_status

  /** `_parse_status`: empty text is unknown; a stop keyword wins over a running keyword; any
      other text is kept as it is. */
  function ParseStatus(text: string): (r: string)
    ensures r == Unknown || r == Stopped || r == Running || r == text
    ensures text == [] ==> r == Unknown
    ensures text != [] && ContainsAny(Lower(text), StopWords) ==> r == Stopped
    ensures text != [] && !ContainsAny(Lower(text), StopWords) && ContainsAny(Lower(text), RunningWords) ==> r == Running
    ensures text != [] && !ContainsAny(Lower(text), StopWords) && !ContainsAny(Lower(text), RunningWords) ==> r == text
  {
    if text == [] then Unknown
    else
      var lower := Lower(text);
      if ContainsAny(lower, StopWords) then Stopped
      else if ContainsAny(lower, RunningWords) then Running
      else text
  }

  /** A word one of whose characters does not occur in `s` does not occur in `s`. */
  lemma AbsentChar(s: string, w: string, j: nat)
    requires j < |w| && w[j] !in s
    ensures !Contains(s, w)
  {
    forall i | 0 <= i <= |s| - |w|
      ensures !OccursAt(w, s, i)
    {
      assert s[i..i + |w|][j] == s[i + j];
      assert s[i + j] in s;
    }
  }

  lemma LowerOfStopped()
    ensures Lower(Stopped) == "oprită"
  {
  }

  lemma LowerOfRunning()
    ensures Lower(Running) == "funcționează"
  {
  }

  lemma LowerOfUnknown()
    ensures Lower(Unknown) == "necunoscut"
  {
  }

  /** "oprită" holds the stop word "oprit". */
  lemma StoppedIsStop()
    ensures ContainsAny(Lower(Stopped), StopWords)
  {
    LowerOfStopped();
    assert OccursAt(StopWords[0], "oprită", 0);
  }

  /** "funcționează" holds no stop word. */
  lemma RunningIsNotStop()
    ensures !ContainsAny(Lower(Running), StopWords)
  {
    LowerOfRunning();
    var l := "funcționează";
    AbsentChar(l, StopWords[0], 1);
    AbsentChar(l, StopWords[1], 0);
    AbsentChar(l, StopWords[2], 0);
    AbsentChar(l, StopWords[3], 7);
    AbsentChar(l, StopWords[4], 0);
    AbsentChar(l, StopWords[5], 1);
  }

  /** "funcționează" is itself a running word. */
  lemma RunningIsRunning()
    ensures ContainsAny(Lower(Running), RunningWords)
  {
    LowerOfRunning();
    assert OccursAt(RunningWords[5], "funcționează", 0);
  }

  /** "necunoscut" holds no stop word. */
  lemma UnknownIsNotStop()
    ensures !ContainsAny(Lower(Unknown), StopWords)
  {
    LowerOfUnknown();
    var l := "necunoscut";
    AbsentChar(l, StopWords[0], 1);
    AbsentChar(l, StopWords[1], 3);
    AbsentChar(l, StopWords[2], 0);
    AbsentChar(l, StopWords[3], 0);
    AbsentChar(l, StopWords[4], 3);
    AbsentChar(l, StopWords[5], 0);
  }

  /** "necunoscut" holds no running word. */
  lemma UnknownIsNotRunning()
    ensures !ContainsAny(Lower(Unknown), RunningWords)
  {
    LowerOfUnknown();
    var l := "necunoscut";
    AbsentChar(l, RunningWords[0], 4);
    AbsentChar(l, RunningWords[1], 4);
    AbsentChar(l, RunningWords[2], 4);
    AbsentChar(l, RunningWords[3], 0);
    AbsentChar(l, RunningWords[4], 2);
    AbsentChar(l, RunningWords[5], 4);
  }

  /** Normalising a normalised status changes nothing. */
  lemma ParseStatusIdempotent(text: string)
    ensures ParseStatus(ParseStatus(text)) == ParseStatus(text)
  {
    StoppedIsStop();
    RunningIsNotStop();
    RunningIsRunning();
    UnknownIsNotStop();
    UnknownIsNotRunning();
  }

  // ---------------------------------------------------------------- the five fields

  datatype Field = HotWaterState | HeatingState | Cause | Description | EstimateDate

  /** The key of each field in `data`. */
  function Key(f: Field): string {
    match f
    case HotWaterState => "stare_apa_calda"
    case HeatingState => "stare_caldura"
    case Cause => "cauza"
    case Description => "descriere"
    case EstimateDate => "data_estimare"
  }

  const FieldKeys: set<string> := {"stare_apa_calda", "stare_caldura", "cauza", "descriere", "data_estimare"}

  /** The record `_parse_html` starts from. */
  const Defaults: map<string, string> :=
    map["stare_apa_calda" := Unknown, "stare_caldura" := Unknown, "cauza" := NotAvailable,
        "descriere" := NotAvailable, "data_estimare" := NotAvailable]

  predicate IsStateField(f: Field) {
    f == HotWaterState || f == HeatingState
  }

  /** The value stored for a field: the two status fields are normalised, the others kept. */
  function Assign(f: Field, value: string): string {
    if IsStateField(f) then ParseStatus(value) else value
  }

  /** One step of a keyword cascade: the field a header selects when it contains a word. */
  datatype Rule = Rule(field: Field, words: seq<string>)

  /** The cascade for table rows. */
  const TableCascade: seq<Rule> := [
    Rule(HotWaterState, ["apă caldă", "apa calda", "apa", "calda"]),
    Rule(HeatingState, ["căldură", "caldura", "caldura", "încălzire"]),
    Rule(Cause, ["cauză", "cauza", "motiv", "cauze"]),
    Rule(Description, ["descriere", "detalii", "explicație"]),
    Rule(EstimateDate, ["data", "estimare", "programare", "reparatie"])]

  /** The cascade for `header: value` lines. */
  const LineCascade: seq<Rule> := [
    Rule(HotWaterState, ["apă caldă", "apa calda"]),
    Rule(HeatingState, ["căldură", "caldura"]),
    Rule(Cause, ["cauză", "cauza"]),
    Rule(Description, ["descriere"]),
    Rule(EstimateDate, ["data", "estimare"])]

  /** The `if … elif …` chain: the field of the first rule one of whose words is in the header,
      and none when no rule applies (see `ClassifySpec`). */
  function Classify(cascade: seq<Rule>, header: string): (r: Option<Field>)
    ensures r.Some? ==> r.value in FieldsOf(cascade)
  {
    if cascade == [] then None
    else if ContainsAny(header, cascade[0].words) then Some(cascade[0].field)
    else Classify(cascade[1..], header)
  }

  /** The fields a cascade can select. */
  function FieldsOf(cascade: seq<Rule>): set<Field> {
    set i | 0 <= i < |cascade| :: cascade[i].field
  }

  /** `Classify` picks the first rule that applies: no field exactly when no rule applies, and
      otherwise the field of a rule that applies and comes after only rules that do not. */
  lemma {:induction false} ClassifySpec(cascade: seq<Rule>, header: string)
    ensures Classify(cascade, header).None? <==> forall i :: 0 <= i < |cascade| ==> !ContainsAny(header, cascade[i].words)
    ensures Classify(cascade, header).Some? ==>
      exists i :: 0 <= i < |cascade| && cascade[i].field == Classify(cascade, header).value
                  && ContainsAny(header, cascade[i].words)
                  && forall j :: 0 <= j < i ==> !ContainsAny(header, cascade[j].words)
  {
    if cascade != [] && !ContainsAny(header, cascade[0].words) {
      ClassifySpec(cascade[1..], header);
      assert forall i :: 1 <= i < |cascade| ==> cascade[i] == cascade[1..][i - 1];
      if Classify(cascade, header).Some? {
        var i :| 0 <= i < |cascade[1..]| && cascade[1..][i].field == Classify(cascade, header).value
                  && ContainsAny(header, cascade[1..][i].words)
                  && forall j :: 0 <= j < i ==> !ContainsAny(header, cascade[1..][j].words);
        assert cascade[i + 1] == cascade[1..][i];
      }
    }
  }

  /** In both cascades the hot-water rule comes first: a header that names hot water selects it
      whatever else it names (so "apă caldă şi căldură" is a hot-water header). */
  lemma HotWaterFirst(header: string)
    ensures ContainsAny(header, TableCascade[0].words) ==> Classify(TableCascade, header) == Some(HotWaterState)
    ensures ContainsAny(header, LineCascade[0].words) ==> Classify(LineCascade, header) == Some(HotWaterState)
  {
  }

  /** The update one header/value pair makes: only the field the header selects changes, and it
      gets the (normalised) value whatever it held before; a header that selects nothing changes
      nothing. */
  function ApplyEntry(data: map<string, string>, cascade: seq<Rule>, header: string, value: string): (r: map<string, string>)
    ensures data.Keys <= r.Keys <= data.Keys + FieldKeys
    ensures Classify(cascade, header).None? ==> r == data
    ensures Classify(cascade, header).Some? ==>
      var f := Classify(cascade, header).value;
      r.Keys == data.Keys + {Key(f)} && r[Key(f)] == Assign(f, value)
      && forall k :: k in data && k != Key(f) ==> r[k] == data[k]
  {
    match Classify(cascade, header)
    case Some(f) => data[Key(f) := Assign(f, value)]
    case None => data
  }

  // ---------------------------------------------------------------- rows and lines

  /** A table row: rows with fewer than two cells are skipped; otherwise the trimmed lower-case
      first cell is the header and the trimmed second cell the value. */
  function ApplyRow(data: map<string, string>, cells: seq<string>): (r: map<string, string>)
    ensures data.Keys <= r.Keys <= data.Keys + FieldKeys
  {
    if |cells| >= 2 then ApplyEntry(data, TableCascade, Lower(Strip(cells[0])), Strip(cells[1]))
    else data
  }

  /** Only the first two cells of a row are read, and a shorter row changes nothing. */
  lemma RowReadsTwoCells(data: map<string, string>, cells: seq<string>)
    ensures |cells| < 2 ==> ApplyRow(data, cells) == data
    ensures |cells| >= 2 ==> ApplyRow(data, cells) == ApplyRow(data, cells[..2])
  {
    if |cells| >= 2 {
      assert cells[..2][0] == cells[0] && cells[..2][1] == cells[1];
    }
  }

  /** The rows of a table in order, defined on prefixes. */
  function ApplyRows(data: map<string, string>, rows: seq<seq<string>>): (r: map<string, string>)
    ensures data.Keys <= r.Keys <= data.Keys + FieldKeys
  {
    if rows == [] then data
    else ApplyRow(ApplyRows(data, rows[..|rows| - 1]), rows[|rows| - 1])
  }

  lemma ApplyRowsStep(data: map<string, string>, rows: seq<seq<string>>, j: nat)
    requires j < |rows|
    ensures ApplyRows(data, rows[..j + 1]) == ApplyRow(ApplyRows(data, rows[..j]), rows[j])
  {
    assert rows[..j + 1][..j] == rows[..j];
  }

  /** Stripping never adds a ':'. */
  lemma StripKeepsNoColon(s: string)
    ensures ':' in Strip(s) ==> ':' in s
  {
    var r := Strip(s);
    var i := StripStart(s);
    if ':' in r {
      var p :| 0 <= p < |r| && r[p] == ':';
      assert s[i..i + |r|][p] == ':';
      assert s[i + p] == ':';
    }
  }

  /** `l.split(':', 1)` for a text holding a ':': the text before the first ':' and the text
      after it, which may hold further ':'. */
  function SplitAtFirstColon(l: string): (r: Option<(string, string)>)
    ensures r.None? <==> ':' !in l
    ensures r.Some? ==> l == r.value.0 + [':'] + r.value.1 && ':' !in r.value.0
  {
    match IndexOf(l, ':', 0)
    case None => assert l[0..] == l; None
    case Some(i) =>
      assert l[0..i] == l[..i];
      assert l == l[..i] + [':'] + l[i + 1..];
      Some((l[..i], l[i + 1..]))
  }

  /** A `header: value` line: a stripped line holding a ':' is cut at its first ':'; the header
      is the trimmed lower-case text before it, the value the trimmed text after it. */
  function ApplyLine(data: map<string, string>, line: string): (r: map<string, string>)
    ensures data.Keys <= r.Keys <= data.Keys + FieldKeys
  {
    var l := Strip(line);
    if ':' in l then
      var (before, after) := SplitAtFirstColon(l).value;
      ApplyEntry(data, LineCascade, Lower(Strip(before)), Strip(after))
    else data
  }

  /** A line without ':' changes nothing. */
  lemma LineWithoutColonIgnored(data: map<string, string>, line: string)
    requires ':' !in line
    ensures ApplyLine(data, line) == data
  {
    StripKeepsNoColon(line);
  }

  /** The header of a line holds no ':'. */
  lemma LineHeaderHasNoColon(line: string)
    requires ':' in Strip(line)
    ensures ':' !in Lower(Strip(SplitAtFirstColon(Strip(line)).value.0))
  {
    var before := SplitAtFirstColon(Strip(line)).value.0;
    StripKeepsNoColon(before);
    LowerKeepsSymbol(Strip(before), ':');
  }

  lemma ValueIsSuffix(l: string, before: string, after: string)
    requires l == before + [':'] + after
    ensures Contains(l, after)
  {
    assert OccursAt(after, l, |before| + 1);
  }

  /** The value of a line is a substring of the line. */
  lemma LineValueContained(line: string)
    requires ':' in Strip(line)
    ensures Contains(line, Strip(SplitAtFirstColon(Strip(line)).value.1))
  {
    var l := Strip(line);
    var (before, after) := SplitAtFirstColon(l).value;
    StripContained(line);
    ValueIsSuffix(l, before, after);
    StripContained(after);
    ContainsChain(line, l, after, Strip(after));
  }

  /** The lines of a text in order, defined on prefixes. */
  function ApplyLines(data: map<string, string>, lines: seq<string>): (r: map<string, string>)
    ensures data.Keys <= r.Keys <= data.Keys + FieldKeys
  {
    if lines == [] then data
    else ApplyLine(ApplyLines(data, lines[..|lines| - 1]), lines[|lines| - 1])
  }

  lemma ApplyLinesStep(data: map<string, string>, lines: seq<string>, j: nat)
    requires j < |lines|
    ensures ApplyLines(data, lines[..j + 1]) == ApplyLine(ApplyLines(data, lines[..j]), lines[j])
  {
    assert lines[..j + 1][..j] == lines[..j];
  }

  // ---------------------------------------------------------------- elements

  /** A page element: its tag name, its text, and the cell texts of its rows. */
  datatype Element = Element(name: string, text: string, rows: seq<seq<string>>)

  /** The element's lower-case text names the lower-case street or thermal point. */
  predicate MentionsPlace(street: string, punctTermic: string, e: Element) {
    Contains(Lower(e.text), Lower(street)) || Contains(Lower(e.text), Lower(punctTermic))
  }

  /** One element: ignored unless it mentions the place; a table is read row by row, any
      other element line by line. */
  function ApplyElement(data: map<string, string>, street: string, punctTermic: string, e: Element): (r: map<string, string>)
    ensures !MentionsPlace(street, punctTermic, e) ==> r == data
    ensures data.Keys <= r.Keys <= data.Keys + FieldKeys
  {
    if !MentionsPlace(street, punctTermic, e) then data
    else if e.name == "table" then ApplyRows(data, e.rows)
    else ApplyLines(data, Split(Newline, e.text))
  }

  /** The elements in order, defined on prefixes. */
  function ApplyElements(data: map<string, string>, street: string, punctTermic: string, es: seq<Element>): (r: map<string, string>)
    ensures data.Keys <= r.Keys <= data.Keys + FieldKeys
  {
    if es == [] then data
    else ApplyElement(ApplyElements(data, street, punctTermic, es[..|es| - 1]), street, punctTermic, es[|es| - 1])
  }

  lemma ApplyElementsStep(data: map<string, string>, street: string, punctTermic: string, es: seq<Element>, i: nat)
    requires i < |es|
    ensures ApplyElements(data, street, punctTermic, es[..i + 1])
         == ApplyElement(ApplyElements(data, street, punctTermic, es[..i]), street, punctTermic, es[i])
  {
    assert es[..i + 1][..i] == es[..i];
  }

  /** The record `_parse_html` leaves behind: the defaults, updated by the tables and then by
      the divs. It has exactly the five keys. */
  function ParsedData(street: string, punctTermic: string, tables: seq<Element>, divs: seq<Element>): (r: map<string, string>)
    ensures r.Keys == FieldKeys
  {
    ApplyElements(Defaults, street, punctTermic, tables + divs)
  }

  /** Scanning two runs of elements one after the other is scanning their concatenation. */
  lemma {:induction false} ApplyElementsAppend(data: map<string, string>, street: string, punctTermic: string,
                                               xs: seq<Element>, ys: seq<Element>)
    ensures ApplyElements(data, street, punctTermic, xs + ys)
         == ApplyElements(ApplyElements(data, street, punctTermic, xs), street, punctTermic, ys)
    decreases |ys|
  {
    if ys == [] {
      assert xs + ys == xs;
    } else {
      var ys' := ys[..|ys| - 1];
      ApplyElementsAppend(data, street, punctTermic, xs, ys');
      assert (xs + ys)[..|xs + ys| - 1] == xs + ys';
      assert (xs + ys)[|xs + ys| - 1] == ys[|ys| - 1];
    }
  }

  /** An element that mentions neither the street nor the thermal point can be dropped from the
      page without changing the result. */
  lemma IrrelevantElementIgnored(data: map<string, string>, street: string, punctTermic: string,
                                 xs: seq<Element>, e: Element, ys: seq<Element>)
    requires !MentionsPlace(street, punctTermic, e)
    ensures ApplyElements(data, street, punctTermic, xs + [e] + ys) == ApplyElements(data, street, punctTermic, xs + ys)
  {
    ApplyElementsAppend(data, street, punctTermic, xs + [e], ys);
    ApplyElementsAppend(data, street, punctTermic, xs, [e]);
    ApplyElementsAppend(data, street, punctTermic, xs, ys);
    assert [e][..0] == [];
  }

  /** A page on which no element mentions the street or the thermal point leaves every field at
      its default. */
  lemma {:induction false} NothingRelevantKeepsDefaults(street: string, punctTermic: string, es: seq<Element>)
    requires forall k :: 0 <= k < |es| ==> !MentionsPlace(street, punctTermic, es[k])
    ensures ApplyElements(Defaults, street, punctTermic, es) == Defaults
  {
    if es != [] {
      NothingRelevantKeepsDefaults(street, punctTermic, es[..|es| - 1]);
    }
  }

  // ---------------------------------------------------------------- where values come from

  /** `v` occurs in the text of one of the elements, or in the second cell of one of their
      rows. */
  predicate Sourced(v: string, es: seq<Element>) {
    exists k :: 0 <= k < |es| && (Contains(es[k].text, v)
      || exists j :: 0 <= j < |es[k].rows| && |es[k].rows[j]| >= 2 && Contains(es[k].rows[j][1], v))
  }

  /** A status field holds a default, a normalised status or text from the page; every other
      field holds its default or text from the page. */
  predicate Plausible(data: map<string, string>, es: seq<Element>) {
    forall key :: key in data ==>
      if key == "stare_apa_calda" || key == "stare_caldura" then
        data[key] == Unknown || data[key] == Stopped || data[key] == Running || Sourced(data[key], es)
      else
        data[key] == NotAvailable || Sourced(data[key], es)
  }

  lemma ApplyEntryPlausible(data: map<string, string>, cascade: seq<Rule>, header: string, value: string, es: seq<Element>)
    requires Plausible(data, es) && Sourced(value, es)
    ensures Plausible(ApplyEntry(data, cascade, header, value), es)
  {
  }

  lemma {:induction false} ApplyRowsPlausible(data: map<string, string>, es: seq<Element>, k: nat, m: nat)
    requires k < |es| && m <= |es[k].rows| && Plausible(data, es)
    ensures Plausible(ApplyRows(data, es[k].rows[..m]), es)
  {
    if m > 0 {
      var rows := es[k].rows[..m];
      assert rows[..m - 1] == es[k].rows[..m - 1];
      ApplyRowsPlausible(data, es, k, m - 1);
      var cells := es[k].rows[m - 1];
      assert rows[m - 1] == cells;
      if |cells| >= 2 {
        StripContained(cells[1]);
        assert Sourced(Strip(cells[1]), es);
        ApplyEntryPlausible(ApplyRows(data, es[k].rows[..m - 1]), TableCascade, Lower(Strip(cells[0])), Strip(cells[1]), es);
      }
    }
  }

  /** A line of an element's text stores only text taken from that element. */
  lemma ApplyLinePlausible(data: map<string, string>, es: seq<Element>, k: nat, line: string)
    requires k < |es| && Contains(es[k].text, line) && Plausible(data, es)
    ensures Plausible(ApplyLine(data, line), es)
  {
    if ':' in Strip(line) {
      var (before, after) := SplitAtFirstColon(Strip(line)).value;
      LineValueContained(line);
      ContainsTransitive(es[k].text, line, Strip(after));
      assert Sourced(Strip(after), es);
      ApplyEntryPlausible(data, LineCascade, Lower(Strip(before)), Strip(after), es);
    }
  }

  lemma {:induction false} ApplyLinesPlausible(data: map<string, string>, es: seq<Element>, k: nat, m: nat)
    requires k < |es| && m <= |Split(Newline, es[k].text)| && Plausible(data, es)
    ensures Plausible(ApplyLines(data, Split(Newline, es[k].text)[..m]), es)
  {
    if m > 0 {
      var all := Split(Newline, es[k].text);
      ApplyLinesPlausible(data, es, k, m - 1);
      ApplyLinesStep(data, all, m - 1);
      SplitPiecesContained(Newline, es[k].text);
      assert Contains(es[k].text, all[m - 1]);
      ApplyLinePlausible(ApplyLines(data, all[..m - 1]), es, k, all[m - 1]);
    }
  }

  lemma {:induction false} ApplyElementsPlausible(data: map<string, string>, street: string, punctTermic: string,
                                                  es: seq<Element>, n: nat)
    requires n <= |es| && Plausible(data, es)
    ensures Plausible(ApplyElements(data, street, punctTermic, es[..n]), es)
  {
    if n > 0 {
      assert es[..n][..n - 1] == es[..n - 1];
      ApplyElementsPlausible(data, street, punctTermic, es, n - 1);
      var before := ApplyElements(data, street, punctTermic, es[..n - 1]);
      var e := es[n - 1];
      assert es[..n][n - 1] == e;
      if MentionsPlace(street, punctTermic, e) {
        if e.name == "table" {
          ApplyRowsPlausible(before, es, n - 1, |e.rows|);
          assert e.rows[..|e.rows|] == e.rows;
        } else {
          ApplyLinesPlausible(before, es, n - 1, |Split(Newline, e.text)|);
          assert Split(Newline, e.text)[..|Split(Newline, e.text)|] == Split(Newline, e.text);
        }
      }
    }
  }

  /** Every stored value is a default, one of the two normalised statuses (status fields only)
      or a piece of text taken from the page. */
  lemma ParsedDataPlausible(street: string, punctTermic: string, tables: seq<Element>, divs: seq<Element>)
    ensures Plausible(ParsedData(street, punctTermic, tables, divs), tables + divs)
  {
    var es := tables + divs;
    ApplyElementsPlausible(Defaults, street, punctTermic, es, |es|);
    assert es[..|es|] == es;
  }

  // ---------------------------------------------------------------- the entities

  /** `CMTEBData`: the shared record the status sensors read. */
  class CMTEBData {
    const street: string
    const punctTermic: string
    var data: map<string, string>

    constructor (street: string, punctTermic: string)
      ensures this.street == street && this.punctTermic == punctTermic && data == map[]
    {
      this.street := street;
      this.punctTermic := punctTermic;
      data := map[];
    }

    /** The row loop of `_parse_html` for one table. */
    method ScanRows(rows: seq<seq<string>>)
      modifies this`data
      ensures data == ApplyRows(old(data), rows)
    {
      ghost var before := data;
      for j := 0 to |rows|
        invariant data == ApplyRows(before, rows[..j])
      {
        var cells := rows[j];
        ghost var previous := data;
        if |cells| >= 2 {
          var header := Lower(Strip(cells[0]));
          var value := Strip(cells[1]);
          assert ApplyRow(data, cells) == ApplyEntry(data, TableCascade, header, value);
          match Classify(TableCascade, header)
          case Some(field) => data := data[Key(field) := Assign(field, value)];
          case None =>
        }
        assert data == ApplyRow(previous, cells);
        ApplyRowsStep(before, rows, j);
      }
      assert rows[..|rows|] == rows;
    }

    /** One line of a div: `header: value` lines update the field the header selects. */
    method ScanLine(rawLine: string)
      modifies this`data
      ensures data == ApplyLine(old(data), rawLine)
    {
      var line := Strip(rawLine);
      if ':' in line {
        var parts := SplitAtFirstColon(line);
        var header := Lower(Strip(parts.value.0));
        var value := Strip(parts.value.1);
        assert ApplyLine(data, rawLine) == ApplyEntry(data, LineCascade, header, value);
        match Classify(LineCascade, header)
        case Some(field) => data := data[Key(field) := Assign(field, value)];
        case None =>
      }
    }

    /** The line loop of `_parse_html` for one div. */
    method ScanLines(text: string)
      modifies this`data
      ensures data == ApplyLines(old(data), Split(Newline, text))
    {
      ghost var before := data;
      var lines := Split(Newline, text);
      for j := 0 to |lines|
        invariant data == ApplyLines(before, lines[..j])
      {
        ScanLine(lines[j]);
        ApplyLinesStep(before, lines, j);
      }
      assert lines[..|lines|] == lines;
    }

    /** The body of the element loop of `_parse_html`: an element that mentions the street or
        the thermal point is read as a table or as lines. */
    method ScanElement(element: Element)
      modifies this`data
      ensures data == ApplyElement(old(data), street, punctTermic, element)
    {
      var elementText := Lower(element.text);
      if Contains(elementText, Lower(street)) || Contains(elementText, Lower(punctTermic)) {
        if element.name == "table" {
          ScanRows(element.rows);
        } else {
          ScanLines(element.text);
        }
      }
    }

    /** `_parse_html`, given the page's tables and its divs with a class attribute. */
    method ParseHtml(tables: seq<Element>, divs: seq<Element>)
      modifies this`data
      ensures data == ParsedData(street, punctTermic, tables, divs)
    {
      data := Defaults;
      var elements := tables + divs;
      for i := 0 to |elements|
        invariant data == ApplyElements(Defaults, street, punctTermic, elements[..i])
      {
        ScanElement(elements[i]);
        ApplyElementsStep(Defaults, street, punctTermic, elements, i);
      }
      assert elements[..|elements|] == elements;
    }
  }

  /** `CMTEBStatusSensor`: shows one status field of the record, with an icon for its value. */
  class StatusSensor {
    const sensorType: string
    var state: Option<string>

    constructor (sensorType: string)
      ensures this.sensorType == sensorType && state == None
    {
      this.sensorType := sensorType;
      state := None;
    }

    /** The state part of `async_update`, given the record after the shared update. */
    method Refresh(data: map<string, string>)
      modifies this`state
      ensures state == Some(if sensorType in data then data[sensorType] else Unknown)
    {
      state := Some(if sensorType in data then data[sensorType] else Unknown);
    }

    /** The `icon` property. */
    function Icon(): (icon: string)
      reads this
      ensures icon == "mdi:alert-octagram" <==> state == Some(Stopped)
      ensures icon == "mdi:check-circle" <==> state == Some(Running)
      ensures icon == "mdi:help-circle" <==> state != Some(Stopped) && state != Some(Running)
    {
      if state == Some(Stopped) then "mdi:alert-octagram"
      else if state == Some(Running) then "mdi:check-circle"
      else "mdi:help-circle"
    }
  }

  /** For a state obtained by `_parse_status`, the icon tells the text's keywords apart: the alert
      icon exactly for a non-empty text with a stop word, the check icon exactly for one with a
      running word and no stop word. */
  lemma IconOfParsedStatus(s: StatusSensor, text: string)
    requires s.state == Some(ParseStatus(text))
    ensures s.Icon() == "mdi:alert-octagram" <==> text != [] && ContainsAny(Lower(text), StopWords)
    ensures s.Icon() == "mdi:check-circle" <==>
      text != [] && !ContainsAny(Lower(text), StopWords) && ContainsAny(Lower(text), RunningWords)
  {
    StoppedIsStop();
    RunningIsNotStop();
    RunningIsRunning();
  }
}
