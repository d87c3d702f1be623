/**
 * The task page's CSV export (js/pages/tareas.js, `exportToCsv`): a header
 * line made of the first record's keys, joined by commas and not quoted, then
 * one line per record whose fields are the header keys' values, each wrapped
 * in double quotes with inner quotes doubled, all lines joined by CRLF.
 *
 * To state what the quoting achieves, the module also holds a reader for
 * quoted records following rules 5 to 7 of section 2 of RFC 4180 (fields
 * enclosed in double quotes; a double quote inside such a field written as
 * two), and proves that it reads back every value the export wrote.
 */
module TareasCsv {
  import opened JsSemantics
  import opened TareasList

  /**
   * A JavaScript object seen through `Object.keys`: its keys, in enumeration
   * order, each with its value already converted by `String(...)`; `None` is a
   * null or undefined value.
   */
  type Record = seq<(string, Option<string>)>

  const Crlf: string := "\r\n"

  /** `Object.keys(r)`. */
  function Keys(r: Record): (ks: seq<string>)
    ensures |ks| == |r|
    ensures forall i :: 0 <= i < |r| ==> ks[i] == r[i].0
  {
    seq(|r|, i requires 0 <= i < |r| => r[i].0)
  }

  /** `r[key]`: the value stored under the key, or `None` when the key is absent. */
  function Lookup(r: Record, key: string): (v: Option<string>)
    ensures (forall i :: 0 <= i < |r| ==> r[i].0 != key) ==> v.None?
    ensures forall i :: 0 <= i < |r| && r[i].0 == key && (forall j :: 0 <= j < i ==> r[j].0 != key) ==> v == r[i].1
    decreases |r|
  {
    if r == [] then None
    else if r[0].0 == key then r[0].1
    else
      var v := Lookup(r[1..], key);
      assert forall i :: 1 <= i < |r| ==> r[i] == r[1..][i - 1];
      v
  }

  /** `String(r[h] ?? "")`: the text of a field, the empty text for a null, undefined or absent one. */
  function FieldText(r: Record, key: string): string
  {
    match Lookup(r, key)
    case None => ""
    case Some(text) => text
  }

  /** `String(v).replace(/"/g, '""')`. */
  function Escape(v: string): (e: string)
    ensures |e| >= |v|
    decreases |v|
  {
    if v == [] then []
    else (if v[0] == '"' then "\"\"" else [v[0]]) + Escape(v[1..])
  }

  /** One data field: the escaped text between double quotes. */
  function Quote(v: string): string
  {
    "\"" + Escape(v) + "\""
  }

  /** A line of quoted fields separated by commas. */
  function QuotedLine(vs: seq<string>): string
  {
    Join(",", seq(|vs|, j requires 0 <= j < |vs| => Quote(vs[j])))
  }

  /** The field texts of a record under the header keys, in header order. */
  function RowValues(r: Record, header: seq<string>): (vs: seq<string>)
    ensures |vs| == |header|
  {
    seq(|header|, j requires 0 <= j < |header| => FieldText(r, header[j]))
  }

  /** The lines of the export: the unquoted header, then one quoted line per record. */
  function CsvLines(rows: seq<Record>): (lines: seq<string>)
    requires |rows| > 0
    ensures |lines| == |rows| + 1
    ensures lines[0] == Join(",", Keys(rows[0]))
    ensures forall i :: 0 <= i < |rows| ==> lines[i + 1] == QuotedLine(RowValues(rows[i], Keys(rows[0])))
  {
    var header := Keys(rows[0]);
    [Join(",", header)] + seq(|rows|, i requires 0 <= i < |rows| => QuotedLine(RowValues(rows[i], header)))
  }

  /**
   * `exportToCsv(rows)`: `None` (no file, a message instead) when the row list
   * is missing or empty; otherwise the lines joined by CRLF.
   */
  function ExportCsv(rows: Option<seq<Record>>): (csv: Option<string>)
    ensures csv.None? <==> rows.None? || |rows.value| == 0
  {
    if rows.None? || |rows.value| == 0 then None
    else Some(Join(Crlf, CsvLines(rows.value)))
  }

  // ---------------------------------------------------------------------------
  // Reading quoted records back (RFC 4180, section 2, rules 5 to 7)

  /** Reads the inside of a quoted field up to its closing quote; gives the text and what follows. */
  function ParseQuotedBody(s: string): (r: Option<(string, string)>)
    ensures r.Some? ==> |r.value.1| < |s|
    decreases |s|
  {
    if s == [] then None
    else if s[0] == '"' then
      if |s| >= 2 && s[1] == '"' then
        match ParseQuotedBody(s[2..])
        case None => None
        case Some((v, rest)) => Some(("\"" + v, rest))
      else Some(([], s[1..]))
    else
      match ParseQuotedBody(s[1..])
      case None => None
      case Some((v, rest)) => Some(([s[0]] + v, rest))
  }

  /** Reads one quoted field. */
  function ParseField(s: string): (r: Option<(string, string)>)
    ensures r.Some? ==> |r.value.1| < |s|
  {
    if s != [] && s[0] == '"' then ParseQuotedBody(s[1..]) else None
  }

  /** Reads comma-separated quoted fields up to the end of a record. */
  function ParseFields(s: string): (r: Option<(seq<string>, string)>)
    ensures r.Some? ==> |r.value.1| < |s| && |r.value.0| > 0
    decreases |s|
  {
    match ParseField(s)
    case None => None
    case Some((v, rest)) =>
      if rest != [] && rest[0] == ',' then
        match ParseFields(rest[1..])
        case None => None
        case Some((vs, rest')) => Some(([v] + vs, rest'))
      else Some(([v], rest))
  }

  /** Reads CRLF-separated records of quoted fields, up to the end of the text. */
  function ParseRecords(s: string): (r: Option<seq<seq<string>>>)
    decreases |s|
  {
    match ParseFields(s)
    case None => None
    case Some((vs, rest)) =>
      if rest == [] then Some([vs])
      else if |rest| >= 2 && rest[..2] == Crlf then
        match ParseRecords(rest[2..])
        case None => None
        case Some(records) => Some([vs] + records)
      else None
  }

  lemma {:induction false} EscapeRoundTrip(v: string, rest: string)
    requires rest == [] || rest[0] != '"'
    ensures ParseQuotedBody(Escape(v) + "\"" + rest) == Some((v, rest))
    decreases |v|
  {
    var s := Escape(v) + "\"" + rest;
    if v == [] {
      assert s == "\"" + rest;
      assert s[1..] == rest;
    } else {
      EscapeRoundTrip(v[1..], rest);
      var tail := Escape(v[1..]) + "\"" + rest;
      if v[0] == '"' {
        assert s == "\"\"" + tail;
        assert s[2..] == tail;
      } else {
        assert s == [v[0]] + tail;
        assert s[1..] == tail;
      }
      assert v == [v[0]] + v[1..];
    }
  }

  /** A quoted field reads back as its text, as long as no quote follows it. */
  lemma QuoteRoundTrip(v: string, rest: string)
    requires rest == [] || rest[0] != '"'
    ensures ParseField(Quote(v) + rest) == Some((v, rest))
  {
    var s := Quote(v) + rest;
    assert s[1..] == Escape(v) + "\"" + rest;
    EscapeRoundTrip(v, rest);
  }

  lemma {:induction false} QuotedLineRoundTrip(vs: seq<string>, rest: string)
    requires |vs| > 0
    requires rest == [] || (rest[0] != '"' && rest[0] != ',')
    ensures ParseFields(QuotedLine(vs) + rest) == Some((vs, rest))
    decreases |vs|
  {
    var quoted := seq(|vs|, j requires 0 <= j < |vs| => Quote(vs[j]));
    if |vs| == 1 {
      assert QuotedLine(vs) == Quote(vs[0]);
      QuoteRoundTrip(vs[0], rest);
      assert vs == [vs[0]];
    } else {
      assert quoted[1..] == seq(|vs| - 1, j requires 0 <= j < |vs| - 1 => Quote(vs[1..][j]));
      assert QuotedLine(vs) == Quote(vs[0]) + "," + QuotedLine(vs[1..]);
      var after := "," + QuotedLine(vs[1..]) + rest;
      assert QuotedLine(vs) + rest == Quote(vs[0]) + after;
      QuoteRoundTrip(vs[0], after);
      assert after[1..] == QuotedLine(vs[1..]) + rest;
      QuotedLineRoundTrip(vs[1..], rest);
      assert vs == [vs[0]] + vs[1..];
    }
  }

  /** The quoted lines of a table of texts, joined by CRLF. */
  function QuotedTable(table: seq<seq<string>>): string
  {
    Join(Crlf, seq(|table|, i requires 0 <= i < |table| => QuotedLine(table[i])))
  }

  lemma {:induction false} QuotedTableRoundTrip(table: seq<seq<string>>)
    requires |table| > 0
    requires forall i :: 0 <= i < |table| ==> |table[i]| > 0
    ensures ParseRecords(QuotedTable(table)) == Some(table)
    decreases |table|
  {
    var lines := seq(|table|, i requires 0 <= i < |table| => QuotedLine(table[i]));
    if |table| == 1 {
      assert QuotedTable(table) == QuotedLine(table[0]) + "";
      QuotedLineRoundTrip(table[0], "");
      assert table == [table[0]];
    } else {
      assert lines[1..] == seq(|table| - 1, i requires 0 <= i < |table| - 1 => QuotedLine(table[1..][i]));
      var rest := Crlf + QuotedTable(table[1..]);
      assert QuotedTable(table) == QuotedLine(table[0]) + rest;
      QuotedLineRoundTrip(table[0], rest);
      assert rest[..2] == Crlf && rest[2..] == QuotedTable(table[1..]);
      QuotedTableRoundTrip(table[1..]);
      assert table == [table[0]] + table[1..];
    }
  }

  /** The field texts of every record under the first record's keys. */
  function ValueTable(rows: seq<Record>): (table: seq<seq<string>>)
    requires |rows| > 0
    ensures |table| == |rows|
  {
    seq(|rows|, i requires 0 <= i < |rows| => RowValues(rows[i], Keys(rows[0])))
  }

  /**
   * For a non-empty record list whose first record has keys, the export is the
   * header line, CRLF, and text that an RFC 4180 reader reads back as exactly
   * one record per row holding that row's field texts in header order.
   */
  lemma ExportRoundTrip(rows: seq<Record>)
    requires |rows| > 0 && |rows[0]| > 0
    ensures ExportCsv(Some(rows)).Some?
    ensures var csv := ExportCsv(Some(rows)).value;
      var head := Join(",", Keys(rows[0])) + Crlf;
      |head| <= |csv| && csv[..|head|] == head &&
      ParseRecords(csv[|head|..]) == Some(ValueTable(rows))
  {
    var lines := CsvLines(rows);
    var table := ValueTable(rows);
    var csv := Join(Crlf, lines);
    var head := Join(",", Keys(rows[0])) + Crlf;
    assert lines[1..] == seq(|table|, i requires 0 <= i < |table| => QuotedLine(table[i]));
    assert csv == head + QuotedTable(table);
    assert csv[|head|..] == QuotedTable(table);
    QuotedTableRoundTrip(table);
  }

  // ---------------------------------------------------------------------------
  // Exporting the task cache

  const TareaKeys: seq<string> := ["id_tarea", "id_usuario", "descripcion", "fecha_hora_init", "fecha_hora_fin", "estado"]

  /** A task as the record the export sees. */
  function TareaRecord(t: Tarea): (r: Record)
    ensures Keys(r) == TareaKeys
  {
    [("id_tarea", Some(IntToString(t.id_tarea))),
     ("id_usuario", Some(IntToString(t.id_usuario))),
     ("descripcion", Some(t.descripcion)),
     ("fecha_hora_init", Some(t.fecha_hora_init)),
     ("fecha_hora_fin", t.fecha_hora_fin),
     ("estado", Some(t.estado))]
  }

  /** The export button hands the page cache to `exportToCsv`. */
  function ExportTareas(cache: seq<Tarea>): Option<string>
  {
    ExportCsv(Some(seq(|cache|, i requires 0 <= i < |cache| => TareaRecord(cache[i]))))
  }

  /** The texts a task contributes to its CSV line, in header order. */
  function TareaTexts(t: Tarea): seq<string>
  {
    [IntToString(t.id_tarea), IntToString(t.id_usuario), t.descripcion, t.fecha_hora_init,
     if t.fecha_hora_fin.Some? then t.fecha_hora_fin.value else "",
     t.estado]
  }

  lemma TareaRowValues(t: Tarea)
    ensures RowValues(TareaRecord(t), TareaKeys) == TareaTexts(t)
  {
    var r := TareaRecord(t);
    var vs := RowValues(r, TareaKeys);
    assert vs[0] == FieldText(r, "id_tarea");
    assert vs[4] == FieldText(r, "fecha_hora_fin");
  }

  /**
   * Exporting the cache: nothing for an empty cache; otherwise the six task
   * keys as header and, read back, one record per cached task holding its
   * identifier, user, description, start, end (empty when null) and status.
   */
  lemma ExportTareasRoundTrip(cache: seq<Tarea>)
    ensures cache == [] <==> ExportTareas(cache).None?
    ensures cache != [] ==>
      var csv := ExportTareas(cache).value;
      var head := Join(",", TareaKeys) + Crlf;
      |head| <= |csv| && csv[..|head|] == head &&
      ParseRecords(csv[|head|..]) == Some(seq(|cache|, i requires 0 <= i < |cache| => TareaTexts(cache[i])))
  {
    if cache != [] {
      var rows := seq(|cache|, i requires 0 <= i < |cache| => TareaRecord(cache[i]));
      ExportRoundTrip(rows);
      var table := ValueTable(rows);
      assert Keys(rows[0]) == TareaKeys;
      forall i | 0 <= i < |cache| ensures table[i] == TareaTexts(cache[i]) {
        TareaRowValues(cache[i]);
      }
      assert table == seq(|cache|, i requires 0 <= i < |cache| => TareaTexts(cache[i]));
    }
  }
}
