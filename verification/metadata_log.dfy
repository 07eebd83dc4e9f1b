/** The append-only metadata log: one JSON-like line per recording, written
    to the file of the current hour, `yyyy_MM_dd_HH.lson`. The line names the
    recording, lists the active source labels, and carries the location:
    `{"file":"<name>","srcs":[<labels>],"lat":"<lat>","lng":"<lng>"}` and a
    newline. Labels are written between double quotes and joined by commas;
    nothing is escaped. */
module MetadataLog {
  import opened Jvm
  import opened DateFormat

  /** Log files of the data directory: file name to the writes appended to
      it, oldest first. The file's content is their concatenation. */
  type Logs = map<string, seq<string>>

  /** What one log line records. `srcs` is the label set in the order the
      set is iterated; `lat` and `lng` are the location's printed values. */
  datatype Entry = Entry(file: string, srcs: seq<string>, lat: string, lng: string)

  function Quote(s: string): string {
    "\"" + s + "\""
  }

  /** The builder of `csvOf` before its first character is dropped: every
      label contributes a comma and the quoted label. */
  function Prefixed(labels: seq<string>): (r: string)
    ensures labels == [] <==> r == []
    ensures labels != [] ==> |r| >= 3 && r[0] == ',' && r[1] == '"' && r[|r| - 1] == '"'
  {
    if labels == [] then "" else "," + Quote(labels[0]) + Prefixed(labels[1..])
  }

  /** `csvOf`: the quoted labels joined by commas; empty for no labels. */
  function CsvOf(labels: seq<string>): (r: string)
    ensures labels == [] <==> r == ""
    ensures labels != [] ==> r[0] == '"' && r[|r| - 1] == '"'
  {
    var sb := Prefixed(labels);
    if |labels| > 0 then sb[1..] else ""
  }

  /** Reference definition: `parts` separated by `sep`. */
  function Join(parts: seq<string>, sep: string): string {
    if |parts| == 0 then ""
    else if |parts| == 1 then parts[0]
    else parts[0] + sep + Join(parts[1..], sep)
  }

  function QuoteAll(labels: seq<string>): (r: seq<string>)
    ensures |r| == |labels| && forall i :: 0 <= i < |labels| ==> r[i] == Quote(labels[i])
  {
    if labels == [] then [] else [Quote(labels[0])] + QuoteAll(labels[1..])
  }

  /** The text appended for one recording, newline included. */
  function Record(e: Entry): string {
    "{\"file\":\"" + (e.file + ("\",\"srcs\":[" + (CsvOf(e.srcs) + ("],\"lat\":\"" + (e.lat
      + ("\",\"lng\":\"" + (e.lng + "\"}\n")))))))
  }

  /** `getMappingFile`: the name of the current hour's log, created empty if absent. */
  function GetMappingFile(logs: Logs, now: DateTime): (r: (Logs, string))
    ensures r.1 == LogFileName(now) && r.1 in r.0
    ensures r.0[r.1] == if r.1 in logs then logs[r.1] else []
    ensures r.0 - {r.1} == logs - {r.1}
  {
    var name := LogFileName(now);
    (if name in logs then logs else logs[name := []], name)
  }

  /** `addEntry`: appends one record to the log of the hour `now` falls in. */
  function AddEntry(logs: Logs, now: DateTime, e: Entry): (r: Logs)
    ensures LogFileName(now) in r
    ensures r - {LogFileName(now)} == logs - {LogFileName(now)}
    ensures |r[LogFileName(now)]| == |Existing(logs, LogFileName(now))| + 1
    ensures r[LogFileName(now)][..|Existing(logs, LogFileName(now))|] == Existing(logs, LogFileName(now))
    ensures r[LogFileName(now)][|r[LogFileName(now)]| - 1] == Record(e)
  {
    var mapping := GetMappingFile(logs, now);
    mapping.0[mapping.1 := mapping.0[mapping.1] + [Record(e)]]
  }

  /** The writes already in `name`, none if the file does not exist. */
  function Existing(logs: Logs, name: string): seq<string> {
    if name in logs then logs[name] else []
  }

  // ---------------------------------------------------------------------
  // Reading a record back
  // ---------------------------------------------------------------------

  /** Index of the first double quote in `s`, or `|s|` if there is none. */
  function IndexOfQuote(s: string): (j: nat)
    ensures j <= |s| && (j < |s| ==> s[j] == '"')
    ensures forall k :: 0 <= k < j ==> s[k] != '"'
  {
    if s == [] then 0 else if s[0] == '"' then 0 else 1 + IndexOfQuote(s[1..])
  }

  /** The rest of `s` after the literal `lit`, if `s` starts with it. */
  function Literal(lit: string, s: string): (r: Option<string>)
    ensures r.Some? ==> |r.value| <= |s|
  {
    if lit <= s then Some(s[|lit|..]) else None
  }

  /** Text up to the next double quote, and what follows that quote. */
  function QuotedBody(s: string): (r: Option<(string, string)>)
    ensures r.Some? ==> |r.value.1| < |s|
  {
    var j := IndexOfQuote(s);
    if j < |s| then Some((s[..j], s[j + 1..])) else None
  }

  /** Quoted labels up to the closing `]`, and what follows the bracket. */
  function ParseQuotedList(s: string): (r: Option<(seq<string>, string)>)
    decreases |s|
  {
    if |s| == 0 || s[0] != '"' then None
    else
      match QuotedBody(s[1..])
      case None => None
      case Some(body) =>
        var first := body.0;
        var rest := body.1;
        if |rest| > 0 && rest[0] == ',' then
          match ParseQuotedList(rest[1..])
          case None => None
          case Some(more) => Some(([first] + more.0, more.1))
        else if |rest| > 0 && rest[0] == ']' then Some(([first], rest[1..]))
        else None
  }

  /** The label list that follows `[`, through its closing `]`. */
  function ParseLabels(s: string): Option<(seq<string>, string)> {
    if |s| > 0 && s[0] == ']' then Some(([], s[1..])) else ParseQuotedList(s)
  }

  /** Reads one log line back into the entry it records. */
  function ParseRecord(line: string): Option<Entry> {
    var r1 :- Literal("{\"file\":\"", line);
    var file :- QuotedBody(r1);
    var r3 :- Literal(",\"srcs\":[", file.1);
    ParseRecordTail(file.0, r3)
  }

  /** The part of a log line after `"srcs":[`. */
  function ParseRecordTail(file: string, r3: string): Option<Entry> {
    var srcs :- ParseLabels(r3);
    var r5 :- Literal(",\"lat\":\"", srcs.1);
    var lat :- QuotedBody(r5);
    var r7 :- Literal(",\"lng\":\"", lat.1);
    var lng :- QuotedBody(r7);
    if lng.1 == "}\n" then Some(Entry(file, srcs.0, lat.0, lng.0)) else None
  }

  /** Entries whose text fields hold no double quote, the only character the
      line format would need to escape. */
  predicate Unquoted(e: Entry) {
    '"' !in e.file && '"' !in e.lat && '"' !in e.lng
    && forall i :: 0 <= i < |e.srcs| ==> '"' !in e.srcs[i]
  }

  // ---------------------------------------------------------------------
  // Properties
  // ---------------------------------------------------------------------

  lemma {:induction false} PrefixedIsJoin(labels: seq<string>)
    requires labels != []
    ensures Prefixed(labels) == "," + Join(QuoteAll(labels), ",")
  {
    var q := QuoteAll(labels);
    if |labels| == 1 {
      assert labels[1..] == [];
      assert Join(q, ",") == Quote(labels[0]);
    } else {
      var rest := Join(QuoteAll(labels[1..]), ",");
      PrefixedIsJoin(labels[1..]);
      assert q[1..] == QuoteAll(labels[1..]);
      assert Join(q, ",") == Quote(labels[0]) + "," + rest;
      calc {
        Prefixed(labels);
        "," + Quote(labels[0]) + Prefixed(labels[1..]);
        "," + Quote(labels[0]) + ("," + rest);
        "," + (Quote(labels[0]) + "," + rest);
      }
    }
  }

  /** `csvOf` is the comma-join of the quoted labels: the builder's leading
      comma is exactly the one character dropped. */
  lemma CsvOfIsJoin(labels: seq<string>)
    ensures CsvOf(labels) == Join(QuoteAll(labels), ",")
  {
    if labels != [] {
      PrefixedIsJoin(labels);
    }
  }

  lemma {:induction false} IndexOfQuoteAfter(x: string, rest: string)
    requires '"' !in x
    ensures IndexOfQuote(x + "\"" + rest) == |x|
  {
    if x != [] {
      assert (x + "\"" + rest)[1..] == x[1..] + "\"" + rest;
      IndexOfQuoteAfter(x[1..], rest);
    }
  }

  lemma QuotedBodyOf(x: string, rest: string)
    requires '"' !in x
    ensures QuotedBody(x + "\"" + rest) == Some((x, rest))
  {
    IndexOfQuoteAfter(x, rest);
    var s := x + "\"" + rest;
    assert s[..|x|] == x && s[|x| + 1..] == rest;
  }

  lemma LiteralOf(lit: string, rest: string)
    ensures Literal(lit, lit + rest) == Some(rest)
  {
    assert lit <= lit + rest;
    assert (lit + rest)[|lit|..] == rest;
  }

  /** One quoted label followed by the closing bracket. */
  lemma ParseLastLabel(x: string, t: string)
    requires '"' !in x
    ensures ParseQuotedList("\"" + (x + "\"" + ("]" + t))) == Some(([x], t))
  {
    var rest := "]" + t;
    var s := "\"" + (x + "\"" + rest);
    assert s[1..] == x + "\"" + rest;
    QuotedBodyOf(x, rest);
    assert rest[1..] == t;
  }

  /** One quoted label followed by a comma and more labels. */
  lemma ParseNextLabel(x: string, u: string)
    requires '"' !in x
    requires ParseQuotedList(u).Some?
    ensures ParseQuotedList("\"" + (x + "\"" + ("," + u)))
            == Some(([x] + ParseQuotedList(u).value.0, ParseQuotedList(u).value.1))
  {
    var rest := "," + u;
    var s := "\"" + (x + "\"" + rest);
    assert s[0] == '"' && s[1..] == x + "\"" + rest;
    QuotedBodyOf(x, rest);
    assert QuotedBody(s[1..]) == Some((x, rest));
    assert |rest| > 0 && rest[0] == ',' && rest[1..] == u;
  }

  lemma {:induction false} ParseQuotedListOfJoin(labels: seq<string>, t: string)
    requires labels != []
    requires forall i :: 0 <= i < |labels| ==> '"' !in labels[i]
    ensures ParseQuotedList(Join(QuoteAll(labels), ",") + "]" + t) == Some((labels, t))
  {
    var x := labels[0];
    var qs := QuoteAll(labels);
    if |labels| == 1 {
      assert Join(qs, ",") + "]" + t == "\"" + (x + "\"" + ("]" + t));
      ParseLastLabel(x, t);
      assert [x] == labels;
    } else {
      var u := Join(QuoteAll(labels[1..]), ",") + "]" + t;
      assert qs[1..] == QuoteAll(labels[1..]);
      assert Join(qs, ",") + "]" + t == "\"" + (x + "\"" + ("," + u));
      ParseQuotedListOfJoin(labels[1..], t);
      ParseNextLabel(x, u);
      assert [x] + labels[1..] == labels;
    }
  }

  /** The label list reads back from `[<csvOf>]`, whatever follows it,
      provided no label holds a double quote. */
  lemma ParseLabelsOfCsv(labels: seq<string>, t: string)
    requires forall i :: 0 <= i < |labels| ==> '"' !in labels[i]
    ensures ParseLabels(CsvOf(labels) + "]" + t) == Some((labels, t))
  {
    CsvOfIsJoin(labels);
    if labels == [] {
      assert CsvOf(labels) + "]" + t == "]" + t;
      assert ("]" + t)[1..] == t;
    } else {
      ParseQuotedListOfJoin(labels, t);
    }
  }

  /** What follows the label list's closing bracket in a record. */
  function RecordAfterSrcs(e: Entry): string {
    ",\"lat\":\"" + (e.lat + "\"" + (",\"lng\":\"" + (e.lng + "\"" + "}\n")))
  }

  lemma RecordTailRoundTrip(e: Entry)
    requires Unquoted(e)
    ensures ParseRecordTail(e.file, CsvOf(e.srcs) + "]" + RecordAfterSrcs(e)) == Some(e)
  {
    var afterLng := "}\n";
    var afterLat := ",\"lng\":\"" + (e.lng + "\"" + afterLng);
    ParseLabelsOfCsv(e.srcs, RecordAfterSrcs(e));
    LiteralOf(",\"lat\":\"", e.lat + "\"" + afterLat);
    QuotedBodyOf(e.lat, afterLat);
    LiteralOf(",\"lng\":\"", e.lng + "\"" + afterLng);
    QuotedBodyOf(e.lng, afterLng);
  }

  /** The record regrouped around the closing quotes the reader stops at. */
  lemma RecordShape(e: Entry)
    ensures Record(e) == "{\"file\":\"" + (e.file + "\"" + (",\"srcs\":[" + (CsvOf(e.srcs) + "]" + RecordAfterSrcs(e))))
  {
    var csv := CsvOf(e.srcs);
    var afterSrcs := RecordAfterSrcs(e);
    assert "\",\"srcs\":[" == "\"" + ",\"srcs\":[";
    assert "],\"lat\":\"" == "]" + ",\"lat\":\"";
    assert "\",\"lng\":\"" == "\"" + ",\"lng\":\"";
    assert "\"}\n" == "\"" + "}\n";
    var t := "\",\"lng\":\"" + (e.lng + "\"}\n");
    assert e.lat + t == e.lat + "\"" + (",\"lng\":\"" + (e.lng + "\"" + "}\n"));
    assert "],\"lat\":\"" + (e.lat + t) == "]" + afterSrcs;
    assert csv + ("],\"lat\":\"" + (e.lat + t)) == csv + "]" + afterSrcs;
  }

  /** A log line reads back to exactly the entry written. */
  lemma RecordRoundTrip(e: Entry)
    requires Unquoted(e)
    ensures ParseRecord(Record(e)) == Some(e)
  {
    var tail := CsvOf(e.srcs) + "]" + RecordAfterSrcs(e);
    var afterFile := ",\"srcs\":[" + tail;
    var r1 := e.file + "\"" + afterFile;
    RecordShape(e);
    LiteralOf("{\"file\":\"", r1);
    QuotedBodyOf(e.file, afterFile);
    LiteralOf(",\"srcs\":[", tail);
    RecordTailRoundTrip(e);
  }

  /** Lines are not escaped: one label holding `","` is logged exactly like
      the two labels on either side of it. */
  lemma CsvOfConflatesQuotedLabel()
    ensures CsvOf(["a\",\"b"]) == CsvOf(["a", "b"])
  {
    assert Prefixed(["b"]) == ",\"b\"";
    assert Prefixed(["a", "b"]) == ",\"a\"" + ",\"b\"";
  }

  /** `csvOf` only adds quotes and commas around the labels' own characters. */
  lemma {:induction false} PrefixedAvoids(labels: seq<string>, c: char)
    requires c != '"' && c != ','
    requires forall i :: 0 <= i < |labels| ==> c !in labels[i]
    ensures c !in Prefixed(labels)
  {
    if labels != [] {
      PrefixedAvoids(labels[1..], c);
    }
  }

  lemma CsvOfAvoids(labels: seq<string>, c: char)
    requires c != '"' && c != ','
    requires forall i :: 0 <= i < |labels| ==> c !in labels[i]
    ensures c !in CsvOf(labels)
  {
    PrefixedAvoids(labels, c);
    if labels != [] {
      var p := Prefixed(labels);
      assert forall k :: 0 <= k < |p| - 1 ==> CsvOf(labels)[k] == p[k + 1];
    }
  }

  /** Each record is exactly one line: its only newline is the last
      character, as long as the fields carry none. */
  lemma RecordIsOneLine(e: Entry)
    requires '\n' !in e.file && '\n' !in e.lat && '\n' !in e.lng
    requires forall i :: 0 <= i < |e.srcs| ==> '\n' !in e.srcs[i]
    ensures Record(e)[|Record(e)| - 1] == '\n'
    ensures '\n' !in Record(e)[..|Record(e)| - 1]
  {
    CsvOfAvoids(e.srcs, '\n');
    var t1 := e.lng + "\"}";
    var t2 := "\",\"lng\":\"" + t1;
    var t3 := e.lat + t2;
    var t4 := "],\"lat\":\"" + t3;
    var t5 := CsvOf(e.srcs) + t4;
    var t6 := "\",\"srcs\":[" + t5;
    var t7 := e.file + t6;
    var body := "{\"file\":\"" + t7;
    assert '\n' !in t1;
    assert '\n' !in t2;
    assert '\n' !in t3;
    assert '\n' !in t4;
    assert '\n' !in t5;
    assert '\n' !in t6;
    assert '\n' !in t7;
    assert '\n' !in body;
    assert Record(e) == body + "\n";
    assert Record(e)[..|Record(e)| - 1] == body;
  }

  /** Appending adds one readable line at the end of the hour's log and
      leaves every earlier line and every other file as it was. */
  lemma AddEntryAppendsReadableLine(logs: Logs, now: DateTime, e: Entry)
    requires Unquoted(e)
    ensures var r := AddEntry(logs, now, e);
            var name := LogFileName(now);
            && r[name] == Existing(logs, name) + [Record(e)]
            && ParseRecord(r[name][|r[name]| - 1]) == Some(e)
            && forall f :: f in logs && f != name ==> f in r && r[f] == logs[f]
  {
    RecordRoundTrip(e);
    var r := AddEntry(logs, now, e);
    var name := LogFileName(now);
    assert r[name] == r[name][..|Existing(logs, name)|] + [r[name][|r[name]| - 1]];
    forall f | f in logs && f != name
      ensures f in r && r[f] == logs[f]
    {
      assert f in logs - {name};
    }
  }
}
