/** The canonical attack response of agents/adversarial.go: sections of entries of
    `Field: value` lines, the parser, and the printer it inverts. The parser cuts the text
    into lines and keeps the current section and the entry read so far; the printer writes
    every field on a line of its own, ends an entry with a separator line, and closes with
    the line of the overall risk. */
module AttackParser {
  import opened Wrappers
  import opened Text

  datatype Vulnerability = Vulnerability(
    id: string, category: string, severity: string, description: string, evidence: string, exploit: string)

  datatype EdgeCase = EdgeCase(id: string, description: string, input: string, expected: string)

  datatype StressScenario = StressScenario(id: string, description: string, load: string, expected: string)

  datatype AttackReport = AttackReport(
    vulnerabilities: seq<Vulnerability>,
    edgeCases: seq<EdgeCase>,
    stressScenarios: seq<StressScenario>,
    overallRisk: real)

  /** Sscanf("%f"), which this model leaves arbitrary. */
  type ScanFloat = string -> Option<real>

  const VULNERABILITIES := "VULNERABILITIES"
  const EDGE_CASES := "EDGE_CASES"
  const STRESS_SCENARIOS := "STRESS_SCENARIOS"
  const SEPARATOR := "---"
  const RISK := "OVERALL_RISK"

  predicate IsHeader(line: string) {
    line == VULNERABILITIES || line == EDGE_CASES || line == STRESS_SCENARIOS
  }

  // ----- Sections -----

  type Sections = map<string, seq<string>>

  function At(sections: Sections, header: string): seq<string> {
    if header in sections then sections[header] else []
  }

  /** What splitSections keeps while it reads: the finished entries, the current header
      (empty before the first one) and the lines of the entry being read. */
  datatype Reading = Reading(out: Sections, current: string, buf: string)

  function Flush(r: Reading): Reading {
    if r.current == "" then r else
      var entry := Trim(r.buf);
      Reading(if entry == "" then r.out else r.out[r.current := At(r.out, r.current) + [entry]], r.current, "")
  }

  function ReadLine(r: Reading, line: string): Reading {
    var trimmed := Trim(line);
    if IsHeader(trimmed) then Flush(r).(current := trimmed)
    else if trimmed == SEPARATOR then Flush(r)
    else if r.current != "" then r.(buf := r.buf + line + "\n")
    else r
  }

  ghost function ReadLines(r: Reading, lines: seq<string>): Reading
    decreases |lines|
  {
    if lines == [] then r else ReadLines(ReadLine(r, lines[0]), lines[1..])
  }

  ghost function SectionsOf(raw: string): Sections {
    Flush(ReadLines(Reading(map[], "", ""), Split(raw))).out
  }

  // ----- What a section holds -----

  /** A line that ends the entry before it: a header or a separator. */
  predicate IsMarker(line: string) {
    IsHeader(Trim(line)) || Trim(line) == SEPARATOR
  }

  /** Lines joined, each with its newline. */
  function Joined(lines: seq<string>): string {
    if lines == [] then "" else lines[0] + "\n" + Joined(lines[1..])
  }

  /** a and b are neighbouring marker lines; -1 and |lines| stand for the ends of the text. */
  ghost predicate IsBlock(lines: seq<string>, a: int, b: int) {
    && -1 <= a < b <= |lines|
    && (a >= 0 ==> IsMarker(lines[a])) && (b < |lines| ==> IsMarker(lines[b]))
    && forall k :: a < k < b ==> !IsMarker(lines[k])
  }

  /** The last header line among the first n lines; "" before the first header. */
  ghost function HeaderAbove(lines: seq<string>, n: nat): string
    requires n <= |lines|
  {
    if n == 0 then "" else if IsHeader(Trim(lines[n - 1])) then Trim(lines[n - 1]) else HeaderAbove(lines, n - 1)
  }

  /** The text between two marker lines, trimmed. */
  ghost function BlockText(lines: seq<string>, a: int, b: int): string
    requires -1 <= a < b <= |lines|
  {
    Trim(Joined(lines[a + 1..b]))
  }

  /** The block between the two lines is an entry of section h: h is the header it stands under,
      and it is not blank. */
  ghost predicate IsEntry(lines: seq<string>, h: string, place: (int, int)) {
    && IsBlock(lines, place.0, place.1) && h != "" && HeaderAbove(lines, place.1) == h
    && BlockText(lines, place.0, place.1) != ""
  }

  /** entries are the texts of the entries of section h that end before line n, in order. */
  ghost predicate ListsEntries(lines: seq<string>, h: string, n: nat, places: seq<(int, int)>, entries: seq<string>) {
    && |places| == |entries|
    && (forall i :: 0 <= i < |places| ==>
          && IsEntry(lines, h, places[i]) && places[i].1 < n
          && entries[i] == BlockText(lines, places[i].0, places[i].1))
    && (forall i, j :: 0 <= i < j < |places| ==> places[i].1 < places[j].1)
    && (forall place :: IsEntry(lines, h, place) && place.1 < n ==> place in places)
  }

  ghost function PastEnd(lines: seq<string>): nat {
    |lines| + 1
  }

  /** Section h holds the trimmed non-blank text between neighbouring marker lines below the
      header h, in order. */
  ghost predicate IsSection(lines: seq<string>, h: string, entries: seq<string>) {
    exists places :: ListsEntries(lines, h, PastEnd(lines), places, entries)
  }

  method SplitSections(raw: string) returns (out: Sections)
    ensures forall h :: IsSection(Split(raw), h, At(out, h))
    ensures out == SectionsOf(raw)
  {
    hide ReadLine, Flush;
    var lines := Split(raw);
    var r := Reading(map[], "", "");
    for i := 0 to |lines|
      invariant ReadLines(r, lines[i..]) == ReadLines(Reading(map[], "", ""), lines)
    {
      assert lines[i..][1..] == lines[i + 1..];
      r := ReadLine(r, lines[i]);
    }
    out := Flush(r).out;
    assert out == SectionsOf(raw);
    SectionsHoldBlocks(raw);
  }

  /** The state after the first n lines. */
  ghost function After(lines: seq<string>, n: nat): Reading
    requires n <= |lines|
  {
    ReadLines(Reading(map[], "", ""), lines[..n])
  }

  lemma NextLine(lines: seq<string>, n: nat)
    requires n < |lines|
    ensures After(lines, n + 1) == ReadLine(After(lines, n), lines[n])
  {
    assert lines[..n + 1] == lines[..n] + [lines[n]] && [lines[n]][1..] == [];
    ReadLinesConcat(Reading(map[], "", ""), lines[..n], [lines[n]]);
  }

  /** The last marker among the first n lines, or -1. */
  ghost function LastMarker(lines: seq<string>, n: nat): (m: int)
    requires n <= |lines|
    ensures -1 <= m < n && (m >= 0 ==> IsMarker(lines[m])) && forall k :: m < k < n ==> !IsMarker(lines[k])
  {
    if n == 0 then -1 else if IsMarker(lines[n - 1]) then n - 1 else LastMarker(lines, n - 1)
  }

  ghost function SinceMarker(lines: seq<string>, n: nat): seq<string>
    requires n <= |lines|
  {
    lines[LastMarker(lines, n) + 1..n]
  }

  lemma SinceNext(lines: seq<string>, k: nat)
    requires k < |lines|
    ensures SinceMarker(lines, k + 1) == if IsMarker(lines[k]) then [] else SinceMarker(lines, k) + [lines[k]]
    ensures HeaderAbove(lines, k + 1) == if IsHeader(Trim(lines[k])) then Trim(lines[k]) else HeaderAbove(lines, k)
  {
    hide IsMarker;
  }

  /** The buffer holds the lines since the last marker, once there is a header. */
  lemma {:induction false} StateAfter(lines: seq<string>, n: nat)
    requires n <= |lines|
    ensures var r := After(lines, n);
            && r.current == HeaderAbove(lines, n)
            && r.buf == if r.current == "" then "" else Joined(SinceMarker(lines, n))
  {
    hide *;
    if n == 0 {
      StartState(lines);
    } else {
      var k := n - 1;
      StateAfter(lines, k);
      NextLine(lines, k);
      LineEffect(After(lines, k), lines[k]);
      SinceNext(lines, k);
      JoinedMore(SinceMarker(lines, k), lines[k]);
    }
  }

  lemma LineEffect(r: Reading, line: string)
    ensures IsHeader(Trim(line)) ==> IsMarker(line)
    ensures var next := ReadLine(r, line);
            && next.current == (if IsHeader(Trim(line)) then Trim(line) else r.current)
            && next.buf == if IsMarker(line) then (if r.current == "" then r.buf else "")
                           else if r.current == "" then r.buf else r.buf + line + "\n"
  {
    hide Trim, IsHeader;
  }

  lemma StartState(lines: seq<string>)
    ensures After(lines, 0) == Reading(map[], "", "") && HeaderAbove(lines, 0) == ""
  {
  }

  lemma JoinedMore(lines: seq<string>, line: string)
    ensures Joined([]) == "" && Joined(lines + [line]) == Joined(lines) + line + "\n"
  {
    assert [line][1..] == [];
    JoinedConcat(lines, [line]);
  }

  /** At a marker, or at the end of the text, flushing adds the block that ends there to its
      section, unless it is blank or stands above every header. */
  lemma FlushAdds(lines: seq<string>, n: nat, h: string, places: seq<(int, int)>) returns (more: seq<(int, int)>)
    requires n <= |lines| && (n < |lines| ==> IsMarker(lines[n]))
    requires ListsEntries(lines, h, n, places, At(After(lines, n).out, h))
    ensures ListsEntries(lines, h, n + 1, more, At(Flush(After(lines, n)).out, h))
  {
    hide Trim, ReadLines, Joined, After, IsMarker, LastMarker, HeaderAbove, ListsEntries, Flush;
    StateAfter(lines, n);
    FlushEffect(After(lines, n), h);
    var block := (LastMarker(lines, n), n);
    if IsEntry(lines, h, block) {
      more := places + [block];
      EntryAdded(lines, h, n, places, At(After(lines, n).out, h));
    } else {
      more := places;
      NoBlockEnds(lines, n, h, places, At(After(lines, n).out, h));
    }
  }

  lemma FlushEffect(r: Reading, h: string)
    ensures At(Flush(r).out, h)
            == if r.current == h != "" && Trim(r.buf) != "" then At(r.out, h) + [Trim(r.buf)] else At(r.out, h)
  {
    hide Trim;
  }

  lemma EntryAdded(lines: seq<string>, h: string, n: nat, places: seq<(int, int)>, entries: seq<string>)
    requires n <= |lines| && ListsEntries(lines, h, n, places, entries)
    requires IsEntry(lines, h, (LastMarker(lines, n), n))
    ensures ListsEntries(lines, h, n + 1, places + [(LastMarker(lines, n), n)],
                         entries + [BlockText(lines, LastMarker(lines, n), n)])
  {
    hide IsMarker, BlockText, HeaderAbove;
  }

  lemma NoBlockEnds(lines: seq<string>, n: nat, h: string, places: seq<(int, int)>, entries: seq<string>)
    requires n <= |lines| && ListsEntries(lines, h, n, places, entries)
    requires !IsEntry(lines, h, (LastMarker(lines, n), n)) || (n < |lines| && !IsMarker(lines[n]))
    ensures ListsEntries(lines, h, n + 1, places, entries)
  {
    hide IsMarker, BlockText, HeaderAbove;
  }

  lemma {:induction false} SectionAfter(lines: seq<string>, n: nat, h: string) returns (places: seq<(int, int)>)
    requires n <= |lines|
    ensures ListsEntries(lines, h, n, places, At(After(lines, n).out, h))
  {
    hide ListsEntries, After, Trim, IsHeader, Flush;
    if n == 0 {
      places := [];
      NothingListed(lines, h);
    } else {
      places := SectionAfter(lines, n - 1, h);
      NextLine(lines, n - 1);
      if IsMarker(lines[n - 1]) {
        places := FlushAdds(lines, n - 1, h, places);
      } else {
        NoBlockEnds(lines, n - 1, h, places, At(After(lines, n - 1).out, h));
      }
    }
  }

  lemma NothingListed(lines: seq<string>, h: string)
    ensures ListsEntries(lines, h, 0, [], At(After(lines, 0).out, h))
  {
  }

  lemma SectionsHoldBlocks(raw: string)
    ensures forall h :: IsSection(Split(raw), h, At(SectionsOf(raw), h))
  {
    var lines := Split(raw);
    assert lines[..|lines|] == lines;
    assert Flush(After(lines, |lines|)).out == SectionsOf(raw);
    forall h ensures IsSection(lines, h, At(SectionsOf(raw), h)) {
      hide ListsEntries, Flush, ReadLines;
      var places := SectionAfter(lines, |lines|, h);
      var more := FlushAdds(lines, |lines|, h, places);
      assert ListsEntries(lines, h, PastEnd(lines), more, At(SectionsOf(raw), h));
    }
  }

  /** The lines determine what a section holds. */
  lemma OneSection(lines: seq<string>, h: string, x: seq<string>, y: seq<string>)
    requires IsSection(lines, h, x) && IsSection(lines, h, y)
    ensures x == y
  {
    hide ListsEntries;
    var p :| ListsEntries(lines, h, PastEnd(lines), p, x);
    var q :| ListsEntries(lines, h, PastEnd(lines), q, y);
    SameEntries(lines, h, PastEnd(lines), p, x, q, y);
  }

  lemma {:induction false} SameEntries(lines: seq<string>, h: string, n: nat, p: seq<(int, int)>, x: seq<string>,
                                       q: seq<(int, int)>, y: seq<string>)
    requires ListsEntries(lines, h, n, p, x) && ListsEntries(lines, h, n, q, y)
    ensures p == q && x == y
  {
    hide IsEntry, BlockText, ListsEntries;
    SameLast(lines, h, n, p, x, q, y);
    if p != [] {
      var last := p[|p| - 1];
      WithoutLastEntry(lines, h, n, p, x);
      WithoutLastEntry(lines, h, n, q, y);
      SameEntries(lines, h, last.1, p[..|p| - 1], x[..|p| - 1], q[..|q| - 1], y[..|q| - 1]);
      assert p == p[..|p| - 1] + [last] && q == q[..|q| - 1] + [last];
      assert x == x[..|p| - 1] + [x[|p| - 1]] && y == y[..|q| - 1] + [y[|q| - 1]];
    }
  }

  lemma SameLast(lines: seq<string>, h: string, n: nat, p: seq<(int, int)>, x: seq<string>,
                 q: seq<(int, int)>, y: seq<string>)
    requires ListsEntries(lines, h, n, p, x) && ListsEntries(lines, h, n, q, y)
    ensures |p| == |x| && |q| == |y| && (p == [] <==> q == []) && (p != [] ==> p[|p| - 1] == q[|q| - 1])
  {
    hide IsEntry, BlockText;
    assert p != [] ==> p[|p| - 1] in q;
    assert q != [] ==> q[|q| - 1] in p;
  }

  lemma WithoutLastEntry(lines: seq<string>, h: string, n: nat, p: seq<(int, int)>, x: seq<string>)
    requires ListsEntries(lines, h, n, p, x) && p != []
    ensures 0 <= p[|p| - 1].1 < n
    ensures ListsEntries(lines, h, p[|p| - 1].1, p[..|p| - 1], x[..|p| - 1])
    ensures x[|p| - 1] == BlockText(lines, p[|p| - 1].0, p[|p| - 1].1)
  {
    hide IsMarker, BlockText, HeaderAbove;
  }

  // ----- Fields -----

  predicate HasPrefix(s: string, prefix: string) {
    prefix <= s
  }

  function FieldIn(lines: seq<string>, field: string): Option<string> {
    if lines == [] then None else
      var line := Trim(lines[0]);
      if HasPrefix(line, field + ":") then Some(Trim(line[|field| + 1..])) else FieldIn(lines[1..], field)
  }

  /** The value populateField stores: that of the first line naming the field, or nothing. */
  function Field(entry: string, field: string): string {
    match FieldIn(Split(entry), field) case Some(v) => v case None => ""
  }

  /** The line loop of populateField and extractFloatField. */
  method FirstValue(text: string, field: string) returns (value: Option<string>)
    ensures value == FieldIn(Split(text), field)
  {
    var lines := Split(text);
    for i := 0 to |lines|
      invariant FieldIn(lines, field) == FieldIn(lines[i..], field)
    {
      assert lines[i..][1..] == lines[i + 1..];
      var line := Trim(lines[i]);
      if !HasPrefix(line, field + ":") {
        continue;
      }
      return Some(Trim(line[|field| + 1..]));
    }
    return None;
  }

  method PopulateField(entry: string, field: string) returns (dst: string)
    ensures dst == Field(entry, field)
  {
    var value := FirstValue(entry, field);
    dst := match value case Some(v) => v case None => "";
  }

  method ExtractRisk(raw: string, scan: ScanFloat) returns (risk: real)
    ensures risk == RiskOf(raw, scan)
  {
    var value := FirstValue(raw, RISK);
    risk := 0.0;
    if value != None && scan(value.value) != None {
      risk := scan(value.value).value;
    }
  }

  function ReadVulnerability(entry: string): Vulnerability {
    Vulnerability(Field(entry, "ID"), Field(entry, "Category"), Field(entry, "Severity"),
                  Field(entry, "Description"), Field(entry, "Evidence"), Field(entry, "Exploit"))
  }

  function ReadEdgeCase(entry: string): EdgeCase {
    EdgeCase(Field(entry, "ID"), Field(entry, "Description"), Field(entry, "Input"), Field(entry, "Expected"))
  }

  function ReadStressScenario(entry: string): StressScenario {
    StressScenario(Field(entry, "ID"), Field(entry, "Description"), Field(entry, "Load"), Field(entry, "Expected"))
  }

  /** Entries with neither an ID nor a description are dropped. */
  ghost function Kept<T>(entries: seq<string>, read: string -> T): seq<T> {
    if entries == [] then [] else
      (if Field(entries[0], "ID") != "" || Field(entries[0], "Description") != "" then [read(entries[0])] else [])
      + Kept(entries[1..], read)
  }

  method KeepEntries<T>(entries: seq<string>, read: string -> T) returns (kept: seq<T>)
    ensures kept == Kept(entries, read)
  {
    hide Field;
    kept := [];
    for i := 0 to |entries|
      invariant kept + Kept(entries[i..], read) == Kept(entries, read)
    {
      assert entries[i..][1..] == entries[i + 1..];
      var id := PopulateField(entries[i], "ID");
      var description := PopulateField(entries[i], "Description");
      if id != "" || description != "" {
        kept := kept + [read(entries[i])];
      }
    }
  }

  ghost function RiskOf(raw: string, scan: ScanFloat): real {
    match FieldIn(Split(raw), RISK)
    case None => 0.0
    case Some(v) => (match scan(v) case Some(f) => f case None => 0.0)
  }

  ghost function Parsed(raw: string, scan: ScanFloat): AttackReport {
    var sections := SectionsOf(raw);
    AttackReport(
      Kept(At(sections, VULNERABILITIES), ReadVulnerability),
      Kept(At(sections, EDGE_CASES), ReadEdgeCase),
      Kept(At(sections, STRESS_SCENARIOS), ReadStressScenario),
      RiskOf(raw, scan))
  }

  predicate IsEmpty(r: AttackReport) {
    r.vulnerabilities == [] && r.edgeCases == [] && r.stressScenarios == [] && r.overallRisk == 0.0
  }

  method ParseAttackResponse(raw: string, scan: ScanFloat) returns (r: Option<AttackReport>)
    ensures r == None <==> raw == "" || IsEmpty(Parsed(raw, scan))
    ensures r != None ==> r.value == Parsed(raw, scan)
  {
    hide SectionsOf, Field, RiskOf, Kept;
    if raw == "" {
      return None;
    }
    var sections := SplitSections(raw);
    var vulnerabilities := KeepEntries(At(sections, VULNERABILITIES), ReadVulnerability);
    var edgeCases := KeepEntries(At(sections, EDGE_CASES), ReadEdgeCase);
    var stressScenarios := KeepEntries(At(sections, STRESS_SCENARIOS), ReadStressScenario);
    var risk := ExtractRisk(raw, scan);
    var report := AttackReport(vulnerabilities, edgeCases, stressScenarios, risk);
    if |report.vulnerabilities| == 0 && |report.edgeCases| == 0 && |report.stressScenarios| == 0
       && report.overallRisk == 0.0 {
      return None;
    }
    return Some(report);
  }

  // ----- Printing -----

  /** The named values of an entry, in the order they are printed. */
  type Fields = seq<(string, string)>

  function VulnerabilityFields(v: Vulnerability): Fields {
    [("ID", v.id), ("Category", v.category), ("Severity", v.severity),
     ("Description", v.description), ("Evidence", v.evidence), ("Exploit", v.exploit)]
  }

  function EdgeCaseFields(e: EdgeCase): Fields {
    [("ID", e.id), ("Description", e.description), ("Input", e.input), ("Expected", e.expected)]
  }

  function StressScenarioFields(s: StressScenario): Fields {
    [("ID", s.id), ("Description", s.description), ("Load", s.load), ("Expected", s.expected)]
  }

  function FieldLine(f: (string, string)): string {
    f.0 + ": " + f.1
  }

  function FieldLines(fields: Fields): seq<string> {
    seq(|fields|, i requires 0 <= i < |fields| => FieldLine(fields[i]))
  }

  function EntryLines(entries: seq<Fields>): seq<string> {
    if entries == [] then [] else FieldLines(entries[0]) + ["---"] + EntryLines(entries[1..])
  }

  /** A section without entries is its header and one separator. */
  function SectionLines(header: string, entries: seq<Fields>): seq<string> {
    [header] + if entries == [] then ["---"] else EntryLines(entries)
  }

  function MapFields<T>(items: seq<T>, fields: T -> Fields): seq<Fields> {
    seq(|items|, i requires 0 <= i < |items| => fields(items[i]))
  }

  function ReportLines(r: AttackReport, risk: string): seq<string> {
    SectionLines("VULNERABILITIES", MapFields(r.vulnerabilities, VulnerabilityFields))
    + SectionLines("EDGE_CASES", MapFields(r.edgeCases, EdgeCaseFields))
    + SectionLines("STRESS_SCENARIOS", MapFields(r.stressScenarios, StressScenarioFields))
    + ["OVERALL_RISK" + ": " + risk]
  }

  function Print(r: AttackReport, risk: string): string {
    Joined(ReportLines(r, risk))
  }

  predicate PlainValue(v: string) {
    Trim(v) == v && '\n' !in v
  }

  predicate PlainName(n: string) {
    n != "" && !IsSpace(n[0]) && ':' !in n && '\n' !in n
  }

  ghost predicate PlainFields(fields: Fields) {
    && (forall i :: 0 <= i < |fields| ==> PlainName(fields[i].0) && PlainValue(fields[i].1))
    && forall i, j :: 0 <= i < j < |fields| ==> fields[i].0 != fields[j].0
  }

  // ----- What a printed report reads back as -----

  /** Parsing a printed report gives back its three lists in order and the risk its text
      scans to, although the risk line falls into the last section. */
  lemma ParsePrint(r: AttackReport, risk: string, scan: ScanFloat)
    requires PlainReport(r) && PlainValue(risk)
    ensures Parsed(Print(r, risk), scan)
            == r.(overallRisk := match scan(risk) case Some(f) => f case None => 0.0)
    ensures Print(r, risk) != ""
  {
    hide Blob, Blobs, Field, SectionsOf, PlainFields, Print, BodyLines;
    SectionsOfPrint(r, risk);
    RiskOfPrint(r, risk);
    forall v | v in r.vulnerabilities ensures ReadVulnerability(Blob(VulnerabilityFields(v))) == v
      ensures || Field(Blob(VulnerabilityFields(v)), "ID") != ""
              || Field(Blob(VulnerabilityFields(v)), "Description") != ""
    {
      ReadPrintedVulnerability(v);
    }
    forall e | e in r.edgeCases ensures ReadEdgeCase(Blob(EdgeCaseFields(e))) == e
      ensures || Field(Blob(EdgeCaseFields(e)), "ID") != ""
              || Field(Blob(EdgeCaseFields(e)), "Description") != ""
    {
      ReadPrintedEdgeCase(e);
    }
    forall s | s in r.stressScenarios ensures ReadStressScenario(Blob(StressScenarioFields(s))) == s
      ensures || Field(Blob(StressScenarioFields(s)), "ID") != ""
              || Field(Blob(StressScenarioFields(s)), "Description") != ""
    {
      ReadPrintedStressScenario(s);
    }
    KeptBlobs(r.vulnerabilities, VulnerabilityFields, ReadVulnerability);
    KeptBlobs(r.edgeCases, EdgeCaseFields, ReadEdgeCase);
    KeptBlobs(r.stressScenarios, StressScenarioFields, ReadStressScenario);
    RiskEntryIsDropped(risk);
    KeptWithoutLast(Blobs(MapFields(r.stressScenarios, StressScenarioFields)), Blob([(RISK, risk)]),
                    ReadStressScenario);
    if Print(r, risk) == "" {
      SplitOneLine("");
    }
  }

  /** The three sections hold the printed entries; the risk line ends up as a last entry of
      the stress scenarios. */
  lemma SectionsOfPrint(r: AttackReport, risk: string)
    requires PlainReport(r) && PlainValue(risk)
    ensures var out := SectionsOf(Print(r, risk));
            && At(out, VULNERABILITIES) == Blobs(MapFields(r.vulnerabilities, VulnerabilityFields))
            && At(out, EDGE_CASES) == Blobs(MapFields(r.edgeCases, EdgeCaseFields))
            && At(out, STRESS_SCENARIOS)
               == Blobs(MapFields(r.stressScenarios, StressScenarioFields)) + [Blob([(RISK, risk)])]
  {
    hide Trim, Blob, Blobs, SectionLines, MapFields, Split, ReadLines, PlainEntries;
    var v, e, s := MapFields(r.vulnerabilities, VulnerabilityFields), MapFields(r.edgeCases, EdgeCaseFields),
                   MapFields(r.stressScenarios, StressScenarioFields);
    PlainReportEntries(r);
    SplitPrint(r, risk);
    var out1 := WithEntries(map[], VULNERABILITIES, Blobs(v));
    var out2 := WithEntries(out1, EDGE_CASES, Blobs(e));
    var out3 := WithEntries(out2, STRESS_SCENARIOS, Blobs(s));
    var start := Reading(map[], "", "");
    var tail := [RISK + ": " + risk, ""];
    ReadSection(map[], "", VULNERABILITIES, v);
    ReadSection(out1, VULNERABILITIES, EDGE_CASES, e);
    ReadSection(out2, EDGE_CASES, STRESS_SCENARIOS, s);
    var sv, se, ss := SectionLines(VULNERABILITIES, v), SectionLines(EDGE_CASES, e), SectionLines(STRESS_SCENARIOS, s);
    assert ReportLines(r, risk) + [""] == sv + (se + (ss + tail));
    ReadLinesConcat(start, sv, se + (ss + tail));
    ReadLinesConcat(Reading(out1, VULNERABILITIES, ""), se, ss + tail);
    ReadLinesConcat(Reading(out2, EDGE_CASES, ""), ss, tail);
    ReadRiskLine(out3, risk);
  }

  lemma RiskOfPrint(r: AttackReport, risk: string)
    requires PlainReport(r) && PlainValue(risk)
    ensures FieldIn(Split(Print(r, risk)), RISK) == Some(risk)
  {
    hide Trim, HasPrefix, Split, BodyLines, PlainReport;
    BodyQuiet(r);
    SplitPrint(r, risk);
    var line := FieldLine((RISK, risk));
    assert ReportLines(r, risk) + [""] == BodyLines(r) + [line, ""];
    FieldAfterQuiet(BodyLines(r), [line, ""]);
    TrimFieldLine((RISK, risk));
    FieldOfLine((RISK, risk), RISK);
  }

  /** Reading a stored entry finds every printed value. */
  lemma FieldOfBlob(fields: Fields, k: nat)
    requires PlainFields(fields) && k < |fields|
    ensures Field(Blob(fields), fields[k].0) == fields[k].1
  {
    hide Trim, TrimmedFieldLine, Split;
    BlobLines(fields);
    var last := |fields| - 1;
    var lines := FieldLines(fields)[..last] + [TrimmedFieldLine(fields[last])];
    forall i | 0 <= i < |fields| ensures Trim(lines[i]) == TrimmedFieldLine(fields[i]) {
      TrimFieldLine(fields[i]);
    }
    FindField(fields, lines, k);
  }

  lemma RiskEntryIsDropped(risk: string)
    requires PlainValue(risk)
    ensures Field(Blob([(RISK, risk)]), "ID") == "" && Field(Blob([(RISK, risk)]), "Description") == ""
  {
    hide Field, Blob;
    var f := [(RISK, risk)];
    AbsentFromBlob(f, "ID");
    AbsentFromBlob(f, "Description");
  }

  // ----- Lines -----

  lemma {:induction false} SplitJoined(lines: seq<string>, rest: string)
    requires forall l :: l in lines ==> '\n' !in l
    ensures Split(Joined(lines) + rest) == lines + Split(rest)
  {
    if lines == [] {
      assert Joined(lines) + rest == rest;
    } else {
      assert Joined(lines) + rest == lines[0] + "\n" + (Joined(lines[1..]) + rest);
      assert lines[0] in lines;
      SplitLine(lines[0], Joined(lines[1..]) + rest);
      SplitJoined(lines[1..], rest);
    }
  }

  lemma {:induction false} JoinedConcat(a: seq<string>, b: seq<string>)
    ensures Joined(a + b) == Joined(a) + Joined(b)
  {
    if a == [] {
      assert a + b == b;
    } else {
      assert (a + b)[1..] == a[1..] + b;
      JoinedConcat(a[1..], b);
    }
  }

  /** Trimming on the right stops at a character that is not space. */
  lemma {:induction false} TrimRightStops(a: string, c: char, b: string)
    requires !IsSpace(c)
    ensures TrimRight(a + [c] + b) == a + [c] + TrimRight(b)
    decreases |b|
  {
    var s := a + [c] + b;
    if b == "" {
      assert s == a + [c];
    } else if IsSpace(b[|b| - 1]) {
      assert s[..|s| - 1] == a + [c] + b[..|b| - 1];
      TrimRightStops(a, c, b[..|b| - 1]);
    }
  }

  /** A field line as the parser sees it: trimmed. */
  function TrimmedFieldLine(f: (string, string)): string {
    if f.1 == "" then f.0 + ":" else f.0 + ": " + f.1
  }

  lemma TrimmedValue(v: string)
    requires Trim(v) == v
    ensures TrimRight(" " + v) == if v == "" then "" else " " + v
    ensures Trim(" " + v) == v && TrimRight(v) == v
  {
    TrimmedIff(v);
    assert (" " + v)[1..] == v;
    if v == "" {
      assert " "[..0] == "";
    }
  }

  lemma TrimFieldLine(f: (string, string))
    requires PlainName(f.0) && PlainValue(f.1)
    ensures TrimRight(FieldLine(f)) == TrimmedFieldLine(f)
    ensures Trim(FieldLine(f)) == TrimmedFieldLine(f) && Trim(TrimmedFieldLine(f)) == TrimmedFieldLine(f)
    ensures '\n' !in FieldLine(f) && '\n' !in TrimmedFieldLine(f)
  {
    hide Trim, TrimRight;
    assert FieldLine(f) == f.0 + [':'] + (" " + f.1);
    TrimRightStops(f.0, ':', " " + f.1);
    TrimmedValue(f.1);
    TrimmedIff(TrimmedFieldLine(f));
    TrimmedIff(f.1);
    TrimOfLeftTrimmed(FieldLine(f));
  }

  lemma TrimOfLeftTrimmed(s: string)
    requires s != "" && !IsSpace(s[0])
    ensures Trim(s) == TrimRight(s)
  {
  }

  /** The trimmed line names exactly its own field, and carries its value. */
  lemma FieldOfLine(f: (string, string), field: string)
    requires PlainName(f.0) && PlainValue(f.1) && PlainName(field)
    ensures HasPrefix(TrimmedFieldLine(f), field + ":") <==> field == f.0
    ensures Trim(TrimmedFieldLine(f)[|f.0| + 1..]) == f.1
  {
    hide Trim, TrimRight, Index, IsSpace, HasPrefix;
    var rest := if f.1 == "" then "" else " " + f.1;
    TrimmedValue(f.1);
    PrefixNames(f.0, rest, field);
    assert TrimmedFieldLine(f) == f.0 + [':'] + rest;
    assert (f.0 + [':'] + rest)[|f.0| + 1..] == rest;
  }

  lemma PrefixNames(name: string, rest: string, field: string)
    requires ':' !in name && ':' !in field
    ensures HasPrefix(name + [':'] + rest, field + ":") <==> field == name
  {
    hide Index;
    var line := name + [':'] + rest;
    IndexAfter(name, ':', rest);
    if HasPrefix(line, field + ":") {
      assert line == field + [':'] + line[|field| + 1..];
      IndexAfter(field, ':', line[|field| + 1..]);
      assert line[..|field|] == field && line[..|name|] == name;
    }
  }

  // ----- Entries -----

  /** The entry text as splitSections stores it. */
  ghost function Blob(fields: Fields): string {
    Trim(Joined(FieldLines(fields)))
  }

  /** Only the last printed line loses what trimming takes. */
  lemma LastLineTrimmed(before: string, f: (string, string))
    requires PlainName(f.0) && PlainValue(f.1)
    ensures TrimRight(before + FieldLine(f) + "\n") == before + TrimmedFieldLine(f)
  {
    hide TrimRight, Trim;
    assert before + FieldLine(f) + "\n" == before + f.0 + [':'] + (" " + f.1 + "\n");
    TrimRightStops(before + f.0, ':', " " + f.1 + "\n");
    TrimNewline(" " + f.1);
    TrimmedValue(f.1);
  }

  lemma BlobIs(fields: Fields)
    requires PlainFields(fields) && fields != []
    ensures var last := |fields| - 1;
            Blob(fields) == Joined(FieldLines(fields)[..last]) + TrimmedFieldLine(fields[last])
  {
    var last := |fields| - 1;
    var init, line := FieldLines(fields)[..last], FieldLine(fields[last]);
    assert FieldLines(fields) == init + [line];
    JoinedConcat(init, [line]);
    assert Joined([line]) == line + "\n" by {
      assert [line][1..] == [];
    }
    var text := Joined(FieldLines(fields));
    TrimOfLeftTrimmed(text);
    assert text == Joined(init) + line + "\n";
    LastLineTrimmed(Joined(init), fields[last]);
  }

  lemma BlobLines(fields: Fields)
    requires PlainFields(fields) && fields != []
    ensures Blob(fields) != ""
    ensures var last := |fields| - 1;
            Split(Blob(fields)) == FieldLines(fields)[..last] + [TrimmedFieldLine(fields[last])]
  {
    var last := |fields| - 1;
    BlobIs(fields);
    forall i | 0 <= i < |fields|
      ensures '\n' !in FieldLine(fields[i]) && '\n' !in TrimmedFieldLine(fields[i]) && TrimmedFieldLine(fields[i]) != ""
    {
      TrimFieldLine(fields[i]);
    }
    SplitJoined(FieldLines(fields)[..last], TrimmedFieldLine(fields[last]));
    SplitOneLine(TrimmedFieldLine(fields[last]));
  }

  lemma TrimNewline(s: string)
    ensures TrimRight(s + "\n") == TrimRight(s)
  {
    assert (s + "\n")[..|s|] == s;
  }

  lemma {:induction false} FindField(fields: Fields, lines: seq<string>, k: nat)
    requires PlainFields(fields) && |lines| == |fields| && k < |fields|
    requires forall i :: 0 <= i < |fields| ==> Trim(lines[i]) == TrimmedFieldLine(fields[i])
    ensures FieldIn(lines, fields[k].0) == Some(fields[k].1)
  {
    hide Trim, HasPrefix, TrimmedFieldLine;
    FieldOfLine(fields[0], fields[k].0);
    if k > 0 {
      FindField(fields[1..], lines[1..], k - 1);
    }
  }

  lemma {:induction false} NoField(fields: Fields, lines: seq<string>, field: string)
    requires PlainFields(fields) && |lines| == |fields| && PlainName(field)
    requires forall i :: 0 <= i < |fields| ==> Trim(lines[i]) == TrimmedFieldLine(fields[i]) && fields[i].0 != field
    ensures FieldIn(lines, field) == None
  {
    hide Trim, HasPrefix, TrimmedFieldLine;
    if fields != [] {
      FieldOfLine(fields[0], field);
      NoField(fields[1..], lines[1..], field);
    }
  }

  lemma AbsentFromBlob(fields: Fields, field: string)
    requires PlainFields(fields) && fields != [] && PlainName(field)
    requires forall i :: 0 <= i < |fields| ==> fields[i].0 != field
    ensures Field(Blob(fields), field) == ""
  {
    hide Trim, TrimmedFieldLine, Split;
    BlobLines(fields);
    var last := |fields| - 1;
    var lines := FieldLines(fields)[..last] + [TrimmedFieldLine(fields[last])];
    forall i | 0 <= i < |fields| ensures Trim(lines[i]) == TrimmedFieldLine(fields[i]) {
      TrimFieldLine(fields[i]);
    }
    NoField(fields, lines, field);
  }

  // ----- Reading printed sections -----

  /** Neither a header nor a separator. */
  ghost predicate Ordinary(line: string) {
    !IsHeader(Trim(line)) && Trim(line) != SEPARATOR
  }

  lemma {:induction false} ReadLinesConcat(r: Reading, a: seq<string>, b: seq<string>)
    ensures ReadLines(r, a + b) == ReadLines(ReadLines(r, a), b)
    decreases |a|
  {
    hide ReadLine;
    if a == [] {
      assert a + b == b;
    } else {
      assert (a + b)[1..] == a[1..] + b;
      ReadLinesConcat(ReadLine(r, a[0]), a[1..], b);
    }
  }

  lemma {:induction false} ReadOrdinary(r: Reading, lines: seq<string>)
    requires r.current != "" && forall l :: l in lines ==> Ordinary(l)
    ensures ReadLines(r, lines) == r.(buf := r.buf + Joined(lines))
    decreases |lines|
  {
    hide Trim;
    if lines == [] {
      assert r.buf + "" == r.buf;
    } else {
      assert lines[0] in lines;
      var next := ReadLine(r, lines[0]);
      assert next == r.(buf := r.buf + lines[0] + "\n");
      ReadOrdinary(next, lines[1..]);
      assert r.buf + lines[0] + "\n" + Joined(lines[1..]) == r.buf + Joined(lines);
    }
  }

  lemma BlankIsOrdinary()
    ensures Ordinary("")
  {
  }

  lemma FieldLineIsOrdinary(f: (string, string))
    requires PlainName(f.0) && PlainValue(f.1)
    ensures Ordinary(FieldLine(f))
  {
    hide Trim;
    TrimFieldLine(f);
    var line := TrimmedFieldLine(f);
    assert line[|f.0|] == ':';
    assert ':' in line;
    assert forall c :: c in SEPARATOR ==> c == '-';
  }

  ghost predicate PlainEntries(entries: seq<Fields>) {
    forall e :: e in entries ==> e != [] && PlainFields(e)
  }

  ghost function Blobs(entries: seq<Fields>): seq<string> {
    if entries == [] then [] else [Blob(entries[0])] + Blobs(entries[1..])
  }

  ghost function WithEntries(out: Sections, header: string, blobs: seq<string>): Sections {
    if blobs == [] then out else out[header := At(out, header) + blobs]
  }

  lemma SeparatorEndsEntry(out: Sections, current: string, fields: Fields)
    requires current != "" && fields != [] && PlainFields(fields)
    ensures ReadLines(Reading(out, current, ""), FieldLines(fields) + [SEPARATOR])
            == Reading(WithEntries(out, current, [Blob(fields)]), current, "")
  {
    hide Trim;
    var r, lines := Reading(out, current, ""), FieldLines(fields);
    forall l | l in lines ensures Ordinary(l) {
      var i :| 0 <= i < |lines| && lines[i] == l;
      FieldLineIsOrdinary(fields[i]);
    }
    ReadOrdinary(r, lines);
    ReadLinesConcat(r, lines, [SEPARATOR]);
    BlobLines(fields);
    var full := r.(buf := Joined(lines));
    assert r.buf + Joined(lines) == Joined(lines);
    SeparatorFlushes(full);
  }

  lemma SeparatorFlushes(r: Reading)
    ensures ReadLines(r, [SEPARATOR]) == Flush(r)
    ensures Trim(SEPARATOR) == SEPARATOR && Trim("") == ""
    ensures r.buf == "" ==> Flush(r) == r
  {
    TrimmedIff(SEPARATOR);
    assert [SEPARATOR][1..] == [];
  }

  lemma {:induction false} ReadEntries(out: Sections, current: string, entries: seq<Fields>)
    requires current != "" && PlainEntries(entries)
    ensures ReadLines(Reading(out, current, ""), EntryLines(entries))
            == Reading(WithEntries(out, current, Blobs(entries)), current, "")
    decreases |entries|
  {
    if entries == [] {
    } else {
      var e, rest := entries[0], entries[1..];
      assert e in entries;
      var next := WithEntries(out, current, [Blob(e)]);
      SeparatorEndsEntry(out, current, e);
      ReadLinesConcat(Reading(out, current, ""), FieldLines(e) + [SEPARATOR], EntryLines(rest));
      assert EntryLines(entries) == FieldLines(e) + [SEPARATOR] + EntryLines(rest);
      ReadEntries(next, current, rest);
      EntriesAppended(out, current, Blob(e), Blobs(rest));
    }
  }

  lemma EntriesAppended(out: Sections, header: string, blob: string, blobs: seq<string>)
    ensures WithEntries(WithEntries(out, header, [blob]), header, blobs) == WithEntries(out, header, [blob] + blobs)
  {
    var first, all := At(out, header) + [blob], At(out, header) + ([blob] + blobs);
    assert first + blobs == all;
    if blobs == [] {
      assert first == all;
    } else {
      assert out[header := first][header := all] == out[header := all];
    }
  }

  lemma ReadSection(out: Sections, current: string, header: string, entries: seq<Fields>)
    requires IsHeader(header) && PlainEntries(entries)
    ensures ReadLines(Reading(out, current, ""), SectionLines(header, entries))
            == Reading(WithEntries(out, header, Blobs(entries)), header, "")
  {
    hide Trim, Blob, FieldLines, PlainFields;
    var r := Reading(out, current, "");
    var body := if entries == [] then [SEPARATOR] else EntryLines(entries);
    HeaderStarts(r, header);
    assert ([header] + body)[1..] == body;
    if entries == [] {
      SeparatorFlushes(Reading(out, header, ""));
    } else {
      ReadEntries(out, header, entries);
    }
  }

  lemma HeaderStarts(r: Reading, header: string)
    requires IsHeader(header) && r.buf == ""
    ensures ReadLine(r, header) == Reading(r.out, header, "")
  {
    hide Trim;
    SeparatorFlushes(r);
    TrimmedIff(header);
  }

  lemma ReadRiskLine(out: Sections, risk: string)
    requires PlainValue(risk)
    ensures Flush(ReadLines(Reading(out, STRESS_SCENARIOS, ""), [RISK + ": " + risk, ""])).out
            == WithEntries(out, STRESS_SCENARIOS, [Blob([(RISK, risk)])])
  {
    hide Trim, TrimRight, HasPrefix, PlainName, PlainValue, TrimmedFieldLine, IsHeader;
    RiskIsName();
    var f := (RISK, risk);
    var r := Reading(out, STRESS_SCENARIOS, "");
    FieldLineIsOrdinary(f);
    SeparatorFlushes(r);
    BlankIsOrdinary();
    assert forall l :: l in [FieldLine(f), ""] ==> Ordinary(l);
    ReadOrdinary(r, [FieldLine(f), ""]);
    assert Joined([FieldLine(f), ""]) == FieldLine(f) + "\n" + "\n" by {
      assert [FieldLine(f), ""][1..] == [""] && [""][1..] == [];
    }
    assert Joined(FieldLines([f])) == FieldLine(f) + "\n" by {
      assert FieldLines([f])[1..] == [];
    }
    BlobLines([f]);
    TrimOfLeftTrimmed(FieldLine(f) + "\n" + "\n");
    TrimOfLeftTrimmed(FieldLine(f) + "\n");
    TrimNewline(FieldLine(f) + "\n");
    assert r.buf + Joined([FieldLine(f), ""]) == FieldLine(f) + "\n" + "\n";
  }

  // ----- Reports -----

  ghost predicate PlainReport(r: AttackReport) {
    && (forall v :: v in r.vulnerabilities ==>
          PlainFields(VulnerabilityFields(v)) && (v.id != "" || v.description != ""))
    && (forall e :: e in r.edgeCases ==> PlainFields(EdgeCaseFields(e)) && (e.id != "" || e.description != ""))
    && (forall s :: s in r.stressScenarios ==>
          PlainFields(StressScenarioFields(s)) && (s.id != "" || s.description != ""))
  }

  lemma PlainReportEntries(r: AttackReport)
    requires PlainReport(r)
    ensures PlainEntries(MapFields(r.vulnerabilities, VulnerabilityFields))
    ensures PlainEntries(MapFields(r.edgeCases, EdgeCaseFields))
    ensures PlainEntries(MapFields(r.stressScenarios, StressScenarioFields))
  {
    hide PlainFields;
  }

  /** Lines free of newlines that do not name the risk field. */
  ghost predicate Quiet(lines: seq<string>) {
    forall l :: l in lines ==> '\n' !in l && !HasPrefix(Trim(l), RISK + ":")
  }

  lemma RiskIsName()
    ensures PlainName(RISK)
  {
  }

  lemma FieldLinesQuiet(fields: Fields)
    requires PlainFields(fields) && forall i :: 0 <= i < |fields| ==> fields[i].0 != RISK
    ensures Quiet(FieldLines(fields))
  {
    hide Trim, HasPrefix, PlainName, PlainValue, FieldLine, TrimmedFieldLine;
    RiskIsName();
    forall l | l in FieldLines(fields) ensures '\n' !in l && !HasPrefix(Trim(l), RISK + ":") {
      var i :| 0 <= i < |fields| && FieldLine(fields[i]) == l;
      TrimFieldLine(fields[i]);
      FieldOfLine(fields[i], RISK);
    }
  }

  ghost predicate NoRiskField(entries: seq<Fields>) {
    forall e: Fields :: e in entries ==> forall i :: 0 <= i < |e| ==> e[i].0 != RISK
  }

  lemma FixedLineQuiet(line: string)
    requires line != "" && !IsSpace(line[0]) && !IsSpace(line[|line| - 1]) && line[0] != 'O' && '\n' !in line
    ensures Quiet([line])
  {
    TrimmedIff(line);
    assert RISK[0] == 'O';
  }

  lemma FixedLinesQuiet()
    ensures Quiet([SEPARATOR]) && Quiet([VULNERABILITIES]) && Quiet([EDGE_CASES]) && Quiet([STRESS_SCENARIOS])
  {
    hide Quiet;
    FixedLineQuiet(SEPARATOR);
    FixedLineQuiet(VULNERABILITIES);
    FixedLineQuiet(EDGE_CASES);
    FixedLineQuiet(STRESS_SCENARIOS);
  }

  lemma {:induction false} EntryLinesQuiet(entries: seq<Fields>)
    requires PlainEntries(entries) && NoRiskField(entries)
    ensures Quiet(EntryLines(entries))
  {
    hide Trim, HasPrefix, PlainFields, FieldLines;
    if entries != [] {
      assert entries[0] in entries;
      FieldLinesQuiet(entries[0]);
      FixedLinesQuiet();
      EntryLinesQuiet(entries[1..]);
      assert forall l :: l in [SEPARATOR] <==> l == SEPARATOR;
    }
  }

  lemma SectionQuiet(header: string, entries: seq<Fields>)
    requires IsHeader(header) && PlainEntries(entries) && NoRiskField(entries)
    ensures Quiet(SectionLines(header, entries))
  {
    hide Trim, HasPrefix, PlainEntries, EntryLines;
    FixedLinesQuiet();
    EntryLinesQuiet(entries);
    assert Quiet([header]);
    assert header in [header] && SEPARATOR in [SEPARATOR];
  }

  lemma NoRiskInReport(r: AttackReport)
    ensures NoRiskField(MapFields(r.vulnerabilities, VulnerabilityFields))
    ensures NoRiskField(MapFields(r.edgeCases, EdgeCaseFields))
    ensures NoRiskField(MapFields(r.stressScenarios, StressScenarioFields))
  {
    forall v, i | 0 <= i < |VulnerabilityFields(v)| ensures VulnerabilityFields(v)[i].0 != RISK {
      assert |RISK| == 12 && |VulnerabilityFields(v)[i].0| < 12;
    }
    forall e, i | 0 <= i < |EdgeCaseFields(e)| ensures EdgeCaseFields(e)[i].0 != RISK {
      assert |RISK| == 12 && |EdgeCaseFields(e)[i].0| < 12;
    }
    forall x, i | 0 <= i < |StressScenarioFields(x)| ensures StressScenarioFields(x)[i].0 != RISK {
      assert |RISK| == 12 && |StressScenarioFields(x)[i].0| < 12;
    }
  }

  /** All lines of a report but the last, which is the risk line. */
  ghost function BodyLines(r: AttackReport): seq<string> {
    SectionLines(VULNERABILITIES, MapFields(r.vulnerabilities, VulnerabilityFields))
    + SectionLines(EDGE_CASES, MapFields(r.edgeCases, EdgeCaseFields))
    + SectionLines(STRESS_SCENARIOS, MapFields(r.stressScenarios, StressScenarioFields))
  }

  lemma BodyQuiet(r: AttackReport)
    requires PlainReport(r)
    ensures Quiet(BodyLines(r))
  {
    hide Trim, HasPrefix, PlainEntries, NoRiskField, SectionLines, MapFields;
    PlainReportEntries(r);
    NoRiskInReport(r);
    SectionQuiet(VULNERABILITIES, MapFields(r.vulnerabilities, VulnerabilityFields));
    SectionQuiet(EDGE_CASES, MapFields(r.edgeCases, EdgeCaseFields));
    SectionQuiet(STRESS_SCENARIOS, MapFields(r.stressScenarios, StressScenarioFields));
  }

  lemma SplitPrint(r: AttackReport, risk: string)
    requires PlainReport(r) && PlainValue(risk)
    ensures ReportLines(r, risk) == BodyLines(r) + [RISK + ": " + risk]
    ensures Split(Print(r, risk)) == ReportLines(r, risk) + [""]
  {
    hide Trim, HasPrefix, SectionLines, MapFields, Split;
    BodyQuiet(r);
    var lines := ReportLines(r, risk);
    assert lines == BodyLines(r) + [RISK + ": " + risk];
    SplitJoined(lines, "");
    assert Joined(lines) + "" == Joined(lines);
    SplitOneLine("");
  }

  lemma {:induction false} FieldAfterQuiet(quiet: seq<string>, rest: seq<string>)
    requires Quiet(quiet)
    ensures FieldIn(quiet + rest, RISK) == FieldIn(rest, RISK)
  {
    hide Trim, HasPrefix;
    if quiet == [] {
      assert quiet + rest == rest;
    } else {
      assert quiet[0] in quiet && (quiet + rest)[1..] == quiet[1..] + rest;
      FieldAfterQuiet(quiet[1..], rest);
    }
  }

  // ----- The round trip -----

  lemma {:induction false} KeptBlobs<T>(items: seq<T>, fields: T -> Fields, read: string -> T)
    requires forall x :: x in items ==>
               read(Blob(fields(x))) == x
               && (Field(Blob(fields(x)), "ID") != "" || Field(Blob(fields(x)), "Description") != "")
    ensures Kept(Blobs(MapFields(items, fields)), read) == items
  {
    hide Blob, Field;
    if items != [] {
      assert items[0] in items;
      assert MapFields(items, fields)[1..] == MapFields(items[1..], fields);
      KeptBlobs(items[1..], fields, read);
      var blobs := Blobs(MapFields(items, fields));
      assert blobs == [Blob(fields(items[0]))] + Blobs(MapFields(items[1..], fields));
      assert blobs[1..] == Blobs(MapFields(items[1..], fields));
    }
  }

  lemma ReadPrintedVulnerability(v: Vulnerability)
    requires PlainFields(VulnerabilityFields(v))
    ensures ReadVulnerability(Blob(VulnerabilityFields(v))) == v
    ensures Field(Blob(VulnerabilityFields(v)), "ID") == v.id
    ensures Field(Blob(VulnerabilityFields(v)), "Description") == v.description
  {
    hide Blob, Field, PlainFields;
    var f := VulnerabilityFields(v);
    FieldOfBlob(f, 0);
    FieldOfBlob(f, 1);
    FieldOfBlob(f, 2);
    FieldOfBlob(f, 3);
    FieldOfBlob(f, 4);
    FieldOfBlob(f, 5);
  }

  lemma ReadPrintedEdgeCase(e: EdgeCase)
    requires PlainFields(EdgeCaseFields(e))
    ensures ReadEdgeCase(Blob(EdgeCaseFields(e))) == e
    ensures Field(Blob(EdgeCaseFields(e)), "ID") == e.id
    ensures Field(Blob(EdgeCaseFields(e)), "Description") == e.description
  {
    hide Blob, Field, PlainFields;
    var f := EdgeCaseFields(e);
    FieldOfBlob(f, 0);
    FieldOfBlob(f, 1);
    FieldOfBlob(f, 2);
    FieldOfBlob(f, 3);
  }

  lemma ReadPrintedStressScenario(s: StressScenario)
    requires PlainFields(StressScenarioFields(s))
    ensures ReadStressScenario(Blob(StressScenarioFields(s))) == s
    ensures Field(Blob(StressScenarioFields(s)), "ID") == s.id
    ensures Field(Blob(StressScenarioFields(s)), "Description") == s.description
  {
    hide Blob, Field, PlainFields;
    var f := StressScenarioFields(s);
    FieldOfBlob(f, 0);
    FieldOfBlob(f, 1);
    FieldOfBlob(f, 2);
    FieldOfBlob(f, 3);
  }

  lemma {:induction false} KeptWithoutLast<T>(entries: seq<string>, last: string, read: string -> T)
    requires Field(last, "ID") == "" && Field(last, "Description") == ""
    ensures Kept(entries + [last], read) == Kept(entries, read)
  {
    hide Field;
    if entries == [] {
      assert entries + [last] == [last] && [last][1..] == [];
    } else {
      assert (entries + [last])[1..] == entries[1..] + [last];
      KeptWithoutLast(entries[1..], last, read);
    }
  }
}
