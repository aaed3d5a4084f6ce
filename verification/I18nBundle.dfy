/** The flat message bundle of orchestrator/i18n_bundle.go: parsing `key: value` lines,
    and its inverse on single-quoted values. */
module I18nBundle {
  import opened Wrappers
  import opened Text

  /** strconv.Unquote, which this model leaves arbitrary. */
  type Unquote = string -> Option<string>

  datatype Problem = NoSeparator | BadScalar | EmptyKey

  datatype Result = Parsed(entries: map<string, string>) | Malformed(line: nat, problem: Problem)

  /** strings.ReplaceAll(s, "''", "'"): leftmost, non-overlapping. */
  function Unescape(s: string): string {
    if |s| >= 2 && s[0] == '\'' && s[1] == '\'' then "'" + Unescape(s[2..])
    else if s == "" then ""
    else [s[0]] + Unescape(s[1..])
  }

  function UnquoteYAMLScalar(val: string, unquote: Unquote): Option<string> {
    if |val| >= 2 && val[0] == '"' && val[|val| - 1] == '"' then unquote(val)
    else if |val| >= 2 && val[0] == '\'' && val[|val| - 1] == '\'' then Some(Unescape(val[1..|val| - 1]))
    else Some(val)
  }

  /** What one line of a bundle says. */
  datatype Meaning = Skipped | Entry(key: string, value: string) | Bad(problem: Problem)

  function MeaningOf(line: string, unquote: Unquote): Meaning {
    var trimmed := Trim(line);
    if trimmed == "" || trimmed[0] == '#' then Skipped else
      var colon := Index(trimmed, ':');
      if colon < 0 then Bad(NoSeparator) else
        var key := Trim(trimmed[..colon]);
        var unq := UnquoteYAMLScalar(Trim(trimmed[colon + 1..]), unquote);
        if unq == None then Bad(BadScalar)
        else if key == "" then Bad(EmptyKey)
        else Entry(key, unq.value)
  }

  /** The value of the last line that sets this key. */
  ghost predicate LastSetTo(lines: seq<string>, unquote: Unquote, key: string, value: string) {
    exists i :: 0 <= i < |lines| && MeaningOf(lines[i], unquote) == Entry(key, value)
      && forall k :: i < k < |lines| ==> var m := MeaningOf(lines[k], unquote); !(m.Entry? && m.key == key)
  }

  ghost predicate NeverSet(lines: seq<string>, unquote: Unquote, key: string) {
    forall k :: 0 <= k < |lines| ==> var m := MeaningOf(lines[k], unquote); !(m.Entry? && m.key == key)
  }

  ghost predicate Holds(lines: seq<string>, unquote: Unquote, entries: map<string, string>) {
    && (forall i :: 0 <= i < |lines| ==> !MeaningOf(lines[i], unquote).Bad?)
    && forall key ::
         if key in entries then LastSetTo(lines, unquote, key, entries[key]) else NeverSet(lines, unquote, key)
  }

  /** Either every line is fine and each key has its last value, or the first bad line is reported. */
  ghost predicate IsParse(lines: seq<string>, unquote: Unquote, r: Result) {
    match r
    case Parsed(entries) => Holds(lines, unquote, entries)
    case Malformed(n, problem) =>
      && 1 <= n <= |lines| && MeaningOf(lines[n - 1], unquote) == Bad(problem)
      && forall i :: 0 <= i < n - 1 ==> !MeaningOf(lines[i], unquote).Bad?
  }

  lemma HoldsAfter(lines: seq<string>, unquote: Unquote, entries: map<string, string>, line: string)
    requires Holds(lines, unquote, entries) && !MeaningOf(line, unquote).Bad?
    ensures Holds(lines + [line], unquote,
                  match MeaningOf(line, unquote) case Entry(k, v) => entries[k := v] case _ => entries)
  {
    hide MeaningOf;
    var more, m := lines + [line], MeaningOf(line, unquote);
    var updated := match m case Entry(k, v) => entries[k := v] case _ => entries;
    forall key
      ensures if key in updated then LastSetTo(more, unquote, key, updated[key]) else NeverSet(more, unquote, key)
    {
      if m.Entry? && m.key == key {
        assert more[|lines|] == line;
      } else if key in entries {
        var i :| 0 <= i < |lines| && MeaningOf(lines[i], unquote) == Entry(key, entries[key])
          && forall k :: i < k < |lines| ==> var n := MeaningOf(lines[k], unquote); !(n.Entry? && n.key == key);
        assert more[i] == lines[i];
      }
    }
  }

  lemma BadLine(lines: seq<string>, unquote: Unquote, entries: map<string, string>, n: nat, problem: Problem)
    requires n < |lines| && Holds(lines[..n], unquote, entries) && MeaningOf(lines[n], unquote) == Bad(problem)
    ensures IsParse(lines, unquote, Malformed(n + 1, problem))
  {
    hide MeaningOf;
    assert forall i :: 0 <= i < n ==> lines[i] == lines[..n][i];
  }

  method ParseFlatYAMLBundle(data: string, unquote: Unquote) returns (r: Result)
    ensures IsParse(Split(data), unquote, r)
  {
    assert Holds([], unquote, map[]);
    hide Split, Holds, Index, Trim;
    var lines := Split(data);
    assert lines[..0] == [];
    var out: map<string, string> := map[];
    for lineNo := 0 to |lines|
      invariant Holds(lines[..lineNo], unquote, out)
    {
      var line := lines[lineNo];
      assert lines[..lineNo + 1] == lines[..lineNo] + [line];
      var trimmed := Trim(line);
      if trimmed == "" || trimmed[0] == '#' {
        HoldsAfter(lines[..lineNo], unquote, out, line);
        continue;
      }
      var colon := Index(trimmed, ':');
      if colon < 0 {
        BadLine(lines, unquote, out, lineNo, NoSeparator);
        return Malformed(lineNo + 1, NoSeparator);
      }
      var key := Trim(trimmed[..colon]);
      var unq := UnquoteYAMLScalar(Trim(trimmed[colon + 1..]), unquote);
      if unq == None {
        BadLine(lines, unquote, out, lineNo, BadScalar);
        return Malformed(lineNo + 1, BadScalar);
      }
      if key == "" {
        BadLine(lines, unquote, out, lineNo, EmptyKey);
        return Malformed(lineNo + 1, EmptyKey);
      }
      HoldsAfter(lines[..lineNo], unquote, out, line);
      out := out[key := unq.value];
    }
    assert lines[..|lines|] == lines;
    r := Parsed(out);
  }

  // ----- Printing -----

  /** Quotes doubled, as in section 7.3.2 of YAML 1.2.2. */
  function Escape(s: string): string {
    if s == "" then "" else (if s[0] == '\'' then "''" else [s[0]]) + Escape(s[1..])
  }

  lemma {:induction false} UnescapeEscape(s: string)
    ensures Unescape(Escape(s)) == s
  {
    if s != "" {
      UnescapeEscape(s[1..]);
      var e := Escape(s);
      if s[0] == '\'' {
        assert e[2..] == Escape(s[1..]);
      } else {
        assert e[1..] == Escape(s[1..]);
      }
      assert s == [s[0]] + s[1..];
    }
  }

  lemma {:induction false} EscapeKeepsOneLine(s: string)
    requires '\n' !in s
    ensures '\n' !in Escape(s)
  {
    if s != "" {
      EscapeKeepsOneLine(s[1..]);
    }
  }

  predicate ValidKey(key: string) {
    key != "" && Trim(key) == key && ':' !in key && '\n' !in key && key[0] != '#'
  }

  function PrintLine(key: string, value: string): string {
    key + ": '" + Escape(value) + "'"
  }

  type Entries = seq<(string, string)>

  function Print(entries: Entries): string {
    if entries == [] then "" else PrintLine(entries[0].0, entries[0].1) + "\n" + Print(entries[1..])
  }

  function PrintedLines(entries: Entries): seq<string> {
    if entries == [] then [""] else [PrintLine(entries[0].0, entries[0].1)] + PrintedLines(entries[1..])
  }

  ghost predicate Printable(entries: Entries) {
    forall e :: e in entries ==> ValidKey(e.0) && '\n' !in e.1
  }

  ghost predicate DistinctKeys(entries: Entries) {
    forall i, j :: 0 <= i < j < |entries| ==> entries[i].0 != entries[j].0
  }

  lemma {:induction false} SplitPrint(entries: Entries)
    requires Printable(entries)
    ensures Split(Print(entries)) == PrintedLines(entries)
  {
    if entries != [] {
      var e := entries[0];
      assert e in entries;
      EscapeKeepsOneLine(e.1);
      SplitPrint(entries[1..]);
      SplitLine(PrintLine(e.0, e.1), Print(entries[1..]));
    }
  }

  /** A printed line means its entry, whatever strconv.Unquote does. */
  lemma PrintedLineMeaning(key: string, value: string, unquote: Unquote)
    requires ValidKey(key) && '\n' !in value
    ensures MeaningOf(PrintLine(key, value), unquote) == Entry(key, value)
  {
    hide MeaningOf, Unescape, Escape;
    SingleQuotedLineMeaning(key, Escape(value), unquote);
    UnescapeEscape(value);
  }

  /** Opened and closed by the same kind of quote: the guard of the two quoted forms. */
  predicate IsQuoted(value: string) {
    |value| >= 2 && value[0] == value[|value| - 1] && (value[0] == '"' || value[0] == '\'')
  }

  /** A bare value is taken verbatim, a trailing comment included. */
  lemma BareLineMeaning(key: string, value: string, unquote: Unquote)
    requires ValidKey(key) && Trim(value) == value && !IsQuoted(value)
    ensures MeaningOf(key + ": " + value, unquote) == Entry(key, value)
  {
    assert UnquoteYAMLScalar(value, unquote) == Some(value);
    hide Trim, Index, Unescape, ValidKey, UnquoteYAMLScalar, IsQuoted;
    var line, rest := key + ": " + value, if value == "" then "" else " " + value;
    KeyIsPlain(key);
    TrimmedIff(key);
    TrimmedIff(value);
    TrimBareLine(key, value);
    var trimmed := key + [':'] + rest;
    IndexAfter(key, ':', rest);
    assert trimmed[..|key|] == key && trimmed[|key| + 1..] == rest;
    TrimmedIff("");
    if value != "" {
      TrimOneSpace(value);
    }
  }

  lemma TrimBareLine(key: string, value: string)
    requires ValidKey(key) && Trim(value) == value
    ensures Trim(key + ": " + value) == key + [':'] + if value == "" then "" else " " + value
  {
    hide Index, TrimLeft;
    var line := key + ": " + value;
    TrimmedIff(key);
    TrimmedIff(value);
    if value == "" {
      assert line[..|line| - 1] == key + ":";
      TrimmedIff(key + ":");
      StartsPlain(line);
      StartsPlain(key + ":");
    } else {
      TrimmedIff(line);
      assert line == key + [':'] + (" " + value);
    }
  }

  lemma StartsPlain(s: string)
    requires s != "" && !IsSpace(s[0])
    ensures TrimLeft(s) == s
  {
  }

  // ----- Lines that are no entries, and quoted values -----

  /** A blank line is skipped, and so is one led by '#'; any other line needs a ':'. */
  lemma LineWithoutEntry(before: string, text: string, after: string, unquote: Unquote)
    requires IsBlank(before) && IsBlank(after)
    requires text != "" ==> !IsSpace(text[0]) && !IsSpace(text[|text| - 1])
    ensures text == "" || text[0] == '#' ==> MeaningOf(before + text + after, unquote) == Skipped
    ensures text != "" && text[0] != '#' && ':' !in text ==>
              MeaningOf(before + text + after, unquote) == Bad(NoSeparator)
  {
    if text == "" {
      assert IsBlank(before + text + after);
      TrimOfBlank(before + text + after);
    } else {
      TrimOfPadded(before, text, after);
    }
  }

  /** A double-quoted value is what strconv.Unquote makes of it, quotes included. */
  lemma QuotedLineMeaning(key: string, body: string, unquote: Unquote)
    requires ValidKey(key)
    ensures var quoted := "\"" + body + "\"";
            MeaningOf(key + ": " + quoted, unquote)
            == match unquote(quoted)
               case None => Bad(BadScalar)
               case Some(value) => Entry(key, value)
  {
    hide Trim, Index, Unescape, ValidKey;
    var quoted := "\"" + body + "\"";
    var line := key + ": " + quoted;
    KeyIsPlain(key);
    TrimmedIff(key);
    TrimmedIff(quoted);
    TrimmedIff(line);
    assert line == key + [':'] + (" " + quoted);
    IndexAfter(key, ':', " " + quoted);
    assert line[..|key|] == key && line[|key| + 1..] == " " + quoted;
    TrimOneSpace(quoted);
  }

  /** A single-quoted value is what stands between the quotes, unescaped. */
  lemma SingleQuotedLineMeaning(key: string, body: string, unquote: Unquote)
    requires ValidKey(key)
    ensures MeaningOf(key + ": '" + body + "'", unquote) == Entry(key, Unescape(body))
  {
    hide Trim, Index, Unescape, ValidKey;
    var quoted := "'" + body + "'";
    var line := key + ": '" + body + "'";
    KeyIsPlain(key);
    TrimmedIff(key);
    TrimmedIff(quoted);
    TrimmedIff(line);
    assert line == key + [':'] + (" " + quoted);
    IndexAfter(key, ':', " " + quoted);
    assert line[..|key|] == key && line[|key| + 1..] == " " + quoted;
    TrimOneSpace(quoted);
    assert quoted[1..|quoted| - 1] == body;
  }

  /** A line without a key is bad; a value that cannot be unquoted is reported first. */
  lemma KeylessLineMeaning(value: string, unquote: Unquote)
    requires Trim(value) == value
    ensures MeaningOf(":" + value, unquote)
            == if |value| >= 2 && value[0] == value[|value| - 1] == '"' && unquote(value) == None
               then Bad(BadScalar) else Bad(EmptyKey)
  {
    hide Trim, Unescape;
    var line := ":" + value;
    TrimmedIff(value);
    TrimmedIff(line);
    TrimmedIff("");
    assert line[0] == ':' && line[..0] == "" && line[1..] == value;
  }

  /** s has two quotes side by side from place i on, and nowhere before. */
  ghost predicate FirstPairAt(s: string, i: nat) {
    && i + 1 < |s| && s[i] == s[i + 1] == '\''
    && forall k :: 0 <= k < i ==> !(s[k] == s[k + 1] == '\'')
  }

  /** Unescaping makes one of the leftmost pair of quotes and goes on behind it. */
  lemma {:induction false} UnescapeFirstPair(s: string, i: nat)
    requires FirstPairAt(s, i)
    ensures Unescape(s) == s[..i] + "'" + Unescape(s[i + 2..])
    decreases |s|
  {
    if i > 0 {
      var rest := s[1..];
      UnescapeFirstPair(rest, i - 1);
      assert rest[i - 1 + 2..] == s[i + 2..];
      assert s[..i] == [s[0]] + rest[..i - 1];
      assert Unescape(s) == [s[0]] + Unescape(rest);
    }
  }

  /** A text without such a pair stays. */
  lemma {:induction false} NothingToUnescape(s: string)
    requires forall k :: 0 <= k < |s| - 1 ==> !(s[k] == s[k + 1] == '\'')
    ensures Unescape(s) == s
  {
    if s != "" {
      NothingToUnescape(s[1..]);
      assert s == [s[0]] + s[1..];
    }
  }

  // ----- Trailing comments -----

  /** Where a trailing comment begins, as in section 6.6 of YAML 1.2.2: at a '#' that starts
      the value or follows a space. */
  function CommentStart(value: string): (i: nat)
    ensures i <= |value|
    ensures i < |value| <==> HasComment(value)
  {
    CommentFrom(value, 0)
  }

  predicate IsCommentAt(value: string, i: nat) {
    i < |value| && value[i] == '#' && (i == 0 || IsSpace(value[i - 1]))
  }

  ghost predicate HasComment(value: string) {
    exists i: nat :: IsCommentAt(value, i)
  }

  function CommentFrom(value: string, from: nat): (i: nat)
    requires from <= |value|
    ensures from <= i <= |value| && (i < |value| ==> IsCommentAt(value, i))
    ensures forall k: nat :: from <= k < i ==> !IsCommentAt(value, k)
    decreases |value| - from
  {
    if from == |value| || IsCommentAt(value, from) then from else CommentFrom(value, from + 1)
  }

  /** The value without its trailing comment and the space before it. */
  function WithoutComment(value: string): string {
    TrimRight(value[..CommentStart(value)])
  }

  /** The announced stripping of comments from unquoted values happens exactly when there is
      nothing to strip. */
  lemma CommentStrippedIff(key: string, value: string, unquote: Unquote)
    requires ValidKey(key) && Trim(value) == value && !IsQuoted(value)
    ensures MeaningOf(key + ": " + value, unquote) == Entry(key, WithoutComment(value)) <==> !HasComment(value)
  {
    hide Trim, MeaningOf, ValidKey;
    BareLineMeaning(key, value, unquote);
    var i := CommentStart(value);
    TrimRightShrinks(value[..i]);
    if i == |value| {
      assert value[..i] == value;
      TrimmedIff(value);
    }
  }

  /** Two lines whose comments end up in the value; the second value is only led by a quote. */
  lemma CommentsAreKept(unquote: Unquote)
    ensures MeaningOf("k: v #c", unquote) == Entry("k", "v #c") && HasComment("v #c")
    ensures MeaningOf("k: \"t\" #c", unquote) == Entry("k", "\"t\" #c") && HasComment("\"t\" #c")
  {
    hide Trim, MeaningOf;
    TrimmedIff("k");
    TrimmedIff("v #c");
    TrimmedIff("\"t\" #c");
    assert "k" + ": " + "v #c" == "k: v #c" && "k" + ": " + "\"t\" #c" == "k: \"t\" #c";
    BareLineMeaning("k", "v #c", unquote);
    BareLineMeaning("k", "\"t\" #c", unquote);
    assert IsCommentAt("v #c", 2) && IsCommentAt("\"t\" #c", 4);
  }

  lemma KeyIsPlain(key: string)
    requires ValidKey(key)
    ensures key != "" && Trim(key) == key && ':' !in key && key[0] != '#'
  {
  }

  lemma TrimOneSpace(s: string)
    requires Trim(s) == s && s != ""
    ensures Trim(" " + s) == s
  {
    TrimmedIff(s);
    assert (" " + s)[1..] == s;
  }

  lemma {:induction false} PrintedLineAt(entries: Entries, i: nat)
    requires i <= |entries|
    ensures |PrintedLines(entries)| == |entries| + 1
    ensures PrintedLines(entries)[i] == if i < |entries| then PrintLine(entries[i].0, entries[i].1) else ""
  {
    if entries != [] {
      PrintedLineAt(entries[1..], if i == 0 then 0 else i - 1);
    }
  }

  ghost predicate IsMapOf(entries: Entries, m: map<string, string>) {
    && (forall e :: e in entries ==> e.0 in m && m[e.0] == e.1)
    && forall key :: key in m ==> exists i :: 0 <= i < |entries| && entries[i].0 == key
  }

  /** Printing a bundle's entries in any order and parsing the text gives the bundle back. */
  lemma ParsePrint(entries: Entries, unquote: Unquote, m: map<string, string>, r: Result)
    requires Printable(entries) && DistinctKeys(entries) && IsMapOf(entries, m)
    requires IsParse(Split(Print(entries)), unquote, r)
    ensures r == Parsed(m)
  {
    hide MeaningOf, Split, Print, PrintedLines, Holds;
    var lines := PrintedLines(entries);
    SplitPrint(entries);
    PrintedMeanings(entries, unquote);
    if r.Parsed? {
      SameMap(lines, unquote, entries, m, r.entries);
    }
  }

  /** Line i of a printed bundle means entry i; the last line is empty. */
  ghost predicate Means(lines: seq<string>, unquote: Unquote, entries: Entries) {
    && |lines| == |entries| + 1
    && forall i :: 0 <= i < |lines| ==>
         MeaningOf(lines[i], unquote) == if i < |entries| then Entry(entries[i].0, entries[i].1) else Skipped
  }

  lemma PrintedMeanings(entries: Entries, unquote: Unquote)
    requires Printable(entries)
    ensures Means(PrintedLines(entries), unquote, entries)
  {
    assert MeaningOf("", unquote) == Skipped;
    hide MeaningOf, PrintLine, PrintedLines, ValidKey;
    var lines := PrintedLines(entries);
    PrintedLineAt(entries, 0);
    forall i | 0 <= i < |lines|
      ensures MeaningOf(lines[i], unquote)
              == if i < |entries| then Entry(entries[i].0, entries[i].1) else Skipped
    {
      PrintedLineAt(entries, i);
      if i < |entries| {
        assert entries[i] in entries;
        PrintedLineMeaning(entries[i].0, entries[i].1, unquote);
      }
    }
  }

  lemma SameEntry(lines: seq<string>, unquote: Unquote, entries: Entries, m: map<string, string>,
                  parsed: map<string, string>, key: string)
    requires Means(lines, unquote, entries) && DistinctKeys(entries) && IsMapOf(entries, m)
    requires Holds(lines, unquote, parsed)
    ensures key in parsed <==> key in m
    ensures key in m ==> parsed[key] == m[key]
  {
    hide MeaningOf;
    if key in parsed {
      var i :| 0 <= i < |lines| && MeaningOf(lines[i], unquote) == Entry(key, parsed[key]);
      assert entries[i] in entries;
    }
    if key in m {
      var i :| 0 <= i < |entries| && entries[i].0 == key;
      assert entries[i] in entries;
      assert MeaningOf(lines[i], unquote) == Entry(key, entries[i].1);
    }
  }

  lemma SameMap(lines: seq<string>, unquote: Unquote, entries: Entries, m: map<string, string>,
                parsed: map<string, string>)
    requires Means(lines, unquote, entries) && DistinctKeys(entries) && IsMapOf(entries, m)
    requires Holds(lines, unquote, parsed)
    ensures parsed == m
  {
    hide MeaningOf, Holds, IsMapOf;
    forall key ensures key in parsed <==> key in m ensures key in m ==> parsed[key] == m[key] {
      SameEntry(lines, unquote, entries, m, parsed, key);
    }
  }
}
