/** The string operations of Go's standard library that the modelled code relies on. A string
    is a sequence of characters (code points). Trimming uses the spaces of unicode.IsSpace;
    lower-casing is that of ASCII; splitting is at newlines and keeps the empty pieces; and
    an index is the first place of a character, or -1. The lemmas say what these do to the
    lines that the printers of this project write. */
module Text {

  /** unicode.IsSpace */
  predicate IsSpace(c: char) {
    var u := c as int;
    9 <= u <= 13 || u == 32 || u == 0x85 || u == 0xA0 || u == 0x1680 || 0x2000 <= u <= 0x200A
    || u == 0x2028 || u == 0x2029 || u == 0x202F || u == 0x205F || u == 0x3000
  }

  /** Below 256 they are the six of ASCII and the two of Latin-1. */
  lemma SpacesOfLatin1(c: char)
    requires (c as int) < 256
    ensures IsSpace(c) <==> c in {'\t', '\n', '\U{0B}', '\U{0C}', '\r', ' ', '\U{85}', '\U{A0}'}
  {
  }

  function TrimLeft(s: string): string {
    if s != "" && IsSpace(s[0]) then TrimLeft(s[1..]) else s
  }

  function TrimRight(s: string): string {
    if s != "" && IsSpace(s[|s| - 1]) then TrimRight(s[..|s| - 1]) else s
  }

  /** strings.TrimSpace */
  function Trim(s: string): string {
    TrimRight(TrimLeft(s))
  }

  lemma {:induction false} TrimLeftWorks(s: string)
    ensures TrimLeft(s) == "" || !IsSpace(TrimLeft(s)[0])
    ensures TrimLeft(s) != "" ==> TrimLeft(s)[|TrimLeft(s)| - 1] == s[|s| - 1]
    ensures |TrimLeft(s)| <= |s|
  {
    if s != "" && IsSpace(s[0]) {
      TrimLeftWorks(s[1..]);
    }
  }

  /** A string is its own trim exactly when it neither starts nor ends with space. */
  lemma TrimmedIff(s: string)
    ensures Trim(s) == s <==> s == "" || (!IsSpace(s[0]) && !IsSpace(s[|s| - 1]))
  {
    if s != "" {
      if IsSpace(s[0]) {
        TrimLeftWorks(s[1..]);
        TrimRightShrinks(TrimLeft(s));
      } else if IsSpace(s[|s| - 1]) {
        TrimRightShrinks(s[..|s| - 1]);
      }
    }
  }

  lemma {:induction false} TrimRightShrinks(s: string)
    ensures |TrimRight(s)| <= |s| && TrimRight(s) <= s
  {
    if s != "" && IsSpace(s[|s| - 1]) {
      TrimRightShrinks(s[..|s| - 1]);
    }
  }

  predicate IsBlank(s: string) {
    forall i :: 0 <= i < |s| ==> IsSpace(s[i])
  }

  lemma {:induction false} TrimLeftDrops(s: string) returns (pad: string)
    ensures s == pad + TrimLeft(s) && IsBlank(pad)
  {
    if s != "" && IsSpace(s[0]) {
      var rest := TrimLeftDrops(s[1..]);
      pad := [s[0]] + rest;
      assert s == [s[0]] + s[1..];
    } else {
      pad := "";
    }
  }

  lemma {:induction false} TrimRightDrops(s: string) returns (pad: string)
    ensures s == TrimRight(s) + pad && IsBlank(pad)
    ensures TrimRight(s) == "" || !IsSpace(TrimRight(s)[|TrimRight(s)| - 1])
  {
    if s != "" && IsSpace(s[|s| - 1]) {
      var rest := TrimRightDrops(s[..|s| - 1]);
      pad := rest + [s[|s| - 1]];
      assert s == s[..|s| - 1] + [s[|s| - 1]];
    } else {
      pad := "";
    }
  }

  /** Trimming takes space off both ends, and leaves none there. */
  lemma TrimDropsSpace(s: string) returns (before: string, after: string)
    ensures s == before + Trim(s) + after && IsBlank(before) && IsBlank(after)
    ensures Trim(s) != "" ==> !IsSpace(Trim(s)[0]) && !IsSpace(Trim(s)[|Trim(s)| - 1])
  {
    before := TrimLeftDrops(s);
    after := TrimRightDrops(TrimLeft(s));
    TrimLeftWorks(s);
    TrimRightShrinks(TrimLeft(s));
  }

  /** Blank space around a text that neither starts nor ends with space is taken off. */
  lemma {:induction false} TrimOfPadded(before: string, s: string, after: string)
    requires IsBlank(before) && IsBlank(after) && s != "" && !IsSpace(s[0]) && !IsSpace(s[|s| - 1])
    ensures Trim(before + s + after) == s
    decreases |before| + |after|
  {
    var t := before + s + after;
    if before != "" {
      TrimOfPadded(before[1..], s, after);
      assert t[1..] == before[1..] + s + after;
    } else if after != "" {
      TrimOfPadded(before, s, after[..|after| - 1]);
      assert t[..|t| - 1] == before + s + after[..|after| - 1];
      assert TrimLeft(t) == t && TrimLeft(t[..|t| - 1]) == t[..|t| - 1];
    } else {
      assert t == s;
      TrimmedIff(s);
    }
  }

  lemma {:induction false} TrimOfBlank(s: string)
    requires IsBlank(s)
    ensures Trim(s) == ""
  {
    if s != "" {
      TrimOfBlank(s[1..]);
    }
  }

  function LowerChar(c: char): char {
    if 'A' <= c <= 'Z' then (c as int + 32) as char else c
  }

  /** strings.ToLower on ASCII text */
  function ToLower(s: string): (r: string)
    ensures |r| == |s| && forall i :: 0 <= i < |s| ==> r[i] == LowerChar(s[i])
  {
    seq(|s|, i requires 0 <= i < |s| => LowerChar(s[i]))
  }

  /** A capital becomes the small letter at the same place of the alphabet; anything else stays. */
  lemma LowerCaseOf(c: char)
    ensures 'A' <= c <= 'Z' ==>
              'a' <= LowerChar(c) <= 'z' && LowerChar(c) as int - 'a' as int == c as int - 'A' as int
    ensures !('A' <= c <= 'Z') ==> LowerChar(c) == c
  {
  }

  /** strings.Split(s, "\n") */
  function Split(s: string): (lines: seq<string>)
    ensures lines != []
  {
    if s == "" then [""]
    else
      var rest := Split(s[1..]);
      if s[0] == '\n' then [""] + rest else [[s[0]] + rest[0]] + rest[1..]
  }

  /** A line and its newline are split off. */
  lemma {:induction false} SplitLine(line: string, rest: string)
    requires '\n' !in line
    ensures Split(line + "\n" + rest) == [line] + Split(rest)
  {
    var s := line + "\n" + rest;
    if line == "" {
      assert s[1..] == rest;
    } else {
      assert s[1..] == line[1..] + "\n" + rest && line == [line[0]] + line[1..];
      SplitLine(line[1..], rest);
    }
  }

  lemma {:induction false} SplitOneLine(line: string)
    requires '\n' !in line
    ensures Split(line) == [line]
  {
    if line != "" {
      SplitOneLine(line[1..]);
      assert line == [line[0]] + line[1..];
    }
  }

  /** strings.IndexByte: the first place of c, or -1. */
  function Index(s: string, c: char): (k: int)
    ensures -1 <= k < |s|
    ensures k == -1 <==> c !in s
    ensures k >= 0 ==> s[k] == c && c !in s[..k]
  {
    if s == "" then -1
    else if s[0] == c then 0
    else
      var k := Index(s[1..], c);
      if k < 0 then -1 else (assert s[..k + 1][1..] == s[1..][..k]; k + 1)
  }

  lemma {:induction false} IndexAfter(prefix: string, c: char, rest: string)
    requires c !in prefix
    ensures Index(prefix + [c] + rest, c) == |prefix|
  {
    if prefix != "" {
      assert (prefix + [c] + rest)[1..] == prefix[1..] + [c] + rest;
      IndexAfter(prefix[1..], c, rest);
    }
  }
}
