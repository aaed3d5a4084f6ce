/** The delimiter counter of validation/validation.go: a one-pass scanner with six
    modes, proved against a declarative reading of the text as tokens. */
module Delimiters {
  import Strings = Text

  // ----- Text as tokens -----

  /** A piece of source text. A comment or literal that the text ends inside of is not closed. */
  datatype Token =
    | Code(c: char)
    | LineComment(body: string, closed: bool)
    | BlockComment(body: string, closed: bool)
    | Quoted(quote: char, body: string, closed: bool)
    | BackQuoted(body: string, closed: bool)
  {
    ghost predicate Complete() {
      !Code? && closed
    }
  }

  function Render(t: Token): string {
    match t
    case Code(c) => [c]
    case LineComment(body, closed) => "//" + body + if closed then "\n" else ""
    case BlockComment(body, closed) => "/*" + body + if closed then "*/" else ""
    case Quoted(q, body, closed) => [q] + body + if closed then [q] else ""
    case BackQuoted(body, closed) => "`" + body + if closed then "`" else ""
  }

  function Text(tokens: seq<Token>): string {
    if tokens == [] then "" else Render(tokens[0]) + Text(tokens[1..])
  }

  predicate Contains(s: string, a: char, b: char) {
    exists i :: 0 <= i < |s| - 1 && s[i] == a && s[i + 1] == b
  }

  /** Plain characters and backslash escapes; only an unclosed body may end in a lone backslash. */
  predicate EscapedBody(body: string, quote: char, closed: bool) {
    if body == "" then true
    else if body[0] == '\\' then (if |body| == 1 then !closed else EscapedBody(body[2..], quote, closed))
    else body[0] != quote && EscapedBody(body[1..], quote, closed)
  }

  predicate IsQuote(c: char) {
    c == '"' || c == '\''
  }

  predicate ValidToken(t: Token) {
    match t
    case Code(c) => !IsQuote(c) && c != '`'
    case LineComment(body, _) => '\n' !in body
    case BlockComment(body, _) => !Contains(body, '*', '/')
    case Quoted(q, body, closed) => IsQuote(q) && EscapedBody(body, q, closed)
    case BackQuoted(body, _) => '`' !in body
  }

  /** Tokens that read back as themselves: only the last may be unclosed, and a code slash
      is not followed by what would make it open a comment. */
  predicate WellFormed(tokens: seq<Token>) {
    tokens == []
    || var rest := Text(tokens[1..]);
       && ValidToken(tokens[0])
       && (tokens[0].Code? || tokens[0].closed || |tokens| == 1)
       && (tokens[0] == Code('/') && rest != "" ==> rest[0] != '/' && rest[0] != '*')
       && WellFormed(tokens[1..])
  }

  datatype Counts = Counts(curly: int, square: int, paren: int)

  function Plus(a: Counts, b: Counts): Counts {
    Counts(a.curly + b.curly, a.square + b.square, a.paren + b.paren)
  }

  const ZERO := Counts(0, 0, 0)

  function Delimiter(c: char): Counts {
    match c
    case '{' => Counts(1, 0, 0)
    case '}' => Counts(-1, 0, 0)
    case '[' => Counts(0, 1, 0)
    case ']' => Counts(0, -1, 0)
    case '(' => Counts(0, 0, 1)
    case ')' => Counts(0, 0, -1)
    case _ => ZERO
  }

  /** Opening minus closing delimiters among the code characters. */
  ghost function Net(tokens: seq<Token>): Counts {
    if tokens == [] then ZERO else
      Plus(if tokens[0].Code? then Delimiter(tokens[0].c) else ZERO, Net(tokens[1..]))
  }

  // ----- The scanner -----

  datatype Mode = Norm | Line | Block | Double | Single | Back

  function QuoteOf(m: Mode): char {
    if m == Double then '"' else '\''
  }

  /** What the scanner adds when it reads s starting in mode m. */
  ghost function Scan(s: string, m: Mode): Counts
    decreases |s|
  {
    if s == "" then ZERO else
      match m
      case Line => Scan(s[1..], if s[0] == '\n' then Norm else Line)
      case Block => if s[0] == '*' && |s| > 1 && s[1] == '/' then Scan(s[2..], Norm) else Scan(s[1..], Block)
      case Back => Scan(s[1..], if s[0] == '`' then Norm else Back)
      case Norm =>
        if s[0] == '/' && |s| > 1 && s[1] == '/' then Scan(s[2..], Line)
        else if s[0] == '/' && |s| > 1 && s[1] == '*' then Scan(s[2..], Block)
        else if s[0] == '"' then Scan(s[1..], Double)
        else if s[0] == '\'' then Scan(s[1..], Single)
        else if s[0] == '`' then Scan(s[1..], Back)
        else Plus(Delimiter(s[0]), Scan(s[1..], Norm))
      case _ =>
        if s[0] == '\\' && |s| > 1 then Scan(s[2..], m)
        else Scan(s[1..], if s[0] == QuoteOf(m) then Norm else m)
  }

  /** Scan from index i on. */
  ghost function ScanAt(s: string, i: nat, m: Mode): Counts
    requires i <= |s|
    decreases |s| - i
  {
    if i == |s| then ZERO else
      var pair := i + 1 < |s|;
      match m
      case Line => ScanAt(s, i + 1, if s[i] == '\n' then Norm else Line)
      case Block => if s[i] == '*' && pair && s[i + 1] == '/' then ScanAt(s, i + 2, Norm) else ScanAt(s, i + 1, Block)
      case Back => ScanAt(s, i + 1, if s[i] == '`' then Norm else Back)
      case Norm =>
        if s[i] == '/' && pair && s[i + 1] == '/' then ScanAt(s, i + 2, Line)
        else if s[i] == '/' && pair && s[i + 1] == '*' then ScanAt(s, i + 2, Block)
        else if s[i] == '"' then ScanAt(s, i + 1, Double)
        else if s[i] == '\'' then ScanAt(s, i + 1, Single)
        else if s[i] == '`' then ScanAt(s, i + 1, Back)
        else Plus(Delimiter(s[i]), ScanAt(s, i + 1, Norm))
      case _ =>
        if s[i] == '\\' && pair then ScanAt(s, i + 2, m)
        else ScanAt(s, i + 1, if s[i] == QuoteOf(m) then Norm else m)
  }

  lemma {:induction false} ScanAtIsScan(s: string, i: nat, m: Mode)
    requires i <= |s|
    ensures ScanAt(s, i, m) == Scan(s[i..], m)
    decreases |s| - i
  {
    if i < |s| {
      assert s[i..][1..] == s[i + 1..];
      forall n ensures ScanAt(s, i + 1, n) == Scan(s[i..][1..], n) {
        ScanAtIsScan(s, i + 1, n);
      }
      if i + 1 < |s| {
        assert s[i..][2..] == s[i + 2..];
        forall n ensures ScanAt(s, i + 2, n) == Scan(s[i..][2..], n) {
          ScanAtIsScan(s, i + 2, n);
        }
      }
    }
  }

  predicate OpensLiteral(c: char) {
    IsQuote(c) || c == '`'
  }

  /** The switch on a code character: a quote enters its mode, a delimiter is counted. */
  method CodeChar(c: char, curly0: int, square0: int, paren0: int)
    returns (st: Mode, curly: int, square: int, paren: int)
    ensures st == (if c == '"' then Double else if c == '\'' then Single else if c == '`' then Back else Norm)
    ensures Counts(curly, square, paren)
            == if OpensLiteral(c) then Counts(curly0, square0, paren0)
               else Plus(Counts(curly0, square0, paren0), Delimiter(c))
  {
    st, curly, square, paren := Norm, curly0, square0, paren0;
    match c {
      case '"' => st := Double;
      case '\'' => st := Single;
      case '`' => st := Back;
      case '{' => curly := curly + 1;
      case '}' => curly := curly - 1;
      case '[' => square := square + 1;
      case ']' => square := square - 1;
      case '(' => paren := paren + 1;
      case ')' => paren := paren - 1;
      case _ =>
    }
  }

  /** The counts are the net delimiters of the code characters, however the text is read as
      well-formed tokens. */
  method CountDelimiters(s: string) returns (curly: int, square: int, paren: int)
    ensures forall tokens :: WellFormed(tokens) && Text(tokens) == s ==> Counts(curly, square, paren) == Net(tokens)
    ensures Counts(curly, square, paren) == Scan(s, Norm)
  {
    hide Scan, Net, Text, WellFormed, Delimiter;
    curly, square, paren := 0, 0, 0;
    var st := Norm;
    var i := 0;
    while i < |s|
      invariant i <= |s|
      invariant Plus(Counts(curly, square, paren), ScanAt(s, i, st)) == ScanAt(s, 0, Norm)
    {
      var c := s[i];
      match st {
        case Line =>
          if c == '\n' {
            st := Norm;
          }
        case Block =>
          if c == '*' && i + 1 < |s| && s[i + 1] == '/' {
            st := Norm;
            i := i + 1;
          }
        case Double =>
          if c == '\\' && i + 1 < |s| {
            i := i + 1;
          } else if c == '"' {
            st := Norm;
          }
        case Single =>
          if c == '\\' && i + 1 < |s| {
            i := i + 1;
          } else if c == '\'' {
            st := Norm;
          }
        case Back =>
          if c == '`' {
            st := Norm;
          }
        case Norm =>
          if c == '/' && i + 1 < |s| && s[i + 1] == '/' {
            st := Line;
            i := i + 1;
          } else if c == '/' && i + 1 < |s| && s[i + 1] == '*' {
            st := Block;
            i := i + 1;
          } else {
            st, curly, square, paren := CodeChar(c, curly, square, paren);
          }
      }
      i := i + 1;
    }
    ScanAtIsScan(s, 0, Norm);
    assert s[0..] == s;
    NetOfEveryReading(s);
  }

  lemma NetOfEveryReading(s: string)
    ensures forall tokens :: WellFormed(tokens) && Text(tokens) == s ==> Scan(s, Norm) == Net(tokens)
  {
    forall tokens | WellFormed(tokens) && Text(tokens) == s ensures Scan(s, Norm) == Net(tokens) {
      ScanOfTokens(tokens);
    }
  }

  // ----- The scanner reads tokens -----

  lemma {:induction false} ScanLine(body: string, closed: bool, rest: string)
    requires '\n' !in body && (closed || rest == "")
    ensures Scan(body + (if closed then "\n" else "") + rest, Line) == Scan(rest, Norm)
  {
    var s := body + (if closed then "\n" else "") + rest;
    if body != "" {
      assert s[1..] == body[1..] + (if closed then "\n" else "") + rest;
      ScanLine(body[1..], closed, rest);
    } else if closed {
      assert s[1..] == rest;
    }
  }

  lemma {:induction false} ScanBack(body: string, closed: bool, rest: string)
    requires '`' !in body && (closed || rest == "")
    ensures Scan(body + (if closed then "`" else "") + rest, Back) == Scan(rest, Norm)
  {
    var s := body + (if closed then "`" else "") + rest;
    if body != "" {
      assert s[1..] == body[1..] + (if closed then "`" else "") + rest;
      ScanBack(body[1..], closed, rest);
    } else if closed {
      assert s[1..] == rest;
    }
  }

  lemma {:induction false} ScanBlock(body: string, closed: bool, rest: string)
    requires !Contains(body, '*', '/') && (closed || rest == "")
    ensures Scan(body + (if closed then "*/" else "") + rest, Block) == Scan(rest, Norm)
  {
    var s := body + (if closed then "*/" else "") + rest;
    if body != "" {
      assert s[1..] == body[1..] + (if closed then "*/" else "") + rest;
      if |body| > 1 {
        assert s[1] == body[1];
      }
      forall i | 0 <= i < |body[1..]| - 1 ensures !(body[1..][i] == '*' && body[1..][i + 1] == '/') {
        assert !(body[i + 1] == '*' && body[i + 2] == '/');
      }
      ScanBlock(body[1..], closed, rest);
    } else if closed {
      assert s[2..] == rest;
    }
  }

  lemma {:induction false} ScanQuoted(m: Mode, body: string, closed: bool, rest: string)
    requires m == Double || m == Single
    requires EscapedBody(body, QuoteOf(m), closed) && (closed || rest == "")
    ensures Scan(body + (if closed then [QuoteOf(m)] else "") + rest, m) == Scan(rest, Norm)
    decreases |body|
  {
    var tail := (if closed then [QuoteOf(m)] else "") + rest;
    var s := body + (if closed then [QuoteOf(m)] else "") + rest;
    assert s == body + tail;
    if body == "" {
      if closed {
        assert s[1..] == rest;
      }
    } else if body[0] == '\\' && |body| > 1 {
      assert s[2..] == body[2..] + (if closed then [QuoteOf(m)] else "") + rest;
      ScanQuoted(m, body[2..], closed, rest);
    } else {
      assert s[1..] == body[1..] + (if closed then [QuoteOf(m)] else "") + rest;
      ScanQuoted(m, body[1..], closed, rest);
    }
  }

  lemma ScanComment(t: Token, rest: string)
    requires ValidToken(t) && (t.LineComment? || t.BlockComment?) && (t.closed || rest == "")
    ensures Scan(Render(t) + rest, Norm) == Scan(rest, Norm)
  {
    var s := Render(t) + rest;
    if t.LineComment? {
      assert s[2..] == t.body + (if t.closed then "\n" else "") + rest;
      ScanLine(t.body, t.closed, rest);
    } else {
      assert s[2..] == t.body + (if t.closed then "*/" else "") + rest;
      ScanBlock(t.body, t.closed, rest);
    }
  }

  lemma ScanLiteral(t: Token, rest: string)
    requires ValidToken(t) && (t.Quoted? || t.BackQuoted?) && (t.closed || rest == "")
    ensures Scan(Render(t) + rest, Norm) == Scan(rest, Norm)
  {
    if t.Quoted? {
      var text := t.body + (if t.closed then [t.quote] else "") + rest;
      assert Render(t) + rest == [t.quote] + text;
      ScanQuoted(if t.quote == '"' then Double else Single, t.body, t.closed, rest);
    } else {
      var text := t.body + (if t.closed then "`" else "") + rest;
      assert Render(t) + rest == ['`'] + text;
      ScanBack(t.body, t.closed, rest);
    }
  }

  lemma ScanCode(c: char, rest: string)
    requires ValidToken(Code(c)) && (c == '/' && rest != "" ==> rest[0] != '/' && rest[0] != '*')
    ensures Scan([c] + rest, Norm) == Plus(Delimiter(c), Scan(rest, Norm))
  {
    assert ([c] + rest)[1..] == rest;
  }

  lemma ScanToken(t: Token, rest: string)
    requires ValidToken(t) && (t.Code? || t.closed || rest == "")
    requires t == Code('/') && rest != "" ==> rest[0] != '/' && rest[0] != '*'
    ensures Scan(Render(t) + rest, Norm) == Plus(if t.Code? then Delimiter(t.c) else ZERO, Scan(rest, Norm))
  {
    hide Scan;
    match t
    case Code(c) => ScanCode(c, rest);
    case LineComment(_, _) => ScanComment(t, rest);
    case BlockComment(_, _) => ScanComment(t, rest);
    case Quoted(_, _, _) => ScanLiteral(t, rest);
    case BackQuoted(_, _) => ScanLiteral(t, rest);
  }

  lemma {:induction false} ScanOfTokens(tokens: seq<Token>)
    requires WellFormed(tokens)
    ensures Scan(Text(tokens), Norm) == Net(tokens)
  {
    if tokens != [] {
      ScanOfTokens(tokens[1..]);
      ScanToken(tokens[0], Text(tokens[1..]));
    }
  }

  /** How often c is a code character. */
  ghost function Occurrences(tokens: seq<Token>, c: char): nat {
    if tokens == [] then 0 else (if tokens[0] == Code(c) then 1 else 0) + Occurrences(tokens[1..], c)
  }

  ghost function Differences(tokens: seq<Token>): Counts {
    Counts(Occurrences(tokens, '{') - Occurrences(tokens, '}'),
           Occurrences(tokens, '[') - Occurrences(tokens, ']'),
           Occurrences(tokens, '(') - Occurrences(tokens, ')'))
  }

  lemma {:induction false} NetIsDifferences(tokens: seq<Token>)
    ensures Net(tokens) == Differences(tokens)
  {
    if tokens != [] {
      NetIsDifferences(tokens[1..]);
    }
  }

  /** Each count is the number of its opening delimiters less that of its closing ones. */
  lemma CountsAreDifferences(tokens: seq<Token>)
    requires WellFormed(tokens)
    ensures Scan(Text(tokens), Norm) == Differences(tokens)
  {
    hide *;
    ScanOfTokens(tokens);
    NetIsDifferences(tokens);
  }

  // ----- Every text is a list of well-formed tokens -----

  lemma FirstBlockEnd(s: string) returns (k: nat)
    ensures k <= |s| && !Contains(s[..k], '*', '/')
    ensures k < |s| ==> k + 1 < |s| && s[k] == '*' && s[k + 1] == '/'
  {
    k := 0;
    while k < |s| && !(k + 1 < |s| && s[k] == '*' && s[k + 1] == '/')
      invariant k <= |s|
      invariant forall i :: 0 <= i < k && i + 1 < |s| ==> !(s[i] == '*' && s[i + 1] == '/')
    {
      k := k + 1;
    }
  }

  lemma {:induction false} FirstQuoteEnd(s: string, q: char) returns (k: nat)
    requires IsQuote(q)
    ensures k <= |s| && EscapedBody(s[..k], q, k < |s|) && (k < |s| ==> s[k] == q)
    decreases |s|
  {
    if s == "" || s[0] == q {
      k := 0;
    } else if s[0] == '\\' {
      if |s| == 1 {
        k := 1;
      } else {
        var n := FirstQuoteEnd(s[2..], q);
        k := n + 2;
        assert s[..k][2..] == s[2..][..n];
      }
    } else {
      var n := FirstQuoteEnd(s[1..], q);
      k := n + 1;
      assert s[..k][1..] == s[1..][..n];
    }
  }

  lemma {:induction false} Tokenise(s: string) returns (tokens: seq<Token>)
    ensures WellFormed(tokens) && Text(tokens) == s
    decreases |s|
  {
    hide ValidToken, Render;
    if s == "" {
      tokens := [];
    } else {
      var first, used := FirstToken(s);
      var rest := Tokenise(s[used..]);
      TextStart(rest);
      tokens := [first] + rest;
      assert tokens[1..] == rest;
    }
  }

  ghost predicate IsFirst(s: string, t: Token, used: nat) {
    && 0 < used <= |s| && Render(t) == s[..used] && ValidToken(t)
    && (t.Code? || t.closed || used == |s|)
    && (t == Code('/') && used < |s| ==> s[used] != '/' && s[used] != '*')
  }

  lemma FirstToken(s: string) returns (t: Token, used: nat)
    requires s != ""
    ensures IsFirst(s, t, used)
  {
    if |s| > 1 && s[0] == '/' && s[1] == '/' {
      var n := Strings.Index(s[2..], '\n');
      var k: nat := if n < 0 then |s| - 2 else n;
      assert s[2..][..|s| - 2] == s[2..];
      var closed := k < |s| - 2;
      t, used := LineComment(s[2..][..k], closed), 2 + k + if closed then 1 else 0;
    } else if |s| > 1 && s[0] == '/' && s[1] == '*' {
      var k := FirstBlockEnd(s[2..]);
      var closed := k < |s| - 2;
      t, used := BlockComment(s[2..][..k], closed), 2 + k + if closed then 2 else 0;
    } else if s[0] == '`' {
      var n := Strings.Index(s[1..], '`');
      var k: nat := if n < 0 then |s| - 1 else n;
      assert s[1..][..|s| - 1] == s[1..];
      var closed := k < |s| - 1;
      t, used := BackQuoted(s[1..][..k], closed), 1 + k + if closed then 1 else 0;
    } else if IsQuote(s[0]) {
      var k := FirstQuoteEnd(s[1..], s[0]);
      var closed := k < |s| - 1;
      t, used := Quoted(s[0], s[1..][..k], closed), 1 + k + if closed then 1 else 0;
    } else {
      t, used := Code(s[0]), 1;
    }
  }

  /** Every text can be read as well-formed tokens, and every reading has the same net counts. */
  lemma ReadingsAgree(s: string)
    ensures exists tokens :: WellFormed(tokens) && Text(tokens) == s
    ensures forall a, b :: WellFormed(a) && Text(a) == s && WellFormed(b) && Text(b) == s ==> Net(a) == Net(b)
  {
    var tokens := Tokenise(s);
    forall a, b | WellFormed(a) && Text(a) == s && WellFormed(b) && Text(b) == s ensures Net(a) == Net(b) {
      ScanOfTokens(a);
      ScanOfTokens(b);
    }
  }

  // ----- Well-nested text -----

  predicate IsOpener(c: char) {
    c == '{' || c == '[' || c == '('
  }

  predicate IsCloser(c: char) {
    c == '}' || c == ']' || c == ')'
  }

  function Opener(c: char): char {
    match c
    case '}' => '{'
    case ']' => '['
    case ')' => '('
    case _ => ' '
  }

  /** The code delimiters close in the order they were opened, given the ones still open. */
  ghost predicate Nested(tokens: seq<Token>, open: string)
    decreases |tokens|
  {
    if tokens == [] then open == ""
    else if !tokens[0].Code? then Nested(tokens[1..], open)
    else if IsOpener(tokens[0].c) then Nested(tokens[1..], [tokens[0].c] + open)
    else if IsCloser(tokens[0].c) then open != "" && open[0] == Opener(tokens[0].c) && Nested(tokens[1..], open[1..])
    else Nested(tokens[1..], open)
  }

  ghost function NetOpen(open: string): Counts {
    if open == "" then ZERO else Plus(Delimiter(open[0]), NetOpen(open[1..]))
  }

  lemma PairCancels(c: char)
    requires IsCloser(c)
    ensures Plus(Delimiter(c), Delimiter(Opener(c))) == ZERO
  {
  }

  lemma NestedHead(tokens: seq<Token>, open: string)
    requires Nested(tokens, open)
    ensures tokens == [] ==> open == ""
    ensures tokens != [] ==>
              var t := tokens[0];
              if t.Code? && IsOpener(t.c) then Nested(tokens[1..], [t.c] + open)
              else if t.Code? && IsCloser(t.c) then
                open != "" && open[0] == Opener(t.c) && Nested(tokens[1..], open[1..])
              else Nested(tokens[1..], open)
  {
  }

  lemma NetOfPush(open: string, c: char)
    ensures NetOpen([c] + open) == Plus(Delimiter(c), NetOpen(open))
  {
    assert ([c] + open)[1..] == open;
  }

  lemma NetOfHead(tokens: seq<Token>)
    requires tokens != []
    ensures Net(tokens) == Plus(if tokens[0].Code? then Delimiter(tokens[0].c) else ZERO, Net(tokens[1..]))
  {
  }

  /** The delimiters opened by the code characters and those still open cancel out. */
  lemma {:induction false} NestedNet(tokens: seq<Token>, open: string)
    requires Nested(tokens, open)
    ensures Plus(Net(tokens), NetOpen(open)) == ZERO
    decreases |tokens|
  {
    hide Delimiter, Opener, Net, NetOpen, Nested, Plus;
    NestedHead(tokens, open);
    if tokens == [] {
      EmptyNets();
    } else {
      var t := tokens[0];
      NetOfHead(tokens);
      if t.Code? && IsOpener(t.c) {
        NetOfPush(open, t.c);
        NestedNet(tokens[1..], [t.c] + open);
        OpenerSum(Delimiter(t.c), Net(tokens[1..]), NetOpen(open));
      } else if t.Code? && IsCloser(t.c) {
        PairCancels(t.c);
        NetOfPush(open[1..], open[0]);
        assert [open[0]] + open[1..] == open;
        NestedNet(tokens[1..], open[1..]);
        CloserSum(Delimiter(t.c), Delimiter(open[0]), Net(tokens[1..]), NetOpen(open[1..]));
      } else {
        NoDelimiter(t);
        NestedNet(tokens[1..], open);
        OpenerSum(ZERO, Net(tokens[1..]), NetOpen(open));
      }
    }
  }

  lemma EmptyNets()
    ensures Net([]) == ZERO == NetOpen("") == Plus(ZERO, ZERO)
  {
  }

  lemma NoDelimiter(t: Token)
    ensures t.Code? && !IsOpener(t.c) && !IsCloser(t.c) ==> Delimiter(t.c) == ZERO
  {
  }

  lemma OpenerSum(d: Counts, n: Counts, o: Counts)
    ensures Plus(ZERO, n) == n && Plus(ZERO, o) == o
    ensures Plus(n, Plus(d, o)) == ZERO ==> Plus(Plus(d, n), o) == ZERO
  {
  }

  lemma CloserSum(c: Counts, d: Counts, n: Counts, o: Counts)
    requires Plus(c, d) == ZERO && Plus(n, o) == ZERO
    ensures Plus(Plus(c, n), Plus(d, o)) == ZERO
  {
  }

  /** Well-nested text has balance (0,0,0). */
  lemma WellNestedIsBalanced(tokens: seq<Token>)
    requires WellFormed(tokens) && Nested(tokens, "")
    ensures Scan(Text(tokens), Norm) == ZERO
  {
    NestedNet(tokens, "");
    ScanOfTokens(tokens);
  }

  /** The converse does not hold: a closing delimiter before its opening one balances and is
      not well nested. */
  lemma BalancedNeedNotNest(closer: char)
    requires IsCloser(closer)
    ensures var tokens := [Code(closer), Code(Opener(closer))];
            WellFormed(tokens) && Net(tokens) == ZERO && !Nested(tokens, "")
  {
    hide Net, Text, WellFormed;
    hide Delimiter;
    var opener := Opener(closer);
    ReadAsCode(opener, []);
    ReadAsCode(closer, [Code(opener)]);
    PairCancels(closer);
    assert [Code(opener)] + [] == [Code(opener)];
    assert [Code(closer)] + [Code(opener)] == [Code(closer), Code(opener)];
  }

  lemma ReadAsCode(c: char, rest: seq<Token>)
    requires IsOpener(c) || IsCloser(c)
    ensures Net([]) == ZERO && WellFormed([])
    ensures Net([Code(c)] + rest) == Plus(Delimiter(c), Net(rest))
    ensures WellFormed(rest) ==> WellFormed([Code(c)] + rest)
  {
    assert ([Code(c)] + rest)[1..] == rest;
  }

  // ----- Inserting comments and literals -----

  lemma {:induction false} TextConcat(a: seq<Token>, b: seq<Token>)
    ensures Text(a + b) == Text(a) + Text(b)
  {
    if a == [] {
      assert a + b == b;
    } else {
      assert (a + b)[1..] == a[1..] + b;
      TextConcat(a[1..], b);
    }
  }

  lemma {:induction false} NetConcat(a: seq<Token>, b: seq<Token>)
    ensures Net(a + b) == Plus(Net(a), Net(b))
  {
    if a == [] {
      assert a + b == b;
    } else {
      assert (a + b)[1..] == a[1..] + b;
      NetConcat(a[1..], b);
    }
  }

  ghost predicate EndsInSlash(a: seq<Token>) {
    a != [] && a[|a| - 1] == Code('/')
  }

  /** Replacing what follows a keeps the text well-formed, provided a is all closed and what
      follows does not turn a final code slash into a comment. */
  lemma {:induction false} Continue(a: seq<Token>, b: seq<Token>, c: seq<Token>)
    requires WellFormed(a + b) && WellFormed(c)
    requires forall t :: t in a ==> t.Code? || t.closed
    requires EndsInSlash(a) && Text(c) != "" ==> Text(c)[0] != '/' && Text(c)[0] != '*'
    ensures WellFormed(a + c)
  {
    hide ValidToken, WellFormed, Text, Render;
    if a == [] {
      assert a + b == b && a + c == c;
    } else {
      var tail := a[1..];
      assert (a + b)[1..] == tail + b && a + c == [a[0]] + (tail + c);
      assert a[0] in a;
      WellFormedHead(a + b);
      Continue(tail, b, c);
      TextConcat(tail, b);
      TextConcat(tail, c);
      TextStart(tail);
      WellFormedCons(a[0], tail + c);
    }
  }

  lemma TextStart(tokens: seq<Token>)
    ensures tokens == [] <==> Text(tokens) == ""
  {
    if tokens != [] {
      assert Render(tokens[0]) != "";
    }
  }

  lemma WellFormedHead(tokens: seq<Token>)
    requires WellFormed(tokens) && tokens != []
    ensures ValidToken(tokens[0]) && WellFormed(tokens[1..])
    ensures tokens[0] == Code('/') && Text(tokens[1..]) != "" ==>
              Text(tokens[1..])[0] != '/' && Text(tokens[1..])[0] != '*'
  {
  }

  lemma WellFormedCons(t: Token, rest: seq<Token>)
    requires ValidToken(t) && (t.Code? || t.closed) && WellFormed(rest)
    requires t == Code('/') && Text(rest) != "" ==> Text(rest)[0] != '/' && Text(rest)[0] != '*'
    ensures WellFormed([t] + rest)
  {
    assert ([t] + rest)[1..] == rest;
  }

  lemma {:induction false} Suffix(a: seq<Token>, b: seq<Token>)
    requires WellFormed(a + b)
    ensures WellFormed(b)
  {
    if a == [] {
      assert a + b == b;
    } else {
      assert (a + b)[1..] == a[1..] + b;
      Suffix(a[1..], b);
    }
  }

  /** Inserting a complete comment or literal at a code position changes none of the three
      counts, unless it is a block comment right after a code slash. (a, b) is any reading
      of the text that has a token boundary at the position. */
  lemma InsertionIsInvisible(a: seq<Token>, b: seq<Token>, t: Token)
    requires WellFormed(a + b) && forall u :: u in a ==> u.Code? || u.closed
    requires ValidToken(t) && t.Complete()
    requires !(EndsInSlash(a) && t.BlockComment?)
    ensures Scan(Text(a) + Render(t) + Text(b), Norm) == Scan(Text(a) + Text(b), Norm)
  {
    hide Scan, WellFormed, Text, Net, Render, ValidToken;
    if EndsInSlash(a) && t.LineComment? {
      InsertLineAfterSlash(a, b, t);
    } else {
      InsertAsToken(a, b, t);
    }
  }

  lemma ConsText(t: Token, b: seq<Token>)
    ensures Text([t] + b) == Render(t) + Text(b)
    ensures Net([t] + b) == Plus(if t.Code? then Delimiter(t.c) else ZERO, Net(b))
    ensures WellFormed(b) && ValidToken(t) && t.Complete() ==> WellFormed([t] + b)
    ensures ValidToken(t) && !t.Code? ==>
              Render(t) != "" && Render(t)[0] != '*' && (Render(t)[0] == '/' <==> t.LineComment? || t.BlockComment?)
  {
    assert ([t] + b)[1..] == b;
  }

  lemma InsertAsToken(a: seq<Token>, b: seq<Token>, t: Token)
    requires WellFormed(a + b) && forall u :: u in a ==> u.Code? || u.closed
    requires ValidToken(t) && t.Complete()
    requires !(EndsInSlash(a) && (t.BlockComment? || t.LineComment?))
    ensures Scan(Text(a) + Render(t) + Text(b), Norm) == Scan(Text(a) + Text(b), Norm)
  {
    hide Scan, WellFormed, Text, Net, Render, ValidToken;
    Suffix(a, b);
    ConsText(t, b);
    Continue(a, b, [t] + b);
    TextConcat(a, b);
    TextConcat(a, [t] + b);
    assert Text(a + ([t] + b)) == Text(a) + Render(t) + Text(b);
    ScanOfTokens(a + b);
    ScanOfTokens(a + ([t] + b));
    NetConcat(a, b);
    NetConcat(a, [t] + b);
  }

  /** After a code slash a line comment takes the slash in. */
  lemma InsertLineAfterSlash(a: seq<Token>, b: seq<Token>, t: Token)
    requires WellFormed(a + b) && forall u :: u in a ==> u.Code? || u.closed
    requires ValidToken(t) && t.LineComment? && t.closed && EndsInSlash(a)
    ensures Scan(Text(a) + Render(t) + Text(b), Norm) == Scan(Text(a) + Text(b), Norm)
  {
    hide Scan, WellFormed, Text, Net, Render;
    var init, slash := a[..|a| - 1], Code('/');
    var longer := LineComment("/" + t.body, true);
    assert a == init + [slash] && a + b == init + ([slash] + b);
    Suffix(a, b);
    SlashBefore(init, [slash] + b);
    ConsText(longer, b);
    ConsText(slash, b);
    ConsText(slash, []);
    Continue(init, [slash] + b, [longer] + b);
    TextConcat(init, [slash]);
    TextConcat(init, [longer] + b);
    TextConcat(init, [slash] + b);
    LongerComment(t, Text(init), Text(b));
    assert a == init + [slash] && [slash] + [] == [slash];
    assert Text(a) == Text(init) + "/";
    assert Text(init + ([longer] + b)) == Text(a) + Render(t) + Text(b);
    assert Text(init + ([slash] + b)) == Text(a) + Text(b);
    ScanOfTokens(init + ([longer] + b));
    ScanOfTokens(init + ([slash] + b));
    NetConcat(init, [longer] + b);
    NetConcat(init, [slash] + b);
  }

  lemma LongerComment(t: Token, before: string, after: string)
    requires t.LineComment? && t.closed
    ensures before + (Render(LineComment("/" + t.body, true)) + after) == before + ([('/')] + "") + Render(t) + after
    ensures before + (Render(Code('/')) + after) == before + ("/" + "") + after
    ensures Text([]) == "" && Render(Code('/')) == "/"
  {
    assert Render(LineComment("/" + t.body, true)) == "/" + Render(t);
  }

  lemma {:induction false} SlashBefore(a: seq<Token>, b: seq<Token>)
    requires WellFormed(a + b) && b != [] && b[0] == Code('/')
    ensures !EndsInSlash(a)
  {
    if a != [] {
      assert (a + b)[1..] == a[1..] + b;
      SlashBefore(a[1..], b);
      if |a| == 1 {
        assert a[1..] + b == b;
        assert Text(b)[0] == '/';
      }
    }
  }

  lemma {:induction false} LineGoesOn(part: string, rest: string)
    requires '\n' !in part
    ensures Scan(part + rest, Line) == Scan(rest, Line)
  {
    if part == "" {
      assert part + rest == rest;
    } else {
      assert (part + rest)[1..] == part[1..] + rest;
      LineGoesOn(part[1..], rest);
    }
  }

  lemma LineOpens(text: string)
    ensures Scan("//" + text, Norm) == Scan(text, Line)
  {
    assert ("//" + text)[2..] == text;
  }

  // ----- A block comment after a code slash -----

  /** What is read after the tokens a, as long as a final code slash stays code. */
  lemma ScanAfter(a: seq<Token>, b: seq<Token>, s: string)
    requires WellFormed(a + b) && forall u :: u in a ==> u.Code? || u.closed
    requires EndsInSlash(a) && s != "" ==> s[0] != '/' && s[0] != '*'
    ensures Scan(Text(a) + s, Norm) == Plus(Net(a), Scan(s, Norm))
  {
    hide Scan, WellFormed, Text, Net;
    var tokens := Tokenise(s);
    Continue(a, b, tokens);
    TextConcat(a, tokens);
    NetConcat(a, tokens);
    ScanOfTokens(a + tokens);
    ScanOfTokens(tokens);
  }

  /** What the scanner makes of rest when a block comment with this body is put before it,
      right after a code slash: the slash opens a line comment, which lasts to the first newline
      of the body, or else goes on into rest. What follows such a newline is read as code. */
  ghost function Hidden(body: string, rest: string): Counts {
    var n := Strings.Index(body, '\n');
    if n < 0 then Scan(rest, Line) else Scan(body[n + 1..] + "*/" + rest, Norm)
  }

  lemma HiddenIsRead(body: string, rest: string)
    ensures Scan("*" + body + "*/" + rest, Line) == Hidden(body, rest)
  {
    var n := Strings.Index(body, '\n');
    var text := "*" + body + "*/" + rest;
    if n < 0 {
      assert text == ("*" + body + "*/") + rest;
      LineGoesOn("*" + body + "*/", rest);
    } else {
      var after := body[n + 1..] + "*/" + rest;
      assert body == body[..n] + "\n" + body[n + 1..];
      assert text == ("*" + body[..n]) + ("\n" + after);
      LineGoesOn("*" + body[..n], "\n" + after);
      assert ("\n" + after)[1..] == after;
    }
  }

  /** Inserting a block comment right after a code slash, for any reading (a, b) of the text
      around the place: the counts stay the same exactly when what becomes of the rest counts
      the same as the rest read as code. */
  lemma BlockAfterSlashIff(a: seq<Token>, b: seq<Token>, body: string)
    requires WellFormed(a + b) && forall u :: u in a ==> u.Code? || u.closed
    requires EndsInSlash(a) && ValidToken(BlockComment(body, true))
    ensures var inserted := Scan(Text(a) + Render(BlockComment(body, true)) + Text(b), Norm);
            && inserted == Plus(Net(a), Hidden(body, Text(b)))
            && (inserted == Scan(Text(a) + Text(b), Norm) <==> Hidden(body, Text(b)) == Scan(Text(b), Norm))
  {
    hide Scan, WellFormed, Text, Net, ValidToken, Hidden, Render;
    AfterSlash(a, b);
    ScanAfter(a, b, Text(b));
    InsertedAfterSlash(a, b, body);
  }

  lemma InsertedAfterSlash(a: seq<Token>, b: seq<Token>, body: string)
    requires WellFormed(a + b) && (forall u :: u in a ==> u.Code? || u.closed) && EndsInSlash(a) && a != []
    ensures Scan(Text(a) + Render(BlockComment(body, true)) + Text(b), Norm) == Plus(Net(a), Hidden(body, Text(b)))
  {
    hide *;
    var init := a[..|a| - 1];
    FinalSlash(a);
    assert a + b == init + ([Code('/')] + b);
    SlashBefore(init, [Code('/')] + b);
    ScanAfter(init, [Code('/')] + b, "//" + ("*" + body + "*/" + Text(b)));
    LineOpens("*" + body + "*/" + Text(b));
    HiddenIsRead(body, Text(b));
    SlashBecomesLine(Text(init), body, Text(b));
  }

  lemma FinalSlash(a: seq<Token>)
    requires EndsInSlash(a)
    ensures a == a[..|a| - 1] + [Code('/')]
    ensures Text(a) == Text(a[..|a| - 1]) + "/" && Net(a) == Net(a[..|a| - 1])
  {
    SlashAlone();
    hide Text, Net;
    var init := a[..|a| - 1];
    assert a == init + [Code('/')];
    TextConcat(init, [Code('/')]);
    NetConcat(init, [Code('/')]);
  }

  lemma SlashBecomesLine(before: string, body: string, rest: string)
    ensures before + "/" + Render(BlockComment(body, true)) + rest == before + ("//" + ("*" + body + "*/" + rest))
  {
  }

  lemma SlashAlone()
    ensures Text([Code('/')]) == "/" && Net([Code('/')]) == ZERO == Delimiter('/')
  {
    assert [Code('/')][1..] == [];
  }

  /** A one-line block comment hides all of a rest without newline. */
  lemma OneLineIsHidden(body: string, rest: string)
    requires '\n' !in body && '\n' !in rest
    ensures Hidden(body, rest) == ZERO
  {
    assert Scan("", Line) == ZERO;
    LineGoesOn(rest, "");
    assert rest + "" == rest;
  }

  /** The exception is real: after a slash, a block comment takes away a delimiter. */
  lemma BlockAfterSlashHides(c: char)
    requires IsOpener(c) || IsCloser(c)
    ensures Scan("/" + ("/*" + "" + "*/") + [c], Norm) == ZERO
    ensures Scan("/" + [c], Norm) == Delimiter(c) != ZERO
  {
    assert ZERO != Delimiter(c);
    ReadAfterSlash("", [c]);
    OneLineIsHidden("", [c]);
    OneCode(c);
  }

  lemma ReadAfterSlash(body: string, rest: string)
    requires rest != "" ==> rest[0] != '/' && rest[0] != '*'
    ensures Scan("/" + ("/*" + body + "*/") + rest, Norm) == Hidden(body, rest)
    ensures Scan("/" + rest, Norm) == Scan(rest, Norm)
  {
    SlashAlone();
    hide Scan, Hidden, Delimiter;
    assert "/" + ("/*" + body + "*/") + rest == "//" + ("*" + body + "*/" + rest);
    LineOpens("*" + body + "*/" + rest);
    HiddenIsRead(body, rest);
    assert "/" + rest == ['/'] + rest;
    ScanCode('/', rest);
  }

  lemma OneCode(c: char)
    requires IsOpener(c) || IsCloser(c)
    ensures Scan([c], Norm) == Delimiter(c)
  {
    assert [c] + "" == [c];
    ScanCode(c, "");
  }

  /** It is not in the way of every comment: one that ends with its first newline leaves the
      counts as they are after a slash, too. */
  lemma NewlineEndsHiding(a: seq<Token>, b: seq<Token>, line: string)
    requires WellFormed(a + b) && forall u :: u in a ==> u.Code? || u.closed
    requires EndsInSlash(a) && ValidToken(BlockComment(line + "\n", true)) && '\n' !in line
    ensures Scan(Text(a) + Render(BlockComment(line + "\n", true)) + Text(b), Norm) == Scan(Text(a) + Text(b), Norm)
  {
    hide Scan, WellFormed, Text, Net, ValidToken, Delimiter, Render;
    var body, rest := line + "\n", Text(b);
    Strings.IndexAfter(line, '\n', "");
    assert line + ['\n'] + "" == body && body[|line| + 1..] == "";
    assert "" + "*/" + rest == ['*'] + ("/" + rest) && "/" + rest == ['/'] + rest;
    StarIsCode();
    SlashAlone();
    AfterSlash(a, b);
    ScanCode('*', "/" + rest);
    ScanCode('/', rest);
    BlockAfterSlashIff(a, b, body);
  }

  lemma StarIsCode()
    ensures ValidToken(Code('*')) && ValidToken(Code('/')) && Delimiter('*') == ZERO
  {
  }

  lemma {:induction false} AfterSlash(a: seq<Token>, b: seq<Token>)
    requires WellFormed(a + b) && EndsInSlash(a)
    ensures Text(b) != "" ==> Text(b)[0] != '/' && Text(b)[0] != '*'
  {
    hide ValidToken, Render;
    assert (a + b)[1..] == a[1..] + b;
    if |a| > 1 {
      AfterSlash(a[1..], b);
    } else {
      assert a[1..] + b == b;
    }
  }
}
