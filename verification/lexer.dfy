/** The current scanner: token types, their printed forms, and `TokenScanner`,
    which turns the positioned characters of a list of source lines into tokens. */
module Lexer {
  import opened Extensions

  datatype TokenType =
    // Single-character tokens.
    | LeftParen | RightParen | LeftBrace | RightBrace
    | Comma | Dot | Minus | Plus | Semicolon | Slash | Star
    // One or two character tokens.
    | Bang | BangEqual | Equal | EqualEqual
    | Greater | GreaterEqual | Less | LessEqual
    // Literals. A number keeps its digit lexeme instead of a `Double`.
    | Identifier(name: string) | Str(text: string) | Number(lexeme: string)
    // Keywords.
    | And | Class | Else | Fun | For | If | Nil | Or
    | Print | Return | Super | This | Var | While
    | Bool(value: bool)
    // Recognised but never yielded.
    | Comment | Whitespace | Unknown
    | Eof

  datatype Token = Token(kind: TokenType, pos: Pos)

  /** A character of the source together with its position. */
  datatype CharPos = CharPos(ch: char, pos: Pos)

  // ---------------------------------------------------------------------------
  // The `keywords` and `specials` tables and `TokenType.repr()`.

  /** The `keywords` table: the spelling of each reserved word. */
  function KeywordRepr(t: TokenType): Option<string>
  {
    match t
    case And => Some("and")
    case Class => Some("class")
    case Else => Some("else")
    case Bool(b) => Some(if b then "true" else "false")
    case For => Some("for")
    case Fun => Some("fun")
    case If => Some("if")
    case Nil => Some("nil")
    case Or => Some("or")
    case Print => Some("print")
    case Return => Some("return")
    case Super => Some("super")
    case This => Some("this")
    case Var => Some("var")
    case While => Some("while")
    case _ => None
  }

  /** The scanner's `keywords`: the `keywords` table inverted, from each
      reserved word to its token type. */
  const Keywords: map<string, TokenType> := map[
    "and" := And, "class" := Class, "else" := Else, "false" := Bool(false),
    "for" := For, "fun" := Fun, "if" := If, "nil" := Nil, "or" := Or,
    "print" := Print, "return" := Return, "super" := Super, "this" := This,
    "true" := Bool(true), "var" := Var, "while" := While]

  /** `keywords[s]`: the token type a whole identifier lexeme stands for, if it
      is a reserved word. */
  function KeywordOf(s: string): (r: Option<TokenType>)
  {
    if s in Keywords then Some(Keywords[s]) else None
  }

  /** The scanner's table is the exact inverse of the `keywords` table. */
  lemma KeywordTablesInverse(s: string, t: TokenType)
    ensures KeywordOf(s) == Some(t) <==> KeywordRepr(t) == Some(s)
  {
  }

  /** The `specials` table: the spelling of each punctuation token and of EOF. */
  function SpecialRepr(t: TokenType): Option<string>
  {
    match t
    case LeftParen => Some("(")
    case RightParen => Some(")")
    case LeftBrace => Some("{")
    case RightBrace => Some("}")
    case Comma => Some(",")
    case Dot => Some(".")
    case Minus => Some("-")
    case Plus => Some("+")
    case Semicolon => Some(";")
    case Slash => Some("/")
    case Star => Some("*")
    case Bang => Some("!")
    case BangEqual => Some("!=")
    case Equal => Some("=")
    case EqualEqual => Some("==")
    case Greater => Some(">")
    case GreaterEqual => Some(">=")
    case Less => Some("<")
    case LessEqual => Some("<=")
    case Eof => Some("<EOF>")
    case _ => None
  }

  /** `TokenType.repr()`: the keyword or special spelling, otherwise a tagged
      rendering of the payload, otherwise empty. */
  function Repr(t: TokenType): (s: string)
    ensures KeywordRepr(t).Some? ==> s == KeywordRepr(t).value
    ensures KeywordRepr(t).None? && SpecialRepr(t).Some? ==> s == SpecialRepr(t).value
    ensures t.Identifier? ==> s == "IDENT `" + t.name + "`"
    ensures s == "" <==> t in {Comment, Whitespace, Unknown}
  {
    match KeywordRepr(t)
    case Some(k) => k
    case None =>
      match SpecialRepr(t)
      case Some(k) => k
      case None =>
        match t
        case Identifier(v) => "IDENT `" + v + "`"
        case Str(v) => "STRING \"" + v + "\""
        case Number(v) => "NUM `" + v + "`"
        case _ => ""
  }

  // ---------------------------------------------------------------------------
  // Character classes.

  /** `alphaNum`: digits, letters and `_`. */
  predicate IsAlphaNum(c: char) { IsDigit(c) || IsLetter(c) || c == '_' }

  /** The characters `skipWhitespace` skips. */
  predicate IsBlank(c: char) { c == ' ' || c == '\r' || c == '\t' || c == '\n' }

  // ---------------------------------------------------------------------------
  // Positioned input.

  /** The characters of line number `lineNo`, columns counted from 1. */
  function LineChars(line: string, lineNo: int): (cs: seq<CharPos>)
    ensures |cs| == |line|
    ensures forall k :: 0 <= k < |cs| ==> cs[k] == CharPos(line[k], Pos(lineNo, k + 1))
  {
    seq(|line|, k requires 0 <= k < |line| => CharPos(line[k], Pos(lineNo, k + 1)))
  }

  /** Lexicographic order on positions. */
  predicate Before(p: Pos, q: Pos) { p.line < q.line || (p.line == q.line && p.col < q.col) }

  /** The scanner's input: the characters of all lines in order, each with its
      1-based line and column. */
  function Positioned(lines: seq<string>): (cs: seq<CharPos>)
    ensures forall k :: 0 <= k < |cs| ==> 1 <= cs[k].pos.line <= |lines| && cs[k].pos.col >= 1
    ensures forall k :: 0 < k < |cs| ==> Before(cs[k - 1].pos, cs[k].pos)
    decreases |lines|
  {
    if lines == [] then []
    else
      var front := Positioned(lines[..|lines| - 1]);
      var last := LineChars(lines[|lines| - 1], |lines|);
      assert forall k :: 0 <= k < |front| ==> (front + last)[k] == front[k];
      front + last
  }

  /** The characters of a stretch of positioned input. */
  function Text(cs: seq<CharPos>): (s: string)
    ensures |s| == |cs| && forall k :: 0 <= k < |cs| ==> s[k] == cs[k].ch
  {
    seq(|cs|, k requires 0 <= k < |cs| => cs[k].ch)
  }

  // ---------------------------------------------------------------------------
  // The scanning rules, as functions of the input and a cursor into it.

  /** The character classes the scanner consumes runs of. */
  datatype CharClass = Digits | AlphaNums | Blanks

  predicate InClass(c: char, k: CharClass)
  {
    match k
    case Digits => IsDigit(c)
    case AlphaNums => IsAlphaNum(c)
    case Blanks => IsBlank(c)
  }

  /** End of the longest run of characters of class `k` that starts at `i`. */
  function RunEnd(cs: seq<CharPos>, i: nat, k: CharClass): (j: nat)
    requires i <= |cs|
    ensures i <= j <= |cs|
    ensures forall m :: i <= m < j ==> InClass(cs[m].ch, k)
    ensures j < |cs| ==> !InClass(cs[j].ch, k)
    decreases |cs| - i
  {
    if i == |cs| || !InClass(cs[i].ch, k) then i else RunEnd(cs, i + 1, k)
  }

  /** `match(c)`: whether the next character is `c` (and is then consumed). */
  predicate Follows(cs: seq<CharPos>, i: nat, c: char)
  {
    i < |cs| && cs[i].ch == c
  }

  /** Where `skipComment` stops: the next character in column 1, or the end. */
  function CommentEnd(cs: seq<CharPos>, i: nat): (j: nat)
    requires i <= |cs|
    ensures i <= j <= |cs|
    ensures forall k :: i <= k < j ==> cs[k].pos.col != 1
    ensures j < |cs| ==> cs[j].pos.col == 1
    decreases |cs| - i
  {
    if i == |cs| || cs[i].pos.col == 1 then i else CommentEnd(cs, i + 1)
  }

  /** Where `scanNum` stops, given the cursor after the first digit: the digit
      run, then a `.` if one follows, then the digit run after it. */
  function NumberEnd(cs: seq<CharPos>, i: nat): (j: nat)
    requires i <= |cs|
    ensures i <= j <= |cs|
  {
    var d := RunEnd(cs, i, Digits);
    if Follows(cs, d, '.') then RunEnd(cs, d + 1, Digits) else d
  }

  /** Index of the first `"` at or after `i`, or the end of the input. */
  function QuoteIndex(cs: seq<CharPos>, i: nat): (j: nat)
    requires i <= |cs|
    ensures i <= j <= |cs|
    ensures forall k :: i <= k < j ==> cs[k].ch != '"'
    ensures j < |cs| ==> cs[j].ch == '"'
    decreases |cs| - i
  {
    if i == |cs| || cs[i].ch == '"' then i else QuoteIndex(cs, i + 1)
  }

  /** The body of a string literal: its characters, with a line break put in
      front of each one that begins a line. */
  function StrText(cs: seq<CharPos>): string
  {
    if cs == [] then ""
    else (if cs[0].pos.col == 1 then "\n" else "") + [cs[0].ch] + StrText(cs[1..])
  }

  /** What one pass of the main loop recognises at `i`: a token type, the
      cursor after it, and what it logged. */
  datatype Lexed = Lexed(kind: TokenType, next: nat, log: seq<Diag>)

  /** `scanStr`, the opening quote being at `i - 1`. The literal is accepted
      only when input remains after its closing quote. */
  function StringLexed(cs: seq<CharPos>, i: nat): (r: Lexed)
    requires 0 < i <= |cs|
    ensures i <= r.next <= |cs|
    ensures r.kind.Str? ==> r.next < |cs| && r.log == []
    ensures !r.kind.Str? ==> r.kind == Unknown && r.next == |cs| && r.log == [Diag(Some(cs[i - 1].pos), "Unterminated String")]
  {
    var q := QuoteIndex(cs, i);
    var after := if q < |cs| then q + 1 else q;
    if after < |cs| then Lexed(Str(StrText(cs[i..q])), after, [])
    else Lexed(Unknown, after, [Diag(Some(cs[i - 1].pos), "Unterminated String")])
  }

  /** The ten tokens that are always a single character. */
  function SingleChar(c: char): (r: Option<TokenType>)
  {
    match c
    case '(' => Some(LeftParen)
    case ')' => Some(RightParen)
    case '{' => Some(LeftBrace)
    case '}' => Some(RightBrace)
    case ',' => Some(Comma)
    case '.' => Some(Dot)
    case '-' => Some(Minus)
    case '+' => Some(Plus)
    case ';' => Some(Semicolon)
    case '*' => Some(Star)
    case _ => None
  }

  /** The four characters that make a two-character token when `=` follows:
      the one-character token and the two-character one. */
  function WithEqual(c: char): (r: Option<(TokenType, TokenType)>)
  {
    match c
    case '!' => Some((Bang, BangEqual))
    case '=' => Some((Equal, EqualEqual))
    case '<' => Some((Less, LessEqual))
    case '>' => Some((Greater, GreaterEqual))
    case _ => None
  }

  /** `scanNum`, the first digit being at `i`. */
  function NumberLexed(cs: seq<CharPos>, i: nat): (r: Lexed)
    requires i < |cs|
    ensures i < r.next <= |cs| && r.log == []
    ensures r.kind == Number(Text(cs[i..r.next]))
    ensures r.next == |cs| || !IsDigit(cs[r.next].ch)
  {
    var j := NumberEnd(cs, i + 1);
    Lexed(Number(Text(cs[i..j])), j, [])
  }

  /** `scanIdent`, the first character being at `i`: the whole alphanumeric
      run is looked up in the keyword table. */
  function WordLexed(cs: seq<CharPos>, i: nat): (r: Lexed)
    requires i < |cs|
    ensures i < r.next <= |cs| && r.log == []
    ensures r.next == |cs| || !IsAlphaNum(cs[r.next].ch)
  {
    var j := RunEnd(cs, i + 1, AlphaNums);
    var word := Text(cs[i..j]);
    Lexed(match KeywordOf(word) case Some(k) => k case None => Identifier(word), j, [])
  }

  /** `!`, `=`, `<` or `>` at `i`, with `match('=')` deciding between the one
      and the two character token. */
  function OperatorLexed(cs: seq<CharPos>, i: nat): (r: Lexed)
    requires i < |cs| && WithEqual(cs[i].ch).Some?
    ensures i < r.next <= |cs| && r.log == []
  {
    var pair := WithEqual(cs[i].ch).value;
    if Follows(cs, i + 1, '=') then Lexed(pair.1, i + 2, []) else Lexed(pair.0, i + 1, [])
  }

  /** `/` at `i`: a comment when `match('/')` succeeds, else the `/` token. */
  function SlashLexed(cs: seq<CharPos>, i: nat): (r: Lexed)
    requires i < |cs|
    ensures i < r.next <= |cs| && r.log == []
  {
    if Follows(cs, i + 1, '/') then Lexed(Comment, CommentEnd(cs, i + 2), []) else Lexed(Slash, i + 1, [])
  }

  /** The `when (curr)` of `scanTokens` for the character at `i`, with the
      scanning function it dispatches to. */
  function LexOne(cs: seq<CharPos>, i: nat): (r: Lexed)
    requires i < |cs|
    ensures i < r.next <= |cs|
    ensures r.kind != Eof
  {
    var c := cs[i].ch;
    if SingleChar(c).Some? then Lexed(SingleChar(c).value, i + 1, [])
    else if WithEqual(c).Some? then OperatorLexed(cs, i)
    else if c == '/' then SlashLexed(cs, i)
    else if IsDigit(c) then NumberLexed(cs, i)
    else if IsLetter(c) || c == '_' then WordLexed(cs, i)
    else if c == '"' then StringLexed(cs, i + 1)
    else if IsBlank(c) then Lexed(Whitespace, RunEnd(cs, i + 1, Blanks), [])
    else Lexed(Unknown, i + 1, [])
  }

  /** The text of the input a token is read from, for the tokens whose text is
      fixed by their type: keywords, punctuation, identifiers and numbers. */
  function Spelling(t: TokenType): Option<string>
  {
    match t
    case Identifier(v) => Some(v)
    case Number(v) => Some(v)
    case Str(_) => None
    case Eof => None
    case _ => if KeywordRepr(t).Some? then KeywordRepr(t) else SpecialRepr(t)
  }

  /** The lexeme `r` read at `i` is spelled by exactly the characters consumed
      for it, and the munch is maximal: an operator that could take a
      following `=` did, and an identifier, keyword or number run stops before
      a character that could continue it. */
  ghost predicate WellSpelled(cs: seq<CharPos>, i: nat, r: Lexed)
  {
    && i < r.next <= |cs|
    && (Spelling(r.kind).Some? ==> Text(cs[i..r.next]) == Spelling(r.kind).value)
    && (r.kind in {Bang, Equal, Less, Greater} ==> !Follows(cs, r.next, '='))
    && (r.kind.Identifier? || KeywordRepr(r.kind).Some? ==> r.next == |cs| || !IsAlphaNum(cs[r.next].ch))
    && (r.kind.Identifier? ==> KeywordOf(r.kind.name) == None)
    && (r.kind.Number? ==> r.next == |cs| || !IsDigit(cs[r.next].ch))
    && (r.kind.Number? ==> IsNumeral(r.kind.lexeme) && forall n :: r.next < n <= |cs| ==> !IsNumeral(Text(cs[i..n])))
    && (r.kind.Str? ==> i + 2 <= r.next && r.kind.text == StrText(cs[i + 1..r.next - 1]))
  }

  lemma SingleSpelling(cs: seq<CharPos>, i: nat)
    requires i < |cs| && SingleChar(cs[i].ch).Some?
    ensures WellSpelled(cs, i, Lexed(SingleChar(cs[i].ch).value, i + 1, []))
  {
    assert Text(cs[i..i + 1]) == [cs[i].ch];
  }

  lemma OperatorSpelling(cs: seq<CharPos>, i: nat)
    requires i < |cs| && WithEqual(cs[i].ch).Some?
    ensures WellSpelled(cs, i, OperatorLexed(cs, i))
  {
    if Follows(cs, i + 1, '=') {
      assert Text(cs[i..i + 2]) == [cs[i].ch, '='];
    } else {
      assert Text(cs[i..i + 1]) == [cs[i].ch];
    }
  }

  lemma SlashSpelling(cs: seq<CharPos>, i: nat)
    requires i < |cs| && cs[i].ch == '/'
    ensures WellSpelled(cs, i, SlashLexed(cs, i))
  {
    if !Follows(cs, i + 1, '/') {
      assert Text(cs[i..i + 1]) == "/";
    }
  }

  /** A word is a keyword exactly when the whole run spells one. */
  lemma WordSpelling(cs: seq<CharPos>, i: nat)
    requires i < |cs|
    ensures WellSpelled(cs, i, WordLexed(cs, i))
    ensures WordLexed(cs, i).kind.Identifier? || KeywordRepr(WordLexed(cs, i).kind).Some?
  {
    var r := WordLexed(cs, i);
    var word := Text(cs[i..r.next]);
    match KeywordOf(word)
    case Some(k) => KeywordTablesInverse(word, k);
    case None =>
  }

  /** A number is the longest numeral that starts at its first digit: a digit
      run, then a `.` and a second digit run when a `.` follows the first. */
  lemma NumberShape(cs: seq<CharPos>, i: nat)
    requires i < |cs| && IsDigit(cs[i].ch)
    ensures var r := NumberLexed(cs, i);
      && IsNumeral(Text(cs[i..r.next]))
      && forall n :: r.next < n <= |cs| ==> !IsNumeral(Text(cs[i..n]))
  {
    var e := NumberLexed(cs, i).next;
    var d := RunEnd(cs, i + 1, Digits);
    var s := Text(cs[i..e]);
    if Follows(cs, d, '.') {
      assert s[d - i] == '.';
      forall k | 0 <= k < |s| && k != d - i
        ensures IsDigit(s[k])
      {
        assert s[k] == cs[i + k].ch;
      }
      forall n | e < n <= |cs|
        ensures !IsNumeral(Text(cs[i..n]))
      {
        var t := Text(cs[i..n]);
        assert t[d - i] == cs[d].ch && t[e - i] == cs[e].ch;
      }
    } else {
      forall k | 0 <= k < |s|
        ensures IsDigit(s[k])
      {
        assert s[k] == cs[i + k].ch;
      }
      forall n | e < n <= |cs|
        ensures !IsNumeral(Text(cs[i..n]))
      {
        assert Text(cs[i..n])[e - i] == cs[e].ch;
      }
    }
  }

  /** A string literal runs to the first `"` after its opening quote and is
      accepted exactly when input remains after that quote; its text is the
      characters between the quotes, each that begins a line preceded by a
      line break. Otherwise the whole rest of the input is consumed and
      `Unterminated String` is logged at the opening quote. */
  lemma StringShape(cs: seq<CharPos>, i: nat)
    requires 0 < i <= |cs|
    ensures var r := StringLexed(cs, i);
      && (r.kind.Str? ==>
            && i < r.next < |cs| && cs[r.next - 1].ch == '"'
            && (forall k :: i <= k < r.next - 1 ==> cs[k].ch != '"')
            && r.kind.text == StrText(cs[i..r.next - 1]) && r.log == [])
      && (!r.kind.Str? ==>
            && r.kind == Unknown && r.next == |cs|
            && (forall k :: i <= k < |cs| - 1 ==> cs[k].ch != '"')
            && r.log == [Diag(Some(cs[i - 1].pos), "Unterminated String")])
  {
  }

  lemma NumberSpelling(cs: seq<CharPos>, i: nat)
    requires i < |cs| && IsDigit(cs[i].ch)
    ensures WellSpelled(cs, i, NumberLexed(cs, i))
  {
    NumberShape(cs, i);
  }

  lemma StringSpelling(cs: seq<CharPos>, i: nat)
    requires i + 1 <= |cs| && cs[i].ch == '"'
    ensures WellSpelled(cs, i, StringLexed(cs, i + 1))
  {
    StringShape(cs, i + 1);
  }

  /** Each recognised token is spelled by exactly the characters consumed for
      it, with maximal munch; whitespace, comments, strings and unknown
      characters have no fixed spelling. */
  lemma LexOneSpelling(cs: seq<CharPos>, i: nat)
    requires i < |cs|
    ensures WellSpelled(cs, i, LexOne(cs, i))
  {
    var c := cs[i].ch;
    if SingleChar(c).Some? {
      SingleSpelling(cs, i);
    } else if WithEqual(c).Some? {
      OperatorSpelling(cs, i);
    } else if c == '/' {
      SlashSpelling(cs, i);
    } else if IsDigit(c) {
      NumberSpelling(cs, i);
    } else if IsLetter(c) || c == '_' {
      WordSpelling(cs, i);
    } else if c == '"' {
      StringSpelling(cs, i);
    }
  }

  /** What the main loop yields and what it logs. */
  datatype Scanned = Scanned(tokens: seq<Token>, log: seq<Diag>)

  /** The `when (token)` of the main loop for a token type read at position
      `p`: nothing for whitespace and comments, a diagnostic for an unknown
      character, the token otherwise. */
  function Yielded(kind: TokenType, p: Pos): (r: Scanned)
    ensures |r.tokens| + |r.log| <= 1
    ensures r.tokens == [] <==> kind in {Whitespace, Comment, Unknown}
    ensures r.log != [] <==> kind == Unknown
    ensures r.tokens != [] ==> r.tokens[0] == Token(kind, p)
  {
    if kind == Whitespace || kind == Comment then Scanned([], [])
    else if kind == Unknown then Scanned([], [Diag(Some(p), "Unexpected character")])
    else Scanned([Token(kind, p)], [])
  }

  /** Everything one pass yields and logs for the lexeme `l` read at `p`:
      the scanning function's own diagnostics come first. */
  function Emitted(l: Lexed, p: Pos): (r: Scanned)
  {
    Scanned(Yielded(l.kind, p).tokens, l.log + Yielded(l.kind, p).log)
  }

  /** The main loop of `scanTokens` from cursor `i`; `last` is `lastPos`, the
      position of the character the previous pass started at. */
  function ScanFrom(cs: seq<CharPos>, i: nat, last: Pos): (r: Scanned)
    requires i <= |cs|
    decreases |cs| - i, 1
  {
    if i == |cs| then Scanned([Token(Eof, Pos(last.line, last.col + 1))], [])
    else ScanPass(cs, i, LexOne(cs, i))
  }

  /** The pass that read lexeme `l` from `i`, followed by the rest of the loop. */
  function ScanPass(cs: seq<CharPos>, i: nat, l: Lexed): (r: Scanned)
    requires i < l.next <= |cs|
    decreases |cs| - i, 0
  {
    var e := Emitted(l, cs[i].pos);
    var rest := ScanFrom(cs, l.next, cs[i].pos);
    Scanned(e.tokens + rest.tokens, e.log + rest.log)
  }

  lemma Associative<T>(a: seq<T>, b: seq<T>, c: seq<T>)
    ensures a + (b + c) == (a + b) + c
  {
  }

  /** One pass of the main loop, unfolded. */
  lemma ScanFromStep(cs: seq<CharPos>, i: nat, last: Pos)
    requires i < |cs|
    ensures var l := LexOne(cs, i);
      var e := Emitted(l, cs[i].pos);
      var rest := ScanFrom(cs, l.next, cs[i].pos);
      ScanFrom(cs, i, last) == Scanned(e.tokens + rest.tokens, e.log + rest.log)
  {
  }

  /** The whole token stream of a fresh scanner over `cs`. */
  function Scan(cs: seq<CharPos>): Scanned
  {
    ScanFrom(cs, 0, Pos(0, 0))
  }

  /** Index of the character at which the last pass of the main loop starts. */
  function LastPassStart(cs: seq<CharPos>, i: nat): (m: nat)
    requires i < |cs|
    ensures i <= m < |cs| && LexOne(cs, m).next == |cs|
    decreases |cs| - i
  {
    var n := LexOne(cs, i).next;
    if n == |cs| then i else LastPassStart(cs, n)
  }

  /** The stream always ends with an EOF token. */
  lemma {:induction false} ScanEndsWithEof(cs: seq<CharPos>, i: nat, last: Pos)
    requires i <= |cs|
    ensures var ts := ScanFrom(cs, i, last).tokens;
      |ts| >= 1 && ts[|ts| - 1].kind == Eof
    decreases |cs| - i
  {
    if i < |cs| {
      var l := LexOne(cs, i);
      var e: seq<Token> := Emitted(l, cs[i].pos).tokens;
      var rest: seq<Token> := ScanFrom(cs, l.next, cs[i].pos).tokens;
      ScanFromStep(cs, i, last);
      ScanEndsWithEof(cs, l.next, cs[i].pos);
      assert (e + rest)[|e + rest| - 1] == rest[|rest| - 1];
    }
  }

  /** No token but the last one is an EOF token. */
  lemma {:induction false} ScanHasOneEof(cs: seq<CharPos>, i: nat, last: Pos)
    requires i <= |cs|
    ensures var ts := ScanFrom(cs, i, last).tokens;
      forall k :: 0 <= k < |ts| - 1 ==> ts[k].kind != Eof
    decreases |cs| - i
  {
    if i < |cs| {
      var l := LexOne(cs, i);
      var e: seq<Token> := Emitted(l, cs[i].pos).tokens;
      var rest: seq<Token> := ScanFrom(cs, l.next, cs[i].pos).tokens;
      ScanFromStep(cs, i, last);
      ScanHasOneEof(cs, l.next, cs[i].pos);
      forall k | 0 <= k < |e + rest| - 1
        ensures (e + rest)[k].kind != Eof
      {
        if k < |e| {
          assert (e + rest)[k] == Token(l.kind, cs[i].pos);
        } else {
          assert (e + rest)[k] == rest[k - |e|];
        }
      }
    }
  }

  /** The EOF token sits one column after the position at which the last pass
      started, or one column after `last` when there was no pass. */
  lemma {:induction false} EofPosition(cs: seq<CharPos>, i: nat, last: Pos)
    requires i <= |cs|
    ensures var ts := ScanFrom(cs, i, last).tokens;
      && |ts| >= 1
      && (i == |cs| ==> ts[|ts| - 1].pos == Pos(last.line, last.col + 1))
      && (i < |cs| ==> ts[|ts| - 1].pos == Pos(cs[LastPassStart(cs, i)].pos.line, cs[LastPassStart(cs, i)].pos.col + 1))
    decreases |cs| - i
  {
    if i < |cs| {
      var l := LexOne(cs, i);
      var e: seq<Token> := Emitted(l, cs[i].pos).tokens;
      var rest: seq<Token> := ScanFrom(cs, l.next, cs[i].pos).tokens;
      ScanFromStep(cs, i, last);
      EofPosition(cs, l.next, cs[i].pos);
      assert (e + rest)[|e + rest| - 1] == rest[|rest| - 1];
      assert LastPassStart(cs, i) == if l.next == |cs| then i else LastPassStart(cs, l.next);
    }
  }

  /** On empty input the EOF token sits at line 0, column 1. */
  lemma ScanOfEmptyInput()
    ensures Scan([]).tokens == [Token(Eof, Pos(0, 1))]
  {
  }

  /** Whitespace, comments and unknown characters never reach the token stream. */
  lemma {:induction false} ScanYieldsNoTrivia(cs: seq<CharPos>, i: nat, last: Pos)
    requires i <= |cs|
    ensures forall t :: t in ScanFrom(cs, i, last).tokens ==> t.kind !in {Whitespace, Comment, Unknown}
    decreases |cs| - i
  {
    if i < |cs| {
      ScanYieldsNoTrivia(cs, LexOne(cs, i).next, cs[i].pos);
    }
  }

  /** The character a token of type `t` begins with, for the types whose first
      character is fixed by the type. */
  predicate StartsToken(t: TokenType, c: char)
  {
    match t
    case Number(_) => IsDigit(c)
    case Identifier(_) => IsLetter(c) || c == '_'
    case Str(_) => c == '"'
    case _ => Spelling(t).Some? && |Spelling(t).value| > 0 ==> c == Spelling(t).value[0]
  }

  lemma LexOneStart(cs: seq<CharPos>, i: nat)
    requires i < |cs|
    ensures StartsToken(LexOne(cs, i).kind, cs[i].ch)
  {
    LexOneSpelling(cs, i);
    var r := LexOne(cs, i);
    if Spelling(r.kind).Some? && |Spelling(r.kind).value| > 0 {
      assert Text(cs[i..r.next])[0] == cs[i].ch;
    }
  }

  /** The cursors at which the passes of the main loop start, from `i` on. */
  function PassStarts(cs: seq<CharPos>, i: nat): (ms: seq<nat>)
    requires i <= |cs|
    ensures forall k :: 0 <= k < |ms| ==> i <= ms[k] < |cs|
    ensures i < |cs| ==> |ms| > 0 && ms[0] == i
    decreases |cs| - i
  {
    if i == |cs| then [] else [i] + PassStarts(cs, LexOne(cs, i).next)
  }

  /** Token `t` was read by one of the passes from `i` on: that pass started
      at the character whose position `t` carries, and read `t`'s type. */
  ghost predicate ReadAt(cs: seq<CharPos>, i: nat, t: Token)
    requires i <= |cs|
  {
    exists m :: m in PassStarts(cs, i) && m < |cs| && cs[m].pos == t.pos && LexOne(cs, m).kind == t.kind
  }

  lemma ReadAtStep(cs: seq<CharPos>, i: nat, t: Token)
    requires i < |cs| && ReadAt(cs, LexOne(cs, i).next, t)
    ensures ReadAt(cs, i, t)
  {
    var m :| m in PassStarts(cs, LexOne(cs, i).next) && m < |cs| && cs[m].pos == t.pos && LexOne(cs, m).kind == t.kind;
    assert PassStarts(cs, i) == [i] + PassStarts(cs, LexOne(cs, i).next);
    assert m in PassStarts(cs, i);
  }

  /** Every token before EOF was read by a pass of the main loop: it carries
      the position of the character that pass started at, and the type that
      pass read. */
  lemma {:induction false} ScanPositions(cs: seq<CharPos>, i: nat, last: Pos)
    requires i <= |cs|
    ensures var ts := ScanFrom(cs, i, last).tokens;
      forall k :: 0 <= k < |ts| - 1 ==> ReadAt(cs, i, ts[k])
    decreases |cs| - i
  {
    if i < |cs| {
      var l := LexOne(cs, i);
      var e := Emitted(l, cs[i].pos);
      var rest := ScanFrom(cs, l.next, cs[i].pos).tokens;
      var ts := ScanFrom(cs, i, last).tokens;
      assert ts == e.tokens + rest;
      ScanPositions(cs, l.next, cs[i].pos);
      ScanEndsWithEof(cs, l.next, cs[i].pos);
      forall k | 0 <= k < |ts| - 1
        ensures ReadAt(cs, i, ts[k])
      {
        if k < |e.tokens| {
          assert ts[k] == Token(l.kind, cs[i].pos);
          assert i in PassStarts(cs, i);
        } else {
          assert ts[k] == rest[k - |e.tokens|];
          ReadAtStep(cs, i, ts[k]);
        }
      }
    }
  }

  lemma TextSnoc(cs: seq<CharPos>, a: nat, b: nat)
    requires a <= b < |cs|
    ensures Text(cs[a..b + 1]) == Text(cs[a..b]) + [cs[b].ch]
  {
  }

  lemma TextAppend(cs: seq<CharPos>, a: nat, b: nat, c: nat)
    requires a <= b <= c <= |cs|
    ensures Text(cs[a..c]) == Text(cs[a..b]) + Text(cs[b..c])
  {
  }

  lemma {:induction false} StrTextAppend(a: seq<CharPos>, b: seq<CharPos>)
    ensures StrText(a + b) == StrText(a) + StrText(b)
    decreases |a|
  {
    if a != [] {
      assert (a + b)[0] == a[0];
      assert (a + b)[1..] == a[1..] + b;
      StrTextAppend(a[1..], b);
      var h := (if a[0].pos.col == 1 then "\n" else "") + [a[0].ch];
      calc {
        StrText(a + b);
        h + StrText(a[1..] + b);
        h + (StrText(a[1..]) + StrText(b));
        (h + StrText(a[1..])) + StrText(b);
      }
    } else {
      assert a + b == b;
    }
  }

  lemma StrTextSnoc(cs: seq<CharPos>, a: nat, b: nat)
    requires a <= b < |cs|
    ensures StrText(cs[a..b + 1]) == StrText(cs[a..b]) + (if cs[b].pos.col == 1 then "\n" else "") + [cs[b].ch]
  {
    assert cs[a..b + 1] == cs[a..b] + [cs[b]];
    StrTextAppend(cs[a..b], [cs[b]]);
  }

  // ---------------------------------------------------------------------------
  // The scanner object.

  /** `TokenScanner`: reads the positioned characters of `lines` through a
      lookahead iterator; `log` collects what it reports to the global log. */
  class TokenScanner {
    /** `scanError`: never read or written by the scanner itself. */
    var scanError: bool
    const chars: PeekableIterator<CharPos>
    ghost var log: seq<Diag>

    ghost predicate Valid()
      reads this, chars
    {
      chars.Valid()
    }

    constructor (lines: seq<string>)
      ensures Valid() && fresh(chars)
      ensures chars.src == Positioned(lines) && chars.Cursor() == 0
      ensures !scanError && log == []
    {
      scanError := false;
      chars := new PeekableIterator(Positioned(lines));
      log := [];
    }

    /** `scanTokens()`, run to completion: the token stream of the remaining
        input, ending with its EOF token. */
    method ScanTokens() returns (tokens: seq<Token>)
      requires Valid()
      modifies this, chars
      ensures Valid() && chars.Cursor() == |chars.src|
      ensures tokens == ScanFrom(chars.src, old(chars.Cursor()), Pos(0, 0)).tokens
      ensures log == old(log) + ScanFrom(chars.src, old(chars.Cursor()), Pos(0, 0)).log
      ensures scanError == old(scanError)
    {
      ghost var cs := chars.src;
      ghost var total := ScanFrom(cs, chars.Cursor(), Pos(0, 0));
      var lastPos := Pos(0, 0);
      tokens := [];
      ghost var logged: seq<Diag> := [];
      var more := chars.HasNext();
      while more
        invariant Valid() && chars.src == cs
        invariant more <==> chars.Cursor() < |cs|
        invariant log == old(log) + logged
        invariant scanError == old(scanError)
        invariant total.tokens == tokens + ScanFrom(cs, chars.Cursor(), lastPos).tokens
        invariant total.log == logged + ScanFrom(cs, chars.Cursor(), lastPos).log
        decreases |cs| - chars.Cursor()
      {
        ghost var i := chars.Cursor();
        ghost var prevTokens, prevLogged, prevLast := tokens, logged, lastPos;
        var yielded;
        yielded, lastPos := Pass();
        tokens := tokens + yielded;
        ghost var l := LexOne(cs, i);
        ghost var e := Emitted(l, lastPos);
        ghost var rest := ScanFrom(cs, l.next, lastPos);
        ScanFromStep(cs, i, prevLast);
        logged := logged + e.log;
        Associative(old(log), prevLogged, e.log);
        Associative(prevTokens, e.tokens, rest.tokens);
        Associative(prevLogged, e.log, rest.log);
        more := chars.HasNext();
      }
      tokens := tokens + [Token(Eof, Pos(lastPos.line, lastPos.col + 1))];
    }

    /** One pass of the main loop: takes the next character, recognises the
        lexeme it starts and yields what the lexeme calls for. */
    method Pass() returns (yielded: seq<Token>, pos: Pos)
      requires Valid() && chars.Cursor() < |chars.src|
      modifies this, chars
      ensures Valid()
      ensures var i := old(chars.Cursor());
        && pos == chars.src[i].pos
        && chars.Cursor() == LexOne(chars.src, i).next
        && yielded == Emitted(LexOne(chars.src, i), pos).tokens
        && log == old(log) + Emitted(LexOne(chars.src, i), pos).log
      ensures scanError == old(scanError)
    {
      ghost var i := chars.Cursor();
      var next := chars.Next();
      var cp := next.value;
      var kind := ScanOne(cp.ch, i);
      pos := cp.pos;
      yielded := Emit(kind, pos);
    }

    /** The `when (token)` of the main loop: the tokens it yields, and the
        diagnostic it logs for an unknown character. */
    method Emit(kind: TokenType, pos: Pos) returns (yielded: seq<Token>)
      modifies this
      ensures yielded == Yielded(kind, pos).tokens
      ensures log == old(log) + Yielded(kind, pos).log
      ensures scanError == old(scanError)
    {
      if kind == Whitespace || kind == Comment {
        yielded := [];
      } else if kind == Unknown {
        log := log + [Diag(Some(pos), "Unexpected character")];
        yielded := [];
      } else {
        yielded := [Token(kind, pos)];
      }
    }

    /** One pass of the `when (curr)`: the character at `i` has just been taken;
        recognises the rest of its lexeme. */
    method ScanOne(curr: char, ghost i: nat) returns (kind: TokenType)
      requires Valid() && i < |chars.src| && chars.Cursor() == i + 1 && chars.src[i].ch == curr
      modifies this, chars
      ensures Valid()
      ensures kind == LexOne(chars.src, i).kind && chars.Cursor() == LexOne(chars.src, i).next
      ensures log == old(log) + LexOne(chars.src, i).log
      ensures scanError == old(scanError)
    {
      var single := SingleChar(curr);
      var pair := WithEqual(curr);
      if single.Some? {
        kind := single.value;
      } else if pair.Some? {
        var m := Match('=');
        kind := if m then pair.value.1 else pair.value.0;
      } else if curr == '/' {
        var m := Match('/');
        if m { kind := SkipComment(); } else { kind := Slash; }
      } else if IsDigit(curr) {
        kind := ScanNum(curr, i);
      } else if IsLetter(curr) || curr == '_' {
        kind := ScanIdent(curr, i);
      } else if curr == '"' {
        kind := ScanStr(i);
      } else if IsBlank(curr) {
        kind := SkipWhitespace();
      } else {
        kind := Unknown;
      }
    }

    /** `match(c)`: consumes the next character exactly when it is `c`. */
    method Match(c: char) returns (b: bool)
      requires Valid()
      modifies chars
      ensures Valid()
      ensures b == Follows(chars.src, old(chars.Cursor()), c)
      ensures chars.Cursor() == if b then old(chars.Cursor()) + 1 else old(chars.Cursor())
    {
      var more := chars.HasNext();
      if more && chars.Peek().value.ch == c {
        var _ := chars.Next();
        b := true;
      } else {
        b := false;
      }
    }

    /** `skipComment()`: discards characters up to the next one in column 1. */
    method SkipComment() returns (kind: TokenType)
      requires Valid()
      modifies chars
      ensures Valid() && kind == Comment
      ensures chars.Cursor() == CommentEnd(chars.src, old(chars.Cursor()))
    {
      ghost var target := CommentEnd(chars.src, chars.Cursor());
      var more := chars.HasNext();
      while more && chars.Peek().value.pos.col != 1
        invariant Valid()
        invariant more <==> chars.Cursor() < |chars.src|
        invariant old(chars.Cursor()) <= chars.Cursor() <= |chars.src|
        invariant CommentEnd(chars.src, chars.Cursor()) == target
        decreases |chars.src| - chars.Cursor()
      {
        var _ := chars.Next();
        more := chars.HasNext();
      }
      kind := Comment;
    }

    /** The `while` loops of `scanNum` and `scanIdent`: consume the longest
        run of characters of class `k`, returning them. */
    method TakeRun(k: CharClass) returns (taken: string)
      requires Valid()
      modifies chars
      ensures Valid()
      ensures chars.Cursor() == RunEnd(chars.src, old(chars.Cursor()), k)
      ensures taken == Text(chars.src[old(chars.Cursor())..chars.Cursor()])
    {
      hide Text, PeekableIterator.Valid, PeekableIterator.Cursor;
      ghost var start := chars.Cursor();
      ghost var target := RunEnd(chars.src, start, k);
      taken := "";
      var more := chars.HasNext();
      while more && InClass(chars.Peek().value.ch, k)
        invariant Valid()
        invariant more <==> chars.Cursor() < |chars.src|
        invariant start <= chars.Cursor() <= |chars.src|
        invariant RunEnd(chars.src, chars.Cursor(), k) == target
        invariant taken == Text(chars.src[start..chars.Cursor()])
        decreases |chars.src| - chars.Cursor()
      {
        TextSnoc(chars.src, start, chars.Cursor());
        var c := chars.Next();
        taken := taken + [c.value.ch];
        more := chars.HasNext();
      }
    }

    /** The fractional part of `scanNum`: a `.` if one follows, even without a
        digit after it, and then the digit run. */
    method TakeFraction() returns (taken: string)
      requires Valid()
      modifies chars
      ensures Valid()
      ensures var d := old(chars.Cursor());
        chars.Cursor() == if Follows(chars.src, d, '.') then RunEnd(chars.src, d + 1, Digits) else d
      ensures taken == Text(chars.src[old(chars.Cursor())..chars.Cursor()])
    {
      ghost var d := chars.Cursor();
      var more := chars.HasNext();
      if more && chars.Peek().value.ch == '.' {
        var dot := chars.Next();
        var digits := TakeRun(Digits);
        assert Text(chars.src[d..d + 1]) == [dot.value.ch];
        TextAppend(chars.src, d, d + 1, chars.Cursor());
        taken := [dot.value.ch] + digits;
      } else {
        taken := "";
      }
    }

    /** `scanNum(start)`: the digit run and its fractional part. */
    method ScanNum(start: char, ghost i: nat) returns (kind: TokenType)
      requires Valid() && i < |chars.src| && chars.Cursor() == i + 1 && chars.src[i].ch == start
      modifies chars
      ensures Valid()
      ensures chars.Cursor() == NumberLexed(chars.src, i).next && kind == NumberLexed(chars.src, i).kind
    {
      ghost var cs := chars.src;
      var whole := TakeRun(Digits);
      ghost var d := chars.Cursor();
      var fraction := TakeFraction();
      assert Text(cs[i..i + 1]) == [start];
      TextAppend(cs, i, i + 1, d);
      TextAppend(cs, i, d, chars.Cursor());
      kind := Number([start] + whole + fraction);
    }

    /** `scanIdent(start)`: the longest alphanumeric run, looked up as a whole
        in the keyword table. */
    method ScanIdent(start: char, ghost i: nat) returns (kind: TokenType)
      requires Valid() && i < |chars.src| && chars.Cursor() == i + 1 && chars.src[i].ch == start
      modifies chars
      ensures Valid()
      ensures chars.Cursor() == WordLexed(chars.src, i).next && kind == WordLexed(chars.src, i).kind
    {
      var rest := TakeRun(AlphaNums);
      var ident := [start] + rest;
      assert Text(chars.src[i..i + 1]) == [start];
      TextAppend(chars.src, i, i + 1, chars.Cursor());
      kind := match KeywordOf(ident) case Some(k) => k case None => Identifier(ident);
    }

    /** The `buildString` loop of `scanStr()`: collects characters from `j`
        up to the closing quote, a line break before each one in column 1, and
        consumes that quote. */
    method StrBody(ghost j: nat) returns (str: string)
      requires Valid() && j <= |chars.src| && chars.Cursor() == j
      modifies chars
      ensures Valid()
      ensures var q := QuoteIndex(chars.src, j);
        && str == StrText(chars.src[j..q])
        && chars.Cursor() == (if q < |chars.src| then q + 1 else q)
    {
      ghost var cs := chars.src;
      ghost var q := QuoteIndex(cs, j);
      str := "";
      var more := chars.HasNext();
      while more && chars.Peek().value.ch != '"'
        invariant Valid()
        invariant more <==> chars.Cursor() < |cs|
        invariant j <= chars.Cursor() <= q
        invariant QuoteIndex(cs, chars.Cursor()) == q
        invariant str == StrText(cs[j..chars.Cursor()])
        decreases |cs| - chars.Cursor()
      {
        var cp := chars.Peek().value;
        StrTextSnoc(cs, j, chars.Cursor());
        if cp.pos.col == 1 { str := str + "\n"; }
        var c := chars.Next();
        str := str + [c.value.ch];
        more := chars.HasNext();
      }
      if more {
        var _ := chars.Next();
      }
    }

    /** `scanStr()`, the opening quote being at `i`: the literal is accepted
        only when input remains after its closing quote. */
    method ScanStr(ghost i: nat) returns (kind: TokenType)
      requires Valid() && i < |chars.src| && chars.Cursor() == i + 1 && chars.src[i].ch == '"'
      modifies this, chars
      ensures Valid()
      ensures kind == StringLexed(chars.src, i + 1).kind && chars.Cursor() == StringLexed(chars.src, i + 1).next
      ensures log == old(log) + StringLexed(chars.src, i + 1).log
      ensures scanError == old(scanError)
    {
      var str := StrBody(i + 1);
      var more := chars.HasNext();
      if more {
        kind := Str(str);
      } else {
        log := log + [Diag(Some(chars.src[i].pos), "Unterminated String")];
        kind := Unknown;
      }
    }

    /** `skipWhitespace()`: discards the run of blanks that follows. */
    method SkipWhitespace() returns (kind: TokenType)
      requires Valid()
      modifies chars
      ensures Valid() && kind == Whitespace
      ensures chars.Cursor() == RunEnd(chars.src, old(chars.Cursor()), Blanks)
    {
      ghost var target := RunEnd(chars.src, chars.Cursor(), Blanks);
      var more := chars.HasNext();
      while more && IsBlank(chars.Peek().value.ch)
        invariant Valid()
        invariant more <==> chars.Cursor() < |chars.src|
        invariant old(chars.Cursor()) <= chars.Cursor() <= |chars.src|
        invariant RunEnd(chars.src, chars.Cursor(), Blanks) == target
        decreases |chars.src| - chars.Cursor()
      {
        var _ := chars.Next();
        more := chars.HasNext();
      }
      kind := Whitespace;
    }
  }
}
