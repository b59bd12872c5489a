/** The earlier scanner: the enum `Type`, tokens that carry their lexeme and
    literal, the `match`/`end` helpers the parser of that time used on a token
    iterator, and `TokenScanner`, which reads an iterator of positioned
    characters and records whether the last character it scanned was unknown. */
module OldToken {
  import opened Extensions
  import Error

  datatype Type =
    // Single-character tokens.
    | LeftParen | RightParen | LeftBrace | RightBrace
    | Comma | Dot | Minus | Plus | Semicolon | Slash | Star
    // One or two character tokens.
    | Bang | BangEqual | Equal | EqualEqual
    | Greater | GreaterEqual | Less | LessEqual
    // Literals.
    | Identifier | Str | Number
    // Keywords.
    | And | Class | Else | False | Fun | For | If | Nil | Or
    | Print | Return | Super | This | True | Var | While
    // Ignore
    | Comment | Whitespace | Unknown
    | Eof

  /** The `literal: Any?` of a token. `NoLiteral` is `null`; a number keeps
      its lexeme in place of the `Double` it is converted to. */
  datatype Literal = NoLiteral | StrLiteral(text: string) | NumLiteral(lexeme: string) | BoolLiteral(value: bool)

  datatype Token = Token(kind: Type, pos: Pos, lexeme: string, literal: Literal)

  /** `PosChar`: a source character with its position. */
  type PosChar = (Pos, char)

  /** The line `logError(token, msg)` writes to standard error: the message
      at the token's position, followed by the token's lexeme. */
  function TokenErrorLine(t: Token, msg: string): string
  {
    "Error [" + PosString(t.pos) + "]: " + msg + ". Found " + t.lexeme
  }

  /** The token's error line is the error line of its position, so it reads
      back as that position and the message with the lexeme appended. */
  lemma TokenErrorLineRoundTrip(t: Token, msg: string)
    ensures ParseErrorLine(TokenErrorLine(t, msg)) == Some((t.pos, msg + ". Found " + t.lexeme))
  {
    var full := msg + ". Found " + t.lexeme;
    assert TokenErrorLine(t, msg) == ErrorLine(t.pos, full);
    ErrorLineRoundTrip(t.pos, full);
  }

  // ---------------------------------------------------------------------------
  // `match` and `end` on a token iterator.

  /** `match(vararg tokens)`: whether the peeked token's type is one of `kinds`;
      false once nothing can be peeked. */
  function MatchAny(it: PeekableIterator<Token>, kinds: seq<Type>): (b: bool)
    reads it
    requires it.Valid()
    ensures b <==> it.Cursor() < |it.src| && it.src[it.Cursor()].kind in kinds
  {
    it.Peek().Some? && it.Peek().value.kind in kinds
  }

  /** `end()`: whether the peeked token is EOF; with nothing to peek it throws
      `ParseError("No EOF")`. */
  function End(it: PeekableIterator<Token>): (r: Error.Result<bool>)
    reads it
    requires it.Valid()
    ensures r.Fail? <==> it.Cursor() == |it.src|
    ensures r.Fail? ==> r.failure == Error.ParseError("No EOF")
    ensures r.Ok? ==> (r.value <==> it.src[it.Cursor()].kind == Eof)
  {
    match it.Peek()
    case None => Error.Fail(Error.ParseError("No EOF"))
    case Some(t) => Error.Ok(t.kind == Eof)
  }

  // ---------------------------------------------------------------------------
  // The tables of `TokenScanner`'s companion object.

  /** `alphaNum`: digits and letters, without the underscore. */
  predicate IsAlphaNum(c: char) { IsDigit(c) || IsLetter(c) }

  /** The characters `skipWhitespace` discards; a line break is not one of them. */
  predicate IsBlank(c: char) { c == ' ' || c == '\r' || c == '\t' }

  /** `idents`: the reserved words. */
  const Idents: map<string, Type> := map[
    "and" := And, "class" := Class, "else" := Else, "false" := False,
    "for" := For, "fun" := Fun, "if" := If, "nil" := Nil,
    "or" := Or, "print" := Print, "return" := Return, "super" := Super,
    "this" := This, "true" := True, "var" := Var, "while" := While
  ]

  /** The literal `consumeIdent` attaches to a reserved word. */
  function KeywordLiteral(t: Type): (l: Literal)
    ensures l != NoLiteral <==> t in {False, True}
  {
    if t == False then BoolLiteral(false) else if t == True then BoolLiteral(true) else NoLiteral
  }

  // ---------------------------------------------------------------------------
  // The scanning rules, as functions of the input and a cursor into it.
  //
  // `Text`, `RunEnd`, `Follows`, `CommentEnd`, `NumberEnd`, `QuoteIndex`,
  // `StrText` and `LastPassStart` read as their namesakes in `Lexer` do, over
  // `(Pos, char)` pairs instead of `CharPos`; the two scanners differ in where
  // a line begins (column 0 here, column 1 there), in `alphaNum` and in the
  // blank characters, not in these helpers.

  /** The characters of a stretch of positioned input. */
  function Text(cs: seq<PosChar>): (s: string)
    ensures |s| == |cs| && forall k :: 0 <= k < |cs| ==> s[k] == cs[k].1
  {
    seq(|cs|, k requires 0 <= k < |cs| => cs[k].1)
  }

  datatype CharClass = Digits | AlphaNums | Blanks

  predicate InClass(c: char, k: CharClass)
  {
    match k
    case Digits => IsDigit(c)
    case AlphaNums => IsAlphaNum(c)
    case Blanks => IsBlank(c)
  }

  /** End of the longest run of characters of class `k` that starts at `i`. */
  function RunEnd(cs: seq<PosChar>, i: nat, k: CharClass): (j: nat)
    requires i <= |cs|
    ensures i <= j <= |cs|
    ensures forall m :: i <= m < j ==> InClass(cs[m].1, k)
    ensures j < |cs| ==> !InClass(cs[j].1, k)
    decreases |cs| - i
  {
    if i == |cs| || !InClass(cs[i].1, k) then i else RunEnd(cs, i + 1, k)
  }

  /** `match(c)`: whether the next character is `c` (and is then consumed). */
  predicate Follows(cs: seq<PosChar>, i: nat, c: char)
  {
    i < |cs| && cs[i].1 == c
  }

  /** Where `skipComment` stops: the next character in column 0, or the end. */
  function CommentEnd(cs: seq<PosChar>, i: nat): (j: nat)
    requires i <= |cs|
    ensures i <= j <= |cs|
    ensures forall k :: i <= k < j ==> cs[k].0.col != 0
    ensures j < |cs| ==> cs[j].0.col == 0
    decreases |cs| - i
  {
    if i == |cs| || cs[i].0.col == 0 then i else CommentEnd(cs, i + 1)
  }

  /** Where `consumeNum` stops, given the cursor after the first digit: the
      digit run, then a `.` if one follows, then the digit run after it. */
  function NumberEnd(cs: seq<PosChar>, i: nat): (j: nat)
    requires i <= |cs|
    ensures i <= j <= |cs|
  {
    var d := RunEnd(cs, i, Digits);
    if Follows(cs, d, '.') then RunEnd(cs, d + 1, Digits) else d
  }

  /** Index of the first `"` at or after `i`, or the end of the input. */
  function QuoteIndex(cs: seq<PosChar>, i: nat): (j: nat)
    requires i <= |cs|
    ensures i <= j <= |cs|
    ensures forall k :: i <= k < j ==> cs[k].1 != '"'
    ensures j < |cs| ==> cs[j].1 == '"'
    decreases |cs| - i
  {
    if i == |cs| || cs[i].1 == '"' then i else QuoteIndex(cs, i + 1)
  }

  /** The body of a string literal: its characters, with a line break put in
      front of each one in column 0. */
  function StrText(cs: seq<PosChar>): string
  {
    if cs == [] then ""
    else (if cs[0].0.col == 0 then "\n" else "") + [cs[0].1] + StrText(cs[1..])
  }

  /** What one pass of the main loop recognises at `i`: the type, lexeme and
      literal of its token, the cursor after it, and the error lines the
      scanning function printed. */
  datatype Lexed = Lexed(kind: Type, lexeme: string, literal: Literal, next: nat, errs: seq<string>)

  /** `consumeStr`, the opening quote being at `i - 1`: the literal is accepted
      only when input remains after its closing quote. */
  function StringLexed(cs: seq<PosChar>, i: nat): (r: Lexed)
    requires 0 < i <= |cs|
    ensures i <= r.next <= |cs|
    ensures r.kind == Str ==> r.literal == StrLiteral(r.lexeme) && r.errs == []
    ensures r.kind != Str ==> r.kind == Unknown && r.lexeme == "" && r.next == |cs|
  {
    var q := QuoteIndex(cs, i);
    var after := if q < |cs| then q + 1 else q;
    var s := StrText(cs[i..q]);
    if after < |cs| then Lexed(Str, s, StrLiteral(s), after, [])
    else Lexed(Unknown, "", NoLiteral, after, [ErrorLine(cs[i - 1].0, "Unterminated string")])
  }

  /** The ten tokens that are always a single character. */
  function SingleChar(c: char): (r: Option<Type>)
  {
    match c
    case '(' => Some(LeftParen)
    case ')' => Some(RightParen)
    case '{' => Some(LeftBrace)
    case '}' => Some(RightBrace)
    case ',' => Some(Comma)
    case '.' => Some(Dot)
    case '-' => Some(Minus)
    case '+' => Some(Plus)
    case ';' => Some(Semicolon)
    case '*' => Some(Star)
    case _ => None
  }

  /** The four characters that make a two-character token when `=` follows:
      the one-character token and the two-character one. */
  function WithEqual(c: char): (r: Option<(Type, Type)>)
  {
    match c
    case '!' => Some((Bang, BangEqual))
    case '=' => Some((Equal, EqualEqual))
    case '<' => Some((Less, LessEqual))
    case '>' => Some((Greater, GreaterEqual))
    case _ => None
  }

  /** `consumeNum`, the first digit being at `i`. */
  function NumberLexed(cs: seq<PosChar>, i: nat): (r: Lexed)
    requires i < |cs|
    ensures i < r.next <= |cs| && r.errs == []
    ensures r.kind == Number && r.lexeme == Text(cs[i..r.next]) && r.literal == NumLiteral(r.lexeme)
    ensures r.next == |cs| || !IsDigit(cs[r.next].1)
  {
    var j := NumberEnd(cs, i + 1);
    var s := Text(cs[i..j]);
    Lexed(Number, s, NumLiteral(s), j, [])
  }

  /** `consumeIdent`, the first character being at `i`: the alphanumeric run
      is looked up in `idents`. */
  function WordLexed(cs: seq<PosChar>, i: nat): (r: Lexed)
    requires i < |cs|
    ensures i < r.next <= |cs| && r.errs == []
    ensures r.next == |cs| || !IsAlphaNum(cs[r.next].1)
  {
    var j := RunEnd(cs, i + 1, AlphaNums);
    var word := Text(cs[i..j]);
    if word in Idents then Lexed(Idents[word], word, KeywordLiteral(Idents[word]), j, [])
    else Lexed(Identifier, word, NoLiteral, j, [])
  }

  /** `!`, `=`, `<` or `>` at `i`, with `match('=')` deciding between the one
      and the two character token. */
  function OperatorLexed(cs: seq<PosChar>, i: nat): (r: Lexed)
    requires i < |cs| && WithEqual(cs[i].1).Some?
    ensures i < r.next <= |cs| && r.errs == []
  {
    var pair := WithEqual(cs[i].1).value;
    if Follows(cs, i + 1, '=') then Lexed(pair.1, [cs[i].1, '='], NoLiteral, i + 2, [])
    else Lexed(pair.0, [cs[i].1], NoLiteral, i + 1, [])
  }

  /** `/` at `i`: a comment when `match('/')` succeeds, else the `/` token. */
  function SlashLexed(cs: seq<PosChar>, i: nat): (r: Lexed)
    requires i < |cs|
    ensures i < r.next <= |cs| && r.errs == []
  {
    if Follows(cs, i + 1, '/') then Lexed(Comment, "", NoLiteral, CommentEnd(cs, i + 2), [])
    else Lexed(Slash, "/", NoLiteral, i + 1, [])
  }

  /** The `when (curr)` of `scanTokens` for the character at `i`, with the
      scanning function it dispatches to. */
  function LexOne(cs: seq<PosChar>, i: nat): (r: Lexed)
    requires i < |cs|
    ensures i < r.next <= |cs|
    ensures r.kind != Eof
  {
    var c := cs[i].1;
    if SingleChar(c).Some? then Lexed(SingleChar(c).value, [c], NoLiteral, i + 1, [])
    else if WithEqual(c).Some? then OperatorLexed(cs, i)
    else if c == '/' then SlashLexed(cs, i)
    else if IsDigit(c) then NumberLexed(cs, i)
    else if IsLetter(c) || c == '_' then WordLexed(cs, i)
    else if IsBlank(c) then Lexed(Whitespace, "", NoLiteral, RunEnd(cs, i + 1, Blanks), [])
    else if c == '"' then StringLexed(cs, i + 1)
    else Lexed(Unknown, [c], NoLiteral, i + 1, [])
  }

  // ---------------------------------------------------------------------------
  // Properties of a single pass.

  /** The lexeme and literal of the token `r` read at `i`: a token other than
      whitespace, a comment, a string or an unknown one is spelled by exactly
      the characters consumed for it, with maximal munch; a word is reserved
      exactly when `idents` has it, and only `true` and `false` carry a
      literal; whitespace and comments have an empty lexeme; a string's
      literal is its lexeme. */
  ghost predicate WellLexed(cs: seq<PosChar>, i: nat, r: Lexed)
  {
    && i < r.next <= |cs|
    && (r.kind !in {Comment, Whitespace, Str, Unknown} ==> r.lexeme == Text(cs[i..r.next]))
    && (r.kind in {Comment, Whitespace} ==> r.lexeme == "" && r.literal == NoLiteral)
    && (r.kind == Str ==> r.literal == StrLiteral(r.lexeme))
    && (r.kind in {Bang, Equal, Less, Greater} ==> !Follows(cs, r.next, '='))
    && (r.kind == Identifier ==> r.lexeme !in Idents && r.literal == NoLiteral)
    && (r.kind != Str && r.lexeme in Idents ==> r.kind == Idents[r.lexeme] && r.literal == KeywordLiteral(r.kind))
    && (r.kind == Identifier || (r.kind != Str && r.lexeme in Idents) ==> r.next == |cs| || !IsAlphaNum(cs[r.next].1))
    && (r.kind == Number ==> r.literal == NumLiteral(r.lexeme) && (r.next == |cs| || !IsDigit(cs[r.next].1)))
    && (r.kind == Unknown ==> r.lexeme == [cs[i].1] || (cs[i].1 == '"' && r.lexeme == ""))
  }

  lemma SingleLexed(cs: seq<PosChar>, i: nat)
    requires i < |cs| && SingleChar(cs[i].1).Some?
    ensures WellLexed(cs, i, Lexed(SingleChar(cs[i].1).value, [cs[i].1], NoLiteral, i + 1, []))
  {
    assert Text(cs[i..i + 1]) == [cs[i].1];
  }

  lemma OperatorWellLexed(cs: seq<PosChar>, i: nat)
    requires i < |cs| && WithEqual(cs[i].1).Some?
    ensures WellLexed(cs, i, OperatorLexed(cs, i))
  {
    if Follows(cs, i + 1, '=') {
      assert Text(cs[i..i + 2]) == [cs[i].1, '='];
    } else {
      assert Text(cs[i..i + 1]) == [cs[i].1];
    }
  }

  lemma SlashWellLexed(cs: seq<PosChar>, i: nat)
    requires i < |cs| && cs[i].1 == '/'
    ensures WellLexed(cs, i, SlashLexed(cs, i))
  {
    if !Follows(cs, i + 1, '/') {
      assert Text(cs[i..i + 1]) == "/";
    }
  }

  /** A number is the longest numeral that starts at its first digit: a digit
      run, then a `.` and a second digit run when a `.` follows the first. */
  lemma NumberShape(cs: seq<PosChar>, i: nat)
    requires i < |cs| && IsDigit(cs[i].1)
    ensures var r := NumberLexed(cs, i);
      && IsNumeral(r.lexeme)
      && forall n :: r.next < n <= |cs| ==> !IsNumeral(Text(cs[i..n]))
  {
    var e := NumberLexed(cs, i).next;
    var d := RunEnd(cs, i + 1, Digits);
    var s := Text(cs[i..e]);
    if Follows(cs, d, '.') {
      assert s[d - i] == '.';
      forall k | 0 <= k < |s| && k != d - i
        ensures IsDigit(s[k])
      {
        assert s[k] == cs[i + k].1;
      }
      forall n | e < n <= |cs|
        ensures !IsNumeral(Text(cs[i..n]))
      {
        var t := Text(cs[i..n]);
        assert t[d - i] == cs[d].1 && t[e - i] == cs[e].1;
      }
    } else {
      forall k | 0 <= k < |s|
        ensures IsDigit(s[k])
      {
        assert s[k] == cs[i + k].1;
      }
      forall n | e < n <= |cs|
        ensures !IsNumeral(Text(cs[i..n]))
      {
        assert Text(cs[i..n])[e - i] == cs[e].1;
      }
    }
  }

  /** A string literal runs to the first `"` after its opening quote and is
      accepted exactly when input remains after that quote; its lexeme and
      literal are the characters between the quotes, each in column 0
      preceded by a line break. Otherwise the whole rest of the input is
      consumed, the token is unknown with an empty lexeme, and
      `Unterminated string` is printed at the opening quote. */
  lemma StringShape(cs: seq<PosChar>, i: nat)
    requires 0 < i <= |cs|
    ensures var r := StringLexed(cs, i);
      && (r.kind == Str ==>
            && i < r.next < |cs| && cs[r.next - 1].1 == '"'
            && (forall k :: i <= k < r.next - 1 ==> cs[k].1 != '"')
            && r.lexeme == StrText(cs[i..r.next - 1]) && r.literal == StrLiteral(r.lexeme) && r.errs == [])
      && (r.kind != Str ==>
            && r.kind == Unknown && r.lexeme == "" && r.literal == NoLiteral && r.next == |cs|
            && (forall k :: i <= k < |cs| - 1 ==> cs[k].1 != '"')
            && r.errs == [ErrorLine(cs[i - 1].0, "Unterminated string")])
  {
  }

  lemma NumberWellLexed(cs: seq<PosChar>, i: nat)
    requires i < |cs| && IsDigit(cs[i].1)
    ensures WellLexed(cs, i, NumberLexed(cs, i))
  {
    var r := NumberLexed(cs, i);
    assert r.lexeme[0] == cs[i].1;
  }

  lemma StringWellLexed(cs: seq<PosChar>, i: nat)
    requires i < |cs| && cs[i].1 == '"'
    ensures WellLexed(cs, i, StringLexed(cs, i + 1))
  {
  }

  /** Every pass produces a well-formed lexeme and literal. */
  lemma LexOneWellLexed(cs: seq<PosChar>, i: nat)
    requires i < |cs|
    ensures WellLexed(cs, i, LexOne(cs, i))
  {
    var c := cs[i].1;
    if SingleChar(c).Some? {
      SingleLexed(cs, i);
    } else if WithEqual(c).Some? {
      OperatorWellLexed(cs, i);
    } else if c == '/' {
      SlashWellLexed(cs, i);
    } else if IsDigit(c) {
      NumberWellLexed(cs, i);
    } else if IsLetter(c) || c == '_' {
    } else if IsBlank(c) {
    } else if c == '"' {
      StringWellLexed(cs, i);
    }
  }

  /** The shape of the two literals: a number is the longest numeral that
      starts at its first digit, and an accepted string's lexeme is the text
      between its quotes. */
  ghost predicate WellShaped(cs: seq<PosChar>, i: nat, r: Lexed)
  {
    && i < r.next <= |cs|
    && (r.kind == Number ==> IsNumeral(r.lexeme) && forall n :: r.next < n <= |cs| ==> !IsNumeral(Text(cs[i..n])))
    && (r.kind == Str ==> i + 2 <= r.next && r.lexeme == StrText(cs[i + 1..r.next - 1]))
  }

  lemma NumberShaped(cs: seq<PosChar>, i: nat)
    requires i < |cs| && IsDigit(cs[i].1)
    ensures WellShaped(cs, i, NumberLexed(cs, i))
  {
    NumberShape(cs, i);
  }

  lemma StringShaped(cs: seq<PosChar>, i: nat)
    requires i < |cs| && cs[i].1 == '"'
    ensures WellShaped(cs, i, StringLexed(cs, i + 1))
  {
    StringShape(cs, i + 1);
  }

  lemma WordShaped(cs: seq<PosChar>, i: nat)
    requires i < |cs|
    ensures WellShaped(cs, i, WordLexed(cs, i))
  {
    var r := WordLexed(cs, i);
    assert r.lexeme in Idents ==> Idents[r.lexeme] !in {Number, Str};
  }

  /** Every pass that yields a number or a string reads it in that shape. */
  lemma LexOneShaped(cs: seq<PosChar>, i: nat)
    requires i < |cs|
    ensures WellShaped(cs, i, LexOne(cs, i))
  {
    var c := cs[i].1;
    if SingleChar(c).Some? || WithEqual(c).Some? || c == '/' {
    } else if IsDigit(c) {
      NumberShaped(cs, i);
    } else if IsLetter(c) || c == '_' {
      WordShaped(cs, i);
    } else if c == '"' {
      StringShaped(cs, i);
    }
  }

  /** `_` starts a word but does not continue one: a word stops in front of
      an underscore, and the underscore then starts the next word. */
  lemma UnderscoreSplitsWords(cs: seq<PosChar>, i: nat)
    requires i + 1 < |cs| && IsLetter(cs[i].1) && cs[i + 1].1 == '_'
    ensures LexOne(cs, i).next == i + 1
    ensures LexOne(cs, i + 1).kind == Identifier || LexOne(cs, i + 1).lexeme in Idents
    ensures LexOne(cs, i + 1).lexeme[0] == '_'
  {
    WordDispatch(cs, i);
    WordDispatch(cs, i + 1);
    hide LexOne;
    assert RunEnd(cs, i + 1, AlphaNums) == i + 1;
    var r := WordLexed(cs, i + 1);
    assert r.lexeme[0] == '_';
  }

  /** A letter or an underscore starts a word. */
  lemma WordDispatch(cs: seq<PosChar>, i: nat)
    requires i < |cs| && (IsLetter(cs[i].1) || cs[i].1 == '_')
    ensures LexOne(cs, i) == WordLexed(cs, i)
  {
  }

  /** A line break is not whitespace here: it is an unknown character. */
  lemma LineBreakIsUnknown(cs: seq<PosChar>, i: nat)
    requires i < |cs| && cs[i].1 == '\n'
    ensures LexOne(cs, i) == Lexed(Unknown, "\n", NoLiteral, i + 1, [])
  {
  }

  // ---------------------------------------------------------------------------
  // The main loop.

  /** What the main loop yields, what it prints, and the final `hadError`. */
  datatype Scanned = Scanned(tokens: seq<Token>, errs: seq<string>, hadError: bool)

  /** The token `consume`d for lexeme `l` read at `p`. */
  function TokenOf(l: Lexed, p: Pos): (t: Token)
    ensures t.pos == p && t.kind == l.kind
  {
    Token(l.kind, p, l.lexeme, l.literal)
  }

  /** The `when (token.type)` of the main loop for the lexeme `l` read from the
      character `curr` at `p`: nothing for whitespace and comments, an error
      line for an unknown token, the token otherwise; the scanning function's
      own error lines come first. */
  function Emitted(l: Lexed, p: Pos, curr: char): (r: (seq<Token>, seq<string>))
    ensures |r.0| <= 1
    ensures r.0 == [] <==> l.kind in {Whitespace, Comment, Unknown}
    ensures r.0 != [] ==> r.0[0] == TokenOf(l, p)
    ensures l.kind == Unknown ==> r.1 == l.errs + [ErrorLine(p, [curr] + ": unexpected character")]
    ensures l.kind != Unknown ==> r.1 == l.errs
  {
    if l.kind == Unknown then ([], l.errs + [ErrorLine(p, [curr] + ": unexpected character")])
    else if l.kind == Whitespace || l.kind == Comment then ([], l.errs)
    else ([TokenOf(l, p)], l.errs)
  }

  /** The EOF token yielded after the position `last` of the last pass. */
  function EofToken(last: Pos): (t: Token)
    ensures t.kind == Eof && t.lexeme == "<EOF>" && t.pos == Pos(last.line, last.col + 1)
  {
    Token(Eof, Pos(last.line, last.col + 1), "<EOF>", NoLiteral)
  }

  /** The main loop of `scanTokens` from cursor `i`; `last` is `lastPos` and
      `had` the value of `hadError` so far. */
  function ScanFrom(cs: seq<PosChar>, i: nat, last: Pos, had: bool): (r: Scanned)
    requires i <= |cs|
    decreases |cs| - i, 1
  {
    if i == |cs| then Scanned([EofToken(last)], [], had)
    else ScanPass(cs, i, LexOne(cs, i))
  }

  /** The pass that read lexeme `l` from `i`, followed by the rest of the loop. */
  function ScanPass(cs: seq<PosChar>, i: nat, l: Lexed): (r: Scanned)
    requires i < l.next <= |cs|
    decreases |cs| - i, 0
  {
    var e := Emitted(l, cs[i].0, cs[i].1);
    var rest := ScanFrom(cs, l.next, cs[i].0, l.kind == Unknown);
    Scanned(e.0 + rest.tokens, e.1 + rest.errs, rest.hadError)
  }

  lemma Associative<T>(a: seq<T>, b: seq<T>, c: seq<T>)
    ensures a + (b + c) == (a + b) + c
  {
  }

  /** One pass of the main loop, unfolded. */
  lemma ScanFromStep(cs: seq<PosChar>, i: nat, last: Pos, had: bool)
    requires i < |cs|
    ensures var l := LexOne(cs, i);
      var e := Emitted(l, cs[i].0, cs[i].1);
      var rest := ScanFrom(cs, l.next, cs[i].0, l.kind == Unknown);
      ScanFrom(cs, i, last, had) == Scanned(e.0 + rest.tokens, e.1 + rest.errs, rest.hadError)
  {
  }

  lemma ScanFromEnd(cs: seq<PosChar>, last: Pos, had: bool)
    ensures ScanFrom(cs, |cs|, last, had) == Scanned([EofToken(last)], [], had)
  {
  }

  /** The whole run of a fresh scanner over `cs`. */
  function Scan(cs: seq<PosChar>): Scanned
  {
    ScanFrom(cs, 0, Pos(-1, -1), false)
  }

  /** Index of the character at which the last pass of the main loop starts. */
  function LastPassStart(cs: seq<PosChar>, i: nat): (m: nat)
    requires i < |cs|
    ensures i <= m < |cs| && LexOne(cs, m).next == |cs|
    decreases |cs| - i
  {
    var n := LexOne(cs, i).next;
    if n == |cs| then i else LastPassStart(cs, n)
  }

  /** The stream ends with the EOF token one column after the character at
      which the last pass started, or after `last` when there was no pass. */
  lemma {:induction false} ScanEnd(cs: seq<PosChar>, i: nat, last: Pos, had: bool)
    requires i <= |cs|
    ensures var ts := ScanFrom(cs, i, last, had).tokens;
      && |ts| >= 1
      && ts[|ts| - 1] == if i == |cs| then EofToken(last) else EofToken(cs[LastPassStart(cs, i)].0)
    decreases |cs| - i
  {
    hide ScanFrom, LexOne, LastPassStart;
    if i == |cs| {
      ScanFromEnd(cs, last, had);
    } else {
      var l := LexOne(cs, i);
      ScanEnd(cs, l.next, cs[i].0, l.kind == Unknown);
      LastTokenStep(cs, i, last, had);
      LastPassStep(cs, i);
      if l.next == |cs| {
        assert LastPassStart(cs, i) == i;
      } else {
        assert LastPassStart(cs, i) == LastPassStart(cs, l.next);
      }
    }
  }

  /** A pass of the main loop does not change the last token of the stream. */
  lemma LastTokenStep(cs: seq<PosChar>, i: nat, last: Pos, had: bool)
    requires i < |cs|
    requires |ScanFrom(cs, LexOne(cs, i).next, cs[i].0, LexOne(cs, i).kind == Unknown).tokens| >= 1
    ensures var ts := ScanFrom(cs, i, last, had).tokens;
      var rest := ScanFrom(cs, LexOne(cs, i).next, cs[i].0, LexOne(cs, i).kind == Unknown).tokens;
      |ts| >= 1 && ts[|ts| - 1] == rest[|rest| - 1]
  {
    var l := LexOne(cs, i);
    var e: seq<Token> := Emitted(l, cs[i].0, cs[i].1).0;
    var rest: seq<Token> := ScanFrom(cs, l.next, cs[i].0, l.kind == Unknown).tokens;
    ScanFromStep(cs, i, last, had);
    hide ScanFrom, LexOne, Emitted;
    LastOfAppend(e, rest);
  }

  /** `hadError` after the loop tells only whether its last pass read an
      unknown token; with no pass it keeps its value. */
  lemma {:induction false} ScanHadError(cs: seq<PosChar>, i: nat, last: Pos, had: bool)
    requires i <= |cs|
    ensures ScanFrom(cs, i, last, had).hadError
      == if i == |cs| then had else LexOne(cs, LastPassStart(cs, i)).kind == Unknown
    decreases |cs| - i
  {
    if i < |cs| {
      var l := LexOne(cs, i);
      ScanFromStep(cs, i, last, had);
      LastPassStep(cs, i);
      hide ScanFrom, LexOne, Emitted, LastPassStart;
      ScanHadError(cs, l.next, cs[i].0, l.kind == Unknown);
    }
  }

  lemma LastOfAppend<T>(a: seq<T>, b: seq<T>)
    requires |b| > 0
    ensures (a + b)[|a + b| - 1] == b[|b| - 1]
  {
  }

  lemma LastPassStep(cs: seq<PosChar>, i: nat)
    requires i < |cs|
    ensures LastPassStart(cs, i) == if LexOne(cs, i).next == |cs| then i else LastPassStart(cs, LexOne(cs, i).next)
  {
  }

  /** No token but the last one is an EOF token, and whitespace, comments and
      unknown tokens never reach the stream. */
  lemma {:induction false} ScanTokenKinds(cs: seq<PosChar>, i: nat, last: Pos, had: bool)
    requires i <= |cs|
    ensures var ts := ScanFrom(cs, i, last, had).tokens;
      forall k :: 0 <= k < |ts| - 1 ==> ts[k].kind !in {Eof, Whitespace, Comment, Unknown}
    decreases |cs| - i
  {
    if i < |cs| {
      var l := LexOne(cs, i);
      var e: seq<Token> := Emitted(l, cs[i].0, cs[i].1).0;
      var rest: seq<Token> := ScanFrom(cs, l.next, cs[i].0, l.kind == Unknown).tokens;
      ScanFromStep(cs, i, last, had);
      ScanTokenKinds(cs, l.next, cs[i].0, l.kind == Unknown);
      forall k | 0 <= k < |e + rest| - 1
        ensures (e + rest)[k].kind !in {Eof, Whitespace, Comment, Unknown}
      {
        if k < |e| {
          assert (e + rest)[k] == TokenOf(l, cs[i].0);
        } else {
          assert (e + rest)[k] == rest[k - |e|];
        }
      }
    }
  }

  /** On empty input the EOF token sits at line -1, column 0. */
  lemma ScanOfEmptyInput()
    ensures Scan([]) == Scanned([Token(Eof, Pos(-1, 0), "<EOF>", NoLiteral)], [], false)
  {
  }

  lemma TextSnoc(cs: seq<PosChar>, a: nat, b: nat)
    requires a <= b < |cs|
    ensures Text(cs[a..b + 1]) == Text(cs[a..b]) + [cs[b].1]
  {
  }

  lemma TextAppend(cs: seq<PosChar>, a: nat, b: nat, c: nat)
    requires a <= b <= c <= |cs|
    ensures Text(cs[a..c]) == Text(cs[a..b]) + Text(cs[b..c])
  {
  }

  lemma {:induction false} StrTextAppend(a: seq<PosChar>, b: seq<PosChar>)
    ensures StrText(a + b) == StrText(a) + StrText(b)
    decreases |a|
  {
    if a != [] {
      assert (a + b)[0] == a[0];
      assert (a + b)[1..] == a[1..] + b;
      StrTextAppend(a[1..], b);
      var h := (if a[0].0.col == 0 then "\n" else "") + [a[0].1];
      calc {
        StrText(a + b);
        h + StrText(a[1..] + b);
        h + (StrText(a[1..]) + StrText(b));
        (h + StrText(a[1..])) + StrText(b);
      }
    } else {
      assert a + b == b;
    }
  }

  lemma StrTextSnoc(cs: seq<PosChar>, a: nat, b: nat)
    requires a <= b < |cs|
    ensures StrText(cs[a..b + 1]) == StrText(cs[a..b]) + (if cs[b].0.col == 0 then "\n" else "") + [cs[b].1]
  {
    assert cs[a..b + 1] == cs[a..b] + [cs[b]];
    StrTextAppend(cs[a..b], [cs[b]]);
  }

  // ---------------------------------------------------------------------------
  // The scanner object.

  /** `TokenScanner(src)`: reads positioned characters through `src`; `hadError`
      is rewritten on every pass; `stderr` collects the error lines it prints. */
  class TokenScanner {
    var hadError: bool
    const src: PeekableIterator<PosChar>
    ghost var stderr: seq<string>

    ghost predicate Valid()
      reads this, src
    {
      src.Valid()
    }

    constructor (src: PeekableIterator<PosChar>)
      requires src.Valid()
      ensures Valid() && this.src == src
      ensures !hadError && stderr == []
    {
      this.src := src;
      hadError := false;
      stderr := [];
    }

    /** `scanTokens()`, run to completion: the token stream of the remaining
        input, ending with its EOF token. */
    method ScanTokens() returns (tokens: seq<Token>)
      requires Valid()
      modifies this, src
      ensures Valid() && src.Cursor() == |src.src|
      ensures var r := ScanFrom(src.src, old(src.Cursor()), Pos(-1, -1), old(hadError));
        tokens == r.tokens && stderr == old(stderr) + r.errs && hadError == r.hadError
    {
      hide ScanFrom, LexOne, Emitted, PeekableIterator.Valid, PeekableIterator.Cursor;
      ghost var cs := src.src;
      ghost var total := ScanFrom(cs, src.Cursor(), Pos(-1, -1), hadError);
      var lastPos := Pos(-1, -1);
      tokens := [];
      ghost var printed: seq<string> := [];
      var more := src.HasNext();
      while more
        invariant Valid() && src.src == cs
        invariant more <==> src.Cursor() < |cs|
        invariant stderr == old(stderr) + printed
        invariant total.tokens == tokens + ScanFrom(cs, src.Cursor(), lastPos, hadError).tokens
        invariant total.errs == printed + ScanFrom(cs, src.Cursor(), lastPos, hadError).errs
        invariant total.hadError == ScanFrom(cs, src.Cursor(), lastPos, hadError).hadError
        decreases |cs| - src.Cursor()
      {
        ghost var i := src.Cursor();
        ghost var prevTokens, prevPrinted, prevLast, prevHad := tokens, printed, lastPos, hadError;
        var yielded;
        yielded, lastPos := Pass();
        tokens := tokens + yielded;
        ghost var l := LexOne(cs, i);
        ghost var e := Emitted(l, lastPos, cs[i].1);
        ghost var rest := ScanFrom(cs, l.next, lastPos, l.kind == Unknown);
        ScanFromStep(cs, i, prevLast, prevHad);
        printed := printed + e.1;
        Associative(old(stderr), prevPrinted, e.1);
        Associative(prevTokens, e.0, rest.tokens);
        Associative(prevPrinted, e.1, rest.errs);
        more := src.HasNext();
      }
      ScanFromEnd(cs, lastPos, hadError);
      tokens := tokens + [Token(Eof, Pos(lastPos.line, lastPos.col + 1), "<EOF>", NoLiteral)];
    }

    /** One pass of the main loop: takes the next character, reads the token
        it starts, sets `hadError` and yields or reports the token. */
    method Pass() returns (yielded: seq<Token>, pos: Pos)
      requires Valid() && src.Cursor() < |src.src|
      modifies this, src
      ensures Valid()
      ensures var i := old(src.Cursor());
        var l := LexOne(src.src, i);
        && pos == src.src[i].0
        && src.Cursor() == l.next
        && yielded == Emitted(l, pos, src.src[i].1).0
        && stderr == old(stderr) + Emitted(l, pos, src.src[i].1).1
        && hadError == (l.kind == Unknown)
    {
      ghost var i := src.Cursor();
      var next := src.Next();
      var (p, curr) := next.value;
      pos := p;
      var token := ScanOne(curr, pos, i);
      yielded := Emit(token, curr);
    }

    /** `hadError = …` and the `when (token.type)` of the main loop. */
    method Emit(token: Token, curr: char) returns (yielded: seq<Token>)
      modifies this
      ensures hadError == (token.kind == Unknown)
      ensures token.kind == Unknown ==> yielded == [] && stderr == old(stderr) + [ErrorLine(token.pos, [curr] + ": unexpected character")]
      ensures token.kind in {Whitespace, Comment} ==> yielded == [] && stderr == old(stderr)
      ensures token.kind !in {Unknown, Whitespace, Comment} ==> yielded == [token] && stderr == old(stderr)
    {
      hadError := token.kind == Unknown;
      if token.kind == Unknown {
        stderr := stderr + [ErrorLine(token.pos, [curr] + ": unexpected character")];
        yielded := [];
      } else if token.kind == Whitespace || token.kind == Comment {
        yielded := [];
      } else {
        yielded := [token];
      }
    }

    /** The `when (curr)` of the main loop: the character at `i`, at `pos`, has
        just been taken; reads the rest of its token. */
    method ScanOne(curr: char, pos: Pos, ghost i: nat) returns (token: Token)
      requires Valid() && i < |src.src| && src.Cursor() == i + 1 && src.src[i] == (pos, curr)
      modifies this, src
      ensures Valid()
      ensures token == TokenOf(LexOne(src.src, i), pos) && src.Cursor() == LexOne(src.src, i).next
      ensures stderr == old(stderr) + LexOne(src.src, i).errs
      ensures hadError == old(hadError)
    {
      var single := SingleChar(curr);
      var pair := WithEqual(curr);
      if single.Some? {
        token := Token(single.value, pos, [curr], NoLiteral);
      } else if pair.Some? {
        var m := Match('=');
        token := if m then Token(pair.value.1, pos, [curr, '='], NoLiteral) else Token(pair.value.0, pos, [curr], NoLiteral);
      } else if curr == '/' {
        var m := Match('/');
        if m { token := SkipComment(pos); } else { token := Token(Slash, pos, "/", NoLiteral); }
      } else if IsDigit(curr) {
        token := ConsumeNum(curr, pos, i);
      } else if IsLetter(curr) || curr == '_' {
        token := ConsumeIdent(curr, pos, i);
      } else if IsBlank(curr) {
        token := SkipWhitespace(pos);
      } else if curr == '"' {
        token := ConsumeStr(pos, i);
      } else {
        token := Token(Unknown, pos, [curr], NoLiteral);
      }
    }

    /** `match(c)`: consumes the next character exactly when it is `c`. */
    method Match(c: char) returns (b: bool)
      requires Valid()
      modifies src
      ensures Valid()
      ensures b == Follows(src.src, old(src.Cursor()), c)
      ensures src.Cursor() == if b then old(src.Cursor()) + 1 else old(src.Cursor())
    {
      var more := src.HasNext();
      if more && src.Peek().value.1 == c {
        var _ := src.Next();
        b := true;
      } else {
        b := false;
      }
    }

    /** `skipComment(pos)`: discards characters up to the next one in column 0. */
    method SkipComment(pos: Pos) returns (token: Token)
      requires Valid()
      modifies src
      ensures Valid() && token == Token(Comment, pos, "", NoLiteral)
      ensures src.Cursor() == CommentEnd(src.src, old(src.Cursor()))
    {
      ghost var target := CommentEnd(src.src, src.Cursor());
      var more := src.HasNext();
      while more && src.Peek().value.0.col != 0
        invariant Valid()
        invariant more <==> src.Cursor() < |src.src|
        invariant old(src.Cursor()) <= src.Cursor() <= |src.src|
        invariant CommentEnd(src.src, src.Cursor()) == target
        decreases |src.src| - src.Cursor()
      {
        var _ := src.Next();
        more := src.HasNext();
      }
      token := Token(Comment, pos, "", NoLiteral);
    }

    /** `skipWhitespace(pos)`: discards the run of blanks that follows. */
    method SkipWhitespace(pos: Pos) returns (token: Token)
      requires Valid()
      modifies src
      ensures Valid() && token == Token(Whitespace, pos, "", NoLiteral)
      ensures src.Cursor() == RunEnd(src.src, old(src.Cursor()), Blanks)
    {
      ghost var target := RunEnd(src.src, src.Cursor(), Blanks);
      var more := src.HasNext();
      while more && IsBlank(src.Peek().value.1)
        invariant Valid()
        invariant more <==> src.Cursor() < |src.src|
        invariant old(src.Cursor()) <= src.Cursor() <= |src.src|
        invariant RunEnd(src.src, src.Cursor(), Blanks) == target
        decreases |src.src| - src.Cursor()
      {
        var _ := src.Next();
        more := src.HasNext();
      }
      token := Token(Whitespace, pos, "", NoLiteral);
    }

    /** The `buildString` loops of `consumeNum` and `consumeIdent`: consume the
        longest run of characters of class `k`, returning them. */
    method TakeRun(k: CharClass) returns (taken: string)
      requires Valid()
      modifies src
      ensures Valid()
      ensures src.Cursor() == RunEnd(src.src, old(src.Cursor()), k)
      ensures taken == Text(src.src[old(src.Cursor())..src.Cursor()])
    {
      hide Text, PeekableIterator.Valid, PeekableIterator.Cursor;
      ghost var start := src.Cursor();
      ghost var target := RunEnd(src.src, start, k);
      taken := "";
      var more := src.HasNext();
      while more && InClass(src.Peek().value.1, k)
        invariant Valid()
        invariant more <==> src.Cursor() < |src.src|
        invariant start <= src.Cursor() <= |src.src|
        invariant RunEnd(src.src, src.Cursor(), k) == target
        invariant taken == Text(src.src[start..src.Cursor()])
        decreases |src.src| - src.Cursor()
      {
        TextSnoc(src.src, start, src.Cursor());
        var c := src.Next();
        taken := taken + [c.value.1];
        more := src.HasNext();
      }
    }

    /** The fractional part of `consumeNum`: a `.` if one follows, even
        without a digit after it, and then the digit run. */
    method TakeFraction() returns (taken: string)
      requires Valid()
      modifies src
      ensures Valid()
      ensures var d := old(src.Cursor());
        src.Cursor() == if Follows(src.src, d, '.') then RunEnd(src.src, d + 1, Digits) else d
      ensures taken == Text(src.src[old(src.Cursor())..src.Cursor()])
    {
      ghost var d := src.Cursor();
      var more := src.HasNext();
      if more && src.Peek().value.1 == '.' {
        var dot := src.Next();
        var digits := TakeRun(Digits);
        assert Text(src.src[d..d + 1]) == [dot.value.1];
        TextAppend(src.src, d, d + 1, src.Cursor());
        taken := [dot.value.1] + digits;
      } else {
        taken := "";
      }
    }

    /** `consumeNum(start, pos)`: the digit run and its fractional part. */
    method ConsumeNum(start: char, pos: Pos, ghost i: nat) returns (token: Token)
      requires Valid() && i < |src.src| && src.Cursor() == i + 1 && src.src[i].1 == start
      modifies src
      ensures Valid()
      ensures src.Cursor() == NumberLexed(src.src, i).next && token == TokenOf(NumberLexed(src.src, i), pos)
    {
      ghost var cs := src.src;
      var whole := TakeRun(Digits);
      ghost var d := src.Cursor();
      var fraction := TakeFraction();
      assert Text(cs[i..i + 1]) == [start];
      TextAppend(cs, i, i + 1, d);
      TextAppend(cs, i, d, src.Cursor());
      var str := [start] + whole + fraction;
      token := Token(Number, pos, str, NumLiteral(str));
    }

    /** `consumeIdent(start, pos)`: the alphanumeric run, looked up as a whole
        in `idents`; `true` and `false` carry their value as literal. */
    method ConsumeIdent(start: char, pos: Pos, ghost i: nat) returns (token: Token)
      requires Valid() && i < |src.src| && src.Cursor() == i + 1 && src.src[i].1 == start
      modifies src
      ensures Valid()
      ensures src.Cursor() == WordLexed(src.src, i).next && token == TokenOf(WordLexed(src.src, i), pos)
    {
      var rest := TakeRun(AlphaNums);
      var str := [start] + rest;
      assert Text(src.src[i..i + 1]) == [start];
      TextAppend(src.src, i, i + 1, src.Cursor());
      if str in Idents {
        var t := Idents[str];
        if t == False {
          token := Token(t, pos, str, BoolLiteral(false));
        } else if t == Nil {
          token := Token(t, pos, str, NoLiteral);
        } else if t == True {
          token := Token(t, pos, str, BoolLiteral(true));
        } else {
          token := Token(t, pos, str, NoLiteral);
        }
      } else {
        token := Token(Identifier, pos, str, NoLiteral);
      }
    }

    /** The `buildString` loop of `consumeStr`: collects characters from `j`
        up to the closing quote, a line break before each one in column 0,
        and consumes that quote. */
    method StrBody(ghost j: nat) returns (str: string)
      requires Valid() && j <= |src.src| && src.Cursor() == j
      modifies src
      ensures Valid()
      ensures var q := QuoteIndex(src.src, j);
        && str == StrText(src.src[j..q])
        && src.Cursor() == (if q < |src.src| then q + 1 else q)
    {
      ghost var cs := src.src;
      ghost var q := QuoteIndex(cs, j);
      str := "";
      var more := src.HasNext();
      while more && src.Peek().value.1 != '"'
        invariant Valid()
        invariant more <==> src.Cursor() < |cs|
        invariant j <= src.Cursor() <= q
        invariant QuoteIndex(cs, src.Cursor()) == q
        invariant str == StrText(cs[j..src.Cursor()])
        decreases |cs| - src.Cursor()
      {
        var (p, _) := src.Peek().value;
        StrTextSnoc(cs, j, src.Cursor());
        if p.col == 0 { str := str + "\n"; }
        var c := src.Next();
        str := str + [c.value.1];
        more := src.HasNext();
      }
      if more {
        var _ := src.Next();
      }
    }

    /** `consumeStr(pos)`, the opening quote being at `i`: a string token when
        input remains after the closing quote; otherwise it prints
        "Unterminated string" and gives an unknown token with an empty lexeme. */
    method ConsumeStr(pos: Pos, ghost i: nat) returns (token: Token)
      requires Valid() && i < |src.src| && src.Cursor() == i + 1 && src.src[i] == (pos, '"')
      modifies this, src
      ensures Valid()
      ensures token == TokenOf(StringLexed(src.src, i + 1), pos) && src.Cursor() == StringLexed(src.src, i + 1).next
      ensures stderr == old(stderr) + StringLexed(src.src, i + 1).errs
      ensures hadError == old(hadError)
    {
      var str := StrBody(i + 1);
      var more := src.HasNext();
      if more {
        token := Token(Str, pos, str, StrLiteral(str));
      } else {
        stderr := stderr + [ErrorLine(pos, "Unterminated string")];
        token := Token(Unknown, pos, "", NoLiteral);
      }
    }
  }
}
