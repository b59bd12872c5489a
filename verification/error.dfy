/** Error reporting of the current front end: the exceptions it throws and the
    `ErrorLogger`, which prints a diagnostic as the offending source line with a
    caret under the offending column. */
module Error {
  import opened Extensions
  import Lexer

  /** The exceptions of the front end, plus the two library exceptions its
      code can run into: `NoSuchElementException` from an exhausted iterator
      and `IllegalArgumentException` from a negative padding width. */
  datatype Failure =
    | ParseError(msg: string)
    | TypeError(msg: string)
    | InterpreterError(msg: string)
    | AbruptEndError
    | NoSuchElement
    | IllegalArgument(msg: string)

  /** The message an exception carries. */
  function Message(f: Failure): (m: string)
    ensures f.AbruptEndError? ==> m == "End without " + Lexer.Repr(Lexer.Eof)
  {
    match f
    case ParseError(m) => m
    case TypeError(m) => m
    case InterpreterError(m) => m
    case AbruptEndError => "End without " + Lexer.Repr(Lexer.Eof)
    case NoSuchElement => ""
    case IllegalArgument(m) => m
  }

  /** The `AbruptEndError` message names the end-of-input token by its spelling. */
  lemma AbruptEndMessage()
    ensures Message(AbruptEndError) == "End without <EOF>"
  {
  }

  /** A value, or the exception that stopped its computation. */
  datatype Result<T> = Ok(value: T) | Fail(failure: Failure)

  // ---------------------------------------------------------------------------
  // The two lines of a diagnostic.

  /** `n` spaces. */
  function Spaces(n: nat): (s: string)
    ensures |s| == n && forall k :: 0 <= k < n ==> s[k] == ' '
  {
    seq(n, _ => ' ')
  }

  /** `s.padStart(width)`: `s` with spaces in front up to `width` characters;
      a negative width is an `IllegalArgumentException`. */
  function PadStart(s: string, width: int): (r: Result<string>)
    ensures width < 0 <==> r.Fail?
    ensures r.Ok? && width <= |s| ==> r.value == s
    ensures r.Ok? && width > |s| ==> |r.value| == width && r.value[width - |s|..] == s
    ensures r.Ok? && width > |s| ==> forall k :: 0 <= k < width - |s| ==> r.value[k] == ' '
  {
    if width < 0 then Fail(IllegalArgument("Desired length " + IntToString(width) + " is less than zero."))
    else if width <= |s| then Ok(s)
    else Ok(Spaces(width - |s|) + s)
  }

  /** The first line: `"<line> | <code>"`. */
  function CodeLine(line: int, code: string): (s: string)
    ensures |s| == |IntToString(line)| + 3 + |code|
    ensures s[|IntToString(line)|..] == " | " + code
  {
    IntToString(line) + " | " + code
  }

  /** The second line: a caret padded to `digits(line) + 3 + char`, then a
      space and the message. */
  function CaretLine(p: Pos, msg: string): (r: Result<string>)
    ensures r.Fail? <==> Digits(p.line) + 3 + p.col < 0
  {
    match PadStart("^", Digits(p.line) + 3 + p.col)
    case Ok(caret) => Ok(caret + " " + msg)
    case Fail(f) => Fail(f)
  }

  /** On a positive line, a caret for column `col` (counted from 1) of `code`
      stands exactly under that character of the code line, with nothing but
      spaces before it. */
  lemma CaretUnderColumn(p: Pos, code: string, msg: string)
    requires p.line > 0 && 1 <= p.col <= |code|
    ensures CaretLine(p, msg).Ok?
    ensures var caret := CaretLine(p, msg).value;
      var k := |IntToString(p.line)| + 3 + (p.col - 1);
      && k < |caret| && caret[k] == '^'
      && (forall j :: 0 <= j < k ==> caret[j] == ' ')
      && k < |CodeLine(p.line, code)| && CodeLine(p.line, code)[k] == code[p.col - 1]
  {
    var width := Digits(p.line) + 3 + p.col;
    var pad := PadStart("^", width).value;
    var caret := CaretLine(p, msg).value;
    var k := |IntToString(p.line)| + 3 + (p.col - 1);
    assert k == width - 1;
    assert caret[..width] == pad;
    assert pad[width - 1..] == "^";
    var cl := CodeLine(p.line, code);
    assert cl[|IntToString(p.line)|..] == " | " + code;
    assert cl[k] == (" | " + code)[3 + (p.col - 1)];
  }

  /** What `err()` prints for a pending error: only the message when the
      position is on line 0, else the code line and the caret line; a failed
      padding stops it after the code line. */
  function ErrOutput(p: Pos, code: string, msg: string): (r: (seq<string>, Option<Failure>))
    ensures p.line == 0 ==> r == ([msg], None)
    ensures p.line != 0 ==> |r.0| >= 1 && r.0[0] == CodeLine(p.line, code)
    ensures p.line != 0 && r.1.None? ==> |r.0| == 2 && Ok(r.0[1]) == CaretLine(p, msg)
  {
    if p.line == 0 then ([msg], None)
    else
      match CaretLine(p, msg)
      case Ok(caret) => ([CodeLine(p.line, code), caret], None)
      case Fail(f) => ([CodeLine(p.line, code)], Some(f))
  }

  // ---------------------------------------------------------------------------
  // The logger.

  /** `ErrorLogger`: the pending error, and the lines written to standard error. */
  class ErrorLogger {
    var hadError: bool
    var position: Pos
    var msg: string
    var code: string
    ghost var stderr: seq<string>

    /** A logger in its reset state. */
    constructor ()
      ensures !hadError && position == Pos(0, 0) && msg == "" && code == "" && stderr == []
    {
      hadError := false;
      position := Pos(0, 0);
      msg := "";
      code := "";
      stderr := [];
    }

    /** `err()`: prints a pending error and clears it, answering whether
        anything was printed; with no pending error it prints and changes
        nothing. A negative padding width throws after the code line. */
    method Err() returns (r: Result<bool>)
      modifies this
      ensures !old(hadError) ==> r == Ok(false) && stderr == old(stderr) && !hadError
      ensures old(hadError) ==> stderr == old(stderr) + ErrOutput(position, code, msg).0
      ensures old(hadError) && ErrOutput(position, code, msg).1.None? ==> r == Ok(true) && !hadError
      ensures old(hadError) && ErrOutput(position, code, msg).1.Some? ==>
        r == Fail(ErrOutput(position, code, msg).1.value) && hadError
      ensures position == old(position) && msg == old(msg) && code == old(code)
    {
      if !hadError {
        return Ok(false);
      }
      var exceptionError := position.line == 0;
      if exceptionError {
        stderr := stderr + [msg];
      } else {
        stderr := stderr + [CodeLine(position.line, code)];
        var caret := CaretLine(position, msg);
        if caret.Fail? {
          return Fail(caret.failure);
        }
        stderr := stderr + [caret.value];
      }
      hadError := false;
      r := Ok(true);
    }

    /** `reset()`: no pending error, position `(0, 0)`, empty message and code. */
    method Reset()
      modifies this
      ensures !hadError && position == Pos(0, 0) && msg == "" && code == ""
      ensures stderr == old(stderr)
    {
      hadError := false;
      position := Pos(0, 0);
      msg := "";
      code := "";
    }
  }
}
