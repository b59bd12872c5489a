/** The earlier `ErrorLogger`, whose `log()` always prints the code line and the
    caret line, with no special case for errors that carry no source position. */
module OldErrorLogger {
  import opened Extensions
  import opened Error

  /** What `log()` prints for a pending error: the code line, then the caret
      line, unless the padding width is negative, which throws after the code
      line. */
  function LogOutput(p: Pos, code: string, msg: string): (r: (seq<string>, Option<Failure>))
    ensures |r.0| >= 1 && r.0[0] == CodeLine(p.line, code)
    ensures r.1.None? <==> |r.0| == 2
    ensures r.1.None? ==> Ok(r.0[1]) == CaretLine(p, msg)
    ensures r.1.Some? ==> Fail(r.1.value) == CaretLine(p, msg)
    ensures p.line != 0 ==> r == ErrOutput(p, code, msg)
  {
    match CaretLine(p, msg)
    case Ok(caret) => ([CodeLine(p.line, code), caret], None)
    case Fail(f) => ([CodeLine(p.line, code)], Some(f))
  }

  /** On line 0, the later `err()` prints the bare message where `log()`
      printed a code line for line 0 and a caret line. */
  lemma LineZeroDiffers(p: Pos, code: string, msg: string)
    requires p.line == 0 && p.col >= -4
    ensures LogOutput(p, code, msg).1.None? && |LogOutput(p, code, msg).0| == 2
    ensures ErrOutput(p, code, msg).0 == [msg]
  {
  }

  /** `ErrorLogger` with `log()`. */
  class ErrorLogger {
    var hadError: bool
    var pos: Pos
    var msg: string
    var code: string
    ghost var stderr: seq<string>

    constructor (hadError: bool, pos: Pos, msg: string, code: string)
      ensures this.hadError == hadError && this.pos == pos && this.msg == msg && this.code == code
      ensures stderr == []
    {
      this.hadError := hadError;
      this.pos := pos;
      this.msg := msg;
      this.code := code;
      stderr := [];
    }

    /** `log()`: prints a pending error and clears it, answering whether
        anything was printed; with no pending error it changes nothing. */
    method Log() returns (r: Result<bool>)
      modifies this
      ensures !old(hadError) ==> r == Ok(false) && stderr == old(stderr) && !hadError
      ensures old(hadError) ==> stderr == old(stderr) + LogOutput(pos, code, msg).0
      ensures old(hadError) && LogOutput(pos, code, msg).1.None? ==> r == Ok(true) && !hadError
      ensures old(hadError) && LogOutput(pos, code, msg).1.Some? ==>
        r == Fail(LogOutput(pos, code, msg).1.value) && hadError
      ensures pos == old(pos) && msg == old(msg) && code == old(code)
    {
      if !hadError {
        return Ok(false);
      }
      stderr := stderr + [CodeLine(pos.line, code)];
      var caret := CaretLine(pos, msg);
      if caret.Fail? {
        return Fail(caret.failure);
      }
      stderr := stderr + [caret.value];
      hadError := false;
      r := Ok(true);
    }
  }
}
