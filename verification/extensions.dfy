/** Shared helpers of the front end: nullable values, source positions, the
    records of the diagnostic log, decimal rendering of integers and the
    one-element lookahead iterator that the scanner and the parser read through. */
module Extensions {

  /** Kotlin's nullable `T?`: `None` plays the part of `null`. */
  datatype Option<+T> = None | Some(value: T)

  /** A source position: line and column. */
  datatype Pos = Pos(line: int, col: int)

  /** One record appended to the global diagnostic log: where (when the
      reporting code set a start position) and what. */
  datatype Diag = Diag(at: Option<Pos>, msg: string)

  /** `Boolean.orNull()`: `true` stays `true`, `false` becomes `null`. */
  function OrNull(b: bool): (r: Option<bool>)
    ensures r.Some? <==> b
    ensures r.Some? ==> r.value
  {
    if b then Some(true) else None
  }

  // ---------------------------------------------------------------------------
  // Decimal rendering of integers, as string templates print them.

  predicate IsDigit(c: char) { '0' <= c <= '9' }

  /** The `lowercase` and `uppercase` ranges. */
  predicate IsLetter(c: char) { 'a' <= c <= 'z' || 'A' <= c <= 'Z' }

  predicate AllDigits(s: string) { forall k :: 0 <= k < |s| ==> IsDigit(s[k]) }

  /** A number as both scanners read one: a digit first, then digits with at
      most one `.` among them (a trailing `.` included). */
  predicate IsNumeral(s: string)
  {
    && |s| > 0 && IsDigit(s[0])
    && (forall k :: 0 <= k < |s| ==> IsDigit(s[k]) || s[k] == '.')
    && (forall k, m :: 0 <= k < m < |s| && s[k] == '.' ==> s[m] != '.')
  }

  function DigitChar(d: nat): (c: char)
    requires d < 10
    ensures IsDigit(c)
  {
    (48 + d) as char
  }

  function DigitValue(c: char): (d: nat)
    requires IsDigit(c)
    ensures d < 10
  {
    (c as int) - 48
  }

  /** Decimal digits of a natural number, most significant first, no leading zero. */
  function NatToString(n: nat): (s: string)
    ensures |s| >= 1 && AllDigits(s)
    ensures |s| > 1 ==> s[0] != '0'
    decreases n
  {
    if n < 10 then [DigitChar(n)] else NatToString(n / 10) + [DigitChar(n % 10)]
  }

  /** `"$n"` for an `Int`: a minus sign in front of negative numbers. */
  function IntToString(n: int): (s: string)
    ensures |s| >= 1
    ensures n >= 0 ==> AllDigits(s)
    ensures n < 0 ==> s[0] == '-' && AllDigits(s[1..])
    ensures forall k :: 0 <= k < |s| ==> IsDigit(s[k]) || s[k] == '-'
  {
    if n < 0 then "-" + NatToString(-n) else NatToString(n)
  }

  /** The value of a run of decimal digits. */
  function ParseNat(s: string): nat
    requires |s| >= 1 && AllDigits(s)
    decreases |s|
  {
    if |s| == 1 then DigitValue(s[0])
    else ParseNat(s[..|s| - 1]) * 10 + DigitValue(s[|s| - 1])
  }

  /** Reads back an optionally negative decimal integer. */
  function ParseInt(s: string): Option<int>
  {
    if |s| >= 2 && s[0] == '-' && AllDigits(s[1..]) then Some(0 - ParseNat(s[1..]) as int)
    else if |s| >= 1 && AllDigits(s) then Some(ParseNat(s))
    else None
  }

  lemma {:induction false} NatToStringRoundTrip(n: nat)
    ensures ParseNat(NatToString(n)) == n
    decreases n
  {
    if n >= 10 {
      var s := NatToString(n);
      NatToStringRoundTrip(n / 10);
      assert s[..|s| - 1] == NatToString(n / 10);
    }
  }

  /** Decimal rendering loses nothing: the rendered number reads back as itself. */
  lemma IntToStringRoundTrip(n: int)
    ensures ParseInt(IntToString(n)) == Some(n)
  {
    if n < 0 {
      var t := NatToString(-n);
      var s := IntToString(n);
      assert s == "-" + t && s[1..] == t;
      NatToStringRoundTrip(-n);
      assert |s| >= 2 && s[0] == '-' && AllDigits(s[1..]);
    } else {
      NatToStringRoundTrip(n);
      var s := NatToString(n);
      assert |s| >= 2 ==> s[0] != '-';
    }
  }

  /** `Int.digits()`: the number of decimal digits of the magnitude. */
  function Digits(n: int): (d: nat)
    ensures d >= 1
    ensures n >= 0 ==> d == |IntToString(n)|
    ensures n < 0 ==> d + 1 == |IntToString(n)|
  {
    |NatToString(if n < 0 then -n else n)|
  }

  // ---------------------------------------------------------------------------
  // Rendering of positions and of the error line of `logError`.

  /** `Pos.toString()`: `"line:char"`. */
  function PosString(p: Pos): string
  {
    IntToString(p.line) + ":" + IntToString(p.col)
  }

  /** Index of the first occurrence of `c` in `s`, or `|s|` when it does not occur. */
  function IndexOf(s: string, c: char): (k: nat)
    ensures k <= |s|
    ensures forall j :: 0 <= j < k ==> s[j] != c
    ensures k < |s| ==> s[k] == c
    decreases |s|
  {
    if s == [] then 0 else if s[0] == c then 0 else 1 + IndexOf(s[1..], c)
  }

  /** Reads a position back from its `"line:char"` rendering. */
  function ParsePos(s: string): Option<Pos>
  {
    var k := IndexOf(s, ':');
    if k == |s| then None
    else
      match (ParseInt(s[..k]), ParseInt(s[k + 1..]))
      case (Some(l), Some(c)) => Some(Pos(l, c))
      case _ => None
  }

  lemma IndexOfAfterDigits(a: string, b: string, c: char)
    requires forall j :: 0 <= j < |a| ==> a[j] != c
    ensures IndexOf(a + [c] + b, c) == |a|
    decreases |a|
  {
    if a != [] {
      assert (a + [c] + b)[1..] == a[1..] + [c] + b;
      IndexOfAfterDigits(a[1..], b, c);
    }
  }

  /** A rendered position reads back as the same position. */
  lemma PosStringRoundTrip(p: Pos)
    ensures ParsePos(PosString(p)) == Some(p)
  {
    var a, b := IntToString(p.line), IntToString(p.col);
    IndexOfAfterDigits(a, b, ':');
    var s := PosString(p);
    assert s[..|a|] == a && s[|a| + 1..] == b;
    IntToStringRoundTrip(p.line);
    IntToStringRoundTrip(p.col);
  }

  /** The line that `logError(pos, msg)` writes to standard error. */
  function ErrorLine(pos: Pos, msg: string): (line: string)
  {
    "Error [" + PosString(pos) + "]: " + msg
  }

  /** Splits an error line back into its position and message. */
  function ParseErrorLine(line: string): Option<(Pos, string)>
  {
    if |line| < 7 || line[..7] != "Error [" then None
    else
      var body := line[7..];
      var k := IndexOf(body, ']');
      if k + 2 >= |body| || body[k + 1..k + 3] != ": " then None
      else
        match ParsePos(body[..k])
        case Some(p) => Some((p, body[k + 3..]))
        case None => None
  }

  /** A rendered position holds no `]`: it is digits, signs and a colon. */
  lemma PosStringHasNoBracket(p: Pos)
    ensures forall j :: 0 <= j < |PosString(p)| ==> PosString(p)[j] != ']'
  {
    var a, b := IntToString(p.line), IntToString(p.col);
    var ps := PosString(p);
    forall j | 0 <= j < |ps| ensures ps[j] != ']' {
      if j > |a| { assert ps[j] == b[j - |a| - 1]; }
    }
  }

  /** The error line carries its position and message without loss. */
  lemma ErrorLineRoundTrip(pos: Pos, msg: string)
    ensures ParseErrorLine(ErrorLine(pos, msg)) == Some((pos, msg))
  {
    PosStringHasNoBracket(pos);
    PosStringRoundTrip(pos);
    hide PosString, ParsePos;
    var ps := PosString(pos);
    var line := ErrorLine(pos, msg);
    var body := line[7..];
    assert line[..7] == "Error [";
    assert body == ps + "]" + (": " + msg);
    IndexOfAfterDigits(ps, ": " + msg, ']');
    assert body[..|ps|] == ps;
    assert body[|ps| + 3..] == msg;
  }

  // ---------------------------------------------------------------------------
  // The lookahead iterator.

  /** `PeekableIterator`: wraps an iterator and keeps its next element in a
      one-element buffer. The wrapped iterator is modelled by the sequence `src`
      of everything it will yield and the count `idx` it has yielded so far. */
  class PeekableIterator<T> {
    /** All elements of the wrapped iterator, in order. */
    const src: seq<T>
    /** How many elements the wrapped iterator has handed out. */
    var idx: nat
    /** `peekedValue`: the buffered element, `None` for `null`. */
    var peeked: Option<T>

    /** An empty buffer means the wrapped iterator is exhausted; a full one holds
        the element the wrapped iterator handed out last. */
    ghost predicate Valid()
      reads this
    {
      && idx <= |src|
      && (peeked.None? ==> idx == |src|)
      && (peeked.Some? ==> 0 < idx && src[idx - 1] == peeked.value)
    }

    /** Index in `src` of the element the next call of `Next` returns. */
    ghost function Cursor(): (c: nat)
      reads this
      requires Valid()
      ensures c <= |src|
    {
      if peeked.Some? then idx - 1 else |src|
    }

    /** `init`: buffer the first element when there is one. */
    constructor (s: seq<T>)
      ensures Valid() && src == s && Cursor() == 0
    {
      src := s;
      idx := 0;
      peeked := None;
      new;
      if idx < |src| {
        peeked := Some(src[idx]);
        idx := idx + 1;
      }
    }

    /** `hasNext()`. */
    method HasNext() returns (b: bool)
      requires Valid()
      ensures b <==> Cursor() < |src|
    {
      b := peeked.Some? || idx < |src|;
    }

    /** `next()`: hands out the buffered element and buffers the following one;
        `None` stands for the `NoSuchElementException` thrown on an empty buffer. */
    method Next() returns (r: Option<T>)
      requires Valid()
      modifies this
      ensures Valid()
      ensures old(Cursor()) < |src| ==> r == Some(src[old(Cursor())]) && Cursor() == old(Cursor()) + 1
      ensures old(Cursor()) == |src| ==> r == None && Cursor() == |src|
    {
      if peeked.None? {
        r := None;
        return;
      }
      r := peeked;
      if idx < |src| {
        peeked := Some(src[idx]);
        idx := idx + 1;
      } else {
        peeked := None;
      }
    }

    /** `peek()`: the element `Next` would return, without consuming it; `None`
        only once the wrapped iterator is exhausted. */
    function Peek(): (r: Option<T>)
      reads this
      requires Valid()
      ensures r == if Cursor() < |src| then Some(src[Cursor()]) else None
      ensures r.None? ==> idx == |src|
    {
      peeked
    }
  }
}
