/**
 * Python runtime notions that the modelled code relies on: the exceptions it
 * can raise, `None`, `str.strip`, `str.join`, decimal printing of integers,
 * and the index and slice rules of Python sequences.
 */
module Base {

  /** The exceptions that the modelled code can raise. */
  datatype PyError =
    | AttributeError   // an attribute that the object does not have (`.name` of a str)
    | IndexError       // an index outside the sequence
    | KeyError         // a dictionary key that is absent
    | TypeError        // hashing an unhashable value (a list)
    | ValueError       // an argument of the wrong size
    | MemoryError      // the sandbox's memory cap
    | StructError      // `struct.pack` of a value that does not fit the format

  /** Python's `None` against a present value. */
  datatype Option<+T> = None | Some(value: T)

  /** A computation that either returns a value or raises a Python exception. */
  datatype Result<+T> = Ok(value: T) | Err(error: PyError) {
    predicate IsFailure() {
      Err?
    }

    function PropagateFailure<U>(): Result<U>
      requires Err?
    {
      Err(error)
    }

    function Extract(): T
      requires Ok?
    {
      value
    }
  }

  /** The characters for which Python's `str.isspace()` holds. */
  predicate IsSpace(c: char) {
    c == ' ' || ('\t' <= c <= '\r') || ('\U{001C}' <= c <= '\U{001F}')
    || c == '\U{0085}' || c == '\U{00A0}' || c == '\U{1680}' || ('\U{2000}' <= c <= '\U{200A}')
    || c == '\U{2028}' || c == '\U{2029}' || c == '\U{202F}' || c == '\U{205F}' || c == '\U{3000}'
  }

  predicate IsBlank(s: string) {
    forall i :: 0 <= i < |s| ==> IsSpace(s[i])
  }

  /** Python's `s.lstrip()`. */
  function LStrip(s: string): string {
    if s != [] && IsSpace(s[0]) then LStrip(s[1..]) else s
  }

  /** Python's `s.rstrip()`. */
  function RStrip(s: string): string {
    if s != [] && IsSpace(s[|s| - 1]) then RStrip(s[..|s| - 1]) else s
  }

  /** Python's `s.strip()`: whitespace removed at both ends. */
  function Strip(s: string): string {
    RStrip(LStrip(s))
  }

  /** Text with no whitespace at either end. */
  predicate Stripped(s: string) {
    s == [] || (!IsSpace(s[0]) && !IsSpace(s[|s| - 1]))
  }

  /** `lstrip` removes a blank prefix and stops at the first other character. */
  lemma {:induction false} LStripFacts(s: string)
    ensures LStrip(s) == [] <==> IsBlank(s)
    ensures LStrip(s) != [] ==> !IsSpace(LStrip(s)[0])
    decreases |s|
  {
    if s != [] && IsSpace(s[0]) {
      LStripFacts(s[1..]);
      assert forall i :: 1 <= i < |s| ==> s[i] == s[1..][i - 1];
    }
  }

  /** `rstrip` removes a blank suffix, keeps the first character of non-blank text and stops at the last other character. */
  lemma {:induction false} RStripFacts(s: string)
    ensures RStrip(s) == [] <==> IsBlank(s)
    ensures RStrip(s) != [] ==> RStrip(s)[0] == s[0] && !IsSpace(RStrip(s)[|RStrip(s)| - 1])
    decreases |s|
  {
    if s != [] && IsSpace(s[|s| - 1]) {
      RStripFacts(s[..|s| - 1]);
      assert forall i :: 0 <= i < |s| - 1 ==> s[i] == s[..|s| - 1][i];
    }
  }

  /** `strip` gives the empty string exactly on blank text, and otherwise text with no whitespace at either end. */
  lemma {:induction false} StripFacts(s: string)
    ensures Strip(s) == [] <==> IsBlank(s)
    ensures Stripped(Strip(s))
  {
    LStripFacts(s);
    RStripFacts(LStrip(s));
  }

  /** Stripping text without whitespace at its ends changes nothing; in particular stripping is idempotent. */
  lemma {:induction false} StripStripped(s: string)
    requires Stripped(s)
    ensures Strip(s) == s
  {
  }

  /** Python's `sep.join(parts)`. */
  function Join(sep: string, parts: seq<string>): string {
    if parts == [] then ""
    else if |parts| == 1 then parts[0]
    else parts[0] + sep + Join(sep, parts[1..])
  }

  function DigitChar(d: nat): char
    requires d < 10
  {
    "0123456789"[d]
  }

  /** Python's `str(n)` for a non-negative integer: its decimal digits. */
  function NatToString(n: nat): (r: string)
    ensures |r| >= 1
    ensures forall i :: 0 <= i < |r| ==> '0' <= r[i] <= '9'
  {
    if n < 10 then [DigitChar(n)] else NatToString(n / 10) + [DigitChar(n % 10)]
  }

  /** Python's `xs[i]` on a sequence of length `len`: the position read, or None (IndexError). */
  function PyIndex(i: int, len: nat): (r: Option<nat>)
    ensures r.Some? <==> 0 <= i + len && i < len
    ensures r.Some? ==> r.value < len && (r.value == i || r.value == i + len)
  {
    if 0 <= i < len then Some(i) else if 0 <= i + len && i < 0 then Some(i + len) else None
  }

  /** The position that a slice bound `i` denotes in a sequence of length `len`. */
  function SliceBound(i: int, len: nat): (r: nat)
    ensures r <= len
    ensures 0 <= i <= len ==> r == i
  {
    if i < 0 then (if i + len < 0 then 0 else i + len) else if i > len then len else i
  }

  /** Python's `xs[a:b]`. */
  function PySlice<T>(xs: seq<T>, a: int, b: int): (r: seq<T>)
    ensures 0 <= a <= b <= |xs| ==> r == xs[a..b]
    ensures 0 <= a <= |xs| <= b ==> r == xs[a..]
  {
    var lo := SliceBound(a, |xs|);
    var hi := SliceBound(b, |xs|);
    if lo <= hi then xs[lo..hi] else []
  }
}
