/** Shared vocabulary: optional values, bytes and ASCII case folding. */
module Common {

  datatype Option<+T> = None | Some(value: T)

  /** The exceptions the modelled code can let escape; `TaskError` is whatever
      a block or function handed to a scheduler raised. */
  datatype ErrorKind = ArgumentError | NoMethodError | RangeError | SyntaxError | TaskError

  /** A call that either returns a value or raises. */
  datatype Outcome<+T> = Ok(value: T) | Raises(error: ErrorKind)

  /** A byte as `String#unpack("C*")` yields it. */
  type byte = b: int | 0 <= b < 256

  predicate IsAsciiUpper(b: byte) { 65 <= b <= 90 }

  predicate IsAsciiLower(b: byte) { 97 <= b <= 122 }

  /** `String#downcase` on one byte: only A-Z change. */
  function LowerByte(b: byte): (r: byte)
    ensures IsAsciiUpper(b) ==> r == b + 32
    ensures !IsAsciiUpper(b) ==> r == b
    ensures !IsAsciiUpper(r)
  {
    if IsAsciiUpper(b) then b + 32 else b
  }

  /** `String#downcase` on a byte string. */
  function Lower(s: seq<byte>): (r: seq<byte>)
    ensures |r| == |s|
    ensures forall i :: 0 <= i < |s| ==> r[i] == LowerByte(s[i])
  {
    if s == [] then [] else Lower(s[..|s| - 1]) + [LowerByte(s[|s| - 1])]
  }

  /** The two bytes are the same letter up to ASCII case (or the same byte). */
  predicate SameIgnoringCase(x: byte, y: byte) { LowerByte(x) == LowerByte(y) }

  /** Ruby's `Array#[]` with an integer index: a negative index counts from the end,
      an index outside the array gives nil. */
  function At<T>(s: seq<T>, i: int): (r: Option<T>)
    ensures r.Some? <==> -|s| <= i < |s|
    ensures r.Some? ==> r.value == s[i % |s|]
  {
    if 0 <= i < |s| then Some(s[i])
    else if -|s| <= i < 0 then Some(s[|s| + i])
    else None
  }

  /** `n | 1` on a two's complement integer: even numbers go up by one, odd ones stay. */
  function OrOne(n: int): (r: int)
    ensures r % 2 == 1
    ensures r == n || r == n + 1
  {
    if n % 2 == 0 then n + 1 else n
  }

  function Min(x: real, y: real): real { if x <= y then x else y }

  function MinInt(x: int, y: int): int { if x <= y then x else y }

  function MaxInt(x: int, y: int): int { if x >= y then x else y }

  /** `Array#join(sep)` (JavaScript `Array.prototype.join`) for strings. */
  function Join<T>(parts: seq<seq<T>>, sep: seq<T>): seq<T>
  {
    if parts == [] then []
    else if |parts| == 1 then parts[0]
    else Join(parts[..|parts| - 1], sep) + sep + parts[|parts| - 1]
  }

  /** An IEEE double as far as the modelled arithmetic needs it: rounding is not
      modelled, but division by zero yields NaN or an infinity instead of failing. */
  datatype Float = Finite(value: real) | NaN | Infinity(positive: bool)

  /** `x / y` on doubles with finite operands. */
  function Divide(x: real, y: real): Float
  {
    if y != 0.0 then Finite(x / y)
    else if x == 0.0 then NaN
    else Infinity(x > 0.0)
  }

  /** `f / y` on doubles where `y` is finite and `f` may not be. */
  function DivideFloat(f: Float, y: real): Float
  {
    match f
    case Finite(x) => Divide(x, y)
    case NaN => NaN
    case Infinity(p) => if y < 0.0 then Infinity(!p) else Infinity(p)
  }
}
