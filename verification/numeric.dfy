/** The numeric side of the calculator, kept abstract.

    The handler does its arithmetic on `Double`, parses text with Kotlin's
    `toDouble`/`toDoubleOrNull` and renders results with a locale
    `DecimalFormat`. None of that is visible here, so the model takes it as a
    parameter: an `Arith<N>` bundles a number type `N` with the parser, the
    formatter, the four operations and the two constants the handler uses.
    Every property proved about the calculator holds for every such bundle,
    unless it names an assumption about the bundle explicitly. */
module Numeric {

  import opened Wrappers
  import opened Keys

  datatype Arith<!N> = Arith(
    /** `String.toDoubleOrNull()`: None where `String.toDouble()` throws. */
    parse: string -> Option<N>,
    /** `DecimalFormat.getInstance().format(x)`. */
    fmt: N -> string,
    add: (N, N) -> N,
    sub: (N, N) -> N,
    mul: (N, N) -> N,
    div: (N, N) -> N,
    /** The literal `0.0`. */
    zero: N,
    /** The literal `100.0`. */
    hundred: N)

  /** `text.toDoubleOrNull() ?: 0.0`: the lenient parse used everywhere
      except on the Equals path with a pending operation. */
  function ParseOrZero<N>(ar: Arith<N>, text: string): (x: N)
    ensures ar.parse(text).Some? ==> x == ar.parse(text).value
    ensures ar.parse(text).None? ==> x == ar.zero
  {
    ar.parse(text).GetOr(ar.zero)
  }

  /** `handleOperation(a, b, op)`: Minus, Plus and Divide pick their
      operation and every other key falls through to multiplication. */
  function HandleOperation<N>(ar: Arith<N>, a: N, b: N, op: Key): (x: N)
    ensures op == Minus ==> x == ar.sub(a, b)
    ensures op == Plus ==> x == ar.add(a, b)
    ensures op == Divide ==> x == ar.div(a, b)
    ensures op != Minus && op != Plus && op != Divide ==> x == ar.mul(a, b)
  {
    match op
    case Minus => ar.sub(a, b)
    case Plus => ar.add(a, b)
    case Divide => ar.div(a, b)
    case _ => ar.mul(a, b)
  }

  /** The number of decimal points in a text. */
  function CountDots(text: string): (n: nat)
    ensures n <= |text|
    ensures n == 0 <==> '.' !in text
  {
    if text == [] then 0
    else (if text[0] == '.' then 1 else 0) + CountDots(text[1..])
  }

  /** Counting points distributes over concatenation. */
  lemma {:induction false} CountDotsConcat(a: string, b: string)
    ensures CountDots(a + b) == CountDots(a) + CountDots(b)
    decreases |a|
  {
    if a != [] {
      assert (a + b)[0] == a[0];
      assert (a + b)[1..] == a[1..] + b;
      CountDotsConcat(a[1..], b);
    } else {
      assert a + b == b;
    }
  }

  /** The one assumption about the formatter the dot invariant needs: a
      formatted number never shows more than one decimal point. */
  ghost predicate FmtHasOneDot<N(!new)>(ar: Arith<N>) {
    forall x: N :: CountDots(ar.fmt(x)) <= 1
  }
}
