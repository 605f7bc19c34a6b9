/** The keys of the calculator's keyboard and the two pure classifiers the
    key handler uses: which keys are binary operators, and which keys are
    digits (with their value). */
module Keys {

  import opened Wrappers

  /** One value per button, in the order the keyboard enum declares them. */
  datatype Key =
    | Zero | One | Two | Three | Four | Five | Six | Seven | Eight | Nine
    | Times | Minus | Plus | Divide
    | Equals | Dot | Negate | Clear | Percent

  /** The four binary operators; every other key is not one. */
  predicate IsOperation(k: Key) {
    match k
    case Minus => true
    case Plus => true
    case Divide => true
    case Times => true
    case _ => false
  }

  /** A key names a digit exactly when it is one of the ten digit buttons. */
  predicate IsDigitKey(k: Key) {
    k.Zero? || k.One? || k.Two? || k.Three? || k.Four?
    || k.Five? || k.Six? || k.Seven? || k.Eight? || k.Nine?
  }

  /** The digit a key stands for, or None for a non-digit key. */
  function GetNumber(k: Key): (r: Option<nat>)
    ensures r.Some? <==> IsDigitKey(k)
    ensures r.Some? ==> r.value < 10
  {
    match k
    case Zero => Some(0)
    case One => Some(1)
    case Two => Some(2)
    case Three => Some(3)
    case Four => Some(4)
    case Five => Some(5)
    case Six => Some(6)
    case Seven => Some(7)
    case Eight => Some(8)
    case Nine => Some(9)
    case _ => None
  }

  /** The button for a digit value: the inverse of `GetNumber`. */
  function DigitKey(d: nat): (k: Key)
    requires d < 10
    ensures IsDigitKey(k)
  {
    [Zero, One, Two, Three, Four, Five, Six, Seven, Eight, Nine][d]
  }

  /** `GetNumber` and `DigitKey` are mutually inverse on the ten digits. */
  lemma DigitKeyRoundTrip(d: nat, k: Key)
    requires d < 10
    ensures GetNumber(DigitKey(d)) == Some(d)
    ensures IsDigitKey(k) ==> DigitKey(GetNumber(k).value) == k
  {
  }

  /** No key is both an operator and a digit, and the keys that are neither
      are exactly Equals, Dot, Negate, Clear and Percent. */
  lemma KeyClassesPartition(k: Key)
    ensures !(IsOperation(k) && IsDigitKey(k))
    ensures !IsOperation(k) && !IsDigitKey(k)
            <==> k in {Equals, Dot, Negate, Clear, Percent}
  {
  }

  /** The character `Int.toString` yields for a single digit. */
  function DigitChar(d: nat): (c: char)
    requires d < 10
    ensures '0' <= c <= '9'
    ensures c as int - '0' as int == d
  {
    "0123456789"[d]
  }
}
