/** Shared vocabulary of the model: optional values (Java `null`), results
    that may carry a Java exception, bytes, abstract thread identities and
    the 32-bit `int` arithmetic the Java code relies on. */
module Common {

  /** A Java reference that may be `null`. */
  datatype Option<+T> = None | Some(value: T)

  /** The Java exceptions the modelled code throws or catches. */
  datatype Error =
    | IOException
    | IllegalArgumentException
    | IllegalMonitorStateException
    | IndexOutOfBoundsException
    | NegativeArraySizeException

  /** Either a value or the exception thrown instead of producing it. */
  datatype Result<+T> = Ok(value: T) | Err(error: Error)

  /** The outcome of a `void` Java call: it returned, or it threw. */
  datatype Outcome = Done | Threw(error: Error)

  /** The state an operation leaves behind, and whether it returned or
      threw; a throwing operation that leaves the state as it was returns
      the old state. */
  datatype Step<+S> = Step(state: S, outcome: Outcome)

  /** A Java `byte`. */
  newtype byte = b: int | -128 <= b < 128

  /** A Java thread, compared by identity only. */
  datatype ThreadId = ThreadId(id: nat)

  const INT_MIN: int := -0x8000_0000
  const INT_MAX: int := 0x7fff_ffff
  const TWO_32: int := 0x1_0000_0000

  predicate IsInt32(x: int) {
    INT_MIN <= x <= INT_MAX
  }

  /** Java's narrowing cast `(int) x` of a `long`: keeps the low 32 bits,
      read as a signed value. */
  function ToInt32(x: int): (r: int)
    ensures IsInt32(r)
    ensures (r - x) % TWO_32 == 0
    ensures IsInt32(x) ==> r == x
  {
    (x - INT_MIN) % TWO_32 + INT_MIN
  }

  /** The 32-bit pattern of a Java `int`, for bitwise `^`. */
  function Bits32(x: int): bv32 {
    (x % TWO_32) as bv32
  }

  function Min(a: int, b: int): (r: int)
    ensures r <= a && r <= b
    ensures r == a || r == b
  {
    if a <= b then a else b
  }

  /** `map.getOrDefault(k, d)` */
  function GetOrDefault<K, V>(m: map<K, V>, k: K, d: V): (v: V)
    ensures k in m ==> v == m[k]
    ensures k !in m ==> v == d
  {
    if k in m then m[k] else d
  }

  /** A subset is no larger than its superset, and one of the same size is
      the superset itself. */
  lemma {:induction false} SubsetCount<T>(a: set<T>, b: set<T>)
    requires a <= b
    ensures |a| <= |b|
    ensures |a| == |b| ==> a == b
    decreases |a|
  {
    if a != {} {
      var x :| x in a;
      SubsetCount(a - {x}, b - {x});
      assert a == (a - {x}) + {x} && b == (b - {x}) + {x};
    }
  }
}
