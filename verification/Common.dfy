/** Small vocabulary shared by the models: options, results and facts about finite sets and maps. */
module Common {

  datatype Option<+T> = None | Some(value: T)

  newtype Byte = x: int | 0 <= x < 256

  /** Instants and durations are in nanoseconds. */
  const SECOND: nat := 1_000_000_000

  const U32_MAX: nat := 0xFFFF_FFFF

  function Min(a: int, b: int): int { if a < b then a else b }

  function Max(a: int, b: int): int { if a < b then b else a }

  /** `Instant::duration_since` saturates: an instant in the future has age zero. */
  function Age(now: nat, at: nat): nat {
    if now < at then 0 else now - at
  }

  lemma SubsetSize<T>(a: set<T>, b: set<T>)
    requires a <= b
    ensures |a| <= |b|
  {
    if a != {} {
      var x :| x in a;
      SubsetSize(a - {x}, b - {x});
    }
  }

  /** A proper superset is strictly larger. */
  lemma ProperSubsetSize<T>(a: set<T>, b: set<T>)
    requires a < b
    ensures |a| < |b|
  {
    var x :| x in b && x !in a;
    SubsetSize(a, b - {x});
  }

  /** Pigeonhole: an injective function into `b` bounds the size of its domain. */
  lemma InjectionSize<X, Y>(a: set<X>, b: set<Y>, f: X --> Y)
    requires forall x | x in a :: f.requires(x) && f(x) in b
    requires forall x, y | x in a && y in a && f(x) == f(y) :: x == y
    ensures |a| <= |b|
  {
    if a != {} {
      var x :| x in a;
      InjectionSize(a - {x}, b - {f(x)}, f);
    }
  }
}
