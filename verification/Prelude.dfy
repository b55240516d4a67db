/** Small datatypes and arithmetic helpers shared by every component. */
module Prelude {

  datatype Option<+T> = None | Some(value: T) {
    function GetOr(default: T): T {
      if Some? then value else default
    }
  }

  datatype Result<+T, +E> = Ok(value: T) | Err(error: E)

  function Min(a: int, b: int): int {
    if a <= b then a else b
  }

  function Max(a: int, b: int): int {
    if a <= b then b else a
  }

  /** Rust's `Ord::clamp`, which panics when the bounds are crossed. */
  function Clamp(n: int, lo: int, hi: int): int
    requires lo <= hi
  {
    if n < lo then lo else if n > hi then hi else n
  }

  /** A set that embeds injectively into another is no larger. */
  lemma {:induction false} InjectionBound<A, B>(xs: set<A>, ys: set<B>, f: map<A, B>)
    requires xs <= f.Keys
    requires forall x :: x in xs ==> f[x] in ys
    requires forall x, y :: x in xs && y in xs && x != y ==> f[x] != f[y]
    ensures |xs| <= |ys|
  {
    if xs != {} {
      var x :| x in xs;
      InjectionBound(xs - {x}, ys - {f[x]}, f);
    }
  }

  /** A set of exactly the naturals below n has n elements. */
  lemma {:induction false} CountBelow(n: nat, s: set<nat>)
    requires forall x: nat :: x in s <==> x < n
    ensures |s| == n
  {
    if n > 0 {
      CountBelow(n - 1, s - {n - 1});
    } else {
      assert s == {};
    }
  }
}
