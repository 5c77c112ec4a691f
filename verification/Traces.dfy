/** Finite runs, latest entry last. */
module Traces {
  datatype Trace<T> = Nil | Snoc(init: Trace<T>, last: T)

  function Size<T>(h: Trace<T>): nat { if h.Nil? then 0 else Size(h.init) + 1 }

  /** `p` is how run `r` began. */
  ghost predicate Prefix<T(!new)>(p: Trace<T>, r: Trace<T>) {
    p == r || (r.Snoc? && Prefix(p, r.init))
  }

  lemma {:induction false} SubsetSize<T>(a: set<T>, b: set<T>)
    requires a <= b
    ensures |a| <= |b|
  {
    if a != {} {
      var x :| x in a;
      SubsetSize(a - {x}, b - {x});
    }
  }
}
