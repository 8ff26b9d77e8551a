/** The absent-or-present value used wherever the Python code returns `None`,
 *  and the all-or-nothing loop that gives up at the first `None`. */
module Options {

  datatype Option<+T> = None | Some(value: T)

  /** `f` applied to each element in order, or `None` as soon as one
   *  application gives `None`. */
  function MapAll<A, B>(f: A -> Option<B>, xs: seq<A>): Option<seq<B>>
    decreases |xs|
  {
    if xs == [] then Some([])
    else
      var front := MapAll(f, xs[..|xs| - 1]);
      var last := f(xs[|xs| - 1]);
      if front.None? || last.None? then None else Some(front.value + [last.value])
  }

  /** `MapAll` succeeds iff every application does, and then holds each
   *  element's result at that element's position. */
  lemma {:induction false} MapAllInOrder<A, B>(f: A -> Option<B>, xs: seq<A>)
    ensures MapAll(f, xs).Some? <==> forall k :: 0 <= k < |xs| ==> f(xs[k]).Some?
    ensures MapAll(f, xs).Some? ==>
              (|MapAll(f, xs).value| == |xs|
               && forall k :: 0 <= k < |xs| ==> MapAll(f, xs).value[k] == f(xs[k]).value)
    decreases |xs|
  {
    if xs != [] {
      var front := xs[..|xs| - 1];
      MapAllInOrder(f, front);
      assert forall k :: 0 <= k < |xs| - 1 ==> xs[k] == front[k];
    }
  }

}
