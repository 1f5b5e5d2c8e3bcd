/** A value that may be absent ("device included" or "device skipped",
    "an output pin was found" or not), and the list of the present values
    that a device loop builds from one such decision per device. */
module Options {
  datatype Option<T> = None | Some(value: T)

  /** The values of the present entries, in order. */
  function Present<T>(rs: seq<Option<T>>): seq<T>
    decreases |rs|
  {
    if rs == [] then []
    else Present(rs[..|rs| - 1]) + match rs[|rs| - 1] case None => [] case Some(x) => [x]
  }

  /** One more decision appends its value, if any. */
  lemma PresentSnoc<T>(rs: seq<Option<T>>, r: Option<T>)
    ensures Present(rs + [r]) == Present(rs) + match r case None => [] case Some(x) => [x]
  {
  }

  /** The present values are exactly those of the `Some` entries, and there
      are no more of them than entries. */
  lemma {:induction false} PresentMembers<T>(rs: seq<Option<T>>)
    ensures |Present(rs)| <= |rs|
    ensures forall x :: x in Present(rs) <==> Some(x) in rs
    decreases |rs|
  {
    if rs != [] {
      var p := rs[..|rs| - 1];
      PresentMembers(p);
      assert rs == p + [rs[|rs| - 1]];
    }
  }
}
