/** The running values both capability scans keep while they walk a
    device's capture modes: width and height only ever grow (a running
    maximum), the pixel format is overwritten by each mode examined.
    Both platform scans are specified as a fold of `Step` over the
    sequence of modes they examine, in order. */
module Summaries {
  import opened WebcamInfo

  /** The running `width`, `height` and pixel format. */
  datatype Summary = Summary(width: int, height: int, format: PixelFormat)

  /** One examined mode: whether it carries a frame geometry that feeds
      the maxima, that geometry, and the format it assigns. */
  datatype Observation = Observation(geometric: bool, width: int, height: int, format: PixelFormat)

  /** `std::max` (and the Windows `max` macro) on two integers. */
  function Max(a: int, b: int): (m: int)
    ensures m >= a && m >= b
    ensures m == a || m == b
  {
    if a < b then b else a
  }

  /** What examining one mode does to the running values. */
  function Step(s: Summary, o: Observation): Summary
  {
    Summary(if o.geometric then Max(s.width, o.width) else s.width,
            if o.geometric then Max(s.height, o.height) else s.height,
            o.format)
  }

  /** The running values after examining `obs` in order, starting from `s`. */
  function Fold(s: Summary, obs: seq<Observation>): Summary
    decreases |obs|
  {
    if obs == [] then s else Step(Fold(s, obs[..|obs| - 1]), obs[|obs| - 1])
  }

  /** Examining one more mode is one more `Step`. */
  lemma FoldSnoc(s: Summary, obs: seq<Observation>, o: Observation)
    ensures Fold(s, obs + [o]) == Step(Fold(s, obs), o)
  {
  }

  /** Examining `a` and then `b` is examining `a + b`. */
  lemma {:induction false} FoldAppend(s: Summary, a: seq<Observation>, b: seq<Observation>)
    ensures Fold(s, a + b) == Fold(Fold(s, a), b)
    decreases |b|
  {
    if b == [] {
      assert a + b == a;
    } else {
      var b' := b[..|b| - 1];
      assert (a + b)[..|a + b| - 1] == a + b';
      FoldAppend(s, a, b');
    }
  }

  /** The final width (height) is the maximum of the starting width
      (height) and the widths (heights) of the geometric modes: it bounds
      all of them and it is one of them. */
  lemma {:induction false} FoldGeometry(s: Summary, obs: seq<Observation>)
    ensures Fold(s, obs).width >= s.width && Fold(s, obs).height >= s.height
    ensures forall k :: 0 <= k < |obs| && obs[k].geometric ==>
              Fold(s, obs).width >= obs[k].width && Fold(s, obs).height >= obs[k].height
    ensures Fold(s, obs).width == s.width ||
            exists k :: 0 <= k < |obs| && obs[k].geometric && Fold(s, obs).width == obs[k].width
    ensures Fold(s, obs).height == s.height ||
            exists k :: 0 <= k < |obs| && obs[k].geometric && Fold(s, obs).height == obs[k].height
    decreases |obs|
  {
    if obs != [] {
      var n := |obs| - 1;
      var p := obs[..n];
      FoldGeometry(s, p);
      assert forall k :: 0 <= k < n ==> p[k] == obs[k];
    }
  }

  /** The final format is the format of the last mode examined, or the
      starting format when no mode was examined. */
  lemma FoldFormat(s: Summary, obs: seq<Observation>)
    ensures Fold(s, obs).format == if obs == [] then s.format else obs[|obs| - 1].format
  {
  }

  /** Neither maximum ever decreases while the modes are examined: the
      values after any prefix are bounded by the final values. */
  lemma {:induction false} FoldMonotone(s: Summary, obs: seq<Observation>, i: nat)
    requires i <= |obs|
    ensures Fold(s, obs[..i]).width <= Fold(s, obs).width
    ensures Fold(s, obs[..i]).height <= Fold(s, obs).height
    decreases |obs|
  {
    if i < |obs| {
      var p := obs[..|obs| - 1];
      assert p[..i] == obs[..i];
      FoldMonotone(s, p, i);
    } else {
      assert obs[..i] == obs;
    }
  }
}
