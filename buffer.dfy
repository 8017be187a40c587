/** The part of Godot's `MultiMesh` the renderer relies on: a buffer of instance slots,
    a visible-instance count, and the rule that changing the instance count reallocates
    the buffer, clearing every slot. */
module Buffer {
  import opened Numerics
  import opened Sampling

  /** A freshly allocated buffer of `n` slots. */
  function Allocated(n: nat): (slots: seq<Instance>)
    ensures |slots| == n
    ensures forall i :: 0 <= i < n ==> slots[i] == Cleared
  {
    seq(n, _ => Cleared)
  }

  /** How many of `samples` fit from slot `at` on. */
  function Fitting(size: int, at: int, samples: seq<Instance>): (n: int)
    requires 0 <= at <= size
    ensures 0 <= n <= |samples| && at + n <= size
    ensures n == |samples| || at + n == size
  {
    MinInt(size - at, |samples|)
  }

  /** `slots` after writing `samples` one by one from slot `at`, stopping when the buffer
      is full. */
  function Overwrite(slots: seq<Instance>, at: int, samples: seq<Instance>): (r: seq<Instance>)
    requires 0 <= at <= |slots|
    ensures |r| == |slots|
    ensures forall j :: 0 <= j < at ==> r[j] == slots[j]
    ensures forall j :: at <= j < at + Fitting(|slots|, at, samples) ==> r[j] == samples[j - at]
    ensures forall j :: at + Fitting(|slots|, at, samples) <= j < |slots| ==> r[j] == slots[j]
  {
    var n := Fitting(|slots|, at, samples);
    slots[..at] + samples[..n] + slots[at + n..]
  }

  lemma InstancesAssociate(a: seq<Instance>, b: seq<Instance>, c: seq<Instance>)
    ensures a + (b + c) == a + b + c
  {
  }

  /** Writing nothing changes nothing. */
  lemma OverwriteNothing(slots: seq<Instance>, at: int)
    requires 0 <= at <= |slots|
    ensures Overwrite(slots, at, []) == slots
  {
  }

  /** One more write, while there is room, lands just after the earlier ones. */
  lemma OverwriteOneMore(slots: seq<Instance>, at: int, written: seq<Instance>, x: Instance)
    requires 0 <= at && at + |written| < |slots|
    ensures Overwrite(slots, at, written)[at + |written| := x] == Overwrite(slots, at, written + [x])
  {
    var a := Overwrite(slots, at, written)[at + |written| := x];
    var b := Overwrite(slots, at, written + [x]);
    assert |a| == |b|;
    forall j | 0 <= j < |a|
      ensures a[j] == b[j]
    {
      if at <= j < at + |written| {
        assert (written + [x])[j - at] == written[j - at];
      } else if j == at + |written| {
        assert (written + [x])[j - at] == x;
      }
    }
  }

  /** Once the buffer is full, further samples are dropped. */
  lemma OverwriteFull(slots: seq<Instance>, at: int, written: seq<Instance>, more: seq<Instance>)
    requires 0 <= at <= |slots| <= at + |written|
    ensures Overwrite(slots, at, written + more) == Overwrite(slots, at, written)
  {
    var a := Overwrite(slots, at, written + more);
    var b := Overwrite(slots, at, written);
    forall j | at <= j < |slots|
      ensures a[j] == b[j]
    {
      assert (written + more)[j - at] == written[j - at];
    }
    assert a == b;
  }

  /** Writing `first`, then `rest` from where the writes stopped, is writing `first + rest`. */
  lemma OverwriteSequence(slots: seq<Instance>, at: int, first: seq<Instance>, rest: seq<Instance>)
    requires 0 <= at <= |slots|
    ensures Overwrite(Overwrite(slots, at, first), at + Fitting(|slots|, at, first), rest)
            == Overwrite(slots, at, first + rest)
    ensures Fitting(|slots|, at, first) + Fitting(|slots|, at + Fitting(|slots|, at, first), rest)
            == Fitting(|slots|, at, first + rest)
  {
    var n := Fitting(|slots|, at, first);
    var a := Overwrite(Overwrite(slots, at, first), at + n, rest);
    var b := Overwrite(slots, at, first + rest);
    var m := Fitting(|slots|, at + n, rest);
    if n < |first| {
      assert m == 0;
    }
    assert Fitting(|slots|, at, first + rest) == n + m;
    forall j | 0 <= j < |slots|
      ensures a[j] == b[j]
    {
      if at <= j < at + n {
        assert (first + rest)[j - at] == first[j - at];
      } else if at + n <= j < at + n + m {
        assert (first + rest)[j - at] == rest[j - at - n];
      }
    }
    assert a == b;
  }

  /** Writing from slot 0 into a buffer with room for everything puts the samples first. */
  lemma OverwriteFromStart(slots: seq<Instance>, samples: seq<Instance>)
    requires |samples| <= |slots|
    ensures Overwrite(slots, 0, samples)[..|samples|] == samples
    ensures |samples| == |slots| ==> Overwrite(slots, 0, samples) == samples
  {
  }

  /** Godot's `MultiMesh`: `slots[i]` holds instance `i`'s transform and color; a visible
      count of -1 draws every instance. */
  class MultiMesh {
    var instanceCount: int
    var visibleInstanceCount: int
    var slots: seq<Instance>

    ghost predicate Valid()
      reads this
    {
      0 <= instanceCount == |slots| && -1 <= visibleInstanceCount <= instanceCount
    }

    /** The instances the engine draws. */
    function Drawn(): seq<Instance>
      reads this
      requires Valid()
    {
      if visibleInstanceCount == -1 then slots else slots[..visibleInstanceCount]
    }

    /** A new multimesh: no instances, all of them visible. */
    constructor ()
      ensures Valid()
      ensures instanceCount == 0 && visibleInstanceCount == -1 && slots == []
    {
      instanceCount := 0;
      visibleInstanceCount := -1;
      slots := [];
    }

    /** `instance_count = n`: a negative count is refused; the current count changes
        nothing; any other count reallocates the buffer, clearing every slot, and caps the
        visible count. */
    method SetInstanceCount(n: int)
      requires Valid()
      modifies this
      ensures Valid()
      ensures n < 0 || n == old(instanceCount) ==>
                instanceCount == old(instanceCount) && slots == old(slots)
                && visibleInstanceCount == old(visibleInstanceCount)
      ensures 0 <= n && n != old(instanceCount) ==>
                instanceCount == n && slots == Allocated(n)
                && visibleInstanceCount == MinInt(old(visibleInstanceCount), n)
    {
      if n < 0 || n == instanceCount {
        return;
      }
      instanceCount := n;
      slots := Allocated(n);
      visibleInstanceCount := MinInt(visibleInstanceCount, n);
    }

    /** `visible_instance_count = n`: accepted when `-1 <= n <= instanceCount`. */
    method SetVisibleInstanceCount(n: int)
      requires Valid()
      modifies this
      ensures Valid()
      ensures instanceCount == old(instanceCount) && slots == old(slots)
      ensures visibleInstanceCount == if -1 <= n <= instanceCount then n else old(visibleInstanceCount)
    {
      if -1 <= n <= instanceCount {
        visibleInstanceCount := n;
      }
    }

    /** `set_instance_transform`: ignored for an index outside the buffer. */
    method SetInstanceTransform(i: int, basis: Basis, origin: Vec3)
      requires Valid()
      modifies this
      ensures Valid()
      ensures instanceCount == old(instanceCount) && visibleInstanceCount == old(visibleInstanceCount)
      ensures slots == if 0 <= i < |old(slots)| then old(slots)[i := old(slots)[i].(basis := basis, origin := origin)]
                       else old(slots)
    {
      if 0 <= i < |slots| {
        slots := slots[i := slots[i].(basis := basis, origin := origin)];
      }
    }

    /** `set_instance_color`: ignored for an index outside the buffer. */
    method SetInstanceColor(i: int, color: Color)
      requires Valid()
      modifies this
      ensures Valid()
      ensures instanceCount == old(instanceCount) && visibleInstanceCount == old(visibleInstanceCount)
      ensures slots == if 0 <= i < |old(slots)| then old(slots)[i := old(slots)[i].(color := color)]
                       else old(slots)
    {
      if 0 <= i < |slots| {
        slots := slots[i := slots[i].(color := color)];
      }
    }
  }
}
