/** A moving average's window (components/climate_hub/pid_core.cpp): a ring that grows and never
    shrinks, against a plain list. */
module SampleWindows {
  import opened Arithmetic

  /** The `n` last of a list, or all of it. */
  function Newest(s: seq<real>, n: nat): (r: seq<real>)
    ensures |r| == if |s| <= n then |s| else n
  {
    if |s| <= n then s else s[|s| - n..]
  }

  function Sum(s: seq<real>): real {
    if s == [] then 0.0 else Sum(s[..|s| - 1]) + s[|s| - 1]
  }

  function Mean(s: seq<real>): real
    requires s != []
  {
    Sum(s) / |s| as real
  }

  /** What the window holds after a value for an average of `samples`: one sample is no average. */
  function Pushed(window: seq<real>, value: real, samples: nat): seq<real> {
    if samples <= 1 then [] else Newest(window + [value], samples)
  }

  function PushedAll(window: seq<real>, values: seq<real>, samples: nat): seq<real> {
    if values == [] then window
    else Pushed(PushedAll(window, values[..|values| - 1], samples), values[|values| - 1], samples)
  }

  /** Asked for the same number each time, the window is the newest that many of all there was. */
  lemma {:induction false} WindowIsTheNewest(window: seq<real>, values: seq<real>, samples: nat)
    requires samples > 1 && |window| <= samples
    ensures PushedAll(window, values, samples) == Newest(window + values, samples)
    decreases |values|
  {
    if values == [] {
      assert window + values == window;
    } else {
      var n := |values| - 1;
      WindowIsTheNewest(window, values[..n], samples);
      var before := window + values[..n];
      assert window + values == before + [values[n]];
      NewestOfNewest(before, values[n], samples);
    }
  }

  lemma NewestOfNewest(s: seq<real>, value: real, n: nat)
    requires n > 0
    ensures Newest(Newest(s, n) + [value], n) == Newest(s + [value], n)
  {}

  // --- The ring ---

  function Index(head: nat, i: nat, capacity: nat): nat {
    if head + i < capacity then head + i else head + i - capacity
  }

  lemma Wraps(head: nat, i: nat, capacity: nat)
    requires head < capacity && i <= capacity
    ensures (head + i) % capacity == Index(head, i, capacity)
  {
    var n := head + i;
    if n < capacity {
      Remainder(n, 0, n, capacity);
    } else {
      Remainder(n, 1, n - capacity, capacity);
    }
  }

  /** What the ring holds, oldest first. */
  function Ring(values: seq<real>, head: nat, count: nat): (s: seq<real>)
    requires count <= |values| && (values != [] ==> head < |values|)
    ensures |s| == count && forall i :: 0 <= i < count ==> s[i] == values[Index(head, i, |values|)]
  {
    seq(count, i requires 0 <= i < count => values[Index(head, i, |values|)])
  }

  class SampleWindow {
    var values: seq<real>
    var head: nat
    var count: nat

    ghost predicate Valid()
      reads this
    {
      count <= |values| && (values != [] ==> head < |values|)
    }

    /** Oldest first. */
    function Contents(): (s: seq<real>)
      requires Valid()
      reads this
    {
      Ring(values, head, count)
    }

    constructor ()
      ensures Valid() && Contents() == []
    {
      values, head, count := [], 0, 0;
    }

    method Clear()
      requires Valid()
      modifies this`count
      ensures Valid() && Contents() == []
    {
      count := 0;
    }

    method Reserve(samples: nat)
      requires Valid()
      modifies this
      ensures Valid() && Contents() == old(Contents()) && count == old(count)
      ensures samples <= |values| && |old(values)| <= |values|
    {
      if samples <= |values| {
        return;
      }
      var grown := seq(samples, i => 0.0);
      for i := 0 to count
        invariant |grown| == samples && values == old(values) && head == old(head) && count == old(count)
        invariant forall j :: 0 <= j < i ==> grown[j] == values[Index(head, j, |values|)]
      {
        Wraps(head, i, |values|);
        grown := grown[i := values[(head + i) % |values|]];
      }
      values := grown;
      head := 0;
    }

    method DropOldest(samples: nat)
      requires Valid() && values != [] && samples > 1
      modifies this`head, this`count
      ensures Valid() && count < samples
      ensures Contents() == Newest(old(Contents()), samples - 1)
    {
      ghost var was := Contents();
      while count >= samples
        invariant Valid() && values != [] && values == old(values)
        invariant count <= |was| && Contents() == was[|was| - count..]
        invariant count >= samples - 1 || Contents() == was
      {
        Wraps(head, 1, |values|);
        RingSteps(values, head, count);
        head := (head + 1) % |values|;
        count := count - 1;
      }
    }

    /** Refines `Pushed`: whatever sizes were asked for earlier, the contents and the mean are those of a
        plain list. */
    method PushAverage(value: real, samples: nat) returns (mean: real)
      requires Valid()
      modifies this
      ensures Valid() && Contents() == Pushed(old(Contents()), value, samples)
      ensures mean == if samples <= 1 then value else Mean(Pushed(old(Contents()), value, samples))
    {
      if samples <= 1 {
        Clear();
        return value;
      }
      Reserve(samples);
      DropOldest(samples);
      ghost var kept := Contents();
      Add(value);
      KeptThenAdded(old(Contents()), value, samples);
      mean := Average();
    }

    method Add(value: real)
      requires Valid() && count < |values|
      modifies this`values, this`count
      ensures Valid() && Contents() == old(Contents()) + [value]
    {
      Wraps(head, count, |values|);
      RingGrows(values, head, count, value);
      values := values[(head + count) % |values| := value];
      count := count + 1;
    }

    method Average() returns (mean: real)
      requires Valid() && count > 0
      ensures mean == Mean(Contents())
    {
      var sum := 0.0;
      ghost var all := Contents();
      for i := 0 to count
        invariant sum == Sum(all[..i])
      {
        Wraps(head, i, |values|);
        assert all[..i + 1][..i] == all[..i];
        sum := sum + values[(head + i) % |values|];
      }
      assert all[..count] == all;
      return sum / count as real;
    }
  }

  lemma RingSteps(values: seq<real>, head: nat, count: nat)
    requires 0 < count <= |values| && head < |values|
    ensures Ring(values, Index(head, 1, |values|), count - 1) == Ring(values, head, count)[1..]
  {
    forall i | 0 <= i < count - 1
      ensures Index(Index(head, 1, |values|), i, |values|) == Index(head, i + 1, |values|)
    {}
  }

  lemma RingGrows(values: seq<real>, head: nat, count: nat, value: real)
    requires count < |values| && head < |values|
    ensures Ring(values[Index(head, count, |values|) := value], head, count + 1) == Ring(values, head, count) + [value]
  {
    Apart(head, count, |values|);
  }

  /** The next free place is none of those in use. */
  lemma Apart(head: nat, count: nat, capacity: nat)
    requires count < capacity && head < capacity
    ensures forall i :: 0 <= i < count ==> Index(head, i, capacity) != Index(head, count, capacity)
  {}

  lemma KeptThenAdded(window: seq<real>, value: real, samples: nat)
    requires samples > 1
    ensures Newest(window, samples - 1) + [value] == Newest(window + [value], samples)
  {}
}
