/** The ring buffer of received block sizes with its cached maximum: blocksync/block_stats.go. */
module BlockStats {

  const DEFAULT_CAPACITY := 10

  /** The last values of a list, as many as fit. */
  ghost function Window(added: seq<int>, capacity: nat): (w: seq<int>)
    ensures |w| == if |added| < capacity then |added| else capacity
  {
    if |added| < capacity then added else added[|added| - capacity..]
  }

  ghost predicate IsMax(s: seq<int>, m: int) {
    m in s && forall i :: 0 <= i < |s| ==> s[i] <= m
  }

  /** The ring from its oldest value on. */
  ghost function Unrolled(ring: seq<int>, size: nat, head: nat): seq<int>
    requires size <= |ring| && head <= |ring|
  {
    if size < |ring| then ring[..size] else ring[head..] + ring[..head]
  }

  function NextHead(head: nat, capacity: nat): (r: nat)
    requires head < capacity
    ensures r == if head + 1 == capacity then 0 else head + 1
  {
    (head + 1) % capacity
  }

  /** The ring holds exactly the last values added. */
  ghost predicate Holds(ring: seq<int>, size: nat, head: nat, added: seq<int>) {
    && head < |ring| && size <= |ring| && (size < |ring| ==> head == size)
    && Unrolled(ring, size, head) == Window(added, |ring|)
  }

  /** The cached value is the maximum of the window, or zero for want of values. */
  ghost predicate Cached(added: seq<int>, capacity: nat, max: int) {
    if added == [] then max == 0 else IsMax(Window(added, capacity), max)
  }

  /** Writing at the head adds a value, in place of the oldest one when the ring is full. */
  lemma WriteAtHead(added: seq<int>, ring: seq<int>, size: nat, head: nat, value: int)
    requires Holds(ring, size, head, added)
    ensures Holds(ring[head := value], if size < |ring| then size + 1 else size, NextHead(head, |ring|),
                  added + [value])
  {
    if size < |ring| {
      WriteAtFree(added, ring, head, value);
    } else {
      WriteOverOldest(added, ring, head, value);
    }
  }

  lemma WriteAtFree(added: seq<int>, ring: seq<int>, head: nat, value: int)
    requires Holds(ring, head, head, added) && head < |ring|
    ensures Holds(ring[head := value], head + 1, NextHead(head, |ring|), added + [value])
  {
    var after := ring[head := value];
    assert added == Window(added, |ring|) == ring[..head];
    assert after[..head + 1] == added + [value];
    if head + 1 == |ring| {
      assert after == after[..head + 1];
      assert Window(added + [value], |ring|) == (added + [value])[0..];
    }
  }

  lemma WriteOverOldest(added: seq<int>, ring: seq<int>, head: nat, value: int)
    requires Holds(ring, |ring|, head, added)
    ensures Holds(ring[head := value], |ring|, NextHead(head, |ring|), added + [value])
  {
    var c, next := |ring|, NextHead(head, |ring|);
    var before, after := Unrolled(ring, c, head), Unrolled(ring[head := value], c, next);
    assert before == Window(added, c);
    assert before == added[|added| - c..];
    var window := Window(added + [value], c);
    forall i | 0 <= i < c ensures after[i] == window[i] {
      if i < c - 1 {
        assert after[i] == before[i + 1];
      }
    }
  }

  /** What the cache must become, unless the value dropped may have been the maximum. */
  lemma MaxAfterAdd(added: seq<int>, ring: seq<int>, size: nat, head: nat, max: int, value: int)
    requires Holds(ring, size, head, added) && Cached(added, |ring|, max)
    ensures size == 0 <==> added == []
    ensures size == 0 || (value > max && (size < |ring| || ring[head] != max)) ==>
      Cached(added + [value], |ring|, value)
    ensures size > 0 && value <= max && (size < |ring| || ring[head] != max) ==> Cached(added + [value], |ring|, max)
  {
    var w, full := Window(added, |ring|), size == |ring|;
    var next := Window(added + [value], |ring|);
    assert next == (if full then w[1..] else w) + [value];
    assert next[|next| - 1] == value;
    if size > 0 && value <= max && (full ==> ring[head] != max) {
      var i :| 0 <= i < |w| && w[i] == max;
      assert next[if full then i - 1 else i] == max;
    }
  }

  /** The maximum of the full ring is the one to cache. */
  lemma MaxOfRing(added: seq<int>, ring: seq<int>, head: nat, max: int)
    requires Holds(ring, |ring|, head, added) && IsMax(ring, max)
    ensures Cached(added, |ring|, max)
  {
    var u := Unrolled(ring, |ring|, head);
    var i :| 0 <= i < |ring| && ring[i] == max;
    assert if i < head then u[|ring| - head + i] == max else u[i - head] == max;
  }

  class BlockStats {
    const blockSizes: array<int>
    const capacity: nat
    var size: nat
    var head: nat
    var max: int
    ghost var added: seq<int>     // all the values ever added

    ghost predicate Valid()
      reads this, blockSizes
    {
      && blockSizes.Length == capacity
      && Holds(blockSizes[..], size, head, added)
      && Cached(added, capacity, max)
    }

    constructor (capacity: int)
      ensures Valid() && added == [] && fresh(blockSizes)
      ensures this.capacity == if capacity <= 0 then 10 else capacity
    {
      var c := if capacity <= 0 then DEFAULT_CAPACITY else capacity;
      this.capacity := c;
      blockSizes := new int[c](_ => 0);
      size := 0;
      head := 0;
      max := 0;
      added := [];
    }

    /** Writes a value at the head and moves on; tells whether the ring was full, and the value replaced. */
    method Push(value: int) returns (full: bool, oldValue: int)
      requires blockSizes.Length == capacity && Holds(blockSizes[..], size, head, added)
      modifies this`size, this`head, this`added, blockSizes
      ensures Holds(blockSizes[..], size, head, added) && added == old(added) + [value]
      ensures full == (old(size) == capacity) && size == (if full then old(size) else old(size) + 1)
      ensures oldValue == old(blockSizes[..])[old(head)]
    {
      WriteAtHead(added, blockSizes[..], size, head, value);
      ghost var ring := blockSizes[..];
      full := size == capacity;
      oldValue := blockSizes[head];
      blockSizes[head] := value;
      assert blockSizes[..] == ring[head := value];
      if !full {
        size := size + 1;
      }
      head := NextHead(head, capacity);
      added := added + [value];
    }

    /** Adds a value; the maximum is searched for again only if it was the one dropped. */
    method Add(value: int)
      requires Valid()
      modifies this, blockSizes
      ensures Valid() && added == old(added) + [value]
    {
      MaxAfterAdd(added, blockSizes[..], size, head, max, value);
      var full, oldValue := Push(value);
      hide Holds, Cached;
      if !full {
        if size == 1 || value > max {
          max := value;
        }
      } else if oldValue == max {
        RecalculateMax();
        MaxOfRing(added, blockSizes[..], head, max);
      } else if value > max {
        max := value;
      }
    }

    method RecalculateMax()
      requires blockSizes.Length > 0
      modifies this`max
      ensures IsMax(blockSizes[..], max)
    {
      max := blockSizes[0];
      for i := 1 to blockSizes.Length
        invariant IsMax(blockSizes[..i], max)
      {
        assert blockSizes[..i + 1] == blockSizes[..i] + [blockSizes[i]];
        if blockSizes[i] > max {
          max := blockSizes[i];
          assert blockSizes[..i + 1][i] == max;
        }
      }
      assert blockSizes[..] == blockSizes[..blockSizes.Length];
    }

    method GetMax() returns (m: int)
      requires Valid()
      ensures Cached(added, capacity, m)
    {
      m := max;
    }
  }
}
