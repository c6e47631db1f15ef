/** A growable ring buffer over an array, refining a sequence. */
module CircularBuffers {

  const INITIAL_SIZE: nat := 256

  /** The index `x` taken around a ring of `size` slots. */
  function Around(x: nat, size: nat): nat
    requires size > 0
  {
    x % size
  }

  lemma AroundOnce(x: nat, size: nat)
    requires 0 < size && x < 2 * size
    ensures Around(x, size) == if x < size then x else x - size
  {
    var q, r := x / size, x % size;
    assert x == size * q + r;
    assert size * q == size + size * (q - 1);
    assert q >= 2 ==> size * (q - 2) >= 0;
    assert size * q == 2 * size + size * (q - 2);
  }

  /** The `n` elements of the ring `q` from index `pop` on. */
  function Ring<T>(q: seq<T>, pop: nat, n: nat): (s: seq<T>)
    requires pop <= |q| && n <= |q|
    ensures |s| == n
  {
    if pop + n <= |q| then q[pop..pop + n] else q[pop..] + q[..pop + n - |q|]
  }

  lemma RingAppend<T>(q: seq<T>, pop: nat, n: nat, item: T)
    requires pop < |q| && n < |q|
    ensures var push := if pop + n < |q| then pop + n else pop + n - |q|;
      Ring(q[push := item], pop, n + 1) == Ring(q, pop, n) + [item]
  {
  }

  /** Doubling a full ring and moving its wrapped part behind the old end keeps its elements in order. */
  lemma RingGrown<T>(q: seq<T>, bigger: seq<T>, pop: nat, n: nat)
    requires pop < |q| && n < |q| && |bigger| == 2 * |q| && bigger[..|q|] == q
    requires pop + n > |q| ==> bigger[|q|..pop + n] == q[..pop + n - |q|]
    ensures Ring(bigger, pop, n) == Ring(q, pop, n)
  {
    forall i | 0 <= i < n ensures Ring(bigger, pop, n)[i] == Ring(q, pop, n)[i] {
      assert bigger[pop + i] == if pop + i < |q| then bigger[..|q|][pop + i] else bigger[|q|..pop + n][pop + i - |q|];
    }
  }

  class CircularBuffer<T(0)> {
    var queue: array<T>
    var nextPush: nat
    var nextPop: nat
    var count: nat
    var size: nat
    ghost var moved: nat  // elements moved by all growths so far
    ghost var peak: nat   // largest number of elements ever held

    ghost predicate Valid()
      reads this, queue
    {
      && queue.Length == size && size >= INITIAL_SIZE
      && count < size && nextPop < size && nextPush < size
      && Around(nextPop + count, size) == nextPush
      && count <= peak
      && (size > INITIAL_SIZE ==> size <= 2 * peak)
      && moved + INITIAL_SIZE <= size
    }

    /** The elements held, oldest first. */
    ghost function Contents(): (s: seq<T>)
      requires Valid()
      reads this, queue
      ensures |s| == count
    {
      Ring(queue[..], nextPop, count)
    }

    constructor ()
      ensures Valid() && Contents() == [] && fresh(queue)
      ensures moved == 0 && peak == 0
    {
      count, nextPush, nextPop := 0, 0, 0;
      size := INITIAL_SIZE;
      queue := new T[INITIAL_SIZE];
      moved, peak := 0, 0;
    }

    /** Doubles the array when every slot would be taken. */
    method Grow()
      requires queue.Length == size && size >= INITIAL_SIZE && nextPop < size && nextPush < size
      requires nextPush < nextPop || nextPop == 0
      modifies this`queue, this`size, this`nextPush, this`moved
      ensures fresh(queue) && queue.Length == size == 2 * old(size)
      ensures nextPush == if old(nextPush < nextPop) then old(nextPush) + old(size) else old(nextPush)
      ensures moved == old(moved) + if old(nextPush < nextPop) then old(nextPush) else 0
      ensures queue[..old(size)] == old(queue[..])
      ensures old(nextPush < nextPop) ==> queue[old(size)..nextPush] == old(queue[..nextPush])
    {
      var newSize := size * 2;
      var bigger := new T[newSize];
      forall i | 0 <= i < size {
        bigger[i] := queue[i];
      }
      if nextPush < nextPop {
        var n := nextPush;
        for i := 0 to n
          invariant bigger[..size] == queue[..]
          invariant bigger[size..size + i] == queue[..i]
          modifies bigger
        {
          bigger[size + i] := bigger[i];
          assert bigger[size..size + i + 1] == bigger[size..size + i] + [bigger[size + i]];
        }
        moved := moved + n;
        nextPush := nextPush + size;
      }
      queue := bigger;
      size := newSize;
    }

    /** Counts one more element and doubles the array if it would be full. */
    method Reserve()
      requires Valid()
      modifies this
      ensures (fresh(queue) || queue == old(queue)) && nextPop == old(nextPop)
      ensures queue.Length == size && count == old(count) + 1 && INITIAL_SIZE <= size && nextPop < size && count < size
      ensures nextPush == if nextPop + count - 1 < size then nextPop + count - 1 else nextPop + count - 1 - size
      ensures Ring(queue[..], nextPop, count - 1) == old(Contents())
      ensures peak == (if old(peak) < count then count else old(peak)) && moved + INITIAL_SIZE <= size
      ensures size > INITIAL_SIZE ==> size <= 2 * peak
    {
      hide Around, Ring;
      AroundOnce(nextPop + count, size);
      count := count + 1;
      if peak < count {
        peak := count;
      }
      if count == size {
        Grow();
        RingGrown(old(queue[..]), queue[..], nextPop, count - 1);
      }
    }

    method Push(item: T)
      requires Valid()
      modifies this, queue
      ensures Valid() && (fresh(queue) || queue == old(queue))
      ensures Contents() == old(Contents()) + [item]
      ensures peak == if old(peak) < count then count else old(peak)
      ensures moved == 0 || moved < 2 * peak
    {
      hide Around, Ring;
      Reserve();
      RingAppend(queue[..], nextPop, count - 1, item);
      Store(item);
    }

    /** Writes at the push index and advances it. */
    method Store(item: T)
      requires queue.Length == size && 0 < count < size && nextPop < size
      requires nextPush == if nextPop + count - 1 < size then nextPop + count - 1 else nextPop + count - 1 - size
      modifies this`nextPush, queue
      ensures queue[..] == old(queue[..])[old(nextPush) := item]
      ensures nextPush < size && nextPush == Around(nextPop + count, size)
    {
      hide Around;
      AroundOnce(nextPush + 1, size);
      AroundOnce(nextPop + count, size);
      queue[nextPush] := item;
      nextPush := Around(nextPush + 1, size);
    }

    method Pop() returns (item: T)
      requires Valid() && Contents() != []
      modifies this
      ensures Valid() && queue == old(queue)
      ensures item == old(Contents())[0] && Contents() == old(Contents())[1..]
      ensures peak == old(peak) && moved == old(moved)
    {
      hide Around;
      AroundOnce(nextPop + count, size);
      var oldIndex := nextPop;
      AroundOnce(nextPop + 1, size);
      nextPop := Around(nextPop + 1, size);
      count := count - 1;
      AroundOnce(nextPop + count, size);
      item := queue[oldIndex];
    }

    method PopFront() returns (item: T)
      requires Valid() && Contents() != []
      modifies this
      ensures Valid() && queue == old(queue)
      ensures var s := old(Contents()); item == s[|s|-1] && Contents() == s[..|s|-1]
      ensures peak == old(peak) && moved == old(moved)
    {
      hide Around;
      AroundOnce(nextPop + count, size);
      AroundOnce(nextPush + size - 1, size);
      var oldIndex := Around(nextPush + size - 1, size);
      nextPush := oldIndex;
      count := count - 1;
      AroundOnce(nextPop + count, size);
      item := queue[oldIndex];
    }

    function Back(): (item: T)
      requires Valid() && Contents() != []
      reads this, queue
      ensures item == Contents()[0]
    {
      queue[nextPop]
    }

    predicate Empty()
      requires Valid()
      reads this, queue
      ensures Empty() <==> Contents() == []
    {
      count == 0
    }
  }
}
