/** `ScanBuf<N>`: a byte FIFO of fixed capacity N (a `heapless::Deque<u8, N>`) that the
    command readers fill from the transport and eat from the front. */
module ScanBuffer {
  import opened Wrappers
  import opened Ints

  /** `scan_buf::Error` */
  datatype Error = Full

  class ScanBuf {
    /** The const generic N. */
    const capacity: nat
    /** The deque's contents, front first. */
    var queue: seq<u8>

    ghost predicate Valid()
      reads this
    {
      |queue| <= capacity
    }

    /** `ScanBuf::new()` */
    constructor (n: nat)
      ensures Valid() && capacity == n && queue == []
    {
      capacity := n;
      queue := [];
    }

    /** `push_slice`: appends the bytes one at a time and reports `Full` at the first one
        that does not fit; the bytes before it stay pushed. */
    method PushSlice(slice: seq<u8>) returns (r: Result<(), Error>)
      requires Valid()
      modifies this
      ensures Valid()
      ensures r.Ok? <==> |old(queue)| + |slice| <= capacity
      ensures r.Ok? ==> queue == old(queue) + slice
      ensures r.Err? ==> |queue| == capacity && queue == old(queue) + slice[..capacity - |old(queue)|]
    {
      var i := 0;
      while i < |slice|
        invariant 0 <= i <= |slice|
        invariant queue == old(queue) + slice[..i]
        invariant |queue| <= capacity
      {
        if |queue| == capacity {
          return Err(Full);
        }
        queue := queue + [slice[i]];
        i := i + 1;
      }
      assert slice[..i] == slice;
      return Ok(());
    }

    /** `eat(n)`: pops up to n bytes from the front, returning early once the deque is
        empty. */
    method Eat(n: nat)
      requires Valid()
      modifies this
      ensures Valid()
      ensures queue == old(queue)[Min(n, |old(queue)|)..]
    {
      var i := 0;
      while i < n
        invariant 0 <= i <= n
        invariant i <= |old(queue)| && queue == old(queue)[i..]
      {
        if queue == [] {
          return;
        }
        queue := queue[1..];
        i := i + 1;
      }
    }

    /** `clear` */
    method Clear()
      requires Valid()
      modifies this
      ensures Valid() && queue == []
    {
      queue := [];
    }

    /** `inner`: the contents, borrowed without change. */
    function Inner(): (r: seq<u8>)
      reads this
      requires Valid()
      ensures |r| <= capacity
    {
      queue
    }
  }
}
