/** Validation of a progressively shifted retirement plan (dmn/compact_cache.py). */
module CompactCache {
  import opened Wrappers
  import opened Prompts

  /** Every step stays inside the sequence it acts on and leaves `window` tokens after it. */
  ghost predicate KeepsWindow(length: int, ranges: seq<Range>, window: int)
    decreases |ranges|
  {
    ranges == [] ||
    (var r := ranges[0];
     && 0 <= r.start < r.start + r.count < length
     && length - r.start - r.count >= window
     && KeepsWindow(length - r.count, ranges[1..], window))
  }

  method ValidateRetirements(length: int, ranges: seq<Range>, window: int) returns (r: Result<(), Error>)
    ensures r.Ok? <==> window >= 1 && KeepsWindow(length, ranges, window)
  {
    if window < 1 {
      return Err(InvalidWindow);
    }
    var left := length;
    var n := 0;
    while n < |ranges|
      invariant 0 <= n <= |ranges|
      invariant KeepsWindow(length, ranges, window) == KeepsWindow(left, ranges[n..], window)
    {
      var start, count := ranges[n].start, ranges[n].count;
      assert ranges[n..][1..] == ranges[n + 1..];
      if !(0 <= start < start + count < left) || left - start - count < window {
        return Err(BreaksWindow);
      }
      left := left - count;
      n := n + 1;
    }
    assert ranges[n..] == [];
    return Ok(());
  }
}
