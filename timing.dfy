/** GPU frame timing: the difference of two GL_TIMESTAMP query results.
    The timestamps are unsigned 64-bit counters (GLuint64), so the subtraction
    in the render loop wraps around modulo 2^64. */
module Timing {

  const TWO_TO_THE_64: int := 0x1_0000_0000_0000_0000

  /** An unsigned 64-bit integer, as GLuint64. */
  newtype u64 = x: int | 0 <= x < TWO_TO_THE_64

  /** `endTime - startTime` computed in unsigned 64-bit arithmetic.
      The result is the one tick count that, added to the start timestamp with
      wrap-around, gives the end timestamp; it is the plain difference whenever
      the counter did not wrap. */
  function ElapsedTicks(startTime: u64, endTime: u64): (elapsed: u64)
    ensures (startTime as int + elapsed as int) % TWO_TO_THE_64 == endTime as int
    ensures startTime <= endTime ==> elapsed == endTime - startTime
  {
    if startTime <= endTime then endTime - startTime
    else (TWO_TO_THE_64 - startTime as int + endTime as int) as u64
  }

  /** No other 64-bit tick count leads from the start timestamp to the end
      timestamp: the wrapped difference is the only candidate reading. */
  lemma ElapsedTicksUnique(startTime: u64, endTime: u64, d: u64)
    requires (startTime as int + d as int) % TWO_TO_THE_64 == endTime as int
    ensures d == ElapsedTicks(startTime, endTime)
  {
    var sum := startTime as int + d as int;
    if sum < TWO_TO_THE_64 {
      assert sum == endTime as int;
    } else {
      assert sum - TWO_TO_THE_64 == endTime as int;
    }
  }
}
