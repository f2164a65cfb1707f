/** Times are nanoseconds, as in Go. */
module Timestamps {

  /** What a `timestamptz` column keeps of a time: the nearest whole microsecond, the even one when
      halfway. */
  function StoreTime(t: int): (stored: int)
    ensures stored % 1000 == 0 && t - 500 <= stored <= t + 500
    ensures stored == t - 500 || stored == t + 500 ==> stored % 2000 == 0
  {
    var q, r := t / 1000, t % 1000;
    1000 * (if r < 500 || (r == 500 && q % 2 == 0) then q else q + 1)
  }
}
