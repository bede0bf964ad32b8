/** Time as integer milliseconds, and the two pieces of timer arithmetic the source relies on. */
module Timers {

  /**
   * The conversion WebIDL applies to a `long` argument (ECMA-262 ToInt32 on an integer): the value
   * taken modulo 2^32 and read as a signed 32-bit number.
   */
  function ToInt32(x: int): (r: int)
    ensures -0x8000_0000 <= r < 0x8000_0000
    ensures (x - r) % 0x1_0000_0000 == 0
  {
    var m := x % 0x1_0000_0000;
    if m >= 0x8000_0000 then m - 0x1_0000_0000 else m
  }

  /**
   * The delay after which `setTimeout(f, ms)` runs `f`. The timeout is a WebIDL `long`, so it is
   * first wrapped to 32 bits; the HTML timer initialisation steps then treat a negative timeout as zero.
   */
  function Delay(ms: int): (d: nat)
    ensures d < 0x8000_0000
    ensures 0 <= ms < 0x8000_0000 ==> d == ms
    ensures -0x8000_0000 <= ms < 0 ==> d == 0
    ensures 0x8000_0000 <= ms < 0x1_0000_0000 ==> d == 0
    ensures (d - ms) % 0x1_0000_0000 == 0 || d == 0
  {
    var i := ToInt32(ms);
    if i < 0 then 0 else i
  }

  /** Whole seconds elapsed between two clock readings in milliseconds, rounded towards minus infinity. */
  function ElapsedSeconds(nowMs: int, thenMs: int): (s: int)
    ensures s * 1000 <= nowMs - thenMs < (s + 1) * 1000
  {
    (nowMs - thenMs) / 1000
  }
}
