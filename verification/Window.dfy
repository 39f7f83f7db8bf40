/** Flow-control windows: 32-bit signed numbers (src/window.rs). */
module Window {
  import opened Prelude

  const MAX: int := 0x7FFF_FFFF

  /** DEFAULT_INITIAL_WINDOW_SIZE */
  const DEFAULT: int := 65535

  predicate Fits(n: int) {
    -0x8000_0000 <= n <= MAX
  }

  /** src/window.rs:27-33 */
  function Size(window: int): (n: nat) {
    if window < 0 then 0 else window
  }

  /** src/window.rs:42-60: the window afterwards, and the increment to announce. */
  function Update(window: int, cap: int, max: int, threshold: int): (r: (int, Option<nat>))
    requires threshold >= 0
    ensures r.1.Some? ==> r.1.value >= threshold && r.0 == window + r.1.value && r.0 + cap == max
    ensures r.1.None? ==> r.0 == window && (window >= max || max - threshold < window + cap)
  {
    if window >= max then (window, None)
    else
      var available := max - window - cap;
      if available < threshold then (window, None) else (window + available, Some(available))
  }

  /** However the window, the unconsumed octets and the limit lie, what may be outstanding
      after an update is within one threshold of the limit, the announced increment is
      positive if the threshold is, and nothing leaves 32 bits. */
  lemma UpdateBounds(window: int, cap: int, max: int, threshold: int)
    requires Fits(window) && 0 <= cap && 0 <= max <= MAX && 1 <= threshold && -MAX <= window + cap <= MAX
    ensures var (w, inc) := Update(window, cap, max, threshold);
            && Fits(w) && (inc.Some? ==> 1 <= inc.value <= 2 * MAX)
            && max - threshold < w + cap
            && window + cap <= w + cap
            && (w + cap <= max || w + cap == window + cap)
            && (window >= 0 ==> w >= 0 && (window < max ==> Fits(max - window - cap)))
  {
  }

  /** An increment of zero is announced exactly if the threshold is zero and nothing of a
      window below the limit is to be reclaimed. */
  lemma ZeroIncrement(window: int, cap: int, max: int, threshold: int)
    requires threshold >= 0
    ensures Update(window, cap, max, threshold).1 == Some(0) <==> threshold == 0 && window < max && window + cap == max
  {
  }
}
