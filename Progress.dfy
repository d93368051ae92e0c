/** The progress percentage shared by hobbies and projects: `Math.max(0, Math.min(100, p + delta))`. */
module Progress {

  function Min(a: int, b: int): int { if a <= b then a else b }
  function Max(a: int, b: int): int { if a >= b then a else b }

  /** The clamp of `updateProgress`: the value moved into [0, 100]. */
  function Clamp(v: int): (r: int)
    ensures 0 <= r <= 100
    ensures 0 <= v <= 100 ==> r == v
    ensures v < 0 ==> r == 0
    ensures v > 100 ==> r == 100
  {
    Max(0, Min(100, v))
  }

  predicate InRange(p: int) { 0 <= p <= 100 }

  /** The progress reached from `p` after pressing the -10/+10 buttons in the order of `deltas`. */
  function Steps(p: int, deltas: seq<int>): int
    decreases |deltas|
  {
    if deltas == [] then p else Steps(Clamp(p + deltas[0]), deltas[1..])
  }

  predicate AreButtonSteps(deltas: seq<int>) {
    forall k :: 0 <= k < |deltas| ==> deltas[k] == 10 || deltas[k] == -10
  }

  /** Any sequence of button presses from a progress in [0, 100] stays in [0, 100], and from
      a multiple of ten it only ever shows multiples of ten. */
  lemma {:induction false} StepsStayInRange(p: int, deltas: seq<int>)
    requires InRange(p) && AreButtonSteps(deltas)
    ensures InRange(Steps(p, deltas))
    ensures p % 10 == 0 ==> Steps(p, deltas) % 10 == 0
    decreases |deltas|
  {
    if deltas != [] {
      StepsStayInRange(Clamp(p + deltas[0]), deltas[1..]);
    }
  }

  /** Pressing +10 then -10 from a value between 0 and 90 returns to it; above 90 the clamp
      makes the two presses lose information (100 + 10 - 10 = 90). */
  lemma UpDown(p: int)
    requires InRange(p)
    ensures p <= 90 ==> Clamp(Clamp(p + 10) - 10) == p
    ensures p > 90 ==> Clamp(Clamp(p + 10) - 10) == 90
  {
  }
}
