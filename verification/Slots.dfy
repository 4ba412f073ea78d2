/** Slots, epoch times and rounds. */
module Slots {
  import opened Arithmetic

  const INTERVAL: nat := 10
  const DELEGATES: nat := 101

  // Times are whole seconds since the epoch of the chain; the quotient is rounded down, also below 0.
  function SlotNumber(epochTime: int): int {
    epochTime / INTERVAL
  }

  function SlotTime(slot: int): int {
    slot * INTERVAL
  }

  // `%` of JavaScript: the sign is the one of the dividend.
  function Remainder(a: int, m: nat): int
    requires m > 0
  {
    if a < 0 then -((-a) % m) else a % m
  }

  /** A slot begins at its time, and a time after the slot of another begins a later slot. */
  lemma SlotTimes(slot: int, time: int)
    ensures SlotNumber(SlotTime(slot)) == slot
    ensures time < SlotTime(slot) <==> SlotNumber(time) < slot
  {
  }

  // Rounded up; heights are not negative.
  function CalculateRound(height: nat): nat {
    height / DELEGATES + (if height % DELEGATES > 0 then 1 else 0)
  }

  /** Round r is exactly the heights 101(r-1)+1 to 101r, and round 0 is the genesis block. */
  lemma RoundHeights(height: nat, round: nat)
    ensures CalculateRound(height) == round <==> DELEGATES * (round - 1) < height <= DELEGATES * round
  {
  }
}
