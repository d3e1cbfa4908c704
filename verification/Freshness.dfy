/**
 * "Was this file written by this execution?" (freshness.py), in integer nanoseconds.
 * Clock readings and stamps are exact integers here; float rounding is not modelled.
 */
module Freshness {

  const SECOND: int := 1_000_000_000
  const TENTH: int := 100_000_000
  const HUNDREDTH: int := 10_000_000
  const MILLI: int := 1_000_000

  predicate IsUnit(u: int) {
    u == SECOND || u == TENTH || u == HUNDREDTH || u == MILLI
  }

  /** The coarsest unit the stamp is a multiple of; 0 for a fine-grained stamp. */
  function Granularity(mtime: int): (g: int)
    ensures g == 0 || IsUnit(g)
    ensures forall u :: IsUnit(u) && mtime > 0 && mtime % u == 0 ==> u <= g
    ensures g > 0 ==> mtime > 0 && mtime % g == 0
  {
    if mtime <= 0 then 0
    else if mtime % SECOND == 0 then SECOND
    else if mtime % TENTH == 0 then TENTH
    else if mtime % HUNDREDTH == 0 then HUNDREDTH
    else if mtime % MILLI == 0 then MILLI
    else 0
  }

  predicate WroteAfter(mtime: int, start: int) {
    if mtime > start then true
    else if mtime == start then false
    else mtime > start - Granularity(mtime)
  }

  /** What a file system of resolution `u` records for a write at `time`. */
  function Stamp(time: int, u: int): int
    requires u > 0
  {
    time / u * u
  }

  lemma StampFacts(time: int, u: int)
    requires IsUnit(u)
    ensures Stamp(time, u) <= time < Stamp(time, u) + u
    ensures Stamp(time, u) % u == 0
  {
  }

  /** An honest write on a coarse file system passes, unless its stamp lands exactly on the start. */
  lemma HonestWriteAccepted(written: int, start: int, u: int)
    requires IsUnit(u) && written > start && Stamp(written, u) > 0
    ensures WroteAfter(Stamp(written, u), start) <==> Stamp(written, u) != start
  {
    StampFacts(written, u);
  }

  /** The tolerance never reaches back a whole second. */
  lemma AcceptedIsRecent(mtime: int, start: int)
    requires WroteAfter(mtime, start)
    ensures mtime > start - SECOND
  {
  }

  /** A fine-grained stamp is held to the strict comparison. */
  lemma FineStampIsStrict(mtime: int, start: int)
    requires Granularity(mtime) == 0
    ensures WroteAfter(mtime, start) <==> mtime > start
  {
  }

  /** An earlier start accepts whatever a later one does, except a stamp equal to it. */
  lemma EarlierStartAccepts(mtime: int, start: int, earlier: int)
    requires WroteAfter(mtime, start) && earlier <= start
    ensures WroteAfter(mtime, earlier) <==> mtime != earlier
  {
  }
}
