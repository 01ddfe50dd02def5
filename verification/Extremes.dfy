/** Smallest and largest: of two numbers, and by age among rows. */
module Extremes {

  function Min(a: int, b: int): int {
    if a < b then a else b
  }

  function Max(a: int, b: int): int {
    if a > b then a else b
  }

  // Among some rows there is an oldest one.
  lemma {:induction false} Oldest(created: map<string, int>, ids: set<string>) returns (oldest: string)
    requires ids != {} && ids <= created.Keys
    ensures oldest in ids && forall id :: id in ids ==> created[oldest] <= created[id]
    decreases |ids|
  {
    oldest :| oldest in ids;
    if ids != {oldest} {
      var rest := Oldest(created, ids - {oldest});
      if created[rest] < created[oldest] {
        oldest := rest;
      }
    }
  }
}
