/** Shared value types. */
module Common {
  datatype Option<+T> = None | Some(value: T)

  /** One octet. */
  newtype byte = x: int | 0 <= x < 256

  function Min(a: int, b: int): int { if a < b then a else b }

  function Pow2(n: nat): (p: nat)
    ensures p > 0
  {
    if n == 0 then 1 else 2 * Pow2(n - 1)
  }

  /** The positions at which a flag is set, in order. */
  ghost predicate Picks(places: seq<nat>, keep: seq<bool>) {
    && (forall k | 0 <= k < |places| :: places[k] < |keep| && keep[places[k]])
    && (forall k, l | 0 <= k < l < |places| :: places[k] < places[l])
    && (forall i | 0 <= i < |keep| && keep[i] :: i in places)
  }

  function PlacesOf(keep: seq<bool>): (r: seq<nat>)
    ensures forall k | 0 <= k < |r| :: r[k] < |keep| && keep[r[k]]
    ensures forall k, l | 0 <= k < l < |r| :: r[k] < r[l]
  {
    if keep == [] then []
    else
      var n := |keep| - 1;
      PlacesOf(keep[..n]) + (if keep[n] then [n] else [])
  }

  lemma {:induction false} PlacesPick(keep: seq<bool>)
    ensures Picks(PlacesOf(keep), keep)
  {
    if keep != [] {
      var n := |keep| - 1;
      PlacesPick(keep[..n]);
      forall i | 0 <= i < |keep| && keep[i] ensures i in PlacesOf(keep) {
        if i < n {
          assert keep[..n][i];
          assert i in PlacesOf(keep[..n]);
        } else {
          assert PlacesOf(keep)[|PlacesOf(keep[..n])|] == n;
        }
      }
    }
  }
}
