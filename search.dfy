/** `Collections.binarySearch` over a random-access list, as the flattener's
    queries call it: the list is seen through the key its comparator reads,
    so the search runs over a sequence of keys. */
module Search {

  /** Keys in non-decreasing order: what `binarySearch` demands of its list. */
  ghost predicate Sorted(keys: seq<real>) {
    forall i, j :: 0 <= i <= j < |keys| ==> keys[i] <= keys[j]
  }

  /** p is where key would be inserted: every key before p is smaller and
      every key from p on is larger. */
  ghost predicate InsertionPoint(keys: seq<real>, key: real, p: int) {
    && 0 <= p <= |keys|
    && (forall i :: 0 <= i < p ==> keys[i] < key)
    && (forall i :: p <= i < |keys| ==> key < keys[i])
  }

  /** The library search: an index holding key when there is one, otherwise
      `-(insertion point) - 1`.  On a sorted list both halves of its contract
      hold: a present key is always found, and a missing key reports the point
      where it belongs. */
  function BinarySearch(keys: seq<real>, key: real): (r: int)
    ensures 0 <= r ==> r < |keys| && keys[r] == key
    ensures r < 0 ==> 0 <= -r - 1 <= |keys|
    ensures Sorted(keys) && key in keys ==> 0 <= r
    ensures Sorted(keys) && r < 0 ==> InsertionPoint(keys, key, -r - 1)
  {
    SearchBetween(keys, key, 0, |keys| - 1)
  }

  /** The library's loop over the window [low, high]: probe the middle, move
      `low` past it when the probed key is smaller, move `high` before it when
      larger, stop on equality; an empty window reports `-(low + 1)`. */
  function SearchBetween(keys: seq<real>, key: real, low: int, high: int): (r: int)
    requires 0 <= low <= high + 1 <= |keys|
    ensures 0 <= r ==> low <= r <= high && keys[r] == key
    ensures r < 0 ==> low <= -r - 1 <= high + 1
    ensures Sorted(keys) && (forall i :: 0 <= i < low ==> keys[i] < key)
            && (forall i :: high < i < |keys| ==> key < keys[i])
            ==> (key in keys ==> 0 <= r) && (r < 0 ==> InsertionPoint(keys, key, -r - 1))
    decreases high + 1 - low
  {
    if low > high then -(low + 1)
    else
      var mid := (low + high) / 2;
      if keys[mid] < key then SearchBetween(keys, key, mid + 1, high)
      else if keys[mid] > key then SearchBetween(keys, key, low, mid - 1)
      else mid
  }

  /** On a sorted list a missing key has only one insertion point, so the
      search result is determined by it. */
  lemma SearchMiss(keys: seq<real>, key: real, p: int)
    requires Sorted(keys) && InsertionPoint(keys, key, p)
    ensures BinarySearch(keys, key) == -p - 1
  {
    var q := -BinarySearch(keys, key) - 1;
    var m := if p < q then p else q;
    if m < |keys| {
      assert key != keys[m];
    }
  }
}
