/** LimitSizeList<Long>, the bounded list of recent actuation timestamps. Its
    class is not part of this model: adding to a full list is assumed to drop
    the oldest entry. */
module RecordList {
  /** The newest `capacity` entries of `history`, oldest first. */
  function Newest(history: seq<nat>, capacity: nat): (r: seq<nat>)
    ensures |r| == if |history| < capacity then |history| else capacity
  {
    if |history| <= capacity then history else history[|history| - capacity..]
  }

  /** LimitSizeList.add: append, then drop the oldest entry if over capacity. */
  function Add(records: seq<nat>, capacity: nat, x: nat): (r: seq<nat>)
    ensures |records| <= capacity ==> r == Newest(records + [x], capacity)
    ensures 1 <= capacity ==> |r| >= 1 && r[|r| - 1] == x
  {
    var grown := records + [x];
    if |grown| > capacity then grown[1..] else grown
  }

  /** LimitSizeList.isFull. */
  predicate IsFull(records: seq<nat>, capacity: nat) {
    |records| == capacity
  }

  /** Adding timestamps one after another. */
  function AddAll(records: seq<nat>, capacity: nat, xs: seq<nat>): seq<nat>
    decreases |xs|
  {
    if xs == [] then records else AddAll(Add(records, capacity, xs[0]), capacity, xs[1..])
  }

  /** Adding to the newest entries of a history gives the newest entries of
      the extended history. */
  lemma AddToNewest(history: seq<nat>, capacity: nat, x: nat)
    ensures Add(Newest(history, capacity), capacity, x) == Newest(history + [x], capacity)
  {
  }

  /** However many timestamps have been added, the list holds exactly the
      newest `capacity` of them. */
  lemma {:induction false} AddAllKeepsNewest(history: seq<nat>, capacity: nat, xs: seq<nat>)
    ensures AddAll(Newest(history, capacity), capacity, xs) == Newest(history + xs, capacity)
    decreases |xs|
  {
    if xs == [] {
      assert history + xs == history;
    } else {
      var h := history + [xs[0]];
      calc {
        AddAll(Newest(history, capacity), capacity, xs);
        AddAll(Add(Newest(history, capacity), capacity, xs[0]), capacity, xs[1..]);
        { AddToNewest(history, capacity, xs[0]); }
        AddAll(Newest(h, capacity), capacity, xs[1..]);
        { AddAllKeepsNewest(h, capacity, xs[1..]); }
        Newest(h + xs[1..], capacity);
        { assert h + xs[1..] == history + xs; }
        Newest(history + xs, capacity);
      }
    }
  }
}
