/** A weighted stream of keys that reached a summary through updates and merges. */
module Streams {
  import opened KeyOrder

  datatype History = Fresh | Updated(before: History, key: Key, weight: nat) | Merged(left: History, right: History)

  function Truth(h: History, key: Key): nat {
    match h
    case Fresh => 0
    case Updated(before, k, weight) => Truth(before, key) + (if k == key then weight else 0)
    case Merged(left, right) => Truth(left, key) + Truth(right, key)
  }

  function TruthOf(h: History): Key -> nat {
    k => Truth(h, k)
  }

  function Weight(h: History): nat {
    match h
    case Fresh => 0
    case Updated(before, _, weight) => Weight(before) + weight
    case Merged(left, right) => Weight(left) + Weight(right)
  }

  predicate MergeFree(h: History) {
    match h
    case Fresh => true
    case Updated(before, _, _) => MergeFree(before)
    case Merged(_, _) => false
  }
}
