/** The bounded cursor every multi-part step keeps over its sub-units
    (chunks, screens, problems, questions). Moving returns whether the cursor
    moved; at either end it stays where it is. */
module Paging {

  /** A move: whether it happened, and the state afterwards. */
  datatype Moved<T> = Moved(moved: bool, state: T)

  /** The last position of a cursor over `count` sub-units. An empty list keeps
      its cursor at 0, which is then both its first and its last position. */
  function LastIndex(count: nat): nat {
    if count == 0 then 0 else count - 1
  }

  predicate InRange(index: nat, count: nat) {
    index <= LastIndex(count)
  }

  /** Advancing: the cursor moves while it is below `count - 1`. */
  function Next(index: nat, count: nat): (r: Moved<nat>)
    requires InRange(index, count)
    ensures InRange(r.state, count)
    ensures r.moved <==> index != LastIndex(count)
    ensures r.moved ==> r.state == index + 1
    ensures !r.moved ==> r.state == index
  {
    if index < count - 1 then Moved(true, index + 1) else Moved(false, index)
  }

  /** Retreating: the cursor moves while it is above 0. */
  function Previous(index: nat, count: nat): (r: Moved<nat>)
    requires InRange(index, count)
    ensures InRange(r.state, count)
    ensures r.moved <==> index != 0
    ensures r.moved ==> r.state + 1 == index
    ensures !r.moved ==> r.state == index
  {
    if index > 0 then Moved(true, index - 1) else Moved(false, index)
  }

  /** The cursor after `k` advances from `index`. */
  function NextTimes(index: nat, count: nat, k: nat): (r: nat)
    requires InRange(index, count)
    ensures InRange(r, count)
    decreases k
  {
    if k == 0 then index else NextTimes(Next(index, count).state, count, k - 1)
  }

  /** From any sub-unit, one advance per sub-unit ahead reaches the last
      sub-unit; the advance after that does not move. */
  lemma {:induction false} WalkToLast(index: nat, count: nat)
    requires InRange(index, count)
    ensures NextTimes(index, count, LastIndex(count) - index) == LastIndex(count)
    ensures !Next(LastIndex(count), count).moved
    decreases LastIndex(count) - index
  {
    if index < LastIndex(count) {
      WalkToLast(index + 1, count);
    }
  }
}
