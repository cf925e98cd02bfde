/** A queue read from the front, whose dead slots are cut away now and then instead of at every read. */
module Fifos {
  import opened Bytes

  const COMPACT_MIN: nat := 16

  class Fifo<T> {
    var items: seq<Option<T>>
    var head: nat

    /** Its dead slots are few, or fewer than half of all. */
    ghost predicate Valid()
      reads this
    {
      && head <= |items| && (forall i | 0 <= i < |items| :: items[i].Some? <==> head <= i)
      && (head <= COMPACT_MIN || head < |items| / 2)
    }

    /** What it yields, first to last. */
    function Contents(): seq<T>
      reads this
      requires Valid()
    {
      seq(|items| - head, i requires 0 <= i < |items| - head && Valid() reads this => items[head + i].value)
    }

    constructor ()
      ensures Valid() && Contents() == []
    {
      items, head := [], 0;
    }

    function Length(): nat
      reads this
      requires Valid()
      ensures Length() == |Contents()|
    {
      |items| - head
    }

    method Push(item: T)
      requires Valid()
      modifies this
      ensures Valid() && Contents() == old(Contents()) + [item]
    {
      items := items + [Some(item)];
    }

    /** The front one, if there is one. */
    function Peek(): Option<T>
      reads this
      requires Valid()
      ensures Peek() == if Contents() == [] then None else Some(Contents()[0])
    {
      if head < |items| then items[head] else None
    }

    method Shift() returns (item: Option<T>)
      requires Valid()
      modifies this
      ensures Valid()
      ensures item == if old(Contents()) == [] then None else Some(old(Contents())[0])
      ensures Contents() == if old(Contents()) == [] then [] else old(Contents())[1..]
    {
      if head == |items| {
        return None;
      }
      ghost var was := Contents();
      item := items[head];
      items := items[head := None];
      head := head + 1;
      if head > COMPACT_MIN && head >= |items| / 2 {
        items := items[head..];
        head := 0;
      }
      assert Contents() == was[1..];
    }
  }
}
