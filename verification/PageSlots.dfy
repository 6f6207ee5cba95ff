/** The slot array of a page: entries 0 to size - 1 of a fixed array, shifted and copied in place. */
module PageSlots {
  import opened TreeModel

  lemma InsertedAt<T>(s: seq<T>, t: seq<T>, index: nat, item: T)
    requires index <= |s| && |t| == |s| + 1 && t[index] == item
    requires (forall k :: 0 <= k < index ==> t[k] == s[k]) && forall k :: index < k < |t| ==> t[k] == s[k - 1]
    ensures t == InsertAt(s, index, item)
  {
  }

  class Slots<T(!new)> {
    const slots: array<T>
    var size: nat

    ghost predicate Valid()
      reads this
    {
      size <= slots.Length
    }

    ghost function Contents(): seq<T>
      reads this, slots
      requires Valid()
    {
      slots[..size]
    }

    constructor (max: nat, filler: T)
      ensures Valid() && fresh(slots) && slots.Length == max && Contents() == []
    {
      slots := new T[max](i => filler);
      size := 0;
    }

    /** Opens slot `index` by exchanging neighbours from the end down, and fills it. */
    method Insert(index: nat, item: T)
      requires Valid() && index <= size < slots.Length
      modifies this, slots
      ensures Valid() && Contents() == InsertAt(old(Contents()), index, item)
    {
      var i := size;
      while i > index
        invariant index <= i <= size == old(size)
        invariant forall k :: 0 <= k < i ==> slots[k] == old(slots[k])
        invariant forall k :: i < k <= size ==> slots[k] == old(slots[k - 1])
      {
        slots[i], slots[i - 1] := slots[i - 1], slots[i];
        i := i - 1;
      }
      slots[index] := item;
      size := size + 1;
      InsertedAt(old(Contents()), Contents(), index, item);
    }

    /** Closes slot `index` by exchanging neighbours up to the end. */
    method Remove(index: nat)
      requires Valid() && index < size
      modifies this, slots
      ensures Valid() && Contents() == RemoveAt(old(Contents()), index)
    {
      var i := index + 1;
      while i < size
        invariant index < i <= size == old(size)
        invariant forall k :: 0 <= k < index ==> slots[k] == old(slots[k])
        invariant forall k :: index <= k < i - 1 ==> slots[k] == old(slots[k + 1])
        invariant forall k :: i <= k < size ==> slots[k] == old(slots[k])
      {
        slots[i - 1], slots[i] := slots[i], slots[i - 1];
        i := i + 1;
      }
      size := size - 1;
    }

    /** Appends the entries of another page from slot `start` on. */
    method CopyFrom(other: Slots<T>, start: nat)
      requires Valid() && other.Valid() && other != this && other.slots != slots && start <= other.size
               && size + other.size - start <= slots.Length
      modifies this, slots
      ensures Valid() && Contents() == old(Contents()) + old(other.Contents())[start..]
    {
      var n := other.size - start;
      for i := 0 to n
        invariant size == old(size)
        invariant forall k :: 0 <= k < size ==> slots[k] == old(slots[k])
        invariant forall k :: size <= k < size + i ==> slots[k] == other.slots[start + k - size]
      {
        slots[size + i] := other.slots[start + i];
      }
      size := size + n;
    }

    /** Keeps the first `min` entries and gives the rest to an empty page. */
    method MoveHalfTo(recipient: Slots<T>, min: nat)
      requires Valid() && recipient.Valid() && recipient != this && recipient.slots != slots && recipient.size == 0
      requires min <= size && size - min <= recipient.slots.Length
      modifies this, recipient, recipient.slots
      ensures Valid() && recipient.Valid() && Contents() == old(Contents())[..min]
              && recipient.Contents() == old(Contents())[min..]
    {
      recipient.CopyFrom(this, min);
      size := min;
    }

    method MoveAllTo(recipient: Slots<T>)
      requires Valid() && recipient.Valid() && recipient != this && recipient.slots != slots
               && recipient.size + size <= recipient.slots.Length
      modifies this, recipient, recipient.slots
      ensures Valid() && recipient.Valid() && Contents() == []
              && recipient.Contents() == old(recipient.Contents()) + old(Contents())
    {
      recipient.CopyFrom(this, 0);
      size := 0;
    }

    method MoveFirstToEndOf(recipient: Slots<T>)
      requires Valid() && recipient.Valid() && recipient != this && recipient.slots != slots && size > 0
               && recipient.size < recipient.slots.Length
      modifies this, slots, recipient, recipient.slots
      ensures Valid() && recipient.Valid() && Contents() == old(Contents())[1..]
      ensures recipient.Contents() == old(recipient.Contents()) + [old(Contents())[0]]
    {
      recipient.Insert(recipient.size, slots[0]);
      Remove(0);
    }

    method MoveLastToFrontOf(recipient: Slots<T>)
      requires Valid() && recipient.Valid() && recipient != this && recipient.slots != slots && size > 0
               && recipient.size < recipient.slots.Length
      modifies this, recipient, recipient.slots
      ensures Valid() && recipient.Valid() && Contents() == old(Contents())[..old(size) - 1]
      ensures recipient.Contents() == [old(Contents())[old(size) - 1]] + old(recipient.Contents())
    {
      size := size - 1;
      recipient.Insert(0, slots[size]);
    }
  }
}
