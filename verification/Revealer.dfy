/**
 revealer_1.cpp: the growing table of addresses answered by devices. Blocks from malloc are Dafny objects;
 the ghost set `live` holds those not yet given back.
 */
module Revealer {

  const ADDRESS_SIZE := 16
  const FIRST_CAPACITY := 10

  // ---------------------------------------------------------------- growth

  /** (int)(1.5 * n). */
  function Grown(n: nat): nat { 3 * n / 2 }

  /** allocated_count once `n` addresses are stored. */
  function Capacity(n: nat): nat {
    if n == 0 then FIRST_CAPACITY
    else if n - 1 >= Capacity(n - 1) then Grown(Capacity(n - 1)) else Capacity(n - 1)
  }

  /** Pointers that realloc had to preserve while storing `n` addresses. */
  function Preserved(n: nat): nat {
    if n == 0 then 0
    else if n - 1 >= Capacity(n - 1) then Preserved(n - 1) + Capacity(n - 1) else Preserved(n - 1)
  }

  /** The table always fits, is never more than half too big once grown, and growth costs linearly many moves. */
  lemma {:induction false} GrowthBounds(n: nat)
    ensures n <= Capacity(n)
    ensures Capacity(n) == FIRST_CAPACITY || 2 * Capacity(n) <= 3 * n
    ensures Capacity(n) >= FIRST_CAPACITY
    ensures 5 * Preserved(n) <= 11 * (Capacity(n) - FIRST_CAPACITY)
  {
    if n > 0 { GrowthBounds(n - 1); }
  }

  // ---------------------------------------------------------------- the table

  class Slot {
    var text: string
    constructor () { text := ""; }
  }

  /** The slots of a table are allocated, pairwise distinct and hold at most ADDRESS_SIZE bytes each. */
  ghost predicate GoodSlots(slots: seq<Slot?>, live: set<object>) {
    && (forall i :: 0 <= i < |slots| ==> slots[i] != null && slots[i] in live)
    && (forall i, j :: 0 <= i < j < |slots| ==> slots[i] != slots[j])
  }

  class AddressTable {
    var allocatedCount: nat
    var count: nat
    var addresses: array<Slot?>
    ghost var live: set<object>
    ghost var preserved: nat

    ghost var stored: seq<string>   // the addresses in arrival order

    /** Every live block is the struct, the pointer array or the block of exactly one slot. */
    ghost predicate Shape()
      reads this, addresses
    {
      && addresses.Length == allocatedCount && count <= allocatedCount
      && this in live && addresses in live
      && GoodSlots(addresses[..], live)
      && (forall o <- live :: o == this || o == addresses || exists i :: 0 <= i < allocatedCount && addresses[i] == o)
    }

    /** The first `count` slots hold the stored addresses. */
    ghost predicate Holds()
      requires Shape()
      reads this, addresses, live
    {
      && |stored| == count
      && (forall i :: 0 <= i < count ==> addresses[i].text == stored[i] && |stored[i]| < ADDRESS_SIZE)
    }

    ghost predicate Valid()
      reads this, addresses, live
    {
      && Shape()
      && Holds()
      && allocatedCount == Capacity(count) && preserved == Preserved(count)
    }

    /** allocateMemoryForRevealer1Addresses. */
    constructor ()
      ensures Valid() && fresh(live) && stored == [] && allocatedCount == 10
    {
      allocatedCount, count, preserved, stored := FIRST_CAPACITY, 0, 0, [];
      addresses := new Slot?[FIRST_CAPACITY](_ => null);
      live := {};
      new;
      live := {this, addresses};
      MallocSlots(0);
    }

    /** The loop "addresses[i] = malloc(ADDRESS_SIZE)" from `first` on: new blocks, the old pointers untouched. */
    method MallocSlots(first: nat)
      requires first <= addresses.Length == allocatedCount && count <= first
      requires this in live && addresses in live && GoodSlots(addresses[..first], live)
      requires forall o <- live :: o == this || o == addresses || exists k :: 0 <= k < first && addresses[k] == o
      modifies `live, addresses
      ensures Shape() && fresh(live - old(live))
      ensures addresses[..first] == old(addresses[..first])
    {
      var i := first;
      while i < allocatedCount
        invariant first <= i <= allocatedCount
        invariant this in live && addresses in live && old(live) <= live && fresh(live - old(live))
        invariant GoodSlots(addresses[..i], live)
        invariant forall o <- live :: o == this || o == addresses || exists k :: 0 <= k < i && addresses[k] == o
        invariant addresses[..first] == old(addresses[..first])
      {
        MallocSlot(i);
        i := i + 1;
      }
      assert addresses[..i] == addresses[..];
    }

    method MallocSlot(i: nat)
      requires i < addresses.Length && GoodSlots(addresses[..i], live)
      modifies `live, addresses
      ensures addresses[..i] == old(addresses[..i])
      ensures addresses[i] != null && fresh(addresses[i]) && live == old(live) + {addresses[i]}
      ensures GoodSlots(addresses[..i + 1], live)
    {
      var s := new Slot();
      addresses[i] := s;
      live := live + {s};
      assert addresses[..i + 1] == addresses[..i] + [s];
      assert addresses[..i] == old(addresses[..i]);
    }

    /** increaseMemoryForRevealer1Addresses, called on a full table: realloc keeps the pointers, the rest is new. */
    method IncreaseMemory()
      requires Shape() && count == allocatedCount >= FIRST_CAPACITY
      modifies this
      ensures Shape() && allocatedCount == old(allocatedCount) * 3 / 2 && count == old(count) && stored == old(stored)
      ensures preserved == old(preserved + allocatedCount)
      ensures addresses[..count] == old(addresses[..])
      ensures fresh(live - old(live))
    {
      ghost var kept := addresses[..];
      allocatedCount := Grown(allocatedCount);
      Realloc(allocatedCount);
      preserved := preserved + |kept|;
      assert forall k :: 0 <= k < count ==> addresses[k] == addresses[..count][k] == kept[k];
      MallocSlots(count);
    }

    /** realloc to `n` pointers: a new block with the old pointers in front, the old block given back. */
    method Realloc(n: nat)
      requires n >= addresses.Length
      modifies `addresses, `live
      ensures fresh(addresses) && addresses.Length == n && live == old(live) - {old(addresses)} + {addresses}
      ensures addresses[..old(addresses.Length)] == old(addresses[..])
    {
      var oldAddresses := addresses;
      addresses := new Slot?[n](_ => null);
      var i := 0;
      while i < oldAddresses.Length
        invariant 0 <= i <= oldAddresses.Length
        invariant addresses[..i] == oldAddresses[..i]
        modifies addresses
      {
        addresses[i] := oldAddresses[i];
        i := i + 1;
        assert addresses[..i] == addresses[..i - 1] + [addresses[i - 1]];
      }
      assert addresses[..i] == oldAddresses[..];
      live := live - {oldAddresses} + {addresses};
    }

    /** The guard of saveAddress: afterwards there is a free slot. */
    method MakeRoom()
      requires Valid()
      modifies this
      ensures Shape() && Holds() && stored == old(stored) && count == old(count) < allocatedCount
      ensures allocatedCount == Capacity(count + 1) && preserved == Preserved(count + 1)
      ensures fresh(live - old(live))
    {
      GrowthBounds(count);
      if count >= allocatedCount {
        ghost var before := addresses[..];
        IncreaseMemory();
        assert forall i :: 0 <= i < count ==> addresses[i] == addresses[..count][i] == before[i];
      }
    }

    /** saveAddress: grow if full, then strcpy into the next slot; a dotted quad always fits in ADDRESS_SIZE bytes. */
    method SaveAddress(address: string)
      requires Valid() && |address| < ADDRESS_SIZE
      modifies this, live
      ensures Valid() && fresh(live - old(live))
      ensures stored == old(stored) + [address]
    {
      MakeRoom();
      addresses[count].text := address;
      stored := stored + [address];
      count := count + 1;
    }

    /** receiveResponses over the answers that arrive before the socket times out. */
    method ReceiveResponses(responses: seq<string>)
      requires Valid() && forall r <- responses :: |r| < ADDRESS_SIZE
      modifies this, live
      ensures Valid() && fresh(live - old(live))
      ensures stored == old(stored) + responses
    {
      var i := 0;
      while i < |responses|
        invariant 0 <= i <= |responses| && Valid() && fresh(live - old(live))
        invariant stored == old(stored) + responses[..i]
      {
        SaveAddress(responses[i]);
        i := i + 1;
        assert responses[..i] == responses[..i - 1] + [responses[i - 1]];
      }
      assert responses[..i] == responses;
    }

    /** free(p): only a live block may be given back. */
    ghost method FreeBlock(p: object)
      requires p in live
      modifies `live
      ensures live == old(live) - {p}
    {
      live := live - {p};
    }

    /**
     bindy_freeMemoryForRevealer1Addresses: every slot and the struct are given back exactly once, and the
     pointer array is the one block that never is.
     */
    method FreeMemory()
      requires Shape()
      modifies this, addresses
      ensures addresses == old(addresses) && live == {addresses}
      ensures forall i :: 0 <= i < addresses.Length ==> addresses[i] == null
    {
      var i := 0;
      ghost var slots := addresses[..];
      while i < allocatedCount
        invariant 0 <= i <= allocatedCount == old(allocatedCount) && addresses == old(addresses)
        invariant forall k :: 0 <= k < i ==> addresses[k] == null
        invariant forall k :: i <= k < allocatedCount ==> addresses[k] == slots[k]
        invariant forall o :: o in live <==> o in old(live) && forall k :: 0 <= k < i ==> slots[k] != o
      {
        FreeBlock(addresses[i]);
        addresses[i] := null;
        i := i + 1;
      }
      FreeBlock(this);
    }
  }
}
