/**
 The visited marks of a search: an array of 16-bit epoch tags, where a slot is marked when it holds
 the current epoch, and the pool the lists are borrowed from.
 */
module VisitedLists {
  newtype uint16 = x: int | 0 <= x < 0x1_0000

  class VisitedList {
    var curV: uint16
    const mass: array<uint16>

    /** No slot is ahead of the epoch. An array fresh from `new[]` satisfies it for the epoch 65535. */
    ghost predicate Valid()
      reads this, mass
    {
      forall i :: 0 <= i < mass.Length ==> mass[i] <= curV
    }

    /** The set that the tags stand for. */
    ghost function Marked(): set<nat>
      reads this, mass
    {
      set i: nat | i < mass.Length && mass[i] == curV
    }

    constructor (numElements: nat)
      ensures Valid() && fresh(mass) && mass.Length == numElements
    {
      curV := 0xFFFF;
      mass := new uint16[numElements];
    }

    method Reset()
      requires Valid()
      modifies this, mass
      ensures Valid()
      ensures Marked() == {}
    {
      curV := if curV == 0xFFFF then 0 else curV + 1;
      if curV == 0 {
        forall i | 0 <= i < mass.Length {
          mass[i] := 0;
        }
        curV := curV + 1;
      }
    }

    method Mark(i: nat)
      requires Valid() && i < mass.Length
      modifies mass
      ensures Valid()
      ensures Marked() == old(Marked()) + {i}
    {
      mass[i] := curV;
    }
  }

  /** Owns every list it ever made: a list is in the deque `lists` or lent out (`lent`), never both. */
  class VisitedListPool {
    const numElements: nat
    var lists: seq<VisitedList>
    ghost var lent: set<VisitedList>
    ghost var Repr: set<object>

    ghost function Owned(): set<VisitedList>
      reads this
    {
      lent + set v | v in lists
    }

    ghost predicate Valid()
      reads this, Repr
      ensures Valid() ==> this in Repr
    {
      && this in Repr
      && (forall v :: v in Owned() ==> v in Repr && v.mass in Repr)
      && (forall v :: v in lists ==> v !in lent && v.mass.Length == numElements && v.Valid())
      && (forall j, k :: 0 <= j < k < |lists| ==> lists[j] != lists[k])
      && (forall v, w :: v in Owned() && w in Owned() && v != w ==> v.mass != w.mass)
    }

    constructor (initMaxPools: nat, numElements: nat)
      ensures Valid() && fresh(Repr)
      ensures lent == {} && |lists| == initMaxPools && this.numElements == numElements
    {
      this.numElements := numElements;
      lists := [];
      lent := {};
      Repr := {this};
      new;
      for i := 0 to initMaxPools
        invariant Valid() && fresh(Repr) && lent == {} && |lists| == i
      {
        var v := new VisitedList(numElements);
        lists := [v] + lists;
        Repr := Repr + {v, v.mass};
      }
    }

    /** Whatever the array held before, the borrower sees an empty set, and nobody else holds the list. */
    method GetFreeVisitedList() returns (v: VisitedList)
      requires Valid()
      modifies Repr
      ensures Valid() && fresh(Repr - old(Repr))
      ensures v !in old(lent) && lent == old(lent) + {v} && v in Repr && v.mass in Repr
      ensures v.Valid() && v.Marked() == {} && v.mass.Length == numElements
      ensures forall w :: w in old(lent) ==> w.Marked() == old(w.Marked())
      ensures |old(lists)| > 0 ==> Repr == old(Repr) && lists == old(lists)[1..] && v == old(lists)[0]
    {
      if |lists| > 0 {
        v := lists[0];
        lists := lists[1..];
      } else {
        v := new VisitedList(numElements);
        Repr := Repr + {v, v.mass};
      }
      lent := lent + {v};
      v.Reset();
    }

    method ReleaseVisitedList(v: VisitedList)
      requires Valid() && v in lent && v.Valid() && v.mass.Length == numElements
      modifies this
      ensures Valid() && Repr == old(Repr)
      ensures lent == old(lent) - {v} && lists == [v] + old(lists)
    {
      lists := [v] + lists;
      lent := lent - {v};
    }
  }
}
