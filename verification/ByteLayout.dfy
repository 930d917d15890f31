/**
 The blocks of memory an index keeps its elements in. At level 0 every element has a slot with the number of
 its links (two bytes), the tombstone (lowest bit of the third byte), the links, the vector and the label. Above
 level 0 an element has a block of its own with one slot for each level.
 */
module ByteLayout {
  import opened Bytes

  /** The sizes an index is built with; ids have four bytes, labels eight. */
  datatype Layout = Layout(maxM0: nat, maxM: nat, dataSize: nat) {
    function SizeLinks0(): nat { maxM0 * 4 + 4 }
    function SizeLinks(): nat { maxM * 4 + 4 }
    function OffsetData(): nat { SizeLinks0() }
    function LabelOffset(): nat { SizeLinks0() + dataSize }
    function SizePerElement(): nat { SizeLinks0() + dataSize + 8 }
  }

  // ---------- Slots ----------

  predicate Fits(mem: seq<byte>, size: nat, i: nat) {
    (i + 1) * size <= |mem|
  }

  function Slot(mem: seq<byte>, size: nat, i: nat): (r: seq<byte>)
    requires Fits(mem, size, i)
    ensures |r| == size
  {
    assert (i + 1) * size == i * size + size;
    Slice(mem, i * size, size)
  }

  lemma SlotsAreDisjoint(size: nat, i: nat, j: nat)
    requires i < j
    ensures i * size + size <= j * size
  {
    Multiples(size, i, j);
  }

  lemma NextSlot(size: nat, i: nat)
    ensures (i + 1) * size == i * size + size
  {
  }

  lemma WriteInSlice(mem: seq<byte>, size: nat, at: nat, o: nat, bs: seq<byte>, p: nat)
    requires at + size <= |mem| && p + size <= |mem| && o + |bs| <= size
    requires p == at || at + size <= p || p + size <= at
    ensures p == at ==> Slice(Put(mem, at + o, bs), p, size) == Put(Slice(mem, at, size), o, bs)
    ensures p != at ==> Slice(Put(mem, at + o, bs), p, size) == Slice(mem, p, size)
  {
    if p == at {
      PutInSlice(mem, at + o, bs, at, size);
    } else {
      SliceOfPut(mem, at + o, bs, p, size);
    }
  }

  /** A write at `o` in slot `i` changes that slot and no other. */
  lemma WriteInSlot(mem: seq<byte>, size: nat, i: nat, o: nat, bs: seq<byte>, j: nat)
    requires size > 0 && Fits(mem, size, i) && Fits(mem, size, j) && o + |bs| <= size
    ensures i * size + o + |bs| <= |mem|
    ensures Slot(Put(mem, i * size + o, bs), size, j)
         == if j == i then Put(Slot(mem, size, i), o, bs) else Slot(mem, size, j)
  {
    NextSlot(size, i);
    NextSlot(size, j);
    var at, p := i * size, j * size;
    if j < i {
      SlotsAreDisjoint(size, j, i);
    } else if i < j {
      SlotsAreDisjoint(size, i, j);
    }
    assert (i + 1) * size == at + size && (j + 1) * size == p + size;
    WriteInSlice(mem, size, at, o, bs, p);
  }

  // ---------- The fields of a slot ----------

  /** A list of links: the count, the tombstone bit of the same word, and room for `max` ids. */
  datatype Links = Links(count: nat, mark: bool, ids: seq<nat>)

  /** What a slot of level 0 holds. */
  datatype Record = Record(links: Links, data: seq<byte>, externalLabel: nat)

  function ListCount(s: seq<byte>): nat
    requires |s| >= 4
  {
    Decode(Slice(s, 0, 2))
  }

  predicate Marked(s: seq<byte>)
    requires |s| >= 4
  {
    s[2] % 2 == 1
  }

  function LinkAt(s: seq<byte>, j: nat): nat
    requires |s| >= 4 + 4 * j + 4
  {
    Decode(Slice(s, 4 + 4 * j, 4))
  }

  function LinksOf(s: seq<byte>, max: nat): (r: Links)
    requires |s| >= 4 + 4 * max
    ensures |r.ids| == max
  {
    Links(ListCount(s), Marked(s), seq(max, j requires 0 <= j < max => LinkAt(s, j)))
  }

  function RecordOf(l: Layout, s: seq<byte>): Record
    requires |s| == l.SizePerElement()
  {
    Record(LinksOf(s, l.maxM0), Slice(s, l.OffsetData(), l.dataSize), Decode(Slice(s, l.LabelOffset(), 8)))
  }

  /** The offsets of an index with `M` links above level 0 and vectors of `d` bytes. */
  lemma Offsets(M: nat, d: nat)
    ensures var l := Layout(2 * M, M, d);
            && l.SizeLinks0() == 8 * M + 4 && l.SizeLinks() == 4 * M + 4
            && l.OffsetData() == 8 * M + 4 && l.LabelOffset() == 8 * M + 4 + d
            && l.SizePerElement() == 8 * M + 4 + d + 8
  {
  }

  /** Byte by byte: two bytes for the count, the tombstone in the third, the fourth is not used, four for each link. */
  lemma ListFormat(s: seq<byte>, max: nat, k: nat)
    requires |s| >= 4 + 4 * max && k < max
    ensures LinksOf(s, max).count == s[0] as int + 0x100 * s[1] as int && (LinksOf(s, max).mark <==> s[2] % 2 == 1)
    ensures LinksOf(s, max).ids[k]
         == s[4 * k + 4] as int + 0x100 * s[4 * k + 5] as int
            + 0x1_0000 * s[4 * k + 6] as int + 0x100_0000 * s[4 * k + 7] as int
  {
    TwoBytes(s[0], s[1]);
    assert Slice(s, 0, 2) == [s[0], s[1]];
    FourBytes(s[4 * k + 4], s[4 * k + 5], s[4 * k + 6], s[4 * k + 7]);
    assert Slice(s, 4 + 4 * k, 4) == [s[4 * k + 4], s[4 * k + 5], s[4 * k + 6], s[4 * k + 7]];
  }

  /** The vector stands behind the list, and the label behind the vector. */
  lemma RecordFormat(l: Layout, s: seq<byte>)
    requires |s| == l.SizePerElement()
    ensures RecordOf(l, s).data == s[l.maxM0 * 4 + 4..|s| - 8] && RecordOf(l, s).externalLabel == Decode(s[|s| - 8..])
  {
    assert Slice(s, l.LabelOffset(), 8) == s[|s| - 8..];
  }

  /** With the tombstone set (`|= DELETE_MARK`) or cleared (`&= ~DELETE_MARK`); the other seven bits are kept. */
  function WithMark(b: byte, on: bool): byte {
    b - b % 2 + if on then 1 else 0
  }

  // Each write changes its own field only.

  lemma WriteCount(s: seq<byte>, max: nat, n: nat)
    requires |s| >= 4 + 4 * max
    ensures LinksOf(Put(s, 0, Encode(n, 2)), max) == LinksOf(s, max).(count := n % 65536)
  {
    var s' := Put(s, 0, Encode(n, 2));
    SliceOfPut(s, 0, Encode(n, 2), 0, 2);
    DecodeEncode(n, 2);
    assert Pow256(2) == 65536 by { assert Pow256(1) == 256 * Pow256(0); }
    forall j | 0 <= j < max
      ensures LinkAt(s', j) == LinkAt(s, j)
    {
      SliceOfPut(s, 0, Encode(n, 2), 4 + 4 * j, 4);
    }
    assert LinksOf(s', max).ids == LinksOf(s, max).ids;
  }

  lemma WriteMark(s: seq<byte>, max: nat, on: bool)
    requires |s| >= 4 + 4 * max
    ensures LinksOf(Put(s, 2, [WithMark(s[2], on)]), max) == LinksOf(s, max).(mark := on)
  {
    var bs := [WithMark(s[2], on)];
    var s' := Put(s, 2, bs);
    SliceOfPut(s, 2, bs, 0, 2);
    forall j | 0 <= j < max
      ensures LinkAt(s', j) == LinkAt(s, j)
    {
      SliceOfPut(s, 2, bs, 4 + 4 * j, 4);
    }
    assert LinksOf(s', max).ids == LinksOf(s, max).ids;
  }

  lemma WriteLink(s: seq<byte>, max: nat, k: nat, id: nat)
    requires |s| >= 4 + 4 * max && k < max && id < Pow256(4)
    ensures LinksOf(Put(s, 4 + 4 * k, Encode(id, 4)), max) == LinksOf(s, max).(ids := LinksOf(s, max).ids[k := id])
  {
    var s' := Put(s, 4 + 4 * k, Encode(id, 4));
    SliceOfPut(s, 4 + 4 * k, Encode(id, 4), 0, 2);
    DecodeEncodeFits(id, 4);
    forall j | 0 <= j < max
      ensures LinkAt(s', j) == if j == k then id else LinkAt(s, j)
    {
      SliceOfPut(s, 4 + 4 * k, Encode(id, 4), 4 + 4 * j, 4);
    }
    assert LinksOf(s', max).ids == LinksOf(s, max).ids[k := id];
  }

  /** A write behind the list leaves the list alone. */
  lemma WriteBehindLinks(s: seq<byte>, max: nat, off: nat, bs: seq<byte>)
    requires 4 + 4 * max <= off && off + |bs| <= |s|
    ensures LinksOf(Put(s, off, bs), max) == LinksOf(s, max)
  {
    var s' := Put(s, off, bs);
    SliceOfPut(s, off, bs, 0, 2);
    forall j | 0 <= j < max
      ensures LinkAt(s', j) == LinkAt(s, j)
    {
      SliceOfPut(s, off, bs, 4 + 4 * j, 4);
    }
    assert LinksOf(s', max).ids == LinksOf(s, max).ids;
  }

  lemma WriteData(l: Layout, s: seq<byte>, data: seq<byte>)
    requires |s| == l.SizePerElement() && |data| == l.dataSize
    ensures RecordOf(l, Put(s, l.OffsetData(), data)) == RecordOf(l, s).(data := data)
  {
    WriteBehindLinks(s, l.maxM0, l.OffsetData(), data);
    SliceOfPut(s, l.OffsetData(), data, l.OffsetData(), l.dataSize);
    SliceOfPut(s, l.OffsetData(), data, l.LabelOffset(), 8);
  }

  lemma WriteLabel(l: Layout, s: seq<byte>, id: nat)
    requires |s| == l.SizePerElement() && id < Pow256(8)
    ensures RecordOf(l, Put(s, l.LabelOffset(), Encode(id, 8))) == RecordOf(l, s).(externalLabel := id)
  {
    WriteBehindLinks(s, l.maxM0, l.LabelOffset(), Encode(id, 8));
    SliceOfPut(s, l.LabelOffset(), Encode(id, 8), l.OffsetData(), l.dataSize);
    SliceOfPut(s, l.LabelOffset(), Encode(id, 8), l.LabelOffset(), 8);
    DecodeEncodeFits(id, 8);
  }

  // ---------- Blank lists ----------

  /** The part of a slot that holds the list is all zero, as `memset` leaves it. */
  predicate IsBlank(s: seq<byte>, max: nat)
    requires |s| >= 4 + 4 * max
  {
    forall k :: 0 <= k < 4 + 4 * max ==> s[k] == 0
  }

  lemma {:induction false} DecodeZeros(bs: seq<byte>)
    requires forall k :: 0 <= k < |bs| ==> bs[k] == 0
    ensures Decode(bs) == 0
  {
    if bs != [] {
      DecodeZeros(bs[1..]);
    }
  }

  /** The whole first word of a blank list is zero, and every place for a link is. */
  lemma BlankReadsZero(s: seq<byte>, max: nat)
    requires |s| >= 4 + 4 * max && IsBlank(s, max)
    ensures Decode(Slice(s, 0, 4)) == 0
    ensures LinksOf(s, max).count == 0 && !LinksOf(s, max).mark
    ensures forall j :: 0 <= j < max ==> LinksOf(s, max).ids[j] == 0
  {
    DecodeZeros(Slice(s, 0, 4));
    DecodeZeros(Slice(s, 0, 2));
    forall j | 0 <= j < max
      ensures LinkAt(s, j) == 0
    {
      DecodeZeros(Slice(s, 4 + 4 * j, 4));
    }
  }

  /** Vector and label are written behind the list, which stays blank. */
  lemma BlankStays(s: seq<byte>, max: nat, off: nat, bs: seq<byte>)
    requires |s| >= 4 + 4 * max && IsBlank(s, max) && 4 + 4 * max <= off && off + |bs| <= |s|
    ensures IsBlank(Put(s, off, bs), max)
  {
  }

  lemma OneMoreLink(ids: seq<nat>, was: seq<nat>, k: nat)
    requires k < |ids| <= |was|
    ensures (ids[..k] + was[k..])[k] == was[k]
    ensures (ids[..k] + was[k..])[k := ids[k]] == ids[..k + 1] + was[k + 1..]
  {
  }

  // ---------- A block of slots ----------

  /** `data_level0_memory_`, or the block of one element above level 0. Each method is a write in place. */
  class Block {
    const size: nat
    const max: nat
    const slots: nat
    const memory: array<byte>

    /** Nothing is known of the contents: `malloc` leaves them as they are. */
    constructor (size: nat, max: nat, slots: nat)
      requires size >= 4 + 4 * max
      ensures this.size == size && this.max == max && this.slots == slots && Valid() && fresh(memory)
    {
      this.size, this.max, this.slots := size, max, slots;
      memory := new byte[slots * size];
    }

    predicate Valid() {
      size >= 4 + 4 * max && memory.Length == slots * size
    }

    lemma InBounds(i: nat)
      requires Valid() && i < slots
      ensures i * size + size <= memory.Length && Fits(memory[..], size, i)
    {
      SlotsAreDisjoint(size, i, slots);
      NextSlot(size, i);
    }

    ghost function SlotAt(i: nat): (r: seq<byte>)
      reads memory
      requires Valid() && i < slots
      ensures |r| == size
    {
      InBounds(i);
      Slot(memory[..], size, i)
    }

    ghost function ListAt(i: nat): Links
      reads memory
      requires Valid() && i < slots
    {
      LinksOf(SlotAt(i), max)
    }

    /** What stands behind the list. */
    ghost function TailAt(i: nat): seq<byte>
      reads memory
      requires Valid() && i < slots
    {
      SlotAt(i)[4 + 4 * max..]
    }

    /** The raw write all of them end in. */
    method Write(off: nat, bs: seq<byte>)
      requires off + |bs| <= memory.Length
      modifies memory
      ensures memory[..] == Put(old(memory[..]), off, bs)
    {
      var k := 0;
      while k < |bs|
        invariant 0 <= k <= |bs|
        invariant forall q :: 0 <= q < memory.Length ==>
                    memory[q] == if off <= q < off + k then bs[q - off] else old(memory[q])
      {
        memory[off + k] := bs[k];
        k := k + 1;
      }
      assert forall q :: 0 <= q < memory.Length ==> memory[..][q] == Put(old(memory[..]), off, bs)[q];
    }

    method WriteField(i: nat, o: nat, bs: seq<byte>)
      requires Valid() && i < slots && o + |bs| <= size
      modifies memory
      ensures SlotAt(i) == Put(old(SlotAt(i)), o, bs)
      ensures forall j :: 0 <= j < slots && j != i ==> SlotAt(j) == old(SlotAt(j))
    {
      InBounds(i);
      ghost var was := memory[..];
      Write(i * size + o, bs);
      forall j | 0 <= j < slots
        ensures SlotAt(j) == if j == i then Put(old(SlotAt(i)), o, bs) else old(SlotAt(j))
      {
        InBounds(j);
        WriteInSlot(was, size, i, o, bs, j);
      }
    }

    method Clear(i: nat)
      requires Valid() && i < slots
      modifies memory
      ensures IsBlank(SlotAt(i), max)
      ensures forall j :: 0 <= j < slots && j != i ==> SlotAt(j) == old(SlotAt(j))
    {
      WriteField(i, 0, seq(size, _ => 0));
    }

    method SetListCount(i: nat, n: nat)
      requires Valid() && i < slots
      modifies memory
      ensures ListAt(i) == old(ListAt(i)).(count := n % 65536)
      ensures TailAt(i) == old(TailAt(i))
      ensures forall j :: 0 <= j < slots && j != i ==> SlotAt(j) == old(SlotAt(j))
    {
      ghost var s := SlotAt(i);
      WriteField(i, 0, Encode(n, 2));
      WriteCount(s, max, n);
    }

    method SetMark(i: nat, on: bool)
      requires Valid() && i < slots
      modifies memory
      ensures ListAt(i) == old(ListAt(i)).(mark := on)
      ensures TailAt(i) == old(TailAt(i))
      ensures forall j :: 0 <= j < slots && j != i ==> SlotAt(j) == old(SlotAt(j))
    {
      ghost var s := SlotAt(i);
      InBounds(i);
      var b := memory[i * size + 2];
      assert b == s[2];
      WriteField(i, 2, [WithMark(b, on)]);
      WriteMark(s, max, on);
    }

    method SetLink(i: nat, k: nat, id: nat)
      requires Valid() && i < slots && k < max && id < Pow256(4)
      modifies memory
      ensures ListAt(i) == old(ListAt(i)).(ids := old(ListAt(i)).ids[k := id])
      ensures TailAt(i) == old(TailAt(i))
      ensures forall j :: 0 <= j < slots && j != i ==> SlotAt(j) == old(SlotAt(j))
    {
      ghost var s := SlotAt(i);
      WriteField(i, 4 + 4 * k, Encode(id, 4));
      WriteLink(s, max, k, id);
    }

    /** A whole list: its count, and then its links one by one. A list that is written for the first time must
        be blank, and is, place by place. */
    method WriteList(i: nat, ids: seq<nat>, ghost firstTime: bool)
      requires Valid() && i < slots && |ids| <= max && |ids| < 65536
      requires forall k :: 0 <= k < |ids| ==> ids[k] < Pow256(4)
      requires firstTime ==> IsBlank(SlotAt(i), max)
      modifies memory
      ensures ListAt(i) == Links(|ids|, old(ListAt(i)).mark, ids + old(ListAt(i)).ids[|ids|..])
      ensures TailAt(i) == old(TailAt(i))
      ensures forall j :: 0 <= j < slots && j != i ==> SlotAt(j) == old(SlotAt(j))
    {
      ghost var was := ListAt(i);
      if firstTime {
        BlankReadsZero(SlotAt(i), max);
        // "The newly inserted element should have blank link list"
        assert Decode(Slice(SlotAt(i), 0, 4)) == 0;
      }
      SetListCount(i, |ids|);
      WriteLinks(i, ids, was, firstTime);
    }

    method WriteLinks(i: nat, ids: seq<nat>, ghost was: Links, ghost firstTime: bool)
      requires Valid() && i < slots && |ids| <= max && |was.ids| == max
      requires forall k :: 0 <= k < |ids| ==> ids[k] < Pow256(4)
      requires ListAt(i) == was.(count := |ids|) && (firstTime ==> forall k :: 0 <= k < max ==> was.ids[k] == 0)
      modifies memory
      ensures ListAt(i) == Links(|ids|, was.mark, ids + was.ids[|ids|..])
      ensures TailAt(i) == old(TailAt(i))
      ensures forall j :: 0 <= j < slots && j != i ==> SlotAt(j) == old(SlotAt(j))
    {
      hide *;
      var k := 0;
      while k < |ids|
        invariant 0 <= k <= |ids|
        invariant ListAt(i) == Links(|ids|, was.mark, ids[..k] + was.ids[k..])
        invariant TailAt(i) == old(TailAt(i))
        invariant forall j :: 0 <= j < slots && j != i ==> SlotAt(j) == old(SlotAt(j))
      {
        OneMoreLink(ids, was.ids, k);
        assert firstTime ==> ListAt(i).ids[k] == 0; // "Possible memory corruption"
        SetLink(i, k, ids[k]);
        k := k + 1;
      }
      assert ids[..k] == ids;
    }
  }
}
