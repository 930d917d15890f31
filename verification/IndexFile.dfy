/** Saving an index to a file and loading it again, byte by byte. */
module IndexFile {
  import opened Space
  import opened Bytes
  import opened ByteLayout

  /** The scalars at the start of a file, in their order. The top level is in two's complement (`-1` for an empty
      index), `mult` is the bit pattern of the normalisation factor. */
  datatype Header = Header(
    offsetLevel0: nat, maxElements: nat, count: nat, sizePerElement: nat, labelOffset: nat, offsetData: nat,
    maxLevel: nat, entryPoint: nat, maxM: nat, maxM0: nat, m: nat, mult: nat, efConstruction: nat)
  {
    function SizeLinks(): (r: nat)
      ensures r > 0
    {
      maxM * 4 + 4
    }

    function SizeLevel0(): nat { count * sizePerElement }

    /** Where the blocks above level 0 are looked for: the size is computed in 64 bits, and `seekg` takes it as a
        signed number. */
    function First(): int {
      var size := SizeLevel0() % 0x1_0000_0000_0000_0000;
      HEADER + if size < SIGNED_LIMIT then size else size - 0x1_0000_0000_0000_0000
    }
  }

  /** What is in memory: `level0` is the block of all slots, `upper[i]` the block of element `i` above level 0. */
  datatype Index = Index(
    h: Header, level0: seq<byte>, levels: seq<nat>, upper: seq<seq<byte>>, lookup: map<nat, nat>, numDeleted: nat)

  /** `Undefined` stands for a file whose header makes the loader read or write outside its blocks. */
  datatype Result = Loaded(x: Index) | Refused | Undefined

  const WIDTHS: seq<nat> := [8, 8, 8, 8, 8, 8, 4, 4, 8, 8, 8, 8, 8]
  const HEADER: nat := 96
  const SIGNED_LIMIT: nat := 0x8000_0000_0000_0000

  /** The size as a signed number of 64 bits. */
  lemma FirstIsSigned(h: Header) returns (k: int)
    ensures h.First() - HEADER == h.SizeLevel0() - k * 0x1_0000_0000_0000_0000
    ensures -0x8000_0000_0000_0000 <= h.First() - HEADER < 0x8000_0000_0000_0000
  {
    var size, m := h.SizeLevel0(), 0x1_0000_0000_0000_0000;
    k := size / m;
    assert size == m * k + size % m;
    if size % m >= SIGNED_LIMIT {
      k := k + 1;
    }
  }

  /** Blocks of memory are smaller than half of what 64 bits can address, and then no size is wrapped around. */
  lemma FirstIs(h: Header)
    requires h.SizeLevel0() < SIGNED_LIMIT
    ensures h.First() == HEADER + h.SizeLevel0()
  {
    DivSmall(h.SizeLevel0(), 0x1_0000_0000_0000_0000);
  }

  function Fields(h: Header): (r: seq<nat>)
    ensures |r| == 13
  {
    [h.offsetLevel0, h.maxElements, h.count, h.sizePerElement, h.labelOffset, h.offsetData,
     h.maxLevel, h.entryPoint, h.maxM, h.maxM0, h.m, h.mult, h.efConstruction]
  }

  function OfFields(v: seq<nat>): Header
    requires |v| == 13
  {
    Header(v[0], v[1], v[2], v[3], v[4], v[5], v[6], v[7], v[8], v[9], v[10], v[11], v[12])
  }

  // ---------- Scalars, one after the other ----------

  function Total(ws: seq<nat>): nat {
    if ws == [] then 0 else ws[0] + Total(ws[1..])
  }

  function WriteAll(vs: seq<nat>, ws: seq<nat>): (r: seq<byte>)
    requires |vs| == |ws|
    ensures |r| == Total(ws)
  {
    if vs == [] then [] else Encode(vs[0], ws[0]) + WriteAll(vs[1..], ws[1..])
  }

  function ReadAll(file: seq<byte>, pos: nat, ws: seq<nat>): (r: seq<nat>)
    requires pos + Total(ws) <= |file|
    ensures |r| == |ws|
    decreases |ws|
  {
    if ws == [] then [] else [Decode(Slice(file, pos, ws[0]))] + ReadAll(file, pos + ws[0], ws[1..])
  }

  lemma {:induction false} ReadWritten(file: seq<byte>, pos: nat, vs: seq<nat>, ws: seq<nat>)
    requires |vs| == |ws| && forall k :: 0 <= k < |vs| ==> vs[k] < Pow256(ws[k])
    requires pos + Total(ws) <= |file| && Slice(file, pos, Total(ws)) == WriteAll(vs, ws)
    ensures ReadAll(file, pos, ws) == vs
    decreases |vs|
  {
    if vs != [] {
      var all := WriteAll(vs, ws);
      assert Slice(file, pos, ws[0]) == all[..ws[0]] == Encode(vs[0], ws[0]);
      assert Slice(file, pos + ws[0], Total(ws[1..])) == all[ws[0]..] == WriteAll(vs[1..], ws[1..]);
      DecodeEncodeFits(vs[0], ws[0]);
      ReadWritten(file, pos + ws[0], vs[1..], ws[1..]);
    }
  }

  // ---------- Saving ----------

  /** A size is kept in an `unsigned int`, and only so many bytes are written. */
  function Cut(b: seq<byte>): (r: seq<byte>)
    ensures |r| < Pow256(4) && (|b| < Pow256(4) ==> r == b)
  {
    DivSmall(|b|, Pow256(4));
    b[..|b| % Pow256(4)]
  }

  lemma DivSmall(v: nat, m: nat)
    requires m > 0
    ensures v % m <= v && v % m < m && (v < m ==> v % m == v)
  {
    if v < m {
      Remainder(v, m, 0, v);
    }
  }

  /** The blocks above level 0, each after its size in bytes. */
  function Lists(upper: seq<seq<byte>>): seq<byte> {
    if upper == [] then [] else Encode(|Cut(upper[0])|, 4) + Cut(upper[0]) + Lists(upper[1..])
  }

  function Save(x: Index): seq<byte> {
    WriteAll(Fields(x.h), WIDTHS) + x.level0 + Lists(x.upper)
  }

  lemma {:induction false} ListsOneMore(upper: seq<seq<byte>>, b: seq<byte>)
    ensures Lists(upper + [b]) == Lists(upper) + Encode(|Cut(b)|, 4) + Cut(b)
  {
    if upper != [] {
      ListsOneMore(upper[1..], b);
      assert (upper + [b])[1..] == upper[1..] + [b];
    }
  }

  lemma {:induction false} TotalSnoc(ws: seq<nat>, w: nat)
    ensures Total(ws + [w]) == Total(ws) + w
  {
    if ws != [] {
      TotalSnoc(ws[1..], w);
      assert (ws + [w])[1..] == ws[1..] + [w];
    }
  }

  /** Where a field of the header starts. */
  function FieldOffset(k: nat): nat {
    if k <= 6 then 8 * k else if k <= 8 then 24 + 4 * k else 8 * k - 8
  }

  lemma {:induction false} OffsetIs(k: nat)
    requires k <= 13
    ensures Total(WIDTHS[..k]) == FieldOffset(k)
  {
    if k > 0 {
      OffsetIs(k - 1);
      TotalSnoc(WIDTHS[..k - 1], WIDTHS[k - 1]);
      assert WIDTHS[..k] == WIDTHS[..k - 1] + [WIDTHS[k - 1]];
    }
  }

  lemma {:induction false} WrittenAt(vs: seq<nat>, ws: seq<nat>, k: nat)
    requires |vs| == |ws| && k < |vs|
    ensures var o := Total(ws[..k]); var all := WriteAll(vs, ws);
            o + ws[k] <= |all| && all[o..o + ws[k]] == Encode(vs[k], ws[k])
    decreases k
  {
    hide Encode;
    if k > 0 {
      WrittenAt(vs[1..], ws[1..], k - 1);
      assert ws[..k][1..] == ws[1..][..k - 1];
      var o := Total(ws[1..][..k - 1]);
      assert WriteAll(vs, ws)[ws[0] + o..ws[0] + o + ws[k]] == WriteAll(vs[1..], ws[1..])[o..o + ws[k]];
    }
  }

  /** Where each scalar of the header stands, in how many bytes, and what follows the header. */
  lemma FileFormat(x: Index, k: nat)
    requires k < 13
    ensures var f, h := Save(x), x.h;
            && |f| >= 96 && f[96..] == x.level0 + Lists(x.upper)
            && FieldOffset(k) + WIDTHS[k] <= 96
            && f[FieldOffset(k)..FieldOffset(k) + WIDTHS[k]]
            == Encode([h.offsetLevel0, h.maxElements, h.count, h.sizePerElement, h.labelOffset, h.offsetData,
                       h.maxLevel, h.entryPoint, h.maxM, h.maxM0, h.m, h.mult, h.efConstruction][k],
                      if k == 6 || k == 7 then 4 else 8)
  {
    hide Encode, Lists, WriteAll, Total;
    TotalIsHeader();
    OffsetIs(k);
    WrittenAt(Fields(x.h), WIDTHS, k);
    var all := WriteAll(Fields(x.h), WIDTHS);
    assert Save(x)[FieldOffset(k)..FieldOffset(k) + WIDTHS[k]] == all[FieldOffset(k)..FieldOffset(k) + WIDTHS[k]];
  }

  /** A block above level 0 is written behind its size. */
  lemma BlockFormat(upper: seq<seq<byte>>)
    requires upper != [] && |upper[0]| < 0x1_0000_0000
    ensures var f := Lists(upper);
            |f| >= 4 + |upper[0]| && f[..4] == Encode(|upper[0]|, 4) && f[4..4 + |upper[0]|] == upper[0]
            && f[4 + |upper[0]|..] == Lists(upper[1..])
  {
    hide Encode, Pow256;
    SizesFitFourBytes();
  }

  method SaveIndex(x: Index) returns (output: seq<byte>)
    requires |x.levels| == |x.upper|
    requires forall i :: 0 <= i < |x.upper| ==> |x.upper[i]| == x.h.SizeLinks() * x.levels[i]
    ensures output == Save(x)
  {
    hide WriteAll, Fields, Encode;
    output := WriteAll(Fields(x.h), WIDTHS) + x.level0;
    ghost var start := output;
    var i := 0;
    assert x.upper[..0] == [] && start + Lists([]) == start;
    while i < |x.upper|
      invariant 0 <= i <= |x.upper| && output == start + Lists(x.upper[..i])
    {
      output := SaveLists(x, i, output, start);
      i := i + 1;
    }
    assert x.upper[..i] == x.upper;
  }

  /** One turn of the loop: the size, which is 0 for an element without upper levels, and then the block. */
  method SaveLists(x: Index, i: nat, before: seq<byte>, ghost start: seq<byte>) returns (output: seq<byte>)
    requires |x.levels| == |x.upper| && i < |x.upper|
    requires |x.upper[i]| == x.h.SizeLinks() * x.levels[i]
    requires before == start + Lists(x.upper[..i])
    ensures output == start + Lists(x.upper[..i + 1])
  {
    hide Lists, Encode;
    var linkListSize := if x.levels[i] > 0 then x.h.SizeLinks() * x.levels[i] % Pow256(4) else 0;
    assert x.levels[i] == 0 ==> x.upper[i] == [];
    assert Cut(x.upper[i]) == x.upper[i][..linkListSize];
    ListsOneMore(x.upper[..i], x.upper[i]);
    assert x.upper[..i + 1] == x.upper[..i] + [x.upper[i]];
    Associate(start, Lists(x.upper[..i]), Encode(linkListSize, 4), Cut(x.upper[i]));
    output := before + Encode(linkListSize, 4);
    if linkListSize > 0 {
      output := output + x.upper[i][..linkListSize];
    }
  }

  lemma Associate(a: seq<byte>, b: seq<byte>, c: seq<byte>, d: seq<byte>)
    ensures a + (b + c + d) == a + b + c + d
  {
  }

  // ---------- Loading ----------

  /** The walk over the sizes. It must end at the end of the file. */
  predicate Walk(file: seq<byte>, pos: nat, n: nat)
    decreases n
  {
    if n == 0 then pos == |file|
    else pos + 4 <= |file| && Walk(file, pos + 4 + Decode(Slice(file, pos, 4)), n - 1)
  }

  lemma {:induction false} WalkStaysInside(file: seq<byte>, pos: nat, n: nat)
    requires Walk(file, pos, n)
    ensures pos <= |file| && (n > 0 ==> pos + 4 + Decode(Slice(file, pos, 4)) <= |file|)
    decreases n
  {
    if n > 0 {
      WalkStaysInside(file, pos + 4 + Decode(Slice(file, pos, 4)), n - 1);
    }
  }

  function ReadLists(file: seq<byte>, pos: nat, n: nat): (r: seq<seq<byte>>)
    requires Walk(file, pos, n)
    ensures |r| == n
    decreases n
  {
    if n == 0 then []
    else
      WalkStaysInside(file, pos, n);
      var size := Decode(Slice(file, pos, 4));
      [Slice(file, pos + 4, size)] + ReadLists(file, pos + 4 + size, n - 1)
  }

  predicate FieldsInSlot(h: Header) {
    h.labelOffset + 8 <= h.sizePerElement && h.offsetLevel0 + 3 <= h.sizePerElement
  }

  function LabelAt(h: Header, level0: seq<byte>, i: nat): nat
    requires FieldsInSlot(h) && Fits(level0, h.sizePerElement, i)
  {
    Decode(Slice(Slot(level0, h.sizePerElement, i), h.labelOffset, 8))
  }

  predicate DeletedAt(h: Header, level0: seq<byte>, i: nat)
    requires FieldsInSlot(h) && Fits(level0, h.sizePerElement, i)
  {
    Slot(level0, h.sizePerElement, i)[h.offsetLevel0 + 2] % 2 == 1
  }

  /** Label and tombstone are read inside the slot if and only if their last bytes are in it. */
  lemma InSlot(h: Header)
    ensures FieldsInSlot(h) <==> h.offsetLevel0 + 2 < h.sizePerElement && h.labelOffset + 7 < h.sizePerElement
  {
  }

  /** The header describes slots of that layout, as it does for every index that was built. */
  predicate Describes(h: Header, l: Layout) {
    && h.offsetLevel0 == 0 && h.sizePerElement == l.SizePerElement()
    && h.labelOffset == l.LabelOffset() && h.offsetData == l.OffsetData() && h.maxM == l.maxM && h.maxM0 == l.maxM0
  }

  /** Then label and tombstone are those of the slot. */
  lemma SlotFields(h: Header, l: Layout, level0: seq<byte>, i: nat)
    requires Describes(h, l) && Fits(level0, h.sizePerElement, i)
    ensures FieldsInSlot(h)
    ensures var r := RecordOf(l, Slot(level0, h.sizePerElement, i));
            LabelAt(h, level0, i) == r.externalLabel && (DeletedAt(h, level0, i) <==> r.links.mark)
    ensures DeletedAt(h, level0, i) <==> LinksOf(Slot(level0, h.sizePerElement, i), l.maxM0).mark
  {
  }

  predicate AllFit(level0: seq<byte>, size: nat, n: nat) {
    n * size <= |level0|
  }

  lemma FitsBelow(level0: seq<byte>, size: nat, n: nat, i: nat)
    requires AllFit(level0, size, n) && i < n
    ensures Fits(level0, size, i)
  {
    SlotsAreDisjoint(size, i, n);
    NextSlot(size, i);
  }

  /** The label table and the number of tombstones of the first `n` elements. */
  function LookupOf(h: Header, level0: seq<byte>, n: nat): map<nat, nat>
    requires FieldsInSlot(h) && AllFit(level0, h.sizePerElement, n)
  {
    if n == 0 then map[]
    else
      FitsBelow(level0, h.sizePerElement, n, n - 1);
      NextSlot(h.sizePerElement, n - 1);
      LookupOf(h, level0, n - 1)[LabelAt(h, level0, n - 1) := n - 1]
  }

  function DeletedOf(h: Header, level0: seq<byte>, n: nat): nat
    requires FieldsInSlot(h) && AllFit(level0, h.sizePerElement, n)
  {
    if n == 0 then 0
    else
      FitsBelow(level0, h.sizePerElement, n, n - 1);
      NextSlot(h.sizePerElement, n - 1);
      DeletedOf(h, level0, n - 1) + if DeletedAt(h, level0, n - 1) then 1 else 0
  }

  /** The slots that are tombstoned. */
  function DeletedSlots(h: Header, level0: seq<byte>, n: nat): set<nat>
    requires FieldsInSlot(h) && forall i :: 0 <= i < n ==> Fits(level0, h.sizePerElement, i)
  {
    set i: nat | i < n && DeletedAt(h, level0, i)
  }

  lemma {:induction false} DeletedAreCounted(h: Header, level0: seq<byte>, n: nat)
    requires FieldsInSlot(h) && AllFit(level0, h.sizePerElement, n)
    requires forall i :: 0 <= i < n ==> Fits(level0, h.sizePerElement, i)
    ensures DeletedOf(h, level0, n) == |DeletedSlots(h, level0, n)|
    decreases n
  {
    if n > 0 {
      NextSlot(h.sizePerElement, n - 1);
      DeletedAreCounted(h, level0, n - 1);
      var before := DeletedSlots(h, level0, n - 1);
      assert DeletedSlots(h, level0, n) == if DeletedAt(h, level0, n - 1) then before + {n - 1} else before;
    }
  }

  function Levels(upper: seq<seq<byte>>, sizeLinks: nat): seq<nat>
    requires sizeLinks > 0
  {
    seq(|upper|, i requires 0 <= i < |upper| => |upper[i]| / sizeLinks)
  }

  function Capacity(h: Header, asked: nat): nat {
    if asked < h.count then h.maxElements else asked
  }

  function Load(file: seq<byte>, asked: nat): Result {
    hide Header.First, Header.SizeLevel0, Walk, FieldsInSlot;
    if |file| < HEADER then Refused
    else
      var h := ReadHeader(file);
      if h.First() < 0 || !Walk(file, h.First(), h.count) then Refused
      else if h.SizeLevel0() >= SIGNED_LIMIT || !FieldsInSlot(h) || Capacity(h, asked) < h.count then Undefined
      else FirstIs(h); Loaded(LoadBody(file, h, asked))
  }

  function LoadBody(file: seq<byte>, h: Header, asked: nat): Index
    requires HEADER <= |file| && Walk(file, HEADER + h.SizeLevel0(), h.count) && FieldsInSlot(h)
  {
    var size := h.SizeLevel0();
    WalkStaysInside(file, HEADER + size, h.count);
    var level0 := Slice(file, HEADER, size);
    hide Walk, Slice, FieldsInSlot;
    var upper := ReadLists(file, HEADER + size, h.count);
    Index(h.(maxElements := Capacity(h, asked)), level0, Levels(upper, h.SizeLinks()), upper,
          LookupOf(h, level0, h.count), DeletedOf(h, level0, h.count))
  }

  function ReadHeader(file: seq<byte>): Header
    requires |file| >= HEADER
  {
    TotalIsHeader();
    OfFields(ReadAll(file, 0, WIDTHS))
  }

  lemma TotalIsHeader()
    ensures Total(WIDTHS) == HEADER
  {
    assert WIDTHS[1..] == [8, 8, 8, 8, 8, 4, 4, 8, 8, 8, 8, 8];
    assert Total([8, 8, 8, 8, 8, 4, 4, 8, 8, 8, 8, 8]) == 88 by {
      assert [8, 8, 8, 8, 8, 4, 4, 8, 8, 8, 8, 8][1..] == [8, 8, 8, 8, 4, 4, 8, 8, 8, 8, 8];
    }
  }

  method WalkSizes(file: seq<byte>, first: nat, n: nat) returns (ok: bool)
    ensures ok == Walk(file, first, n)
  {
    var pos: nat, left: nat := first, n;
    while left > 0
      invariant Walk(file, pos, left) == Walk(file, first, n)
    {
      if pos >= |file| {
        return false;
      }
      if pos + 4 > |file| {
        return false; // the read fails, and then no position is the end of the file
      }
      pos, left := pos + 4 + Decode(Slice(file, pos, 4)), left - 1;
    }
    ok := pos == |file|;
  }

  lemma ReadListsStep(file: seq<byte>, pos: nat, n: nat)
    requires Walk(file, pos, n) && n > 0
    ensures pos + 4 + Decode(Slice(file, pos, 4)) <= |file|
    ensures var size := Decode(Slice(file, pos, 4));
            && Walk(file, pos + 4 + size, n - 1)
            && ReadLists(file, pos, n) == [Slice(file, pos + 4, size)] + ReadLists(file, pos + 4 + size, n - 1)
  {
    WalkStaysInside(file, pos, n);
  }

  lemma LookupStep(h: Header, level0: seq<byte>, n: nat, i: nat)
    requires FieldsInSlot(h) && AllFit(level0, h.sizePerElement, n) && i < n
    ensures Fits(level0, h.sizePerElement, i) && AllFit(level0, h.sizePerElement, i)
    ensures AllFit(level0, h.sizePerElement, i + 1)
    ensures LookupOf(h, level0, i + 1) == LookupOf(h, level0, i)[LabelAt(h, level0, i) := i]
    ensures DeletedOf(h, level0, i + 1) == DeletedOf(h, level0, i) + if DeletedAt(h, level0, i) then 1 else 0
  {
    FitsBelow(level0, h.sizePerElement, n, i);
    NextSlot(h.sizePerElement, i);
  }

  lemma LevelsStep(upper: seq<seq<byte>>, b: seq<byte>, sizeLinks: nat)
    requires sizeLinks > 0
    ensures Levels(upper + [b], sizeLinks) == Levels(upper, sizeLinks) + [if |b| == 0 then 0 else |b| / sizeLinks]
  {
  }

  lemma NothingRead(h: Header, level0: seq<byte>)
    requires FieldsInSlot(h)
    ensures AllFit(level0, h.sizePerElement, 0) && LookupOf(h, level0, 0) == map[] && Levels([], h.SizeLinks()) == []
  {
  }

  lemma AllRead(file: seq<byte>, pos: nat)
    requires Walk(file, pos, 0)
    ensures ReadLists(file, pos, 0) == []
  {
  }

  method ReadElements(file: seq<byte>, first: nat, h: Header, level0: seq<byte>)
    returns (levels: seq<nat>, upper: seq<seq<byte>>, lookup: map<nat, nat>)
    requires Walk(file, first, h.count) && FieldsInSlot(h) && AllFit(level0, h.sizePerElement, h.count)
    ensures upper == ReadLists(file, first, h.count) && levels == Levels(upper, h.SizeLinks())
    ensures lookup == LookupOf(h, level0, h.count)
  {
    hide *;
    NothingRead(h, level0);
    var pos: nat, i: nat := first, 0;
    levels, upper, lookup := [], [], map[];
    while i < h.count
      invariant 0 <= i <= h.count && AllFit(level0, h.sizePerElement, i) && lookup == LookupOf(h, level0, i)
      invariant Walk(file, pos, h.count - i)
      invariant upper + ReadLists(file, pos, h.count - i) == ReadLists(file, first, h.count)
      invariant levels == Levels(upper, h.SizeLinks())
    {
      LookupStep(h, level0, h.count, i);
      lookup := lookup[LabelAt(h, level0, i) := i];
      ReadListsStep(file, pos, h.count - i);
      var linkListSize, block := ReadBlock(file, pos);
      LevelsStep(upper, block, h.SizeLinks());
      levels := levels + [if linkListSize == 0 then 0 else linkListSize / h.SizeLinks()];
      upper := upper + [block];
      pos, i := pos + 4 + linkListSize, i + 1;
    }
    AllRead(file, pos);
  }

  method ReadBlock(file: seq<byte>, pos: nat) returns (linkListSize: nat, block: seq<byte>)
    requires pos + 4 <= |file| && pos + 4 + Decode(Slice(file, pos, 4)) <= |file|
    ensures linkListSize == Decode(Slice(file, pos, 4)) && block == Slice(file, pos + 4, linkListSize)
  {
    linkListSize := Decode(Slice(file, pos, 4));
    block := if linkListSize == 0 then [] else Slice(file, pos + 4, linkListSize);
  }

  method CountDeleted(h: Header, level0: seq<byte>) returns (n: nat)
    requires FieldsInSlot(h) && AllFit(level0, h.sizePerElement, h.count)
    ensures n == DeletedOf(h, level0, h.count)
  {
    var i: nat := 0;
    n := 0;
    while i < h.count
      invariant 0 <= i <= h.count && AllFit(level0, h.sizePerElement, i) && n == DeletedOf(h, level0, i)
    {
      FitsBelow(level0, h.sizePerElement, h.count, i);
      if DeletedAt(h, level0, i) {
        n := n + 1;
      }
      i := i + 1;
    }
  }

  method LoadIndex(file: seq<byte>, asked: nat) returns (r: Result)
    ensures r == Load(file, asked)
  {
    hide Header.First, Header.SizeLevel0, Walk, FieldsInSlot, Capacity, LoadBody, ReadHeader, Slice;
    if |file| < HEADER {
      return Refused;
    }
    var h := ReadHeader(file);
    var first := h.First();
    if first < 0 {
      return Refused;
    }
    var ok := WalkSizes(file, first, h.count);
    if !ok {
      return Refused;
    }
    if h.SizeLevel0() >= SIGNED_LIMIT || !FieldsInSlot(h) || Capacity(h, asked) < h.count {
      return Undefined;
    }
    FirstIs(h);
    var x := LoadElements(file, h, asked);
    r := Loaded(x);
  }

  method LoadElements(file: seq<byte>, h: Header, asked: nat) returns (x: Index)
    requires HEADER <= |file| && Walk(file, HEADER + h.SizeLevel0(), h.count) && FieldsInSlot(h)
    ensures x == LoadBody(file, h, asked)
  {
    var first := HEADER + h.SizeLevel0();
    WalkStaysInside(file, first, h.count);
    var level0 := Slice(file, HEADER, h.SizeLevel0());
    var levels, upper, lookup := ReadElements(file, first, h, level0);
    var numDeleted := CountDeleted(h, level0);
    x := Index(h.(maxElements := Capacity(h, asked)), level0, levels, upper, lookup, numDeleted);
  }

  // ---------- The round trip ----------

  /** An index in memory: blocks of the right sizes, and a label table and a counter that agree with the slots. */
  predicate Consistent(x: Index) {
    && FieldsInSlot(x.h) && x.h.count <= x.h.maxElements
    && (forall k :: 0 <= k < 13 ==> Fields(x.h)[k] < Pow256(WIDTHS[k]))
    && |x.level0| == x.h.SizeLevel0() < SIGNED_LIMIT && |x.levels| == |x.upper| == x.h.count
    && (forall i :: 0 <= i < |x.upper| ==> |x.upper[i]| == x.h.SizeLinks() * x.levels[i])
    && x.lookup == LookupOf(x.h, x.level0, x.h.count)
    && x.numDeleted == DeletedOf(x.h, x.level0, x.h.count)
  }

  lemma FirstBlock(file: seq<byte>, pos: nat, size: seq<byte>, b: seq<byte>, rest: seq<byte>, all: seq<byte>)
    requires |size| == 4 && size == Encode(|b|, 4) && |b| < Pow256(4) && pos + 4 + |b| + |rest| <= |file|
    requires |all| == 4 + |b| + |rest| && Slice(file, pos, |all|) == all
    requires Slice(all, 0, 4) == size && Slice(all, 4, |b|) == b && Slice(all, 4 + |b|, |rest|) == rest
    ensures Decode(Slice(file, pos, 4)) == |b| && Slice(file, pos + 4, |b|) == b
    ensures Slice(file, pos + 4 + |b|, |rest|) == rest
  {
    hide *;
    SliceOfSlice(file, pos, |all|, 0, 4);
    SliceOfSlice(file, pos, |all|, 4, |b|);
    SliceOfSlice(file, pos, |all|, 4 + |b|, |rest|);
    DecodeEncodeFits(|b|, 4);
  }

  lemma FourAnd(all: seq<byte>, a: seq<byte>, b: seq<byte>, c: seq<byte>)
    requires |a| == 4 && all == a + b + c
    ensures |all| == 4 + |b| + |c|
    ensures Slice(all, 0, 4) == a && Slice(all, 4, |b|) == b && Slice(all, 4 + |b|, |c|) == c
  {
  }

  function CutAll(upper: seq<seq<byte>>): seq<seq<byte>> {
    seq(|upper|, i requires 0 <= i < |upper| => Cut(upper[i]))
  }

  lemma {:induction false} ListsReadBack(file: seq<byte>, pos: nat, upper: seq<seq<byte>>)
    requires pos + |Lists(upper)| == |file| && Slice(file, pos, |Lists(upper)|) == Lists(upper)
    ensures Walk(file, pos, |upper|) && ReadLists(file, pos, |upper|) == CutAll(upper)
    decreases |upper|
  {
    hide Slice, Encode, Decode, Pow256, Cut;
    if upper != [] {
      FourAnd(Lists(upper), Encode(|Cut(upper[0])|, 4), Cut(upper[0]), Lists(upper[1..]));
      FirstBlock(file, pos, Encode(|Cut(upper[0])|, 4), Cut(upper[0]), Lists(upper[1..]), Lists(upper));
      ListsReadBack(file, pos + 4 + |Cut(upper[0])|, upper[1..]);
      assert CutAll(upper) == [Cut(upper[0])] + CutAll(upper[1..]);
    }
  }

  lemma ExactDivision(s: nat, l: nat)
    requires s > 0
    ensures (s * l) / s == l
  {
    var q := (s * l) / s;
    assert s * l == s * q + (s * l) % s;
    if q < l {
      Multiples(s, q, l);
      assert false;
    } else if q > l {
      Multiples(s, l, q);
      assert false;
    }
  }

  lemma HeaderReadBack(x: Index)
    requires forall k :: 0 <= k < 13 ==> Fields(x.h)[k] < Pow256(WIDTHS[k])
    ensures |Save(x)| >= HEADER && ReadHeader(Save(x)) == x.h
  {
    hide WriteAll, ReadAll, Total, Slice, Lists, Pow256;
    TotalIsHeader();
    SliceOfThree(WriteAll(Fields(x.h), WIDTHS), x.level0, Lists(x.upper));
    ReadWritten(Save(x), 0, Fields(x.h), WIDTHS);
  }

  /** Every file that was saved is accepted. */
  lemma SavedIsLoaded(x: Index, asked: nat)
    requires Consistent(x)
    ensures Load(Save(x), asked)
         == Loaded(x.(h := x.h.(maxElements := Capacity(x.h, asked)), upper := CutAll(x.upper),
                      levels := Levels(CutAll(x.upper), x.h.SizeLinks())))
  {
    hide WriteAll, ReadHeader, Fields, Walk, FieldsInSlot, Lists, LookupOf, DeletedOf, Levels, CutAll, ReadLists, Cut;
    hide Total, Slice, Pow256;
    TotalIsHeader();
    HeaderReadBack(x);
    var header := WriteAll(Fields(x.h), WIDTHS);
    SliceOfThree(header, x.level0, Lists(x.upper));
    ListsReadBack(Save(x), HEADER + x.h.SizeLevel0(), x.upper);
    FirstIs(x.h);
  }

  /** A load may ask for more room than was saved, and for no less than the elements need. */
  lemma CapacityIsAsked(x: Index, asked: nat)
    requires Consistent(x)
    ensures Load(Save(x), asked).Loaded?
    ensures Load(Save(x), asked).x.h.maxElements == if asked >= x.h.count then asked else x.h.maxElements
  {
    hide Load, Save;
    SavedIsLoaded(x, asked);
  }

  lemma LevelsComeBack(x: Index)
    requires Consistent(x)
    ensures Levels(x.upper, x.h.SizeLinks()) == x.levels
  {
    forall i | 0 <= i < |x.upper|
      ensures Levels(x.upper, x.h.SizeLinks())[i] == x.levels[i]
    {
      ExactDivision(x.h.SizeLinks(), x.levels[i]);
    }
  }

  lemma CutAllIs(upper: seq<seq<byte>>)
    ensures CutAll(upper) == upper <==> forall i :: 0 <= i < |upper| ==> |upper[i]| < Pow256(4)
  {
    hide Pow256;
    if i :| 0 <= i < |upper| && |upper[i]| >= Pow256(4) {
      assert CutAll(upper)[i] == Cut(upper[i]);
    } else {
      assert CutAll(upper) == upper;
    }
  }

  /** Loading what was saved gives the index back (header, vectors, links, labels and tombstones byte by byte,
      every level by exact division, the label table and the number of tombstones) if and only if the size of
      every block above level 0 fits the 32 bits it is saved in. */
  lemma LoadSave(x: Index, asked: nat)
    requires Consistent(x)
    ensures Load(Save(x), asked) == Loaded(x.(h := x.h.(maxElements := Capacity(x.h, asked))))
       <==> forall i :: 0 <= i < |x.upper| ==> |x.upper[i]| < Pow256(4)
  {
    SavedIsLoaded(x, asked);
    LevelsComeBack(x);
    CutAllIs(x.upper);
    hide *;
  }

  /** Lists of at most 32767 links, which their 16-bit count allows on level 0, and no more than 32767 levels: then
      the index always comes back. */
  lemma SmallIndexComesBack(x: Index, asked: nat)
    requires Consistent(x) && 2 * x.h.maxM < 65536 && forall i :: 0 <= i < |x.levels| ==> x.levels[i] < 32768
    ensures Load(Save(x), asked) == Loaded(x.(h := x.h.(maxElements := Capacity(x.h, asked))))
  {
    hide Load, Save, Capacity;
    SizesFitFourBytes();
    forall i | 0 <= i < |x.upper|
      ensures |x.upper[i]| < Pow256(4)
    {
      SmallProduct(x.h.SizeLinks(), x.levels[i]);
    }
    LoadSave(x, asked);
  }

  lemma SizesFitFourBytes()
    ensures Pow256(4) == 0x1_0000_0000
  {
    assert Pow256(2) == 256 * Pow256(1) && Pow256(1) == 256 * Pow256(0);
  }

  lemma SmallProduct(a: nat, b: nat)
    requires a <= 131072 && b <= 32767
    ensures a * b < 0x1_0000_0000
  {
    assert a * b <= 131072 * b;
  }

  /** With one level more its block has 0 bytes in the file, and the element comes back without upper levels. */
  lemma HighElementIsCut(x: Index, asked: nat)
    requires Consistent(x) && x.h.maxM == 32767 && x.levels == [32768]
    ensures Load(Save(x), asked).Loaded? && Load(Save(x), asked).x.levels == [0]
  {
    hide Load, Save, Capacity, Pow256, Consistent;
    OneBlock(x);
    SavedIsLoaded(x, asked);
  }

  lemma OneBlock(x: Index)
    requires Consistent(x) && x.h.maxM == 32767 && x.levels == [32768]
    ensures Levels(CutAll(x.upper), x.h.SizeLinks()) == [0]
  {
    SizesFitFourBytes();
    assert |x.upper[0]| == 131072 * 32768 == Pow256(4);
    assert Pow256(4) % Pow256(4) == 0;
    assert Cut(x.upper[0]) == [];
  }

  /** The label table that is rebuilt is the inverse of the labels in the slots, when they are distinct. */
  lemma {:induction false} LookupIsInverse(h: Header, level0: seq<byte>, n: nat)
    requires FieldsInSlot(h) && AllFit(level0, h.sizePerElement, n)
    requires forall i :: 0 <= i < n ==> Fits(level0, h.sizePerElement, i)
    requires forall i, j :: 0 <= i < j < n ==> LabelAt(h, level0, i) != LabelAt(h, level0, j)
    ensures forall i :: 0 <= i < n ==>
              LabelAt(h, level0, i) in LookupOf(h, level0, n) && LookupOf(h, level0, n)[LabelAt(h, level0, i)] == i
    ensures forall k :: k in LookupOf(h, level0, n) ==>
              LookupOf(h, level0, n)[k] < n && LabelAt(h, level0, LookupOf(h, level0, n)[k]) == k
    decreases n
  {
    if n > 0 {
      NextSlot(h.sizePerElement, n - 1);
      LookupIsInverse(h, level0, n - 1);
    }
  }
}
