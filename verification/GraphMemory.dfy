/**
 The graph as it lies in memory: one block with the slots of level 0, and one block for each element with its
 lists above level 0. Each write in place is proved to be the change of the graph it stands for.
 */
module GraphMemory {
  import opened Space
  import opened Bytes
  import opened ByteLayout
  import opened Graph
  import opened Insertion
  import opened Updating
  import opened HnswIndex
  import IndexFile

  /** The links a list names: as many as its count says. */
  function Stored(k: Links): seq<Id> {
    if k.count <= |k.ids| then k.ids[..k.count] else k.ids
  }

  /** Vector and label of a slot depend on what stands behind its list only. */
  lemma TailDetermines(l: Layout, s: seq<byte>, t: seq<byte>)
    requires |s| == |t| == l.SizePerElement() && s[l.SizeLinks0()..] == t[l.SizeLinks0()..]
    ensures RecordOf(l, s).data == RecordOf(l, t).data && RecordOf(l, s).externalLabel == RecordOf(l, t).externalLabel
  {
    hide LinksOf, Decode;
    var n := l.SizeLinks0();
    SliceOfSlice(s, n, l.dataSize + 8, 0, l.dataSize);
    SliceOfSlice(t, n, l.dataSize + 8, 0, l.dataSize);
    SliceOfSlice(s, n, l.dataSize + 8, l.dataSize, 8);
    SliceOfSlice(t, n, l.dataSize + 8, l.dataSize, 8);
    assert Slice(s, n, l.dataSize + 8) == s[n..] == t[n..] == Slice(t, n, l.dataSize + 8);
  }

  /** From `es` to `fs` only the lists of `cur` and of its neighbours on one layer are written. */
  ghost predicate LayerWritten(es: Elements, fs: Elements, cur: Id, m: nat)
    requires HasLayer(es, cur, m)
  {
    && SameData(es, fs) && SameOffLayer(es, fs, m)
    && forall j :: 0 <= j < |es| && j != cur && j !in fs[cur].links[m] ==> fs[j] == es[j]
  }

  /** An element's new list on one layer is all that is new of it. */
  lemma ListIsAll(es: Elements, fs: Elements, j: Id, m: nat)
    requires HasLayer(es, j, m) && SameData(es, fs) && SameOffLayer(es, fs, m)
    ensures SetList(es, j, m, fs[j].links[m])[j] == fs[j]
  {
    assert forall k :: HasLayer(es, j, k) && k != m ==> fs[j].links[k] == es[j].links[k];
    assert es[j].links[m := fs[j].links[m]] == fs[j].links;
  }

  lemma SameLayers(es: Elements, fs: Elements, cur: Id, m: nat)
    requires HasLayer(es, cur, m) && LayerWritten(es, fs, cur, m)
    ensures |fs| == |es| && HasLayer(fs, cur, m)
  {
  }

  /** The lists of `cur` and of those in `done` are written. */
  ghost function Partly(es: Elements, fs: Elements, cur: Id, done: seq<Id>): (hs: Elements)
    requires |es| == |fs|
    ensures |hs| == |es|
  {
    seq(|es|, j requires 0 <= j < |es| => if j == cur || j in done then fs[j] else es[j])
  }

  lemma FirstList(es: Elements, fs: Elements, cur: Id, m: nat)
    requires HasLayer(es, cur, m) && LayerWritten(es, fs, cur, m)
    ensures SetList(es, cur, m, fs[cur].links[m]) == Partly(es, fs, cur, [])
  {
    ListIsAll(es, fs, cur, m);
  }

  lemma NextList(es: Elements, fs: Elements, M: nat, cur: Id, m: nat, done: seq<Id>, n: Id)
    requires HasLayer(es, cur, m) && LayerWritten(es, fs, cur, m) && WellFormed(fs, M) && n in fs[cur].links[m]
    ensures HasLayer(Partly(es, fs, cur, done), n, m) && HasLayer(fs, n, m)
    ensures GoodList(fs, M, n, m, fs[n].links[m])
    ensures SetList(Partly(es, fs, cur, done), n, m, fs[n].links[m]) == Partly(es, fs, cur, done + [n])
  {
    assert HasLayer(fs, cur, m) && GoodList(fs, M, cur, m, fs[cur].links[m]);
    ListIsAll(es, fs, n, m);
    ListIsAll(fs, fs, n, m);
  }

  lemma LastList(es: Elements, fs: Elements, cur: Id, m: nat)
    requires HasLayer(es, cur, m) && LayerWritten(es, fs, cur, m)
    ensures Partly(es, fs, cur, fs[cur].links[m]) == fs
  {
  }

  lemma LayerDoneWrites(t: LayerTrace, p: Params, entry: Id, cur: Id, q: Vector, m: nat)
    requires LayerDone(t, p, entry, cur, q, m)
    ensures WellFormed(t.before, p.M) && HasLayer(t.before, cur, m) && LayerWritten(t.before, t.after, cur, m)
  {
  }

  lemma StepWrites(es: Elements, fs: Elements, p: Params, entry: int, maxLevel: int, a: Label, v: Vector, level: nat,
                   steps: seq<LayerTrace>, k: nat)
    requires WellFormed(es, p.M) && EntryOk(es, entry, maxLevel) && WellFormed(fs, p.M) && k < |steps|
    requires Inserted(es, fs, p, entry, maxLevel, a, v, level, steps)
    ensures steps[k].before == if k == 0 then es + [Blank(a, v, level)] else steps[k - 1].after
    ensures |steps| - 1 - k <= level && WellFormed(steps[k].after, p.M)
    ensures HasLayer(steps[k].before, |es|, |steps| - 1 - k)
    ensures LayerWritten(steps[k].before, steps[k].after, |es|, |steps| - 1 - k)
  {
    hide LayerDone, WellFormed, LayerWritten;
    var top := if level < maxLevel then level else maxLevel;
    LayerDoneWrites(steps[k], p, entry, |es|, v, top - k);
    if k + 1 < |steps| {
      LayerDoneWrites(steps[k + 1], p, entry, |es|, v, top - k - 1);
    }
  }

  lemma LastStep(es: Elements, fs: Elements, p: Params, entry: int, maxLevel: int, a: Label, v: Vector, level: nat,
                 steps: seq<LayerTrace>)
    requires WellFormed(es, p.M) && EntryOk(es, entry, maxLevel)
    requires Inserted(es, fs, p, entry, maxLevel, a, v, level, steps)
    ensures |steps| <= level + 1
    ensures fs == if steps == [] then es + [Blank(a, v, level)] else steps[|steps| - 1].after
  {
  }

  class IndexMemory {
    const l: Layout
    const M: nat
    const capacity: nat
    const decode: seq<byte> -> Vector
    const level0: Block
    var upper: seq<Block>

    /** The blocks have the sizes of the layout, and no two of them share memory. */
    predicate Shape()
      reads this
    {
      && l.maxM0 == 2 * M < 65536 && l.maxM == M && capacity <= Pow256(4)
      && level0.Valid() && level0.size == l.SizePerElement() && level0.max == l.maxM0 && level0.slots == capacity
      && |upper| <= capacity
      && (forall i :: 0 <= i < |upper| ==>
            upper[i].Valid() && upper[i].size == l.SizeLinks() && upper[i].max == l.maxM)
      && (forall i :: 0 <= i < |upper| ==> upper[i].memory != level0.memory)
      && (forall i, j :: 0 <= i < j < |upper| ==> upper[i].memory != upper[j].memory)
    }

    ghost function Arrays(): set<object>
      reads this
    {
      {level0.memory} + set i | 0 <= i < |upper| :: upper[i].memory
    }

    ghost predicate DataShown(e: Element, s: seq<byte>)
      requires |s| == l.SizePerElement()
    {
      var r := RecordOf(l, s);
      e.externalLabel == r.externalLabel && e.vector == decode(r.data)
    }

    ghost predicate UpperShown(e: Element, i: nat)
      reads this, upper[i].memory
      requires Shape() && i < |upper|
    {
      && |e.links| == upper[i].slots + 1
      && forall m :: 0 < m < |e.links| ==> e.links[m] == Stored(upper[i].ListAt(m - 1))
    }

    /** Element `i` of the graph is what the bytes say. */
    ghost predicate ElementShown(e: Element, i: nat)
      reads this, level0.memory, upper[i].memory
      requires Shape() && i < |upper|
    {
      && DataShown(e, level0.SlotAt(i)) && UpperShown(e, i)
      && e.deleted == level0.ListAt(i).mark && e.links[0] == Stored(level0.ListAt(i))
    }

    ghost predicate Shows(es: Elements)
      reads this, Arrays()
      requires Shape()
    {
      |es| == |upper| && forall i :: 0 <= i < |es| ==> ElementShown(es[i], i)
    }

    /** The memory holds the bytes of an index as it is saved and loaded. */
    ghost predicate Holds(x: IndexFile.Index)
      reads this, Arrays()
      requires Shape()
    {
      && |upper| == |x.upper| && |x.level0| == |upper| * level0.size && level0.memory[..|x.level0|] == x.level0
      && forall i :: 0 <= i < |upper| ==> upper[i].memory[..] == x.upper[i]
    }

    constructor (l: Layout, M: nat, capacity: nat, decode: seq<byte> -> Vector)
      requires l.maxM0 == 2 * M < 65536 && l.maxM == M && capacity <= Pow256(4)
      ensures Shape() && Shows([]) && fresh(Arrays())
      ensures this.l == l && this.M == M && this.capacity == capacity && this.decode == decode
    {
      this.l, this.M, this.capacity, this.decode := l, M, capacity, decode;
      level0 := new Block(l.SizePerElement(), l.maxM0, capacity);
      upper := [];
    }

    /** Writing a neighbour list is `Graph.SetList`, and the lists that are still to be written stay so. */
    method SetNeighbours(i: Id, m: nat, ids: seq<Id>, ghost es: Elements, ghost firstTime: bool)
      requires Shape() && Shows(es) && HasLayer(es, i, m)
      requires |ids| <= Cap(M, m) && forall k :: 0 <= k < |ids| ==> ids[k] < |es|
      requires firstTime ==> BlankAt(i, m)
      modifies if m == 0 then level0.memory else upper[i].memory
      ensures Shows(SetList(es, i, m, ids))
      ensures forall j: nat, k: nat :: j < |upper| && k <= upper[j].slots && (j != i || k != m) ==>
                BlankAt(j, k) == old(BlankAt(j, k))
    {
      ghost var fs := SetList(es, i, m, ids);
      if m == 0 {
        SetLowest(i, ids, es, firstTime);
      } else {
        SetUpper(i, m, ids, es, firstTime);
      }
    }

    /** The list of the element on that layer has not been written yet. */
    ghost predicate BlankAt(i: nat, m: nat)
      reads this, Arrays()
      requires Shape() && i < |upper| && m <= upper[i].slots
    {
      if m == 0 then IsBlank(level0.SlotAt(i), l.maxM0) else IsBlank(upper[i].SlotAt(m - 1), l.maxM)
    }

    method SetLowest(i: Id, ids: seq<Id>, ghost es: Elements, ghost firstTime: bool)
      requires Shape() && Shows(es) && HasLayer(es, i, 0)
      requires |ids| <= Cap(M, 0) && forall k :: 0 <= k < |ids| ==> ids[k] < |es|
      requires firstTime ==> BlankAt(i, 0)
      modifies level0.memory
      ensures Shows(SetList(es, i, 0, ids))
      ensures forall j: nat, k: nat :: j < |upper| && k <= upper[j].slots && (j != i || k != 0) ==>
                BlankAt(j, k) == old(BlankAt(j, k))
    {
      ghost var fs, s := SetList(es, i, 0, ids), level0.SlotAt(i);
      level0.WriteList(i, ids, firstTime);
      TailDetermines(l, s, level0.SlotAt(i));
      assert ElementShown(fs[i], i);
      forall j | 0 <= j < |es| && j != i
        ensures ElementShown(fs[j], j)
      {
        assert ElementShown(es[j], j);
      }
    }

    method SetUpper(i: Id, m: nat, ids: seq<Id>, ghost es: Elements, ghost firstTime: bool)
      requires Shape() && Shows(es) && HasLayer(es, i, m) && m > 0
      requires |ids| <= Cap(M, m) && forall k :: 0 <= k < |ids| ==> ids[k] < |es|
      requires firstTime ==> BlankAt(i, m)
      modifies upper[i].memory
      ensures Shows(SetList(es, i, m, ids))
      ensures forall j: nat, k: nat :: j < |upper| && k <= upper[j].slots && (j != i || k != m) ==>
                BlankAt(j, k) == old(BlankAt(j, k))
    {
      ghost var fs := SetList(es, i, m, ids);
      upper[i].WriteList(m - 1, ids, firstTime);
      assert ElementShown(fs[i], i);
      forall j | 0 <= j < |es| && j != i
        ensures ElementShown(fs[j], j)
      {
        assert ElementShown(es[j], j);
      }
    }

    /** Setting or clearing the tombstone is `HnswIndex.SetDeleted`. */
    method SetTombstone(i: Id, on: bool, ghost es: Elements)
      requires Shape() && Shows(es) && i < |es|
      modifies level0.memory
      ensures Shows(SetDeleted(es, i, on))
    {
      ghost var fs, s := SetDeleted(es, i, on), level0.SlotAt(i);
      level0.SetMark(i, on);
      TailDetermines(l, s, level0.SlotAt(i));
      assert ElementShown(fs[i], i);
      forall j | 0 <= j < |es| && j != i
        ensures ElementShown(fs[j], j)
      {
        assert ElementShown(es[j], j);
      }
    }

    /** Overwriting the vector is `Updating.Move`. */
    method SetVector(i: Id, data: seq<byte>, ghost es: Elements)
      requires Shape() && Shows(es) && i < |es| && |data| == l.dataSize
      modifies level0.memory
      ensures Shows(Move(es, i, decode(data)))
    {
      ghost var fs, s := Move(es, i, decode(data)), level0.SlotAt(i);
      level0.WriteField(i, l.OffsetData(), data);
      WriteData(l, s, data);
      assert ElementShown(fs[i], i);
      forall j | 0 <= j < |es| && j != i
        ensures ElementShown(fs[j], j)
      {
        assert ElementShown(es[j], j);
      }
    }

    /** A block for the layers above level 0, with all its lists blank. */
    method BlankBlock(level: nat) returns (b: Block)
      ensures b.Valid() && b.size == l.SizeLinks() && b.max == l.maxM && b.slots == level && fresh(b.memory)
      ensures forall j :: 0 <= j < level ==> IsBlank(b.SlotAt(j), b.max)
    {
      b := new Block(l.SizeLinks(), l.maxM, level);
      for k := 0 to level
        invariant forall j :: 0 <= j < k ==> IsBlank(b.SlotAt(j), b.max)
      {
        b.Clear(k);
      }
    }

    /** A slot of level 0 is cleared, and gets its label and its vector. */
    method InitSlot(i: nat, a: Label, data: seq<byte>)
      requires Shape() && i < capacity && a < Pow256(8) && |data| == l.dataSize
      modifies level0.memory
      ensures IsBlank(level0.SlotAt(i), l.maxM0)
      ensures RecordOf(l, level0.SlotAt(i)).externalLabel == a && RecordOf(l, level0.SlotAt(i)).data == data
      ensures forall j :: 0 <= j < capacity && j != i ==> level0.SlotAt(j) == old(level0.SlotAt(j))
    {
      level0.Clear(i);
      ghost var s := level0.SlotAt(i);
      level0.WriteField(i, l.LabelOffset(), Encode(a, 8));
      BlankStays(s, l.maxM0, l.LabelOffset(), Encode(a, 8));
      WriteLabel(l, s, a);
      ghost var t := level0.SlotAt(i);
      level0.WriteField(i, l.OffsetData(), data);
      BlankStays(t, l.maxM0, l.OffsetData(), data);
      WriteData(l, t, data);
    }

    /** A new element is `Insertion.Blank`: no links, no tombstone, and every list still to be written. */
    method Append(a: Label, data: seq<byte>, level: nat, ghost es: Elements)
      requires Shape() && Shows(es) && |es| < capacity && a < Pow256(8) && |data| == l.dataSize
      modifies this`upper, level0.memory
      ensures Shape() && |upper| == |old(upper)| + 1 && upper[..|old(upper)|] == old(upper)
      ensures fresh(upper[|old(upper)|].memory) && upper[|old(upper)|].slots == level
      ensures Shows(es + [Blank(a, decode(data), level)])
      ensures forall m :: 0 <= m <= level ==> BlankAt(|es|, m)
    {
      ghost var n, fs := |es|, es + [Blank(a, decode(data), level)];
      var b := BlankBlock(level);
      InitSlot(|upper|, a, data);
      upper := upper + [b];
      BlankIsShown(fs[n], n);
      forall j | 0 <= j < n
        ensures ElementShown(fs[j], j)
      {
        assert ElementShown(es[j], j);
      }
    }

    lemma ShownSizes(es: Elements)
      requires Shape() && Shows(es)
      ensures |es| == |upper|
      ensures forall i, m :: HasLayer(es, i, m) ==> m <= upper[i].slots
    {
      forall i, m | HasLayer(es, i, m)
        ensures m <= upper[i].slots
      {
        assert ElementShown(es[i], i);
      }
    }

    /** One layer of an insertion: the new element's own list, which is blank until then, and after it the lists
        of its neighbours. */
    method WriteLayer(cur: Id, m: nat, fs: Elements, ghost es: Elements)
      requires Shape() && Shows(es) && HasLayer(es, cur, m) && LayerWritten(es, fs, cur, m) && WellFormed(fs, M)
      requires cur < |upper| && m <= upper[cur].slots && BlankAt(cur, m)
      modifies Arrays()
      ensures Shows(fs)
      ensures forall j: nat, k: nat :: j < |upper| && k <= upper[j].slots && k != m ==>
                BlankAt(j, k) == old(BlankAt(j, k))
    {
      hide Shape, Shows, BlankAt, Partly, WellFormed, GoodList, LayerWritten, SetList;
      SameLayers(es, fs, cur, m);
      var list := fs[cur].links[m];
      GoodIs(fs, cur, m);
      SetNeighbours(cur, m, list, es, true);
      FirstList(es, fs, cur, m);
      assert list[..0] == [];
      for i := 0 to |list|
        invariant Shape() && Shows(Partly(es, fs, cur, list[..i]))
        invariant forall j: nat, k: nat :: j < |upper| && k <= upper[j].slots && k != m ==>
                    BlankAt(j, k) == old(BlankAt(j, k))
      {
        var n := list[i];
        NextList(es, fs, M, cur, m, list[..i], n);
        GoodIs(fs, n, m);
        ShownSizes(Partly(es, fs, cur, list[..i]));
        SetNeighbours(n, m, fs[n].links[m], Partly(es, fs, cur, list[..i]), false);
        assert list[..i + 1] == list[..i] + [n];
      }
      assert list[..|list|] == list;
      LastList(es, fs, cur, m);
    }

    lemma GoodIs(fs: Elements, i: Id, m: nat)
      requires WellFormed(fs, M) && HasLayer(fs, i, m)
      ensures |fs[i].links[m]| <= Cap(M, m) && forall k :: 0 <= k < |fs[i].links[m]| ==> fs[i].links[m][k] < |fs|
    {
      assert GoodList(fs, M, i, m, fs[i].links[m]);
    }

    /** An insertion in memory: the element is appended with all its lists blank, and layer by layer, from the top,
        its own list is written for the first time, then those of its neighbours. */
    method WriteInsertion(a: Label, data: seq<byte>, level: nat, steps: seq<LayerTrace>, ghost es: Elements,
                          ghost fs: Elements, ghost p: Params, ghost entry: int, ghost maxLevel: int)
      requires Shape() && Shows(es) && |es| < capacity && a < Pow256(8) && |data| == l.dataSize
      requires p.M == M && WellFormed(es, M) && EntryOk(es, entry, maxLevel) && WellFormed(fs, M)
      requires Inserted(es, fs, p, entry, maxLevel, a, decode(data), level, steps)
      modifies this`upper, Arrays()
      ensures Shape() && Shows(fs)
    {
      hide Shape, Shows, BlankAt, WellFormed, Inserted, LayerWritten, EntryOk, Blank;
      ghost var grown := es + [Blank(a, decode(data), level)];
      ghost var gs := grown;
      ShownSizes(es);
      LastStep(es, fs, p, entry, maxLevel, a, decode(data), level, steps);
      var cur := |upper|;
      Append(a, data, level, es);
      for k := 0 to |steps|
        invariant Shape() && Shows(gs) && cur < |upper| && upper[cur].slots == level
        invariant gs == if k == 0 then grown else steps[k - 1].after
        invariant forall m: nat :: m <= level && m < |steps| - k ==> BlankAt(cur, m)
        invariant fresh(upper[cur].memory)
        invariant forall i :: 0 <= i < |upper| && i != cur ==> upper[i].memory in old(Arrays())
      {
        StepWrites(es, fs, p, entry, maxLevel, a, decode(data), level, steps, k);
        WriteLayer(cur, |steps| - 1 - k, steps[k].after, gs);
        gs := steps[k].after;
      }
    }

    lemma BlankIsShown(e: Element, i: nat)
      requires Shape() && i < |upper| && DataShown(e, level0.SlotAt(i)) && !e.deleted && |e.links| == upper[i].slots + 1
      requires forall m :: 0 <= m < |e.links| ==> e.links[m] == [] && BlankAt(i, m)
      ensures ElementShown(e, i)
    {
      hide DataShown;
      assert BlankAt(i, 0) && e.links[0] == [];
      BlankReadsZero(level0.SlotAt(i), l.maxM0);
      forall m | 0 < m < |e.links|
        ensures e.links[m] == Stored(upper[i].ListAt(m - 1))
      {
        BlankUpper(e, i, m);
      }
    }

    lemma BlankUpper(e: Element, i: nat, m: nat)
      requires Shape() && i < |upper| && 0 < m <= upper[i].slots && |e.links| == upper[i].slots + 1
      requires e.links[m] == [] && BlankAt(i, m)
      ensures e.links[m] == Stored(upper[i].ListAt(m - 1))
    {
      BlankReadsZero(upper[i].SlotAt(m - 1), l.maxM);
    }
  }

  /** The bytes below the last slot in use fix every slot in use. */
  lemma SlotOfPrefix(mem: seq<byte>, prefix: seq<byte>, size: nat, n: nat, i: nat)
    requires i < n && |prefix| == n * size && prefix <= mem
    ensures Fits(mem, size, i) && Fits(prefix, size, i) && Slot(mem, size, i) == Slot(prefix, size, i)
  {
    SlotsAreDisjoint(size, i, n);
    NextSlot(size, i);
  }

  lemma SameSlot(m: IndexMemory, n: IndexMemory, x: IndexFile.Index, i: nat)
    requires m.Shape() && n.Shape() && m.l == n.l && m.Holds(x) && n.Holds(x) && i < |m.upper|
    ensures i < |n.upper| && n.level0.SlotAt(i) == m.level0.SlotAt(i)
  {
    var a, b := m.level0.memory[..], n.level0.memory[..];
    assert a[..|x.level0|] == x.level0 && b[..|x.level0|] == x.level0;
    SlotOfPrefix(a, x.level0, m.level0.size, |m.upper|, i);
    SlotOfPrefix(b, x.level0, m.level0.size, |m.upper|, i);
  }

  lemma SameBlock(b: Block, c: Block, j: nat)
    requires b.Valid() && c.Valid() && b.size == c.size && b.slots == c.slots && j < b.slots
    requires b.memory[..] == c.memory[..]
    ensures b.SlotAt(j) == c.SlotAt(j)
  {
  }

  /** Memories of the same layout that hold the same bytes show the same graph. */
  lemma SameBytesSameGraph(m: IndexMemory, n: IndexMemory, x: IndexFile.Index, es: Elements)
    requires m.Shape() && n.Shape() && m.l == n.l && m.decode == n.decode
    requires m.Holds(x) && n.Holds(x) && m.Shows(es)
    requires forall i :: 0 <= i < |n.upper| && i < |m.upper| ==> n.upper[i].slots == m.upper[i].slots
    ensures n.Shows(es)
  {
    hide Block.SlotAt, IndexMemory.Arrays, LinksOf, RecordOf;
    forall i | 0 <= i < |es|
      ensures n.ElementShown(es[i], i)
    {
      assert m.ElementShown(es[i], i);
      SameSlot(m, n, x, i);
      forall j | 0 <= j < m.upper[i].slots
        ensures n.upper[i].SlotAt(j) == m.upper[i].SlotAt(j)
      {
        SameBlock(n.upper[i], m.upper[i], j);
      }
    }
  }

  /** An index that is saved and loaded comes back as the same graph: with lists of at most 32767 links and fewer
      than 32768 levels, memory that holds what was loaded shows what the saved one showed. */
  lemma FileKeepsGraph(m: IndexMemory, n: IndexMemory, x: IndexFile.Index, asked: nat, es: Elements)
    requires m.Shape() && n.Shape() && m.l == n.l && m.decode == n.decode && m.Shows(es)
    requires IndexFile.Consistent(x) && x.h.maxM == m.l.maxM && m.Holds(x)
    requires forall i :: 0 <= i < |x.levels| && i < |m.upper| ==> x.levels[i] == m.upper[i].slots < 32768
    ensures IndexFile.Load(IndexFile.Save(x), asked).Loaded?
    ensures var y := IndexFile.Load(IndexFile.Save(x), asked).x;
            n.Holds(y) && (forall i :: 0 <= i < |y.levels| && i < |n.upper| ==> y.levels[i] == n.upper[i].slots) ==>
              n.Shows(es)
  {
    hide IndexFile.Load, IndexFile.Save, IndexMemory.Shows;
    IndexFile.SmallIndexComesBack(x, asked);
    var y := IndexFile.Load(IndexFile.Save(x), asked).x;
    assert y.level0 == x.level0 && y.upper == x.upper && y.levels == x.levels;
    if n.Holds(y) && (forall i :: 0 <= i < |y.levels| && i < |n.upper| ==> y.levels[i] == n.upper[i].slots) {
      assert n.Holds(x);
      SameBytesSameGraph(m, n, x, es);
    }
  }

  /** The number of tombstones and the label table that a load computes are those of the graph. */
  lemma LoadedTablesAreOfGraph(m: IndexMemory, x: IndexFile.Index, es: Elements)
    requires m.Shape() && m.Shows(es) && m.Holds(x) && IndexFile.Consistent(x) && IndexFile.Describes(x.h, m.l)
    ensures x.numDeleted == |Tombstones(es)|
    ensures (forall i, j :: 0 <= i < j < |es| ==> es[i].externalLabel != es[j].externalLabel) ==>
              LookupOk(es, x.lookup)
  {
    hide IndexFile.LookupOf, IndexFile.DeletedOf, LinksOf, Decode, IndexFile.LabelAt, IndexFile.DeletedAt, RecordOf;
    var n, size := |es|, x.h.sizePerElement;
    forall i | 0 <= i < n
      ensures IndexFile.FieldsInSlot(x.h) && Fits(x.level0, size, i)
      ensures IndexFile.LabelAt(x.h, x.level0, i) == es[i].externalLabel
      ensures IndexFile.DeletedAt(x.h, x.level0, i) <==> es[i].deleted
    {
      assert m.ElementShown(es[i], i);
      ElementInFile(m, x, es, i);
    }
    IndexFile.DeletedAreCounted(x.h, x.level0, n);
    assert IndexFile.DeletedSlots(x.h, x.level0, n) == Tombstones(es);
    if forall i, j :: 0 <= i < j < n ==> es[i].externalLabel != es[j].externalLabel {
      IndexFile.LookupIsInverse(x.h, x.level0, n);
    }
  }

  lemma SlotInFile(m: IndexMemory, x: IndexFile.Index, i: nat)
    requires m.Shape() && m.Holds(x) && i < |m.upper|
    ensures Fits(x.level0, m.level0.size, i) && Slot(x.level0, m.level0.size, i) == m.level0.SlotAt(i)
  {
    var mem := m.level0.memory[..];
    assert mem[..|x.level0|] == x.level0;
    SlotOfPrefix(mem, x.level0, m.level0.size, |m.upper|, i);
  }

  lemma ElementInFile(m: IndexMemory, x: IndexFile.Index, es: Elements, i: nat)
    requires m.Shape() && m.Shows(es) && m.Holds(x) && IndexFile.Describes(x.h, m.l) && i < |es|
    ensures IndexFile.FieldsInSlot(x.h) && Fits(x.level0, x.h.sizePerElement, i)
    ensures IndexFile.LabelAt(x.h, x.level0, i) == es[i].externalLabel
    ensures IndexFile.DeletedAt(x.h, x.level0, i) <==> es[i].deleted
  {
    hide LinksOf, RecordOf, IndexFile.LabelAt, IndexFile.DeletedAt, IndexMemory.UpperShown;
    assert m.ElementShown(es[i], i);
    SlotInFile(m, x, i);
    IndexFile.SlotFields(x.h, m.l, x.level0, i);
  }
}
