/** The first-fit allocator: descriptors on a free, a used and a fresh list, and the heap top.
    Free and used blocks tile the heap: every address below the top belongs to exactly one. */
module TinyAlloc {
  import opened Lists

  datatype Block = Block(addr: nat, size: nat)

  function End(b: Block): nat { b.addr + b.size }

  predicate Holds(b: Block, x: int) { b.addr <= x < End(b) }

  /** How many of the blocks contain address `x`. */
  ghost function Count(s: seq<Block>, x: int): nat {
    if s == [] then 0 else (if Holds(s[0], x) then 1 else 0) + Count(s[1..], x)
  }

  lemma {:induction false} CountConcat(s: seq<Block>, t: seq<Block>, x: int)
    ensures Count(s + t, x) == Count(s, x) + Count(t, x)
  {
    if s == [] {
      assert s + t == t;
    } else {
      assert (s + t)[1..] == s[1..] + t;
      CountConcat(s[1..], t, x);
    }
  }

  lemma CountInsert(s: seq<Block>, k: nat, b: Block, x: int)
    requires k <= |s|
    ensures Count(InsertAt(s, k, b), x) == Count(s, x) + if Holds(b, x) then 1 else 0
  {
    assert s == s[..k] + s[k..];
    CountConcat(s[..k], s[k..], x);
    CountConcat(s[..k] + [b], s[k..], x);
    CountConcat(s[..k], [b], x);
  }

  lemma CountCut(s: seq<Block>, k: nat, x: int)
    requires k < |s|
    ensures Count(s[..k] + s[k + 1..], x) == Count(s, x) - if Holds(s[k], x) then 1 else 0
  {
    var t := s[..k] + s[k + 1..];
    assert InsertAt(t, k, s[k]) == s;
    CountInsert(t, k, s[k], x);
  }

  lemma CountMember(s: seq<Block>, i: nat, x: int)
    requires i < |s| && Holds(s[i], x)
    ensures Count(s, x) >= 1
  {
    CountCut(s, i, x);
  }

  lemma {:induction false} CountFinds(s: seq<Block>, x: int) returns (i: nat)
    requires Count(s, x) > 0
    ensures i < |s| && Holds(s[i], x)
  {
    if Holds(s[0], x) {
      i := 0;
    } else {
      i := CountFinds(s[1..], x);
      i := i + 1;
    }
  }

  lemma CountTail(s: seq<Block>, x: int)
    requires s != []
    ensures Count(s, x) == (if Holds(s[0], x) then 1 else 0) + Count(s[1..], x)
  {
  }

  /** Free and used blocks tile `[start, top)` exactly. */
  ghost predicate Tiles(free: seq<Block>, used: seq<Block>, start: nat, top: nat) {
    forall x: int {:trigger Count(free, x)} :: Count(free, x) + Count(used, x) == if start <= x < top then 1 else 0
  }

  /** Multiples of the alignment, counted from the heap start. */
  predicate Aligned(b: Block, start: nat, align: nat)
    requires align > 0
  {
    b.size > 0 && b.addr >= start && (b.addr - start) % align == 0 && b.size % align == 0
  }

  ghost predicate AllAligned(s: seq<Block>, start: nat, align: nat)
    requires align > 0
  {
    forall i :: 0 <= i < |s| ==> Aligned(s[i], start, align)
  }

  /** In address order, each block ending where the next one begins or before. */
  ghost predicate Ordered(s: seq<Block>) {
    forall i, j :: 0 <= i < j < |s| ==> End(s[i]) <= s[j].addr
  }

  /** In address order with room between any two blocks. */
  ghost predicate Spaced(s: seq<Block>) {
    forall i, j :: 0 <= i < j < |s| ==> End(s[i]) < s[j].addr
  }

  lemma FirstCovered(s: seq<Block>)
    requires Spaced(s) && s != [] && forall i :: 0 <= i < |s| ==> s[i].size > 0
    ensures forall x :: x < s[0].addr || x == End(s[0]) ==> Count(s, x) == 0
    ensures forall x :: Holds(s[0], x) ==> Count(s, x) == 1 && Count(s[1..], x) == 0
  {
    hide Count;
    forall x | x < s[0].addr || x == End(s[0]) ensures Count(s, x) == 0 {
      if Count(s, x) > 0 {
        var i := CountFinds(s, x);
        assert false;
      }
    }
    forall x | Holds(s[0], x) ensures Count(s, x) == 1 && Count(s[1..], x) == 0 {
      CountTail(s, x);
      if Count(s[1..], x) > 0 {
        var i := CountFinds(s[1..], x);
        assert false;
      }
    }
  }

  /** A list of blocks with room between any two is determined by the addresses it covers: with the
      used blocks and the top, there is one free list. */
  lemma {:induction false} CoverDetermines(s: seq<Block>, t: seq<Block>)
    requires Spaced(s) && Spaced(t)
    requires (forall i :: 0 <= i < |s| ==> s[i].size > 0) && (forall i :: 0 <= i < |t| ==> t[i].size > 0)
    requires forall x: int {:trigger Count(s, x)} {:trigger Count(t, x)} :: Count(s, x) == Count(t, x)
    ensures s == t
    decreases |s|
  {
    hide Count;
    if s == [] || t == [] {
      EmptyCover(s, t);
      return;
    }
    FirstCovered(s);
    FirstCovered(t);
    assert Holds(s[0], s[0].addr) && Holds(t[0], t[0].addr);
    assert Count(s, s[0].addr) == Count(t, s[0].addr) && Count(s, t[0].addr) == Count(t, t[0].addr);
    assert s[0].addr == t[0].addr;
    assert Count(s, End(s[0])) == Count(t, End(s[0])) && Count(s, End(t[0])) == Count(t, End(t[0]));
    assert s[0] == t[0];
    forall x: int ensures Count(s[1..], x) == Count(t[1..], x) {
      CountTail(s, x);
      CountTail(t, x);
      assert Count(s, x) == Count(t, x);
    }
    CoverDetermines(s[1..], t[1..]);
  }

  lemma EmptyCover(s: seq<Block>, t: seq<Block>)
    requires s == [] || t == []
    requires (forall i :: 0 <= i < |s| ==> s[i].size > 0) && (forall i :: 0 <= i < |t| ==> t[i].size > 0)
    requires forall x: int {:trigger Count(s, x)} {:trigger Count(t, x)} :: Count(s, x) == Count(t, x)
    ensures s == t
  {
    if s != [] {
      CountMember(s, 0, s[0].addr);
      assert false;
    } else if t != [] {
      CountMember(t, 0, t[0].addr);
      assert false;
    }
  }

  // Coalescing.

  function Joined(a: Block, b: Block): Block { Block(a.addr, a.size + b.size) }

  /** Every maximal run of touching blocks made one block. */
  function Compacted(s: seq<Block>): (r: seq<Block>)
    ensures |r| <= |s| && (s != [] ==> r != [] && r[0].addr == s[0].addr)
    decreases |s|
  {
    if |s| < 2 then s
    else if End(s[0]) == s[1].addr then Compacted([Joined(s[0], s[1])] + s[2..])
    else [s[0]] + Compacted(s[1..])
  }

  lemma CompactedJoin(a: Block, b: Block, rest: seq<Block>)
    requires End(a) == b.addr
    ensures Compacted([a] + ([b] + rest)) == Compacted([Joined(a, b)] + rest)
  {
    assert ([a] + ([b] + rest))[2..] == rest;
  }

  lemma CompactedStop(a: Block, rest: seq<Block>)
    requires rest == [] || End(a) != rest[0].addr
    ensures Compacted([a] + rest) == [a] + Compacted(rest)
  {
    assert ([a] + rest)[1..] == rest;
  }

  lemma {:induction false} CompactedCount(s: seq<Block>, x: int)
    ensures Count(Compacted(s), x) == Count(s, x)
    decreases |s|
  {
    if |s| >= 2 {
      if End(s[0]) == s[1].addr {
        var j := [Joined(s[0], s[1])];
        CompactedCount(j + s[2..], x);
        assert (j + s[2..])[1..] == s[2..];
        assert s[1..][1..] == s[2..];
      } else {
        CompactedCount(s[1..], x);
        assert ([s[0]] + Compacted(s[1..]))[1..] == Compacted(s[1..]);
      }
    }
  }

  lemma {:induction false} CompactedSpaced(s: seq<Block>)
    requires Ordered(s)
    ensures Spaced(Compacted(s))
    decreases |s|
  {
    if |s| >= 2 {
      if End(s[0]) == s[1].addr {
        CompactedSpaced([Joined(s[0], s[1])] + s[2..]);
      } else {
        CompactedSpaced(s[1..]);
      }
    }
  }

  lemma AlignSum(a: int, b: int, m: int)
    requires m > 0 && a % m == 0 && b % m == 0
    ensures (a + b) % m == 0 && (a - b) % m == 0
  {
    var p, q := a / m, b / m;
    MultiplesAdd(p, q, m);
    MultiplesAdd(p, -q, m);
    assert a == p * m && b == q * m && -b == -q * m;
    MultipleMod(p + q, m);
    MultipleMod(p + -q, m);
  }

  lemma MultiplesAdd(p: int, q: int, m: int)
    ensures (p + q) * m == p * m + q * m
  {
  }

  lemma MultipleMod(q: int, m: int)
    requires m > 0
    ensures (q * m) % m == 0
  {
    var d := (q * m) / m - q;
    assert (q * m) % m == q * m - ((q * m) / m) * m == -(d * m);
    assert d >= 1 ==> d * m >= m;
    assert d <= -1 ==> d * m <= -m;
  }

  lemma {:induction false} CompactedAligned(s: seq<Block>, start: nat, align: nat)
    requires align > 0 && AllAligned(s, start, align)
    ensures AllAligned(Compacted(s), start, align)
    decreases |s|
  {
    if |s| >= 2 {
      if End(s[0]) == s[1].addr {
        AlignSum(s[0].size, s[1].size, align);
        CompactedAligned([Joined(s[0], s[1])] + s[2..], start, align);
      } else {
        CompactedAligned(s[1..], start, align);
      }
    }
  }

  /** Where insert_block puts a block: before the first one that does not lie lower. */
  function Slot(s: seq<Block>, b: Block): (k: nat)
    ensures k <= |s| && (forall i :: 0 <= i < k ==> s[i].addr < b.addr) && (k < |s| ==> b.addr <= s[k].addr)
  {
    if s == [] || b.addr <= s[0].addr then 0 else 1 + Slot(s[1..], b)
  }

  /** Putting a block that overlaps nothing into an ordered list keeps it ordered. */
  lemma InsertOrdered(s: seq<Block>, b: Block)
    requires Ordered(s) && b.size > 0 && (forall i :: 0 <= i < |s| ==> s[i].size > 0)
    requires forall x :: Holds(b, x) ==> Count(s, x) == 0
    ensures Ordered(InsertAt(s, Slot(s, b), b))
  {
    hide Count, Slot;
    var k := Slot(s, b);
    forall i | 0 <= i < |s| ensures (i < k ==> End(s[i]) <= b.addr) && (i >= k ==> End(b) <= s[i].addr) {
      ApartFrom(s, b, i);
      assert i > k ==> End(s[k]) <= s[i].addr;
    }
    var r := InsertAt(s, k, b);
    assert forall i :: 0 <= i < |r| ==> r[i] == if i < k then s[i] else if i == k then b else s[i - 1];
  }

  lemma ApartFrom(s: seq<Block>, b: Block, i: nat)
    requires i < |s| && b.size > 0 && s[i].size > 0 && forall x :: Holds(b, x) ==> Count(s, x) == 0
    ensures End(s[i]) <= b.addr || End(b) <= s[i].addr
  {
    hide Count;
    var x := if b.addr <= s[i].addr then s[i].addr else b.addr;
    if Holds(s[i], x) && Holds(b, x) {
      CountMember(s, i, x);
      assert false;
    }
  }

  /** The requested size rounded up to the alignment, a power of two in the source, where the
      rounding is a mask. */
  function RoundUp(num: nat, align: nat): (r: nat)
    requires align > 0
    ensures r % align == 0 && num <= r < num + align
  {
    var q := (num + align - 1) / align;
    MultipleMod(q, align);
    q * align
  }

  /** Block `b` of the free list gives its space to an allocation of `num` bytes. */
  predicate Fits(b: Block, num: nat, top: nat, limit: nat) {
    AtTop(b, num, top, limit) || b.size >= num
  }

  /** `b` is the last block below the top and can be resized to `num` bytes. */
  predicate AtTop(b: Block, num: nat, top: nat, limit: nat) {
    End(b) >= top && b.addr + num <= limit
  }

  ghost predicate Heap(free: seq<Block>, used: seq<Block>, start: nat, top: nat, align: nat) {
    && align > 0 && start <= top
    && AllAligned(free, start, align) && AllAligned(used, start, align)
    && Tiles(free, used, start, top)
    && (top - start) % align == 0
  }

  lemma InsideTop(free: seq<Block>, used: seq<Block>, start: nat, top: nat, align: nat, i: nat)
    requires Heap(free, used, start, top, align) && i < |free|
    ensures start <= free[i].addr && End(free[i]) <= top
  {
    var b := free[i];
    assert Aligned(b, start, align);
    CountMember(free, i, End(b) - 1);
    assert Count(free, End(b) - 1) + Count(used, End(b) - 1) == 1;
  }

  lemma FreeBelowTop(free: seq<Block>, used: seq<Block>, start: nat, top: nat, align: nat)
    requires Heap(free, used, start, top, align)
    ensures forall f :: f in free ==> f.addr < top
  {
    forall f | f in free ensures f.addr < top {
      var i :| 0 <= i < |free| && free[i] == f;
      InsideTop(free, used, start, top, align, i);
      assert Aligned(f, start, align);
    }
  }

  // What the moves of blocks between the lists do to the tiling.

  function Cut(s: seq<Block>, i: nat): seq<Block>
    requires i < |s|
  {
    s[..i] + s[i + 1..]
  }

  /** A block put back among the free ones: inserted in order, then coalesced. */
  function PutBack(free: seq<Block>, b: Block): seq<Block> {
    Compacted(InsertAt(free, Slot(free, b), b))
  }

  lemma PutBackCount(free: seq<Block>, b: Block, x: int)
    ensures Count(PutBack(free, b), x) == Count(free, x) + if Holds(b, x) then 1 else 0
  {
    hide Count, Compacted, Slot;
    CountInsert(free, Slot(free, b), b, x);
    CompactedCount(InsertAt(free, Slot(free, b), b), x);
  }

  lemma PutBackKeeps(free: seq<Block>, b: Block, start: nat, align: nat)
    requires align > 0 && AllAligned(free, start, align) && Aligned(b, start, align) && Spaced(free)
    requires forall x :: Holds(b, x) ==> Count(free, x) == 0
    ensures Spaced(PutBack(free, b)) && AllAligned(PutBack(free, b), start, align)
  {
    hide Count, Compacted, Slot;
    var s := InsertAt(free, Slot(free, b), b);
    InsertOrdered(free, b);
    CompactedSpaced(s);
    assert forall i :: 0 <= i < |s| ==> s[i] == b || s[i] in free;
    CompactedAligned(s, start, align);
  }

  lemma CutKeeps(s: seq<Block>, i: nat, start: nat, align: nat)
    requires i < |s| && align > 0 && AllAligned(s, start, align)
    ensures AllAligned(Cut(s, i), start, align) && Aligned(s[i], start, align)
    ensures Spaced(s) ==> Spaced(Cut(s, i))
  {
    hide Aligned;
  }

  lemma PushCount(b: Block, s: seq<Block>, x: int)
    ensures Count([b] + s, x) == Count(s, x) + if Holds(b, x) then 1 else 0
  {
    assert ([b] + s)[1..] == s;
  }

  /** A used block becomes free. */
  lemma FreeTiles(free: seq<Block>, used: seq<Block>, start: nat, top: nat, align: nat, i: nat)
    requires Heap(free, used, start, top, align) && Spaced(free) && i < |used|
    ensures var f := PutBack(free, used[i]); Heap(f, Cut(used, i), start, top, align) && Spaced(f)
  {
    hide Count, Spaced, Aligned, AllAligned, Holds, PutBack;
    var b := used[i];
    CutKeeps(used, i, start, align);
    forall x | Holds(b, x) ensures Count(free, x) == 0 {
      CountMember(used, i, x);
    }
    PutBackKeeps(free, b, start, align);
    forall x: int ensures Count(PutBack(free, b), x) + Count(Cut(used, i), x) == if start <= x < top then 1 else 0 {
      PutBackCount(free, b, x);
      CountCut(used, i, x);
    }
  }

  /** A free block is used as it is. */
  lemma WholeTiles(free: seq<Block>, used: seq<Block>, start: nat, top: nat, align: nat, i: nat)
    requires Heap(free, used, start, top, align) && Spaced(free) && i < |free|
    ensures Heap(Cut(free, i), [free[i]] + used, start, top, align) && Spaced(Cut(free, i))
  {
    hide Count, Spaced, Aligned, Holds;
    CutKeeps(free, i, start, align);
    forall x: int ensures Count(Cut(free, i), x) + Count([free[i]] + used, x) == if start <= x < top then 1 else 0 {
      CountCut(free, i, x);
      PushCount(free[i], used, x);
    }
  }

  /** The last free block is used, grown or shrunk to `n` bytes, and the top moves with it. */
  lemma TopTiles(free: seq<Block>, used: seq<Block>, start: nat, top: nat, align: nat, i: nat, n: nat)
    requires Heap(free, used, start, top, align) && Spaced(free) && i < |free| && n > 0 && n % align == 0
    requires End(free[i]) >= top
    ensures var b := Block(free[i].addr, n);
      Heap(Cut(free, i), [b] + used, start, End(b), align) && Spaced(Cut(free, i))
  {
    hide Count, Spaced, AllAligned;
    var b := Block(free[i].addr, n);
    InsideTop(free, used, start, top, align, i);
    CutKeeps(free, i, start, align);
    AlignSum(b.addr - start, n, align);
    PushAligned(b, used, start, align);
    hide Aligned;
    forall x: int ensures Count(Cut(free, i), x) + Count([b] + used, x) == if start <= x < End(b) then 1 else 0 {
      assert Count(free, x) + Count(used, x) == if start <= x < top then 1 else 0;
      CountCut(free, i, x);
      PushCount(b, used, x);
    }
  }

  lemma PushAligned(b: Block, s: seq<Block>, start: nat, align: nat)
    requires align > 0 && AllAligned(s, start, align) && Aligned(b, start, align)
    ensures AllAligned([b] + s, start, align)
  {
    hide Aligned;
  }

  /** A fresh block above the top. */
  lemma NewTiles(free: seq<Block>, used: seq<Block>, start: nat, top: nat, align: nat, n: nat)
    requires Heap(free, used, start, top, align) && n > 0 && n % align == 0
    ensures Heap(free, [Block(top, n)] + used, start, top + n, align)
  {
    hide Count, AllAligned;
    var b := Block(top, n);
    AlignSum(top - start, n, align);
    PushAligned(b, used, start, align);
    forall x: int ensures Count(free, x) + Count([b] + used, x) == if start <= x < top + n then 1 else 0 {
      PushCount(b, used, x);
    }
  }

  /** The front of a free block is used and the rest stays free. */
  lemma SplitTiles(free: seq<Block>, used: seq<Block>, start: nat, top: nat, align: nat, i: nat, n: nat)
    requires Heap(free, used, start, top, align) && Spaced(free) && i < |free| && 0 < n < free[i].size && n % align == 0
    ensures var a, b := Block(free[i].addr, n), Block(free[i].addr + n, free[i].size - n);
      var f := PutBack(Cut(free, i), b);
      Heap(f, [a] + used, start, top, align) && Spaced(f)
  {
    hide Count, Spaced, AllAligned, PutBack;
    var a, b := Block(free[i].addr, n), Block(free[i].addr + n, free[i].size - n);
    CutKeeps(free, i, start, align);
    AlignSum(free[i].addr - start, n, align);
    AlignSum(free[i].size, n, align);
    PushAligned(a, used, start, align);
    hide Aligned;
    forall x | Holds(b, x) ensures Count(Cut(free, i), x) == 0 {
      assert Count(free, x) + Count(used, x) <= 1;
      CountCut(free, i, x);
    }
    PutBackKeeps(Cut(free, i), b, start, align);
    var f := PutBack(Cut(free, i), b);
    forall x: int ensures Count(f, x) + Count([a] + used, x) == if start <= x < top then 1 else 0 {
      assert Count(free, x) + Count(used, x) == if start <= x < top then 1 else 0;
      CountCut(free, i, x);
      PutBackCount(Cut(free, i), b, x);
      PushCount(a, used, x);
    }
  }

  /** Where first fit looks: the first free block that can serve `n` bytes, from `i` on. */
  function FirstFit(free: seq<Block>, n: nat, top: nat, limit: nat, i: nat): (r: Option<nat>)
    requires i <= |free|
    ensures r.Some? ==> i <= r.value < |free| && Fits(free[r.value], n, top, limit)
    ensures r.Some? ==> forall j :: i <= j < r.value ==> !Fits(free[j], n, top, limit)
    ensures r.None? ==> forall j :: i <= j < |free| ==> !Fits(free[j], n, top, limit)
    decreases |free| - i
  {
    if i == |free| then None
    else if Fits(free[i], n, top, limit) then Some(i)
    else FirstFit(free, n, top, limit, i + 1)
  }

  /** First fit on a list in address order is the fitting block at the lowest address, and that block
      is the only one there. */
  lemma LowestFit(free: seq<Block>, n: nat, top: nat, limit: nat)
    requires Spaced(free)
    ensures var r := FirstFit(free, n, top, limit, 0);
      && (forall f :: f in free && (f.size >= n || (f.addr + f.size >= top && f.addr + n <= limit)) ==>
            r.Some? && free[r.value].addr <= f.addr)
      && (r.Some? ==> forall f :: f in free && f.addr == free[r.value].addr ==> f == free[r.value])
  {
    hide FirstFit;
    var r := FirstFit(free, n, top, limit, 0);
    forall f | f in free && (f.size >= n || (f.addr + f.size >= top && f.addr + n <= limit))
      ensures r.Some? && free[r.value].addr <= f.addr
    {
      var j :| 0 <= j < |free| && free[j] == f;
      assert Fits(free[j], n, top, limit);
    }
  }

  /** Some address of the `n` bytes at `a` is in use. */
  ghost predicate Busy(used: seq<Block>, a: int, n: nat) {
    exists x :: a <= x < a + n && Count(used, x) > 0
  }

  /** Completeness: with no fitting free block and no room above the top, every stretch of `n` bytes
      below the limit meets a used block. */
  lemma NoRoom(free: seq<Block>, used: seq<Block>, start: nat, top: nat, limit: nat, align: nat, n: nat, a: nat)
    requires Heap(free, used, start, top, align) && Spaced(free) && n > 0
    requires forall j :: 0 <= j < |free| ==> !Fits(free[j], n, top, limit)
    requires top + n > limit && start <= a && a + n <= limit
    ensures Busy(used, a, n)
  {
    hide Count;
    assert Count(free, a) + Count(used, a) == 1;
    if Count(used, a) > 0 {
      return;
    }
    var i := CountFinds(free, a);
    InsideTop(free, used, start, top, align, i);
    var x := End(free[i]);
    assert x < a + n && x < top;
    assert Count(free, x) + Count(used, x) == 1;
    FreeEnd(free, i);
  }

  /** The end of a free block is in no free block. */
  lemma FreeEnd(free: seq<Block>, i: nat)
    requires Spaced(free) && i < |free|
    ensures Count(free, End(free[i])) == 0
  {
    var x := End(free[i]);
    forall j | 0 <= j < |free| ensures !Holds(free[j], x) {
      assert j < i ==> End(free[j]) < free[i].addr;
    }
    CountZero(free, x);
  }

  lemma {:induction false} CountZero(s: seq<Block>, x: int)
    requires forall j :: 0 <= j < |s| ==> !Holds(s[j], x)
    ensures Count(s, x) == 0
  {
    if s != [] {
      CountZero(s[1..], x);
    }
  }

  /** With nothing used, the free list is empty or one block that spans the whole tile. */
  lemma AllFree(free: seq<Block>, start: nat, top: nat, align: nat)
    requires Heap(free, [], start, top, align) && Spaced(free)
    ensures free == (if start == top then [] else [Block(start, top - start)])
  {
    hide Count;
    CountNone();
    if start < top {
      assert Count(free, start) + Count([], start) == 1;
      var i := CountFinds(free, start);
      InsideTop(free, [], start, top, align, i);
      FreeEnd(free, i);
      assert Count(free, End(free[i])) + Count([], End(free[i])) == 0;
      if |free| > 1 {
        var j := if i == 0 then 1 else 0;
        InsideTop(free, [], start, top, align, j);
        assert false;
      }
    } else if free != [] {
      InsideTop(free, [], start, top, align, 0);
      assert false;
    }
  }

  lemma CountNone()
    ensures forall x: int {:trigger Count([], x)} :: Count([], x) == 0
  {
  }

  /** What is left when a block of `n` bytes is cut from free block `i`: the last block shrinks or
      grows to that length and takes the top with it; a block with enough to spare is split, if there
      is a descriptor for the rest; any other is given whole. */
  ghost predicate Carved(free: seq<Block>, i: nat, n: nat, top: nat, limit: nat, spare: bool, thresh: nat,
                         b: Block, free': seq<Block>, top': nat)
    requires i < |free|
  {
    var f := free[i];
    if AtTop(f, n, top, limit) then b == Block(f.addr, n) && top' == End(b) && free' == Cut(free, i)
    else if spare && f.size - n >= thresh then
      b == Block(f.addr, n) && top' == top && free' == PutBack(Cut(free, i), Block(End(b), f.size - n))
    else b == f && top' == top && free' == Cut(free, i)
  }

  ghost function AllIds(n: nat): multiset<nat> { multiset(seq(n, i => i)) }

  /** Every descriptor is on exactly one of the three lists. */
  ghost predicate Partition(free: seq<nat>, used: seq<nat>, spare: seq<nat>, n: nat) {
    multiset(free) + multiset(used) + multiset(spare) == AllIds(n)
  }

  lemma {:induction false} AllOnce(n: nat, d: nat)
    ensures AllIds(n)[d] == if d < n then 1 else 0
  {
    if n > 0 {
      AllOnce(n - 1, d);
      assert seq(n, i => i) == seq(n - 1, i => i) + [n - 1];
    }
  }

  /** What `Partition` says about one descriptor. */
  lemma OneList(free: seq<nat>, used: seq<nat>, spare: seq<nat>, n: nat, d: nat)
    requires Partition(free, used, spare, n)
    ensures multiset(free)[d] + multiset(used)[d] + multiset(spare)[d] == if d < n then 1 else 0
  {
    AllOnce(n, d);
  }

  lemma PartCount(free: seq<nat>, used: seq<nat>, spare: seq<nat>, n: nat)
    requires Partition(free, used, spare, n)
    ensures |free| + |used| + |spare| == n
  {
    assert |multiset(free) + multiset(used) + multiset(spare)| == |free| + |used| + |spare|;
    assert |AllIds(n)| == n;
  }

  lemma TakenOut(s: seq<nat>, i: nat)
    requires i < |s|
    ensures multiset(s) == multiset(s[..i] + s[i + 1..]) + multiset{s[i]}
  {
    assert s == s[..i] + [s[i]] + s[i + 1..];
  }

  lemma PutIn(s: seq<nat>, k: nat, d: nat)
    requires k <= |s|
    ensures multiset(InsertAt(s, k, d)) == multiset(s) + multiset{d}
  {
    assert s == s[..k] + s[k..];
  }

  lemma PartTake(free: seq<nat>, used: seq<nat>, spare: seq<nat>, n: nat, i: nat)
    requires Partition(free, used, spare, n) && i < |free|
    ensures Partition(free[..i] + free[i + 1..], [free[i]] + used, spare, n)
  {
    TakenOut(free, i);
  }

  lemma PartGive(free: seq<nat>, used: seq<nat>, spare: seq<nat>, n: nat, i: nat, k: nat)
    requires Partition(free, used, spare, n) && i < |used| && k <= |free|
    ensures Partition(InsertAt(free, k, used[i]), used[..i] + used[i + 1..], spare, n)
  {
    TakenOut(used, i);
    PutIn(free, k, used[i]);
  }

  lemma PartSplit(free: seq<nat>, used: seq<nat>, spare: seq<nat>, n: nat, k: nat)
    requires Partition(free, used, spare, n) && spare != [] && k <= |free|
    ensures Partition(InsertAt(free, k, spare[0]), used, spare[1..], n)
  {
    PutIn(free, k, spare[0]);
    assert spare == [spare[0]] + spare[1..];
  }

  lemma PartNew(free: seq<nat>, used: seq<nat>, spare: seq<nat>, n: nat)
    requires Partition(free, used, spare, n) && spare != []
    ensures Partition(free, [spare[0]] + used, spare[1..], n)
  {
    assert spare == [spare[0]] + spare[1..];
  }

  lemma PartCompact(free: seq<nat>, used: seq<nat>, spare: seq<nat>, free': seq<nat>, spare': seq<nat>, n: nat)
    requires Partition(free, used, spare, n) && multiset(free') + multiset(spare') == multiset(free) + multiset(spare)
    ensures Partition(free', used, spare', n)
  {
    assert multiset(free') + multiset(used) + multiset(spare') == (multiset(free') + multiset(spare')) + multiset(used);
    assert multiset(free) + multiset(used) + multiset(spare) == (multiset(free) + multiset(spare)) + multiset(used);
  }

  /** The fresh list after the descriptors `ids` have been pushed on it, one after the other. */
  function Pushed(ids: seq<nat>, spare: seq<nat>): seq<nat> {
    if ids == [] then spare else Pushed(ids[1..], [ids[0]] + spare)
  }

  lemma {:induction false} PushedBag(ids: seq<nat>, spare: seq<nat>)
    ensures multiset(Pushed(ids, spare)) == multiset(ids) + multiset(spare)
    decreases |ids|
  {
    if ids != [] {
      PushedBag(ids[1..], [ids[0]] + spare);
      assert ids == [ids[0]] + ids[1..];
    }
  }

  lemma RunReleased(ids: seq<nat>, spare: seq<nat>, a: nat, b: nat)
    requires a <= b <= |ids|
    ensures multiset(ids[..a] + ids[b..]) + multiset(Pushed(ids[a..b], spare)) == multiset(ids) + multiset(spare)
  {
    PushedBag(ids[a..b], spare);
    assert ids == ids[..a] + ids[a..b] + ids[b..];
  }

  class TinyAlloc {
    var free: seq<Block>
    var used: seq<Block>
    var freeIds: seq<nat>     // the descriptors of the free blocks, in the order of the list
    var usedIds: seq<nat>
    var spare: seq<nat>       // the descriptors that describe nothing, in the order of their list
    var top: nat
    const start: nat
    const limit: nat
    const splitThresh: nat
    const align: nat
    const maxBlocks: nat

    ghost predicate Valid()
      reads this
    {
      && Heap(free, used, start, top, align)
      && Spaced(free)
      && splitThresh > 0 && align > 0 && top <= limit
      && |freeIds| == |free| && |usedIds| == |used| && Partition(freeIds, usedIds, spare, maxBlocks)
    }

    /** ta_init; `start` is where the descriptors end. */
    constructor (start: nat, limit: nat, blocks: nat, splitThresh: nat, align: nat)
      requires align > 0 && splitThresh > 0 && blocks > 0 && start <= limit
      ensures Valid() && free == [] && used == [] && |spare| == blocks && top == start
      ensures this.start == start && this.limit == limit && this.align == align && this.maxBlocks == blocks
    {
      this.start, this.limit, this.splitThresh, this.align, this.maxBlocks := start, limit, splitThresh, align, blocks;
      free, used, top := [], [], start;
      freeIds, usedIds, spare := [], [], seq(blocks, i => i);
    }

    method InsertBlock(b: Block, id: nat)
      requires |freeIds| == |free|
      modifies `free, `freeIds
      ensures free == InsertAt(old(free), Slot(old(free), b), b) && freeIds == InsertAt(old(freeIds), Slot(old(free), b), id)
    {
      var i := 0;
      while i < |free|
        invariant i <= |free|
        invariant Slot(free, b) == i + Slot(free[i..], b)
      {
        if b.addr <= free[i].addr {
          break;
        }
        assert free[i..][1..] == free[i + 1..];
        i := i + 1;
      }
      free := free[..i] + [b] + free[i..];
      freeIds := freeIds[..i] + [id] + freeIds[i..];
    }

    /** The descriptors `ids` go to the head of the fresh list, one after the other. */
    method ReleaseBlocks(ids: seq<nat>)
      modifies `spare
      ensures spare == Pushed(ids, old(spare))
    {
      var i := 0;
      assert ids[0..] == ids;
      while i < |ids|
        invariant i <= |ids| && Pushed(ids[i..], spare) == Pushed(ids, old(spare))
      {
        assert ids[i..][1..] == ids[i + 1..];
        spare := [ids[i]] + spare;
        i := i + 1;
      }
    }

    /** The blocks from `p` on that touch one another: the last of the run. */
    method TouchingRun(p: nat) returns (last: nat)
      requires p < |free|
      ensures p <= last < |free| && free[p].addr <= End(free[last])
      ensures Compacted(free[p..]) == [Block(free[p].addr, End(free[last]) - free[p].addr)] + Compacted(free[last + 1..])
    {
      hide Compacted;
      last := p;
      var scan := p + 1;
      ghost var run := free[p];
      assert free[p..] == [run] + free[scan..];
      while scan < |free| && End(free[last]) == free[scan].addr
        invariant p <= last < |free| && scan == last + 1
        invariant run.addr == free[p].addr && End(run) == End(free[last])
        invariant Compacted(free[p..]) == Compacted([run] + free[scan..])
      {
        assert free[scan..] == [free[scan]] + free[scan + 1..];
        CompactedJoin(run, free[scan], free[scan + 1..]);
        run := Joined(run, free[scan]);
        last, scan := scan, scan + 1;
      }
      CompactedStop(run, free[scan..]);
    }

    /** The run at `p` becomes one block and the other descriptors of the run are released. */
    method MergeAt(p: nat)
      requires p < |free| && |freeIds| == |free|
      modifies `free, `freeIds, `spare
      ensures p < |free| && free[..p] == old(free)[..p] && |freeIds| == |free|
      ensures multiset(freeIds) + multiset(spare) == multiset(old(freeIds)) + multiset(old(spare))
      ensures |free| <= |old(free)| && Compacted(old(free)[p..]) == [free[p]] + Compacted(free[p + 1..])
    {
      hide Compacted;
      var last := TouchingRun(p);
      if last != p {
        var merged := Block(free[p].addr, free[last].addr + free[last].size - free[p].addr);
        RunReleased(freeIds, spare, p + 1, last + 1);
        ReleaseBlocks(freeIds[p + 1..last + 1]);
        freeIds := freeIds[..p + 1] + freeIds[last + 1..];
        ghost var rest := free[last + 1..];
        free := free[..p] + [merged] + free[last + 1..];
        assert free[p + 1..] == rest;
      }
    }

    method Compact()
      requires |freeIds| == |free|
      modifies `free, `freeIds, `spare
      ensures free == Compacted(old(free)) && |freeIds| == |free|
      ensures multiset(freeIds) + multiset(spare) == multiset(old(freeIds)) + multiset(old(spare))
    {
      hide Compacted;
      var p := 0;
      assert free[0..] == free;
      while p < |free|
        invariant p <= |free| && |freeIds| == |free|
        invariant multiset(freeIds) + multiset(spare) == multiset(old(freeIds)) + multiset(old(spare))
        invariant Compacted(old(free)) == free[..p] + Compacted(free[p..])
        decreases |free| - p
      {
        MergeAt(p);
        p := p + 1;
        Reassociate(free[..p - 1], free[p - 1], free[..p], Compacted(free[p..]));
      }
      CompactedNone(free[p..]);
    }

    /** ta_free: the block at that address, if there is one, goes back among the free ones. */
    method Free(addr: nat) returns (ok: bool)
      requires Valid()
      modifies `free, `used, `freeIds, `usedIds, `spare
      ensures Valid()
      ensures ok <==> exists i :: 0 <= i < |old(used)| && old(used)[i].addr == addr
      ensures !ok ==> free == old(free) && used == old(used) && spare == old(spare)
      ensures ok ==> exists i ::
        && 0 <= i < |old(used)| && old(used)[i].addr == addr
        && free == PutBack(old(free), old(used)[i]) && used == Cut(old(used), i)
    {
      hide Heap, Spaced, Compacted, Slot, Partition;
      for i := 0 to |used|
        invariant free == old(free) && used == old(used) && unchanged(`freeIds, `usedIds, `spare)
        invariant forall j :: 0 <= j < i ==> used[j].addr != addr
      {
        if used[i].addr == addr {
          FreeTiles(free, used, start, top, align, i);
          var b, id := used[i], usedIds[i];
          used, usedIds := used[..i] + used[i + 1..], usedIds[..i] + usedIds[i + 1..];
          PartGive(freeIds, old(usedIds), spare, maxBlocks, i, Slot(free, b));
          InsertBlock(b, id);
          ghost var ids := freeIds;
          Compact();
          PartCompact(ids, usedIds, old(spare), freeIds, spare, maxBlocks);
          return true;
        }
      }
      return false;
    }

    /** What is left of a block that was split gets a fresh descriptor and goes to the free list. */
    method SplitOff(rest: Block)
      requires spare != [] && |freeIds| == |free| && Partition(freeIds, usedIds, spare, maxBlocks)
      modifies `free, `freeIds, `spare
      ensures free == PutBack(old(free), rest) && |freeIds| == |free| && Partition(freeIds, usedIds, spare, maxBlocks)
    {
      hide Compacted, Slot, Partition;
      PartSplit(freeIds, usedIds, spare, maxBlocks, Slot(free, rest));
      var id := spare[0];
      spare := spare[1..];
      InsertBlock(rest, id);
      ghost var ids, left := freeIds, spare;
      Compact();
      PartCompact(ids, usedIds, left, freeIds, spare, maxBlocks);
    }

    /** Block `i` of the free list is used for `n` bytes, in one of three ways. */
    method Take(i: nat, n: nat) returns (b: Block)
      requires Valid() && i < |free| && n > 0 && n % align == 0 && Fits(free[i], n, top, limit)
      modifies this
      ensures Valid() && used == [b] + old(used) && b.addr == old(free)[i].addr && b.size >= n
      ensures Carved(old(free), i, n, old(top), limit, old(spare) != [], splitThresh, b, free, top)
    {
      hide Heap, Spaced, Compacted, Slot, Partition;
      var f := free[i];
      PartTake(freeIds, usedIds, spare, maxBlocks, i);
      freeIds, usedIds := freeIds[..i] + freeIds[i + 1..], [freeIds[i]] + usedIds;
      if AtTop(f, n, top, limit) {
        TopTiles(free, used, start, top, align, i, n);
        free, used, top := free[..i] + free[i + 1..], [Block(f.addr, n)] + used, f.addr + n;
      } else if spare != [] && f.size - n >= splitThresh {
        SplitTiles(free, used, start, top, align, i, n);
        free, used := free[..i] + free[i + 1..], [Block(f.addr, n)] + used;
        SplitOff(Block(f.addr + n, f.size - n));
      } else {
        WholeTiles(free, used, start, top, align, i);
        free, used := free[..i] + free[i + 1..], [f] + used;
      }
      b := used[0];
    }

    method FindFit(n: nat) returns (r: Option<nat>)
      ensures r == FirstFit(free, n, top, limit, 0)
    {
      var i := 0;
      while i < |free|
        invariant i <= |free|
        invariant FirstFit(free, n, top, limit, 0) == FirstFit(free, n, top, limit, i)
      {
        if Fits(free[i], n, top, limit) {
          return Some(i);
        }
        i := i + 1;
      }
      return None;
    }

    /** alloc_block: first fit, then a new block above the top.  What is handed out is aligned with the
        heap start, long enough and apart from everything in use; nothing is handed out only if
        descriptors have run out or no stretch of that size is left below the limit. */
    method AllocBlock(num: nat) returns (r: Option<Block>)
      requires Valid() && num > 0
      modifies this
      ensures Valid()
      ensures var n := RoundUp(num, align);
        match FirstFit(old(free), n, old(top), limit, 0)
        case Some(i) =>
          && r.Some? && r.value.addr == old(free)[i].addr
          && Carved(old(free), i, n, old(top), limit, old(spare) != [], splitThresh, r.value, free, top)
        case None =>
          && (r.Some? <==> old(spare) != [] && old(top) + n <= limit)
          && (r.Some? ==> r.value == Block(old(top), n) && free == old(free) && top == old(top) + n)
      ensures r.Some? ==>
        && used == [r.value] + old(used) && r.value.size >= RoundUp(num, align) && End(r.value) <= limit
        && Aligned(r.value, start, align) && forall x :: Holds(r.value, x) ==> Count(old(used), x) == 0
      ensures r.None? ==> free == old(free) && used == old(used) && spare == old(spare) && top == old(top)
      ensures r.None? && spare != [] ==>
        var n := RoundUp(num, align); forall a :: start <= a && a + n <= limit ==> Busy(used, a, n)
    {
      hide Heap, Spaced, Compacted, Slot, RoundUp, Count, Aligned, FirstFit, PutBack, Busy, Carved, Partition;
      var n := RoundUp(num, align);
      var i := FindFit(n);
      if i.Some? {
        var b := Take(i.value, n);
        FirstUsed(free, used, start, top, align);
        return Some(b);
      }
      if spare != [] && top + n <= limit {
        NewTiles(free, used, start, top, align, n);
        PartNew(freeIds, usedIds, spare, maxBlocks);
        r := Some(Block(top, n));
        used, top := [Block(top, n)] + used, top + n;
        usedIds, spare := [spare[0]] + usedIds, spare[1..];
        FirstUsed(free, used, start, top, align);
        return;
      }
      r := None;
      forall a | start <= a && a + n <= limit && spare != [] ensures Busy(used, a, n) {
        NoRoom(free, used, start, top, limit, align, n, a);
      }
    }

    /** ta_alloc, in terms of the free blocks alone: the lowest one that holds the bytes or ends the heap
        and can be resized gives them, cut to length if it ends the heap or has enough to spare; with
        none, the bytes above the top are taken. */
    method Alloc(num: nat) returns (r: Option<nat>, ghost b: Block)
      requires Valid() && num > 0
      modifies this
      ensures Valid()
      ensures var n := RoundUp(num, align);
        forall f :: f in old(free) && (f.size >= n || (f.addr + f.size >= old(top) && f.addr + n <= limit)) ==>
          r.Some? && r.value <= f.addr
      ensures var n := RoundUp(num, align);
        r.Some? ==>
          || (exists f :: f in old(free) && f.addr == r.value && (f.size >= n || (f.addr + f.size >= old(top) && f.addr + n <= limit)))
          || (r.value == old(top) && old(spare) != [] && b.size == n && top == old(top) + n)
      ensures var n := RoundUp(num, align);
        forall f :: f in old(free) && r == Some(f.addr) ==> (
          var last := f.addr + f.size >= old(top) && f.addr + n <= limit;
          && b.size == (if last || (old(spare) != [] && f.size >= n + splitThresh) then n else f.size)
          && top == if last then f.addr + n else old(top))
      ensures r.Some? ==>
        && used == [b] + old(used) && b.addr == r.value && b.size >= RoundUp(num, align) && End(b) <= limit
        && Aligned(b, start, align) && forall x :: Holds(b, x) ==> Count(old(used), x) == 0
      ensures r.None? ==> free == old(free) && used == old(used) && spare == old(spare) && top == old(top)
      ensures r.None? ==> spare == [] || top + RoundUp(num, align) > limit
      ensures r.None? && spare != [] ==>
        var n := RoundUp(num, align); forall a :: start <= a && a + n <= limit ==> Busy(used, a, n)
    {
      hide Heap, Spaced, RoundUp, Count, Aligned, FirstFit, PutBack, Busy, Partition;
      ghost var n := RoundUp(num, align);
      LowestFit(free, n, top, limit);
      FreeBelowTop(free, used, start, top, align);
      var block := AllocBlock(num);
      if block.None? {
        b := Block(0, 0);
        return None, b;
      }
      b := block.value;
      return Some(block.value.addr), b;
    }

    /** ta_check */
    method Check() returns (ok: bool)
      requires Valid()
      ensures ok
    {
      PartCount(freeIds, usedIds, spare, maxBlocks);
      return maxBlocks == |free| + |used| + |spare|;
    }
  }

  /** The newest used block lies apart from the other used ones, below the top. */
  lemma FirstUsed(free: seq<Block>, used: seq<Block>, start: nat, top: nat, align: nat)
    requires Heap(free, used, start, top, align) && used != []
    ensures Aligned(used[0], start, align) && End(used[0]) <= top
    ensures forall x :: Holds(used[0], x) ==> Count(used[1..], x) == 0
  {
    forall x | Holds(used[0], x) ensures Count(used[1..], x) == 0 && x < top {
      assert Count(free, x) + Count(used, x) <= 1;
      assert Count(free, x) + Count(used, x) == if start <= x < top then 1 else 0;
    }
    assert Aligned(used[0], start, align);
    assert Holds(used[0], End(used[0]) - 1);
  }

  lemma Reassociate(a: seq<Block>, b: Block, ab: seq<Block>, c: seq<Block>)
    requires ab == a + [b]
    ensures a + ([b] + c) == ab + c
  {
  }

  lemma CompactedNone(s: seq<Block>)
    requires s == []
    ensures Compacted(s) == []
  {
  }
}
