/** The ROMFS image writer: a directory tree is appended to an image whose offset tables are
    patched as the data they point to is written, and the reader follows those offsets. */
module Romfs {
  type Byte = b: nat | b < 256

  datatype File = File(name: seq<Byte>, data: seq<Byte>)
  datatype Sub = Sub(name: seq<Byte>, tree: Tree)
  datatype Tree = Tree(dirs: seq<Sub>, files: seq<File>)

  /** Names are C strings, and a directory lists at most 256 entries of each kind. */
  ghost predicate Writable(t: Tree) {
    && |t.dirs| <= 256 && |t.files| <= 256
    && (forall i :: 0 <= i < |t.dirs| ==> 0 !in t.dirs[i].name && Writable(t.dirs[i].tree))
    && (forall i :: 0 <= i < |t.files| ==> 0 !in t.files[i].name)
  }

  function LE16(v: nat): (s: seq<Byte>)
    ensures |s| == 2
  {
    [v % 256, v / 256 % 256]
  }

  function LE32(v: nat): (s: seq<Byte>)
    ensures |s| == 4
  {
    [v % 256, v / 256 % 256, v / 256 / 256 % 256, v / 256 / 256 / 256 % 256]
  }

  function U16(img: seq<Byte>, p: nat): nat
    requires p + 2 <= |img|
  {
    var a: nat, b: nat := img[p], img[p + 1];
    a + 256 * b
  }

  function U32(img: seq<Byte>, p: nat): nat
    requires p + 4 <= |img|
  {
    var a: nat, b: nat, c: nat, d: nat := img[p], img[p + 1], img[p + 2], img[p + 3];
    a + 256 * (b + 256 * (c + 256 * d))
  }

  lemma Decoded16(img: seq<Byte>, p: nat, v: nat)
    requires p + 2 <= |img| && img[p..p + 2] == LE16(v) && v < 0x1_0000
    ensures U16(img, p) == v
  {
    assert img[p] == img[p..p + 2][0] && img[p + 1] == img[p..p + 2][1];
  }

  lemma Decoded32(img: seq<Byte>, p: nat, v: nat)
    requires p + 4 <= |img| && img[p..p + 4] == LE32(v) && v < 0x1_0000_0000
    ensures U32(img, p) == v
  {
    var s := img[p..p + 4];
    assert img[p] == s[0] && img[p + 1] == s[1] && img[p + 2] == s[2] && img[p + 3] == s[3];
  }

  /** The zero-terminated string at offset `o`. */
  ghost predicate StringAt(img: seq<Byte>, o: nat, name: seq<Byte>) {
    o + |name| < |img| && img[o..o + |name|] == name && img[o + |name|] == 0 && 0 !in name
  }

  /** Table entry `k`, of a table that ends at `lo`, leads to a name behind the table. */
  ghost predicate Named(img: seq<Byte>, table: nat, lo: nat, k: nat, name: seq<Byte>) {
    table + 8 * k + 8 <= lo <= |img| && var o := U32(img, table + 8 * k); lo <= o && StringAt(img, o, name)
  }

  /** Table entry `k` leads to a 4-aligned file record: its size and then its bytes. */
  ghost predicate Filed(img: seq<Byte>, table: nat, lo: nat, k: nat, data: seq<Byte>) {
    && table + 8 * k + 8 <= lo <= |img|
    && var o := U32(img, table + 8 * k + 4);
    && lo <= o && o % 4 == 0 && o + 4 + |data| <= |img|
    && U32(img, o) == |data| && img[o + 4..o + 4 + |data|] == data
  }

  ghost predicate FileEntry(img: seq<Byte>, table: nat, lo: nat, k: nat, f: File) {
    Named(img, table, lo, k, f.name) && Filed(img, table, lo, k, f.data)
  }

  /** Table entry `i` leads to a name and to the record of a directory. */
  ghost predicate DirEntry(img: seq<Byte>, table: nat, lo: nat, i: nat, s: Sub)
    decreases s
  {
    Named(img, table, lo, i, s.name) && lo <= U32(img, table + 8 * i + 4) && Reads(img, U32(img, table + 8 * i + 4), s.tree)
  }

  /** What a reader finds by following the offsets of the directory record at `off`. */
  ghost predicate Reads(img: seq<Byte>, off: nat, t: Tree)
    decreases t
  {
    var d, f := |t.dirs|, |t.files|;
    var table, lo := off + 4, off + 4 + 8 * (d + f);
    && off % 4 == 0 && lo <= |img|
    && U16(img, off) == d && U16(img, off + 2) == f
    && (forall i :: 0 <= i < d ==> DirEntry(img, table, lo, i, t.dirs[i]))
    && (forall i :: 0 <= i < f ==> FileEntry(img, table, lo, d + i, t.files[i]))
  }

  /** Four bytes as a number, the lowest first. */
  lemma WordBytes(img: seq<Byte>, p: nat)
    requires p + 4 <= |img|
    ensures U32(img, p) == img[p] as int + 0x100 * img[p + 1] as int + 0x1_0000 * img[p + 2] as int + 0x100_0000 * img[p + 3] as int
  {
  }

  /** The record of a directory, byte by byte: the number of subdirectories and of files in two bytes each,
      the lower one first, and for each of them, subdirectories first, where its name and its own record
      lie, in four bytes each. */
  lemma RecordBytes(img: seq<Byte>, off: nat, t: Tree)
    requires Reads(img, off, t)
    ensures off % 4 == 0 && off + 4 + 8 * (|t.dirs| + |t.files|) <= |img|
    ensures img[off] as int + 256 * img[off + 1] as int == |t.dirs| && img[off + 2] as int + 256 * img[off + 3] as int == |t.files|
  {
  }

  lemma DirectoryBytes(img: seq<Byte>, off: nat, t: Tree, i: nat, name: nat, record: nat)
    requires Reads(img, off, t) && i < |t.dirs| && off + 4 + 8 * (|t.dirs| + |t.files|) <= |img|
    requires var p := off + 4 + 8 * i;
      && name == img[p] as int + 0x100 * img[p + 1] as int + 0x1_0000 * img[p + 2] as int + 0x100_0000 * img[p + 3] as int
      && record == img[p + 4] as int + 0x100 * img[p + 5] as int + 0x1_0000 * img[p + 6] as int + 0x100_0000 * img[p + 7] as int
    ensures var n := |t.dirs[i].name|; name + n < |img| && img[name..name + n] == t.dirs[i].name && img[name + n] == 0
    ensures Reads(img, record, t.dirs[i].tree)
  {
    var p := off + 4 + 8 * i;
    assert DirEntry(img, off + 4, off + 4 + 8 * (|t.dirs| + |t.files|), i, t.dirs[i]);
    WordBytes(img, p);
    WordBytes(img, p + 4);
  }

  /** A file is named in the same way, and its record is its size in four bytes and then its bytes. */
  lemma FileNameBytes(img: seq<Byte>, off: nat, t: Tree, i: nat, name: nat)
    requires Reads(img, off, t) && i < |t.files| && off + 4 + 8 * (|t.dirs| + |t.files|) <= |img|
    requires var p := off + 4 + 8 * (|t.dirs| + i);
      name == img[p] as int + 0x100 * img[p + 1] as int + 0x1_0000 * img[p + 2] as int + 0x100_0000 * img[p + 3] as int
    ensures var n := |t.files[i].name|; name + n < |img| && img[name..name + n] == t.files[i].name && img[name + n] == 0
  {
    assert FileEntry(img, off + 4, off + 4 + 8 * (|t.dirs| + |t.files|), |t.dirs| + i, t.files[i]);
    WordBytes(img, off + 4 + 8 * (|t.dirs| + i));
  }

  lemma FileBytes(img: seq<Byte>, off: nat, t: Tree, i: nat, record: nat)
    requires Reads(img, off, t) && i < |t.files| && off + 4 + 8 * (|t.dirs| + |t.files|) <= |img|
    requires var p := off + 8 + 8 * (|t.dirs| + i);
      record == img[p] as int + 0x100 * img[p + 1] as int + 0x1_0000 * img[p + 2] as int + 0x100_0000 * img[p + 3] as int
    ensures var data := t.files[i].data;
      && record % 4 == 0 && record + 4 + |data| <= |img|
      && img[record] as int + 0x100 * img[record + 1] as int + 0x1_0000 * img[record + 2] as int + 0x100_0000 * img[record + 3] as int == |data|
      && img[record + 4..record + 4 + |data|] == data
  {
    assert FileEntry(img, off + 4, off + 4 + 8 * (|t.dirs| + |t.files|), |t.dirs| + i, t.files[i]);
    WordBytes(img, off + 8 + 8 * (|t.dirs| + i));
    WordBytes(img, record);
  }

  /** The bytes of `img` from `lo` on are still there in `img'`. */
  ghost predicate Keeps(img: seq<Byte>, img': seq<Byte>, lo: nat) {
    |img| <= |img'| && forall p :: lo <= p < |img| ==> img'[p] == img[p]
  }

  lemma U32Keeps(img: seq<Byte>, img': seq<Byte>, lo: nat, p: nat)
    requires Keeps(img, img', lo) && lo <= p && p + 4 <= |img|
    ensures U32(img', p) == U32(img, p)
  {
  }

  lemma SliceKeeps(img: seq<Byte>, img': seq<Byte>, lo: nat, p: nat, q: nat)
    requires Keeps(img, img', lo) && lo <= p <= q <= |img|
    ensures img'[p..q] == img[p..q]
  {
  }

  lemma NamedKeeps(img: seq<Byte>, img': seq<Byte>, table: nat, lo: nat, k: nat, name: seq<Byte>)
    requires Named(img, table, lo, k, name) && Keeps(img, img', lo) && U32(img', table + 8 * k) == U32(img, table + 8 * k)
    ensures Named(img', table, lo, k, name)
  {
    var o := U32(img, table + 8 * k);
    SliceKeeps(img, img', lo, o, o + |name|);
  }

  lemma FiledKeeps(img: seq<Byte>, img': seq<Byte>, table: nat, lo: nat, k: nat, data: seq<Byte>)
    requires Filed(img, table, lo, k, data) && Keeps(img, img', lo) && U32(img', table + 8 * k + 4) == U32(img, table + 8 * k + 4)
    ensures Filed(img', table, lo, k, data)
  {
    var o := U32(img, table + 8 * k + 4);
    U32Keeps(img, img', lo, o);
    SliceKeeps(img, img', lo, o + 4, o + 4 + |data|);
  }

  lemma FileEntryKeeps(img: seq<Byte>, img': seq<Byte>, table: nat, lo: nat, k: nat, f: File)
    requires FileEntry(img, table, lo, k, f) && Keeps(img, img', table)
    ensures FileEntry(img', table, lo, k, f)
  {
    U32Keeps(img, img', table, table + 8 * k);
    U32Keeps(img, img', table, table + 8 * k + 4);
    NamedKeeps(img, img', table, lo, k, f.name);
    FiledKeeps(img, img', table, lo, k, f.data);
  }

  lemma {:induction false} DirEntryKeeps(img: seq<Byte>, img': seq<Byte>, table: nat, lo: nat, i: nat, s: Sub)
    requires DirEntry(img, table, lo, i, s) && Keeps(img, img', table)
    ensures DirEntry(img', table, lo, i, s)
    decreases s
  {
    hide Reads;
    U32Keeps(img, img', table, table + 8 * i);
    U32Keeps(img, img', table, table + 8 * i + 4);
    NamedKeeps(img, img', table, lo, i, s.name);
    ReadsKeeps(img, img', U32(img, table + 8 * i + 4), s.tree);
  }

  /** Nothing written later, or earlier in the image, changes what a directory record leads to. */
  lemma {:induction false} ReadsKeeps(img: seq<Byte>, img': seq<Byte>, off: nat, t: Tree)
    requires Reads(img, off, t) && Keeps(img, img', off)
    ensures Reads(img', off, t)
    decreases t
  {
    hide U32, DirEntry, FileEntry;
    var d, f := |t.dirs|, |t.files|;
    var table, lo := off + 4, off + 4 + 8 * (d + f);
    forall i | 0 <= i < d ensures DirEntry(img', table, lo, i, t.dirs[i]) {
      DirEntryKeeps(img, img', table, lo, i, t.dirs[i]);
    }
    forall i | 0 <= i < f ensures FileEntry(img', table, lo, d + i, t.files[i]) {
      FileEntryKeeps(img, img', table, lo, d + i, t.files[i]);
    }
  }

  lemma StringUnique(img: seq<Byte>, o: nat, a: seq<Byte>, b: seq<Byte>)
    requires StringAt(img, o, a) && StringAt(img, o, b)
    ensures a == b
  {
  }

  /** The offsets lead to one tree only, so what is read is what was written. */
  lemma {:induction false} ReadsUnique(img: seq<Byte>, off: nat, t: Tree, u: Tree)
    requires Reads(img, off, t) && Reads(img, off, u)
    ensures t == u
    decreases t
  {
    hide U32, DirEntry, FileEntry;
    var d, f := |t.dirs|, |t.files|;
    var table, lo := off + 4, off + 4 + 8 * (d + f);
    forall i | 0 <= i < d ensures t.dirs[i] == u.dirs[i] {
      DirUnique(img, table, lo, i, t.dirs[i], u.dirs[i]);
    }
    forall i | 0 <= i < f ensures t.files[i] == u.files[i] {
      FileUnique(img, table, lo, d + i, t.files[i], u.files[i]);
    }
  }

  lemma {:induction false} DirUnique(img: seq<Byte>, table: nat, lo: nat, i: nat, a: Sub, b: Sub)
    requires DirEntry(img, table, lo, i, a) && DirEntry(img, table, lo, i, b)
    ensures a == b
    decreases a
  {
    hide Reads;
    StringUnique(img, U32(img, table + 8 * i), a.name, b.name);
    ReadsUnique(img, U32(img, table + 8 * i + 4), a.tree, b.tree);
  }

  lemma FileUnique(img: seq<Byte>, table: nat, lo: nat, k: nat, a: File, b: File)
    requires FileEntry(img, table, lo, k, a) && FileEntry(img, table, lo, k, b)
    ensures a == b
  {
    StringUnique(img, U32(img, table + 8 * k), a.name, b.name);
  }

  /** `img'` is `img` with the number `v` written over the four bytes at `p`. */
  function Patched(img: seq<Byte>, p: nat, v: nat): (img': seq<Byte>)
    requires p + 4 <= |img|
    ensures |img'| == |img|
  {
    img[..p] + LE32(v) + img[p + 4..]
  }

  lemma PatchReads(img: seq<Byte>, p: nat, v: nat, q: nat)
    requires p + 4 <= |img| && q + 4 <= |img|
    ensures v < 0x1_0000_0000 && q == p ==> U32(Patched(img, p, v), q) == v
    ensures q + 4 <= p || p + 4 <= q ==> U32(Patched(img, p, v), q) == U32(img, q)
    ensures Keeps(img, Patched(img, p, v), p + 4) && Patched(img, p, v)[..p] == img[..p]
  {
    var img' := Patched(img, p, v);
    assert img'[p..p + 4] == LE32(v);
    if v < 0x1_0000_0000 {
      Decoded32(img', p, v);
    }
    hide LE32;
  }

  // Writing one table slot and the tail leaves everything else alone.

  /** `img'` is `img` but for the four bytes at `slot` and what has been appended. */
  ghost predicate Touch(img: seq<Byte>, img': seq<Byte>, slot: nat) {
    |img| <= |img'| && forall p :: 0 <= p < |img| && (p < slot || slot + 4 <= p) ==> img'[p] == img[p]
  }

  lemma TouchU32(img: seq<Byte>, img': seq<Byte>, slot: nat, p: nat)
    requires Touch(img, img', slot) && p + 4 <= |img| && (p + 4 <= slot || slot + 4 <= p)
    ensures U32(img', p) == U32(img, p)
  {
  }

  lemma TouchKeeps(img: seq<Byte>, img': seq<Byte>, slot: nat, lo: nat)
    requires Touch(img, img', slot) && slot + 4 <= lo
    ensures Keeps(img, img', lo)
  {
  }

  lemma PatchTouches(img: seq<Byte>, p: nat, v: nat, img': seq<Byte>)
    requires p + 4 <= |img| <= |img'| && img'[..|img|] == Patched(img, p, v)
    ensures Touch(img, img', p)
  {
    hide LE32;
    var m := Patched(img, p, v);
    assert forall q :: 0 <= q < |img| ==> img'[q] == m[q];
  }

  function EntryName(t: Tree, k: nat): seq<Byte>
    requires k < |t.dirs| + |t.files|
  {
    if k < |t.dirs| then t.dirs[k].name else t.files[k - |t.dirs|].name
  }

  /** How far the directory record at `off` is written: its counts, `names` of its names, and the
      data of `files` of its files and `dirs` of its subdirectories. */
  ghost predicate Stage(img: seq<Byte>, off: nat, t: Tree, names: nat, files: nat, dirs: nat) {
    var d, f := |t.dirs|, |t.files|;
    var table, lo := off + 4, off + 4 + 8 * (d + f);
    && names <= d + f && files <= f && dirs <= d
    && off % 4 == 0 && lo <= |img|
    && U16(img, off) == d && U16(img, off + 2) == f
    && (|img| <= 0x1_0000_0000 ==>
          && (forall k :: 0 <= k < names ==> Named(img, table, lo, k, EntryName(t, k)))
          && (forall j :: 0 <= j < files ==> FiledAs(img, off, t, j))
          && (forall i :: 0 <= i < dirs ==> Led(img, table, lo, i, t.dirs[i].tree)))
  }

  ghost predicate FiledAs(img: seq<Byte>, off: nat, t: Tree, j: nat)
    requires j < |t.files|
  {
    var d := |t.dirs|;
    Filed(img, off + 4, off + 4 + 8 * (d + |t.files|), d + j, t.files[j].data)
  }

  /** Table entry `i` leads to the record of a directory. */
  ghost predicate Led(img: seq<Byte>, table: nat, lo: nat, i: nat, t: Tree) {
    table + 8 * i + 8 <= lo <= |img| && lo <= U32(img, table + 8 * i + 4) && Reads(img, U32(img, table + 8 * i + 4), t)
  }

  lemma NamedTouch(img: seq<Byte>, img': seq<Byte>, slot: nat, table: nat, lo: nat, k: nat, name: seq<Byte>)
    requires Named(img, table, lo, k, name) && Touch(img, img', slot) && slot + 4 <= lo
    requires table + 8 * k + 4 <= slot || slot + 4 <= table + 8 * k
    ensures Named(img', table, lo, k, name)
  {
    TouchU32(img, img', slot, table + 8 * k);
    TouchKeeps(img, img', slot, lo);
    NamedKeeps(img, img', table, lo, k, name);
  }

  lemma FiledTouch(img: seq<Byte>, img': seq<Byte>, slot: nat, table: nat, lo: nat, k: nat, data: seq<Byte>)
    requires Filed(img, table, lo, k, data) && Touch(img, img', slot) && slot + 4 <= lo
    requires table + 8 * k + 8 <= slot || slot + 4 <= table + 8 * k + 4
    ensures Filed(img', table, lo, k, data)
  {
    TouchU32(img, img', slot, table + 8 * k + 4);
    TouchKeeps(img, img', slot, lo);
    FiledKeeps(img, img', table, lo, k, data);
  }

  lemma LedTouch(img: seq<Byte>, img': seq<Byte>, slot: nat, table: nat, lo: nat, i: nat, t: Tree)
    requires Led(img, table, lo, i, t) && Touch(img, img', slot) && slot + 4 <= lo
    requires table + 8 * i + 8 <= slot || slot + 4 <= table + 8 * i + 4
    ensures Led(img', table, lo, i, t)
  {
    hide Reads;
    var o := U32(img, table + 8 * i + 4);
    TouchU32(img, img', slot, table + 8 * i + 4);
    TouchKeeps(img, img', slot, o);
    ReadsKeeps(img, img', o, t);
  }

  /** Writing a slot whose turn has not come yet keeps the stage reached. */
  lemma StageTouch(img: seq<Byte>, img': seq<Byte>, off: nat, t: Tree, names: nat, files: nat, dirs: nat, k: nat, data: bool)
    requires Stage(img, off, t, names, files, dirs) && k < |t.dirs| + |t.files|
    requires Touch(img, img', off + 4 + 8 * k + if data then 4 else 0)
    requires if !data then names <= k else if k < |t.dirs| then dirs <= k else |t.dirs| + files <= k
    ensures Stage(img', off, t, names, files, dirs)
  {
    hide Named, Filed, Led, U32, EntryName;
    var d, f := |t.dirs|, |t.files|;
    var table, lo := off + 4, off + 4 + 8 * (d + f);
    var slot := table + 8 * k + if data then 4 else 0;
    if |img'| <= 0x1_0000_0000 {
      forall j | 0 <= j < names ensures Named(img', table, lo, j, EntryName(t, j)) {
        NamedTouch(img, img', slot, table, lo, j, EntryName(t, j));
      }
      forall j | 0 <= j < files ensures FiledAs(img', off, t, j) {
        assert FiledAs(img, off, t, j);
        FiledTouch(img, img', slot, table, lo, d + j, t.files[j].data);
      }
      forall i | 0 <= i < dirs ensures Led(img', table, lo, i, t.dirs[i].tree) {
        LedTouch(img, img', slot, table, lo, i, t.dirs[i].tree);
      }
    }
  }

  /** A finished record reads back as the tree. */
  lemma StageDone(img: seq<Byte>, off: nat, t: Tree)
    requires Stage(img, off, t, |t.dirs| + |t.files|, |t.files|, |t.dirs|) && |img| <= 0x1_0000_0000
    ensures Reads(img, off, t)
  {
    var d, f := |t.dirs|, |t.files|;
    var table, lo := off + 4, off + 4 + 8 * (d + f);
    hide U32, DirEntry, FileEntry, Named, Filed, Led;
    forall i | 0 <= i < d ensures DirEntry(img, table, lo, i, t.dirs[i]) {
      assert EntryName(t, i) == t.dirs[i].name;
      DirEntryFrom(img, table, lo, i, t.dirs[i]);
    }
    forall i | 0 <= i < f ensures FileEntry(img, table, lo, d + i, t.files[i]) {
      assert EntryName(t, d + i) == t.files[i].name && FiledAs(img, off, t, i);
      FileEntryFrom(img, table, lo, d + i, t.files[i]);
    }
  }

  lemma DirEntryFrom(img: seq<Byte>, table: nat, lo: nat, i: nat, s: Sub)
    requires Named(img, table, lo, i, s.name) && Led(img, table, lo, i, s.tree)
    ensures DirEntry(img, table, lo, i, s)
  {
  }

  lemma FileEntryFrom(img: seq<Byte>, table: nat, lo: nat, k: nat, f: File)
    requires Named(img, table, lo, k, f.name) && Filed(img, table, lo, k, f.data)
    ensures FileEntry(img, table, lo, k, f)
  {
  }

  /** A file record at the tail: its size and its bytes can be read back, whatever follows. */
  lemma RecordWritten(img: seq<Byte>, data: seq<Byte>, written: seq<Byte>, img': seq<Byte>)
    requires written == img + LE32(|data|) + data && |written| <= |img'| && img'[..|written|] == written
    ensures img'[..|img|] == img && img'[|img| + 4..|img| + 4 + |data|] == data
    ensures |img'| <= 0x1_0000_0000 ==> U32(img', |img|) == |data|
  {
    hide LE32, U32;
    var n := |img|;
    assert img'[..n] == written[..n] == img;
    assert img'[n..n + 4] == written[n..n + 4] == LE32(|data|);
    assert img'[n + 4..n + 4 + |data|] == written[n + 4..n + 4 + |data|] == data;
    if |img'| <= 0x1_0000_0000 {
      Decoded32(img', n, |data|);
    }
  }

  class Image {
    var bytes: seq<Byte>
    const garbage: nat -> Byte     // what lies behind the padding variable in memory

    constructor (garbage: nat -> Byte)
      ensures bytes == [] && this.garbage == garbage
    {
      bytes := [];
      this.garbage := garbage;
    }

    /** Seek to `p`, write a number there, and seek back to the tail. */
    method Patch(p: nat, v: nat)
      requires p + 4 <= |bytes|
      modifies this
      ensures bytes == Patched(old(bytes), p, v)
    {
      bytes := bytes[..p] + LE32(v) + bytes[p + 4..];
    }

    /** padding_4bytes */
    method Pad()
      modifies this
      ensures |bytes| % 4 == 0 && |old(bytes)| <= |bytes| < |old(bytes)| + 4 && bytes[..|old(bytes)|] == old(bytes)
    {
      if |bytes| % 4 != 0 {
        var n := 4 - |bytes| % 4;
        bytes := bytes + seq(n, i requires 0 <= i < n => garbage(i));
      }
    }

    /** One entry of build_name_list: the table gets the offset, the tail the string. */
    method WriteName(table: nat, ghost lo: nat, k: nat, name: seq<Byte>)
      requires table + 8 * k + 8 <= lo <= |bytes| && 0 !in name
      modifies this
      ensures Touch(old(bytes), bytes, table + 8 * k)
      ensures |bytes| <= 0x1_0000_0000 ==> Named(bytes, table, lo, k, name)
    {
      var pos := |bytes|;
      PatchReads(bytes, table + 8 * k, pos, table + 8 * k);
      Patch(table + 8 * k, pos);
      ghost var patched := bytes;
      bytes := bytes + name + [0];
      assert bytes[pos..pos + |name|] == name && bytes[..pos] == patched;
      PatchTouches(old(bytes), table + 8 * k, pos, bytes);
    }

    /** One entry of build_file with write_file_binary: the table gets the offset, the tail the
        size, the bytes and padding. */
    method WriteFile(table: nat, ghost lo: nat, k: nat, data: seq<Byte>)
      requires table + 8 * k + 8 <= lo <= |bytes| && |bytes| % 4 == 0
      modifies this
      ensures |bytes| % 4 == 0 && Touch(old(bytes), bytes, table + 8 * k + 4)
      ensures |bytes| <= 0x1_0000_0000 ==> Filed(bytes, table, lo, k, data)
    {
      hide LE32, U32, Touch;
      var pos := |bytes|;
      PatchReads(bytes, table + 8 * k + 4, pos, table + 8 * k + 4);
      Patch(table + 8 * k + 4, pos);
      ghost var patched := bytes;
      bytes := bytes + LE32(|data|) + data;
      ghost var written := bytes;
      Pad();
      RecordWritten(patched, data, written, bytes);
      PatchTouches(old(bytes), table + 8 * k + 4, pos, bytes);
      PrefixU32(patched, bytes, table + 8 * k + 4);
    }

    /** build_name_list */
    method BuildNames(off: nat, t: Tree)
      requires Stage(bytes, off, t, 0, 0, 0) && Writable(t)
      modifies this
      ensures |bytes| % 4 == 0 && |bytes| >= |old(bytes)| && bytes[..off] == old(bytes)[..off]
      ensures Stage(bytes, off, t, |t.dirs| + |t.files|, 0, 0)
    {
      hide Named, Touch, U32, U16;
      var d, f := |t.dirs|, |t.files|;
      ghost var lo := off + 4 + 8 * (d + f);
      for i := 0 to d
        invariant Stage(bytes, off, t, i, 0, 0) && |bytes| >= |old(bytes)| && bytes[..off] == old(bytes)[..off]
      {
        ghost var img := bytes;
        WriteName(off + 4, lo, i, t.dirs[i].name);
        NameStep(img, bytes, off, t, i);
      }
      for i := 0 to f
        invariant Stage(bytes, off, t, d + i, 0, 0) && |bytes| >= |old(bytes)| && bytes[..off] == old(bytes)[..off]
      {
        ghost var img := bytes;
        WriteName(off + 4, lo, d + i, t.files[i].name);
        NameStep(img, bytes, off, t, d + i);
      }
      ghost var img := bytes;
      Pad();
      AppendStage(img, bytes, off, t, d + f, 0, 0);
    }

    /** build_file */
    method BuildFiles(off: nat, t: Tree)
      requires Stage(bytes, off, t, |t.dirs| + |t.files|, 0, 0) && |bytes| % 4 == 0
      modifies this
      ensures |bytes| % 4 == 0 && |bytes| >= |old(bytes)| && bytes[..off] == old(bytes)[..off]
      ensures Stage(bytes, off, t, |t.dirs| + |t.files|, |t.files|, 0)
    {
      hide Named, Filed, Touch, U32, U16;
      var d, f := |t.dirs|, |t.files|;
      ghost var lo := off + 4 + 8 * (d + f);
      for i := 0 to f
        invariant Stage(bytes, off, t, d + f, i, 0) && |bytes| % 4 == 0
        invariant |bytes| >= |old(bytes)| && bytes[..off] == old(bytes)[..off]
      {
        ghost var img := bytes;
        WriteFile(off + 4, lo, d + i, t.files[i].data);
        FileStep(img, bytes, off, t, i);
      }
    }

    /** build_tree */
    method BuildTrees(off: nat, t: Tree)
      requires Stage(bytes, off, t, |t.dirs| + |t.files|, |t.files|, 0) && |bytes| % 4 == 0 && Writable(t)
      modifies this
      ensures |bytes| % 4 == 0 && |bytes| >= |old(bytes)| && bytes[..off] == old(bytes)[..off]
      ensures Stage(bytes, off, t, |t.dirs| + |t.files|, |t.files|, |t.dirs|)
      decreases t, 0
    {
      hide Named, Filed, Touch, U32, U16, Reads, Led;
      var d, f := |t.dirs|, |t.files|;
      for i := 0 to d
        invariant Stage(bytes, off, t, d + f, f, i) && |bytes| % 4 == 0
        invariant |bytes| >= |old(bytes)| && bytes[..off] == old(bytes)[..off]
      {
        ghost var img := bytes;
        var pos := |bytes|;
        Patch(off + 4 + 8 * i + 4, pos);
        SerializeTree(t.dirs[i].tree);
        DirStep(img, bytes, off, t, i);
      }
    }

    /** serialize_tree: whatever was in the image stays, and a reader starting where the new part
        begins gets back the whole tree. */
    method SerializeTree(t: Tree)
      requires |bytes| % 4 == 0 && Writable(t)
      modifies this
      ensures |bytes| % 4 == 0 && |bytes| >= |old(bytes)| && bytes[..|old(bytes)|] == old(bytes)
      ensures |bytes| <= 0x1_0000_0000 ==> Reads(bytes, |old(bytes)|, t)
      decreases t, 1
    {
      hide Stage, Reads;
      var off := |bytes|;
      bytes := bytes + LE16(|t.dirs|) + LE16(|t.files|);
      for i := 0 to |t.dirs| + |t.files|
        invariant |bytes| == off + 4 + 8 * i && bytes[..off] == old(bytes)
        invariant bytes[off..off + 2] == LE16(|t.dirs|) && bytes[off + 2..off + 4] == LE16(|t.files|)
      {
        var empty: seq<Byte> := [0, 0, 0, 0, 0, 0, 0, 0];
        bytes := bytes + empty;
      }
      StageStart(bytes, off, t);
      BuildNames(off, t);
      BuildFiles(off, t);
      BuildTrees(off, t);
      if |bytes| <= 0x1_0000_0000 {
        StageDone(bytes, off, t);
      }
    }
  }

  lemma StageStart(img: seq<Byte>, off: nat, t: Tree)
    requires Writable(t) && off % 4 == 0 && |img| == off + 4 + 8 * (|t.dirs| + |t.files|)
    requires img[off..off + 2] == LE16(|t.dirs|) && img[off + 2..off + 4] == LE16(|t.files|)
    ensures Stage(img, off, t, 0, 0, 0)
  {
    hide LE16, U16;
    Decoded16(img, off, |t.dirs|);
    Decoded16(img, off + 2, |t.files|);
  }

  /** Appending keeps every stage. */
  lemma AppendStage(img: seq<Byte>, img': seq<Byte>, off: nat, t: Tree, names: nat, files: nat, dirs: nat)
    requires Stage(img, off, t, names, files, dirs) && |img| <= |img'| && img'[..|img|] == img
    ensures Stage(img', off, t, names, files, dirs)
  {
    hide Named, Filed, Led, U32, EntryName;
    var d, f := |t.dirs|, |t.files|;
    var table, lo := off + 4, off + 4 + 8 * (d + f);
    assert forall p :: 0 <= p < |img| ==> img'[p] == img'[..|img|][p];
    if |img'| <= 0x1_0000_0000 {
      forall j | 0 <= j < names ensures Named(img', table, lo, j, EntryName(t, j)) {
        NamedTouch(img, img', off, table, lo, j, EntryName(t, j));
      }
      forall j | 0 <= j < files ensures FiledAs(img', off, t, j) {
        assert FiledAs(img, off, t, j);
        FiledTouch(img, img', off, table, lo, d + j, t.files[j].data);
      }
      forall i | 0 <= i < dirs ensures Led(img', table, lo, i, t.dirs[i].tree) {
        LedTouch(img, img', off, table, lo, i, t.dirs[i].tree);
      }
    }
  }

  lemma TouchPrefix(img: seq<Byte>, img': seq<Byte>, slot: nat, n: nat)
    requires Touch(img, img', slot) && n <= slot && n <= |img|
    ensures |img'| >= |img| && img'[..n] == img[..n]
  {
  }

  lemma NameStep(img: seq<Byte>, img': seq<Byte>, off: nat, t: Tree, k: nat)
    requires Stage(img, off, t, k, 0, 0) && k < |t.dirs| + |t.files| && Touch(img, img', off + 4 + 8 * k)
    requires |img'| <= 0x1_0000_0000 ==> Named(img', off + 4, off + 4 + 8 * (|t.dirs| + |t.files|), k, EntryName(t, k))
    ensures Stage(img', off, t, k + 1, 0, 0) && |img'| >= |img| && img'[..off] == img[..off]
  {
    hide Named, Touch, EntryName, U16;
    StageTouch(img, img', off, t, k, 0, 0, k, false);
    TouchPrefix(img, img', off + 4 + 8 * k, off);
  }

  lemma FileStep(img: seq<Byte>, img': seq<Byte>, off: nat, t: Tree, j: nat)
    requires j < |t.files| && Stage(img, off, t, |t.dirs| + |t.files|, j, 0)
    requires Touch(img, img', off + 4 + 8 * (|t.dirs| + j) + 4)
    requires |img'| <= 0x1_0000_0000 ==> FiledAs(img', off, t, j)
    ensures Stage(img', off, t, |t.dirs| + |t.files|, j + 1, 0) && |img'| >= |img| && img'[..off] == img[..off]
  {
    hide Named, Touch, FiledAs, EntryName, U16;
    StageTouch(img, img', off, t, |t.dirs| + |t.files|, j, 0, |t.dirs| + j, true);
    TouchPrefix(img, img', off + 4 + 8 * (|t.dirs| + j) + 4, off);
  }

  lemma StageNext(img: seq<Byte>, off: nat, t: Tree, i: nat)
    requires i < |t.dirs| && Stage(img, off, t, |t.dirs| + |t.files|, |t.files|, i)
    requires |img| <= 0x1_0000_0000 ==> Led(img, off + 4, off + 4 + 8 * (|t.dirs| + |t.files|), i, t.dirs[i].tree)
    ensures Stage(img, off, t, |t.dirs| + |t.files|, |t.files|, i + 1)
  {
    hide Named, FiledAs, Led, EntryName, U16;
  }

  lemma DirStep(img: seq<Byte>, img': seq<Byte>, off: nat, t: Tree, i: nat)
    requires i < |t.dirs| && Stage(img, off, t, |t.dirs| + |t.files|, |t.files|, i)
    requires off + 4 + 8 * (|t.dirs| + |t.files|) <= |img| <= |img'|
    requires img'[..|img|] == Patched(img, off + 4 + 8 * i + 4, |img|)
    requires |img'| <= 0x1_0000_0000 ==> Reads(img', |img|, t.dirs[i].tree)
    ensures Stage(img', off, t, |t.dirs| + |t.files|, |t.files|, i + 1) && img'[..off] == img[..off]
  {
    hide Stage, Touch, Reads, DirEntry, FileEntry, Led, Patched;
    var slot := off + 4 + 8 * i + 4;
    PatchTouches(img, slot, |img|, img');
    StageTouch(img, img', off, t, |t.dirs| + |t.files|, |t.files|, i, i, true);
    TouchPrefix(img, img', slot, off);
    if |img'| <= 0x1_0000_0000 {
      DirLed(img, img', off + 4, off + 4 + 8 * (|t.dirs| + |t.files|), i, t.dirs[i].tree);
    }
    StageNext(img', off, t, i);
  }

  lemma DirLed(img: seq<Byte>, img': seq<Byte>, table: nat, lo: nat, i: nat, sub: Tree)
    requires table + 8 * i + 8 <= lo <= |img| <= |img'| <= 0x1_0000_0000
    requires img'[..|img|] == Patched(img, table + 8 * i + 4, |img|) && Reads(img', |img|, sub)
    ensures Led(img', table, lo, i, sub)
  {
    hide Reads, Patched, U32, DirEntry, FileEntry;
    ReadsInside(img', |img|, sub);
    var slot := table + 8 * i + 4;
    PatchReads(img, slot, |img|, slot);
    PrefixU32(Patched(img, slot, |img|), img', slot);
  }

  lemma ReadsInside(img: seq<Byte>, off: nat, t: Tree)
    requires Reads(img, off, t)
    ensures off + 4 <= |img|
  {
  }

  lemma PrefixU32(img: seq<Byte>, img': seq<Byte>, p: nat)
    requires |img| <= |img'| && img'[..|img|] == img && p + 4 <= |img|
    ensures U32(img', p) == U32(img, p)
  {
    assert forall q :: 0 <= q < |img| ==> img'[q] == img'[..|img|][q];
  }

  /** The round trip: an image that fits 32-bit offsets reads back as the tree it was made from and
      as no other, whatever the padding holds. */
  method Serialize(t: Tree, garbage: nat -> Byte) returns (img: seq<Byte>)
    requires Writable(t)
    ensures |img| % 4 == 0
    ensures |img| <= 0x1_0000_0000 ==> forall u :: Reads(img, 0, u) <==> u == t
  {
    hide Reads, Writable;
    var image := new Image(garbage);
    image.SerializeTree(t);
    img := image.bytes;
    if |img| <= 0x1_0000_0000 {
      forall u | Reads(img, 0, u) ensures u == t {
        ReadsUnique(img, 0, u, t);
      }
    }
  }
}
