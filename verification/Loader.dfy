/** Relocation in the module loader: Thumb branches and absolute words are patched in place. */
module Loader {
  import opened Lists

  /** A halfword of memory. */
  type Half = h: bv32 | h & 0xFFFF_0000 == 0

  // The branch encoding of section A7.7.18 of the ARMv7-M Architecture Reference Manual.

  /** The 25 displacement bits that a BL or B.W instruction holds. */
  function Bits(u: Half, l: Half): bv32 {
    (((u >> 10) & 1) << 24) | (((((l >> 13) & 1) ^ ((u >> 10) & 1)) ^ 1) << 23) | (((((l >> 11) & 1) ^ ((u >> 10) & 1)) ^ 1) << 22)
      | ((u & 0x3FF) << 12) | ((l & 0x7FF) << 1)
  }

  /** The displacement: its bits, sign extended. */
  function Displacement(u: Half, l: Half): bv32 {
    var offset := Bits(u, l);
    if offset & 0x100_0000 != 0 then offset - 0x200_0000 else offset
  }

  lemma Borrow(b: bv32)
    requires b & 0x100_0000 != 0 && b & 0xFE00_0000 == 0
    ensures b - 0x200_0000 == b | 0xFE00_0000
  {
  }

  lemma BitsRange(u: Half, l: Half)
    ensures Bits(u, l) & 0xFE00_0000 == 0
  {
  }

  lemma Extended(u: Half, l: Half)
    ensures Displacement(u, l) == if Bits(u, l) & 0x100_0000 != 0 then Bits(u, l) | 0xFE00_0000 else Bits(u, l)
  {
    BitsRange(u, l);
    hide Bits;
    if Bits(u, l) & 0x100_0000 != 0 {
      Borrow(Bits(u, l));
    }
  }

  /** Bits 1 to 11 of the displacement are the immediate imm11 of the instruction. */
  lemma DisplacementImm11(u: Half, l: Half)
    ensures (Displacement(u, l) >> 1) & 0x7FF == l & 0x7FF && Displacement(u, l) & 1 == 0
  {
    hide Displacement;
    Extended(u, l);
  }

  /** Bits 12 to 21 are the immediate imm10. */
  lemma DisplacementImm10(u: Half, l: Half)
    ensures (Displacement(u, l) >> 12) & 0x3FF == u & 0x3FF
  {
    hide Displacement;
    Extended(u, l);
  }

  /** J2 and J1 say whether bits 22 and 23 of the displacement are set, by agreeing with the sign S. */
  lemma DisplacementJ(u: Half, l: Half)
    ensures ((Displacement(u, l) >> 22) & 1 == 1) == ((l >> 11) & 1 == (u >> 10) & 1)
    ensures ((Displacement(u, l) >> 23) & 1 == 1) == ((l >> 13) & 1 == (u >> 10) & 1)
  {
    hide Displacement;
    Extended(u, l);
  }

  /** The sign S fills the displacement from bit 24 up. */
  lemma DisplacementSign(u: Half, l: Half)
    ensures (u >> 10) & 1 == 1 ==> Displacement(u, l) >> 24 == 0xFF
    ensures (u >> 10) & 1 == 0 ==> Displacement(u, l) >> 24 == 0
  {
    hide Displacement;
    Extended(u, l);
  }

  /** The upper halfword with the displacement bits of `o`. */
  function Upper(u: Half, o: bv32): Half {
    UpperHalf(u, o);
    (u & 0xF800) | (((o >> 24) & 1) << 10) | ((o >> 12) & 0x3FF)
  }

  /** The lower halfword with the displacement bits of `o`. */
  function Lower(l: Half, o: bv32): Half {
    LowerHalf(l, o);
    (l & 0xD000) | ((((o >> 24) & 1) ^ (((o >> 23) & 1) ^ 1)) << 13) | ((((o >> 24) & 1) ^ (((o >> 22) & 1) ^ 1)) << 11) | ((o >> 1) & 0x7FF)
  }

  lemma UpperHalf(u: bv32, o: bv32)
    ensures ((u & 0xF800) | (((o >> 24) & 1) << 10) | ((o >> 12) & 0x3FF)) & 0xFFFF_0000 == 0
  {
  }

  lemma LowerHalf(l: bv32, o: bv32)
    ensures ((l & 0xD000) | ((((o >> 24) & 1) ^ (((o >> 23) & 1) ^ 1)) << 13) | ((((o >> 24) & 1) ^ (((o >> 22) & 1) ^ 1)) << 11)
      | ((o >> 1) & 0x7FF)) & 0xFFFF_0000 == 0
  {
  }

  /** A displacement with bit 0 cleared. */
  function Even(o: bv32): bv32 { o & 0xFFFF_FFFE }

  /** The bits that say which instruction it is are the same. */
  predicate SameOpcode(u: Half, l: Half, u': Half, l': Half) { u' & 0xF800 == u & 0xF800 && l' & 0xD000 == l & 0xD000 }

  /** A signed 25-bit number in two's complement. */
  predicate Fits25(x: bv32) { x < 0x100_0000 || x >= 0xFF00_0000 }

  lemma WrittenBits(u0: bv32, l0: bv32, o: bv32, u: bv32, l: bv32)
    requires u == (u0 & 0xF800) | (((o >> 24) & 1) << 10) | ((o >> 12) & 0x3FF)
    requires l == (l0 & 0xD000) | ((((o >> 24) & 1) ^ (((o >> 23) & 1) ^ 1)) << 13) | ((((o >> 24) & 1) ^ (((o >> 22) & 1) ^ 1)) << 11)
      | ((o >> 1) & 0x7FF)
    ensures (((u >> 10) & 1) << 24) | (((((l >> 13) & 1) ^ ((u >> 10) & 1)) ^ 1) << 23) | (((((l >> 11) & 1) ^ ((u >> 10) & 1)) ^ 1) << 22)
      | ((u & 0x3FF) << 12) | ((l & 0x7FF) << 1) == o & 0x1FF_FFFE
  {
  }

  /** What is written into a branch is what is read back: the low 25 bits with bit 0 cleared. */
  lemma BitsWritten(u: Half, l: Half, o: bv32)
    ensures Bits(Upper(u, o), Lower(l, o)) == o & 0x1FF_FFFE
  {
    WrittenBits(u, l, o, Upper(u, o), Lower(l, o));
  }

  lemma Negative(o: bv32)
    requires o & 0x100_0000 != 0
    ensures (o & 0x1FF_FFFE) & 0x100_0000 != 0 && (o & 0x1FF_FFFE) & 0xFE00_0000 == 0
    ensures (o & 0x1FF_FFFE) | 0xFE00_0000 == o & 0xFFFF_FFFE <==> o & 0xFF00_0000 == 0xFF00_0000
  {
  }

  lemma Positive(o: bv32)
    requires o & 0x100_0000 == 0
    ensures (o & 0x1FF_FFFE) & 0x100_0000 == 0
    ensures o & 0x1FF_FFFE == o & 0xFFFF_FFFE <==> o & 0xFF00_0000 == 0
  {
  }

  lemma RangeBits(o: bv32)
    ensures (o & 0xFFFF_FFFE) < 0x100_0000 <==> o & 0xFF00_0000 == 0
    ensures (o & 0xFFFF_FFFE) >= 0xFF00_0000 <==> o & 0xFF00_0000 == 0xFF00_0000
    ensures o & 0xFF00_0000 == 0xFF00_0000 ==> o & 0x100_0000 != 0
    ensures o & 0xFF00_0000 == 0 ==> o & 0x100_0000 == 0
  {
  }

  /** The displacement read back is the one asked for, bit 0 cleared, exactly when that fits 25 bits. */
  lemma DisplacementWritten(u: Half, l: Half, o: bv32)
    ensures Displacement(Upper(u, o), Lower(l, o)) == Even(o) <==> Fits25(Even(o))
  {
    hide Bits, Upper, Lower;
    BitsWritten(u, l, o);
    RangeBits(o);
    if o & 0x100_0000 != 0 {
      Negative(o);
      Borrow(o & 0x1FF_FFFE);
    } else {
      Positive(o);
    }
  }

  lemma KeptBits(u: bv32, l: bv32, o: bv32)
    ensures ((u & 0xF800) | (((o >> 24) & 1) << 10) | ((o >> 12) & 0x3FF)) & 0xF800 == u & 0xF800
    ensures ((l & 0xD000) | ((((o >> 24) & 1) ^ (((o >> 23) & 1) ^ 1)) << 13) | ((((o >> 24) & 1) ^ (((o >> 22) & 1) ^ 1)) << 11)
      | ((o >> 1) & 0x7FF)) & 0xD000 == l & 0xD000
  {
  }

  lemma OpcodeKept(u: Half, l: Half, o: bv32)
    ensures SameOpcode(u, l, Upper(u, o), Lower(l, o))
  {
    KeptBits(u, l, o);
  }

  // Relocating.

  datatype Kind = Abs32 | ThumbCall | ThumbJump | Other

  /** A relocation entry: where its two halfwords lie in memory, their address, and the address of the
      symbol, if it was found. */
  datatype Rel = Rel(at: nat, address: bv32, kind: Kind, symbol: Option<bv32>)

  function Word(lo: Half, hi: Half): bv32 { lo | (hi << 16) }

  function LowHalf(w: bv32): Half {
    Halves(w);
    w & 0xFFFF
  }

  function HighHalf(w: bv32): Half {
    Halves(w);
    w >> 16
  }

  lemma Halves(w: bv32)
    ensures (w & 0xFFFF) & 0xFFFF_0000 == 0 && (w >> 16) & 0xFFFF_0000 == 0 && (w & 0xFFFF) | ((w >> 16) << 16) == w
  {
  }

  function Gained(lo: Half, hi: Half, symbol: bv32): bv32 { Word(lo, hi) + symbol }

  /** The displacement of a branch moved from its own frame of reference to the symbol's. */
  function Moved(lo: Half, hi: Half, address: bv32, symbol: bv32): bv32 { Displacement(lo, hi) + symbol - address }

  /** What relocation makes of the two halfwords of a site. */
  function Relocated(lo: Half, hi: Half, kind: Kind, address: bv32, symbol: bv32): (Half, Half) {
    match kind
    case Abs32 => var w := Gained(lo, hi, symbol); (LowHalf(w), HighHalf(w))
    case Other => (lo, hi)
    case _ => var o := Moved(lo, hi, address, symbol); (Upper(lo, o), Lower(hi, o))
  }

  /** A word lies in memory with its low half first. */
  lemma WordHalves(lo: Half, hi: Half)
    ensures Word(lo, hi) & 0xFFFF == lo && Word(lo, hi) >> 16 == hi
  {
  }

  /** What an absolute word must become: it gains the symbol's address. */
  predicate WordMoved(lo: Half, hi: Half, lo': Half, hi': Half, symbol: bv32) {
    Word(lo', hi') == Word(lo, hi) + symbol
  }

  /** What a branch must become: its displacement grows by the distance from its site to the symbol,
      exactly when that fits, and it stays the same kind of instruction. */
  predicate BranchMoved(lo: Half, hi: Half, lo': Half, hi': Half, address: bv32, symbol: bv32) {
    var o := Displacement(lo, hi) + symbol - address;
    (Displacement(lo', hi') == Even(o) <==> Fits25(Even(o))) && SameOpcode(lo, hi, lo', hi')
  }

  lemma HalvesJoin(w: bv32)
    ensures Word(LowHalf(w), HighHalf(w)) == w
  {
    Halves(w);
  }

  lemma WordGains(lo: Half, hi: Half, address: bv32, symbol: bv32)
    ensures var r := Relocated(lo, hi, Abs32, address, symbol); WordMoved(lo, hi, r.0, r.1, symbol)
  {
    hide Moved, Upper, Lower, Word, LowHalf, HighHalf;
    HalvesJoin(Gained(lo, hi, symbol));
  }

  lemma RelocatedBranch(lo: Half, hi: Half, kind: Kind, address: bv32, symbol: bv32)
    requires kind.ThumbCall? || kind.ThumbJump?
    ensures var o := Moved(lo, hi, address, symbol);
      Relocated(lo, hi, kind, address, symbol).0 == Upper(lo, o) && Relocated(lo, hi, kind, address, symbol).1 == Lower(hi, o)
  {
    hide Moved, Upper, Lower, Gained, LowHalf, HighHalf;
  }

  lemma BranchMoves(lo: Half, hi: Half, kind: Kind, address: bv32, symbol: bv32)
    requires kind.ThumbCall? || kind.ThumbJump?
    ensures var r := Relocated(lo, hi, kind, address, symbol); BranchMoved(lo, hi, r.0, r.1, address, symbol)
  {
    hide Relocated, Upper, Lower, Displacement, Fits25, Even, SameOpcode;
    RelocatedBranch(lo, hi, kind, address, symbol);
    var o := Moved(lo, hi, address, symbol);
    DisplacementWritten(lo, hi, o);
    OpcodeKept(lo, hi, o);
  }

  ghost predicate Inside(rels: seq<Rel>, size: nat) {
    forall k :: 0 <= k < |rels| ==> rels[k].at + 2 <= size
  }

  ghost predicate Disjoint(rels: seq<Rel>) {
    forall j, k :: 0 <= j < k < |rels| ==> rels[j].at + 2 <= rels[k].at || rels[k].at + 2 <= rels[j].at
  }

  /** relocate_symbol */
  method RelocateSymbol(mem: array<Half>, r: Rel, symbol: bv32) returns (ok: bool)
    requires r.at + 2 <= mem.Length
    modifies mem
    ensures ok == !r.kind.Other?
    ensures (mem[r.at], mem[r.at + 1]) == Relocated(old(mem[r.at]), old(mem[r.at + 1]), r.kind, r.address, symbol)
    ensures forall p :: 0 <= p < mem.Length && p != r.at && p != r.at + 1 ==> mem[p] == old(mem[p])
  {
    hide Upper, Lower, Moved, Gained, LowHalf, HighHalf;
    var lo, hi := mem[r.at], mem[r.at + 1];
    match r.kind {
      case Abs32 =>
        var w := Gained(lo, hi, symbol);
        mem[r.at], mem[r.at + 1] := LowHalf(w), HighHalf(w);
      case Other => return false;
      case _ =>
        var o := Moved(lo, hi, r.address, symbol);
        mem[r.at] := Upper(lo, o);
        mem[r.at + 1] := Lower(hi, o);
    }
    return true;
  }

  /** Site `r` of memory `b` is what relocation makes of it in memory `a`. */
  ghost predicate SiteDone(a: seq<Half>, b: seq<Half>, r: Rel)
    requires |a| == |b| && r.at + 2 <= |a| && r.symbol.Some?
  {
    (b[r.at], b[r.at + 1]) == Relocated(a[r.at], a[r.at + 1], r.kind, r.address, r.symbol.value)
  }

  /** `p` lies in none of the first `n` sites. */
  ghost predicate Outside(rels: seq<Rel>, n: nat, p: int)
    requires n <= |rels|
  {
    forall k :: 0 <= k < n ==> p != rels[k].at && p != rels[k].at + 1
  }

  /** The first `n` entries, all of them workable, have been relocated and nothing else has changed. */
  ghost predicate Applied(rels: seq<Rel>, n: nat, a: seq<Half>, b: seq<Half>) {
    && n <= |rels| && |a| == |b| && Inside(rels, |a|)
    && (forall k :: 0 <= k < n ==> rels[k].symbol.Some? && !rels[k].kind.Other?)
    && (forall k :: 0 <= k < n ==> SiteDone(a, b, rels[k]))
    && (forall p :: 0 <= p < |a| && Outside(rels, n, p) ==> b[p] == a[p])
  }

  lemma AppliedNext(rels: seq<Rel>, n: nat, a: seq<Half>, b: seq<Half>, c: seq<Half>)
    requires Applied(rels, n, a, b) && n < |rels| && Disjoint(rels) && rels[n].symbol.Some? && !rels[n].kind.Other? && |c| == |a|
    requires SiteDone(b, c, rels[n]) && forall p :: 0 <= p < |b| && p != rels[n].at && p != rels[n].at + 1 ==> c[p] == b[p]
    ensures Applied(rels, n + 1, a, c)
  {
    hide Relocated;
    var r := rels[n];
    assert Outside(rels, n, r.at) && Outside(rels, n, r.at + 1);
    forall k | 0 <= k < n + 1 ensures SiteDone(a, c, rels[k]) {
      if k < n {
        assert SiteDone(a, b, rels[k]);
      }
    }
    forall p | 0 <= p < |a| && Outside(rels, n + 1, p) ensures c[p] == a[p] {
      assert Outside(rels, n, p) && p != rels[n].at && p != rels[n].at + 1;
    }
  }

  /** What the sites then hold, by their kind. */
  lemma SiteMoved(rels: seq<Rel>, n: nat, a: seq<Half>, b: seq<Half>, k: nat)
    requires Applied(rels, n, a, b) && k < n
    ensures var p, q := rels[k].at, rels[k].at + 1;
      if rels[k].kind.Abs32? then WordMoved(a[p], a[q], b[p], b[q], rels[k].symbol.value)
      else BranchMoved(a[p], a[q], b[p], b[q], rels[k].address, rels[k].symbol.value)
  {
    hide Relocated, Outside, WordMoved, BranchMoved;
    var r := rels[k];
    assert SiteDone(a, b, r);
    if r.kind.Abs32? {
      WordGains(a[r.at], a[r.at + 1], r.address, r.symbol.value);
    } else {
      BranchMoves(a[r.at], a[r.at + 1], r.kind, r.address, r.symbol.value);
    }
  }

  /** relocate: the entries are worked off in order until one cannot be; only their sites change. */
  method Relocate(mem: array<Half>, rels: seq<Rel>) returns (ok: bool, ghost done: nat)
    requires Inside(rels, mem.Length) && Disjoint(rels)
    modifies mem
    ensures done <= |rels| && (ok <==> done == |rels|)
    ensures !ok ==> rels[done].symbol.None? || rels[done].kind.Other?
    ensures Applied(rels, done, old(mem[..]), mem[..])
    ensures forall k :: 0 <= k < done ==> (
              var p, q := rels[k].at, rels[k].at + 1;
              if rels[k].kind.Abs32? then WordMoved(old(mem[p]), old(mem[q]), mem[p], mem[q], rels[k].symbol.value)
              else BranchMoved(old(mem[p]), old(mem[q]), mem[p], mem[q], rels[k].address, rels[k].symbol.value))
  {
    hide Relocated, Disjoint, WordMoved, BranchMoved;
    done := 0;
    var i := 0;
    while i < |rels|
      invariant done == i <= |rels| && Applied(rels, i, old(mem[..]), mem[..])
    {
      var r := rels[i];
      if r.symbol.None? || r.kind.Other? {
        break;
      }
      ghost var b := mem[..];
      var fine := RelocateSymbol(mem, r, r.symbol.value);
      AppliedNext(rels, i, old(mem[..]), b, mem[..]);
      i := i + 1;
      done := i;
    }
    ghost var a, b := old(mem[..]), mem[..];
    forall k | 0 <= k < done ensures (
      var p, q := rels[k].at, rels[k].at + 1;
      if rels[k].kind.Abs32? then WordMoved(a[p], a[q], b[p], b[q], rels[k].symbol.value)
      else BranchMoved(a[p], a[q], b[p], b[q], rels[k].address, rels[k].symbol.value))
    {
      SiteMoved(rels, done, a, b, k);
    }
    return i == |rels|, done;
  }
}
