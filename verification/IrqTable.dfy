/** Latching of hardware interrupts for the user-space IRQ server. */
module IrqTable {
  import opened Lists

  const IRQS := 26

  /** What disciplined use keeps for one line: it is masked exactly while an event is queued or
      in flight, never both, nothing was overwritten, and every latched event has been handed
      to the server once unless it is the queued one. */
  ghost predicate LineOk(masked: bool, queued: bool, inflight: bool, overflow: bool, latched: nat, delivered: nat) {
    && (masked <==> queued || inflight)
    && !(queued && inflight)
    && !overflow
    && latched == delivered + (if queued then 1 else 0)
  }

  /** The lowest line, from `i` on, whose event can be handed over. */
  function NextEvent(queued: seq<bool>, inflight: seq<bool>, i: nat): (r: Option<nat>)
    requires |queued| == |inflight| == IRQS && i <= IRQS
    ensures r.Some? ==> i <= r.value < IRQS && queued[r.value] && !inflight[r.value]
    ensures r.Some? ==> forall j :: i <= j < r.value ==> !(queued[j] && !inflight[j])
    ensures r.None? ==> forall j :: i <= j < IRQS ==> !(queued[j] && !inflight[j])
    decreases IRQS - i
  {
    if i == IRQS then None
    else if queued[i] && !inflight[i] then Some(i)
    else NextEvent(queued, inflight, i + 1)
  }

  lemma {:induction false} NextEventFirst(queued: seq<bool>, inflight: seq<bool>, i: nat, j: nat)
    requires |queued| == |inflight| == IRQS && i <= j < IRQS && queued[j] && !inflight[j]
    requires forall m :: i <= m < j ==> !(queued[m] && !inflight[m])
    ensures NextEvent(queued, inflight, i) == Some(j)
    decreases j - i
  {
    if i < j {
      NextEventFirst(queued, inflight, i + 1, j);
    }
  }

  /** What the kernel knows about the lines, and what it has done for them. */
  datatype Lines = Lines(queued: seq<bool>, inflight: seq<bool>, overflow: seq<bool>, masked: set<nat>,
                         ghost latched: seq<nat>, ghost delivered: seq<nat>, ghost disciplined: bool)

  ghost predicate Full(l: Lines) {
    |l.queued| == |l.inflight| == |l.overflow| == |l.latched| == |l.delivered| == IRQS
  }

  /** An event of line `i` is latched, and the line masked. */
  ghost function Latched(l: Lines, i: nat): (r: Lines)
    requires Full(l) && i < IRQS
    ensures Full(r)
  {
    l.(masked := l.masked + {i}, overflow := l.overflow[i := l.queued[i] || l.inflight[i]],
       queued := l.queued[i := true], latched := l.latched[i := l.latched[i] + 1])
  }

  /** The queued event of line `i` is handed over. */
  ghost function Taken(l: Lines, i: nat): (r: Lines)
    requires Full(l) && i < IRQS
    ensures Full(r)
  {
    l.(queued := l.queued[i := false], inflight := l.inflight[i := true], delivered := l.delivered[i := l.delivered[i] + 1])
  }

  /** The reply to line `i`. */
  ghost function Acked(l: Lines, i: nat): (r: Lines)
    requires Full(l) && i < IRQS
    ensures Full(r)
  {
    l.(inflight := l.inflight[i := false], overflow := l.overflow[i := false], masked := l.masked - {i},
       disciplined := l.disciplined && l.inflight[i])
  }

  class Table {
    var queued: seq<bool>
    var inflight: seq<bool>
    var overflow: seq<bool>       // the OVERFLOW bit of the latched event
    var bits: set<nat>            // the pending bitmap
    var masked: set<nat>          // lines masked at the interrupt controller
    ghost var latched: seq<nat>
    ghost var delivered: seq<nat>
    ghost var disciplined: bool   // so far only in-flight lines were replied to

    ghost function State(): Lines
      reads this
    {
      Lines(queued, inflight, overflow, masked, latched, delivered, disciplined)
    }

    ghost predicate Shaped()
      reads this
    {
      && |queued| == |inflight| == |overflow| == |latched| == |delivered| == IRQS
      && forall i :: i in bits ==> i < IRQS
    }

    ghost predicate Valid()
      reads this
    {
      && Shaped()
      && (disciplined ==> forall i :: 0 <= i < IRQS ==>
            LineOk(i in masked, queued[i], inflight[i], overflow[i], latched[i], delivered[i]))
    }

    /** Every event that could be delivered right now has its bit in the pending bitmap. */
    ghost predicate Announced()
      requires Shaped()
      reads this
    {
      forall i :: 0 <= i < IRQS && queued[i] && !inflight[i] ==> i in bits
    }

    ghost predicate AnnouncedBut(j: nat)
      requires Shaped()
      reads this
    {
      forall i :: 0 <= i < IRQS && queued[i] && !inflight[i] && i != j ==> i in bits
    }

    constructor ()
      ensures Valid() && disciplined && bits == {} && masked == {}
      ensures latched == delivered == seq(IRQS, _ => 0)
      ensures queued == inflight == overflow == seq(IRQS, _ => false)
    {
      queued, inflight, overflow := seq(IRQS, _ => false), seq(IRQS, _ => false), seq(IRQS, _ => false);
      bits, masked, disciplined := {}, {}, true;
      latched, delivered := seq(IRQS, _ => 0), seq(IRQS, _ => 0);
    }

    /** The interrupt handler; the controller runs it only for an unmasked line. */
    method Isr(i: nat)
      requires Valid() && i !in masked
      modifies this
      ensures Valid() && Full(old(State()))
      ensures State() == if i < IRQS then Latched(old(State()), i) else old(State())
      ensures bits == if i < IRQS then old(bits) + {i} else old(bits)
      ensures i < IRQS && disciplined ==> !old(queued)[i] && !old(inflight)[i]
      ensures old(Announced()) ==> Announced()
    {
      if i >= IRQS {
        return;
      }
      masked := masked + {i};
      overflow := overflow[i := queued[i] || inflight[i]];
      queued := queued[i := true];
      bits := bits + {i};
      latched := latched[i := latched[i] + 1];
    }

    /** Takes the lowest pending bit. */
    method FetchNext() returns (r: Option<nat>)
      requires Valid()
      modifies `bits
      ensures Valid()
      ensures r.None? <==> old(bits) == {}
      ensures r.None? ==> bits == old(bits)
      ensures r.Some? ==> r.value in old(bits) && bits == old(bits) - {r.value} && forall j :: j in old(bits) ==> r.value <= j
    {
      for i := 0 to IRQS
        invariant bits == old(bits) && forall j :: 0 <= j < i ==> j !in bits
      {
        if i in bits {
          bits := bits - {i};
          return Some(i);
        }
      }
      return None;
    }

    /** Hands the queued event of line `i` to the server. */
    method Take(i: nat)
      requires Valid() && i < IRQS && queued[i] && !inflight[i]
      modifies `queued, `inflight, `delivered
      ensures Valid() && Full(old(State())) && State() == Taken(old(State()), i)
    {
      queued := queued[i := false];
      inflight := inflight[i := true];
      delivered := delivered[i := delivered[i] + 1];
    }

    /** The server's reply: the line is unmasked. */
    method Acknowledge(i: nat)
      requires Valid() && i < IRQS
      modifies `inflight, `overflow, `masked, `disciplined
      ensures Valid() && Full(old(State())) && State() == Acked(old(State()), i)
    {
      disciplined := disciplined && inflight[i];
      inflight := inflight[i := false];
      overflow := overflow[i := false];
      masked := masked - {i};
    }

    method FirstDeliverable() returns (r: Option<nat>)
      requires Valid()
      ensures r == NextEvent(queued, inflight, 0)
    {
      for i := 0 to IRQS
        invariant NextEvent(queued, inflight, 0) == NextEvent(queued, inflight, i)
      {
        if queued[i] && !inflight[i] {
          return Some(i);
        }
      }
      return None;
    }
  }
}
