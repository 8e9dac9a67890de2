/** Whole runs of the return queue against a fetch target queue that hands out identifiers in turn: the
    assertion of its kill loop never fires. */
module ReturnRuns {
  import Rings
  import opened ReturnQueue
  import opened Wrappers

  /** The requester's side: its identifiers as they were counted out, without wrapping, for the oldest target
      still held and for the live entries in program order. */
  datatype Pace = Pace(base: nat, counts: seq<nat>)

  /** One clock edge, with the count behind the head and the count of the reservation, if there is one. */
  datatype Edge = Edge(inputs: Inputs, base: nat, count: nat)

  /** The live entries carry the counts, modulo the depth, and all counts lie within one turn from the base. */
  ghost predicate Keeps(s: Queue, p: Pace) {
    && s.depth > 0 && |p.counts| == |s.order| && Increasing(p.counts)
    && forall k :: 0 <= k < |s.order| ==>
         Carries(s, s.order[k], p.counts[k]) && p.base <= p.counts[k] < p.base + s.depth
  }

  predicate Carries(s: Queue, x: nat, count: nat)
    requires s.depth > 0
  {
    x < |s.slots| && s.slots[x].Some? && s.slots[x].value.id % s.depth == count % s.depth
  }

  /** The head passes only delivered or killed targets, and a reservation counts on within one turn of it. A
      reset may put both anywhere. */
  predicate Disciplined(s: Queue, p: Pace, e: Edge)
    requires s.depth > 0
  {
    e.inputs.rst ||
    (&& p.base <= e.base && (forall k :: 0 <= k < |p.counts| ==> e.base <= p.counts[k])
     && e.inputs.head % s.depth == e.base % s.depth
     && (e.inputs.reserve ==>
           && e.inputs.reserveId % s.depth == e.count % s.depth && e.base <= e.count < e.base + s.depth
           && (p.counts != [] ==> p.counts[|p.counts| - 1] < e.count)))
  }

  function Counted(p: Pace, e: Edge): seq<nat> { if e.inputs.reserve then p.counts + [e.count] else p.counts }

  /** The counts that are left after the edge: a kill takes from the end, a delivery from the front. */
  ghost function PaceAfter(s: Queue, p: Pace, e: Edge): Pace
    requires WellFormed(s) && Legal(s, e.inputs)
  {
    if e.inputs.rst then Pace(e.base, [])
    else
      var left := |AfterKill(Filled(s, e.inputs), e.inputs).order|;
      var kept := if left <= |Counted(p, e)| then Counted(p, e)[..left] else [];
      Pace(e.base, if Delivers(s, e.inputs) && kept != [] then kept[1..] else kept)
  }

  predicate SameId(s: Queue, t: Queue, x: nat) {
    x < |s.slots| && x < |t.slots| && s.slots[x].Some? && t.slots[x].Some? && t.slots[x].value.id == s.slots[x].value.id
  }

  /** Counts kept by a stretch of the order, with the entries' identifiers as they were. */
  lemma StretchKeeps(s: Queue, t: Queue, p: Pace, lo: nat, hi: nat)
    requires Keeps(s, p) && lo <= hi <= |s.order| && t.depth == s.depth && t.order == s.order[lo..hi]
    requires forall k :: lo <= k < hi ==> SameId(s, t, s.order[k])
    ensures Keeps(t, Pace(p.base, p.counts[lo..hi]))
  {
    forall k | 0 <= k < |t.order| ensures Carries(t, t.order[k], p.counts[lo..hi][k]) {
      assert t.order[k] == s.order[lo + k] && Carries(s, s.order[lo + k], p.counts[lo + k]);
    }
  }

  /** A later head within the live counts changes nothing. */
  lemma HeadMoves(s: Queue, p: Pace, e: Edge)
    requires Keeps(s, p) && Disciplined(s, p, e) && !e.inputs.rst
    ensures Keeps(s, Pace(e.base, p.counts))
  {
    hide Carries;
  }

  lemma ReserveKeeps(s: Queue, p: Pace, e: Edge)
    requires Settled(s) && Keeps(s, p) && Disciplined(s, p, e) && !e.inputs.rst && ReserveOk(s, e.inputs)
    ensures Keeps(Reserved(s, e.inputs), Pace(e.base, Counted(p, e)))
  {
    HeadMoves(s, p, e);
    var t, i := Reserved(s, e.inputs), e.inputs;
    if i.reserve {
      var x, n := ReserveSlot(s, i), |s.order|;
      forall k | 0 <= k < n ensures Carries(t, t.order[k], Counted(p, e)[k]) {
        assert Carries(s, s.order[k], p.counts[k]) && s.order[k] != x;
      }
      assert t.order[n] == x && Carries(t, x, e.count);
    }
    hide Settled, Carries, ReserveSlot;
  }

  lemma ResponseKeeps(s: Queue, p: Pace, i: Inputs)
    requires Settled(s) && Keeps(s, p) && ResponseOk(s, i)
    ensures Keeps(Responded(s, i), p)
  {
    var t := Responded(s, i);
    forall k | 0 <= k < |s.order| ensures Carries(t, s.order[k], p.counts[k]) {
      assert Carries(s, s.order[k], p.counts[k]) && Live(s, s.order[k]);
    }
    assert t.order == s.order && t.depth == s.depth;
    hide Settled;
  }

  lemma CountsOrder(s: Queue, p: Pace, head: nat)
    requires Settled(s) && Keeps(s, p) && head % s.depth == p.base % s.depth
    ensures RingOrdered(s, head)
  {
    CountingIsOrdered(s, head, p.counts, p.base);
    hide RingOrdered;
  }

  lemma KillKeeps(s: Queue, p: Pace, i: Inputs)
    requires Settled(s) && Keeps(s, p) && i.head % s.depth == p.base % s.depth
    ensures |AfterKill(s, i).order| <= |p.counts| && (i.kill ==> KillsSuffix(s, i))
    ensures Keeps(AfterKill(s, i), Pace(p.base, p.counts[..|AfterKill(s, i).order|]))
  {
    CountsOrder(s, p, i.head);
    if i.kill { OrderedKillsSuffix(s, i); }
    KillKeepsOrder(s, i);
    KillSettled(s, i);
    var t := AfterKill(s, i);
    var n := |t.order|;
    forall k | 0 <= k < n ensures SameId(s, t, s.order[k]) {
      assert t.order[k] == s.order[k] && Carries(s, s.order[k], p.counts[k]) && Live(t, t.order[k]);
      if i.kill { KillSlot(s, i, s.order[k]); }
    }
    assert t.depth == s.depth;
    assert t.order == s.order[0..n] && p.counts[0..n] == p.counts[..n];
    hide AfterKill, Settled, RingOrdered, KillsSuffix;
    StretchKeeps(s, t, p, 0, n);
  }

  lemma DeliverKeeps(s: Queue, p: Pace, delivers: bool)
    requires Settled(s) && Keeps(s, p)
    ensures Keeps(AfterDequeue(s, delivers),
                  Pace(p.base, if delivers && p.counts != [] then p.counts[1..] else p.counts))
  {
    if delivers && s.order != [] {
      var t, n := AfterDequeue(s, delivers), |s.order|;
      forall k | 1 <= k < n ensures SameId(s, t, s.order[k]) {
        assert Carries(s, s.order[k], p.counts[k]) && s.order[k] != s.order[0];
      }
      assert t.order == s.order[1..n] && p.counts[1..n] == p.counts[1..];
      hide Settled;
      StretchKeeps(s, t, p, 1, n);
    }
  }

  lemma OutputKeeps(s: Queue, p: Pace, t: Queue)
    requires Keeps(s, p) && t.depth == s.depth && t.slots == s.slots && t.order == s.order
    ensures Keeps(t, p)
  {
    forall k | 0 <= k < |t.order| ensures Carries(t, t.order[k], p.counts[k]) {
      assert Carries(s, s.order[k], p.counts[k]);
    }
    hide Carries;
  }

  /** A disciplined edge keeps the counts, and its kill, if there is one, takes a suffix of program order. */
  lemma EdgeKeeps(s: Queue, p: Pace, e: Edge)
    requires Consistent(s) && Keeps(s, p) && Disciplined(s, p, e) && Legal(s, e.inputs)
    ensures Keeps(Tick(s, e.inputs), PaceAfter(s, p, e))
    ensures !e.inputs.rst ==> RingOrdered(s, e.inputs.head)
    ensures !e.inputs.rst && e.inputs.kill ==> KillsSuffix(Filled(s, e.inputs), e.inputs)
  {
    var i := e.inputs;
    SettledFrom(s);
    if !i.rst {
      HeadMoves(s, p, e);
      CountsOrder(s, Pace(e.base, p.counts), i.head);
      ReserveSettled(s, i);
      ReserveKeeps(s, p, e);
      ResponseKeeps(Reserved(s, i), Pace(e.base, Counted(p, e)), i);
      FilledSettled(s, i);
      var f, q := Filled(s, i), Pace(e.base, Counted(p, e));
      KillKeeps(f, q, i);
      KillSettled(f, i);
      var a := AfterKill(f, i);
      DeliverKeeps(a, Pace(e.base, q.counts[..|a.order|]), Delivers(s, i));
      hide Consistent, Settled, Keeps, RingOrdered, KillsSuffix, AfterKill, Filled, Disciplined, NextOutput, Delivers;
      var d := AfterDequeue(a, Delivers(s, i));
      OutputKeeps(d, PaceAfter(s, p, e), Tick(s, i));
    }
  }

  ghost predicate Paced(s: Queue, p: Pace, edges: seq<Edge>, s': Queue, p': Pace)
    decreases edges
  {
    if edges == [] then s' == s && p' == p
    else
      && WellFormed(s) && Legal(s, edges[0].inputs) && Disciplined(s, p, edges[0])
      && Paced(Tick(s, edges[0].inputs), PaceAfter(s, p, edges[0]), edges[1..], s', p')
  }

  lemma {:induction false} PacedKeeps(s: Queue, p: Pace, edges: seq<Edge>, s': Queue, p': Pace)
    requires Consistent(s) && Keeps(s, p) && Paced(s, p, edges, s', p')
    ensures Consistent(s') && Keeps(s', p')
    decreases edges
  {
    hide Consistent, Keeps, Disciplined, Legal, Tick, PaceAfter, RingOrdered, KillsSuffix;
    if edges != [] {
      TickConsistent(s, edges[0].inputs);
      EdgeKeeps(s, p, edges[0]);
      PacedKeeps(Tick(s, edges[0].inputs), PaceAfter(s, p, edges[0]), edges[1..], s', p');
    }
  }

  /** Over every run from reset whose reservations count on within one turn of the ring, and whose head passes
      only delivered or killed targets: live identifiers are ordered from the head at every edge, and the
      assertion in the kill loop never fires. */
  lemma AssertionNeverFires(depth: nat, edges: seq<Edge>, base: nat, s: Queue, p: Pace, e: Edge)
    requires depth > 0 && Paced(Empty(depth), Pace(base, []), edges, s, p)
    requires WellFormed(s) && Legal(s, e.inputs) && Disciplined(s, p, e) && !e.inputs.rst
    ensures RingOrdered(s, e.inputs.head)
    ensures e.inputs.kill ==> KillsSuffix(Filled(s, e.inputs), e.inputs)
  {
    assert Consistent(Empty(depth)) && Keeps(Empty(depth), Pace(base, [])) by { hide Paced; }
    hide Paced, Consistent, Keeps, Disciplined, Legal, RingOrdered, KillsSuffix, Filled;
    PacedKeeps(Empty(depth), Pace(base, []), edges, s, p);
    EdgeKeeps(s, p, e);
  }

  // ------------------------------------------------------ what a kill takes

  /** The age of a live entry is its count from the base, and so is that of the boundary. */
  lemma AgeIsCount(s: Queue, id: nat, count: nat, head: nat, base: nat)
    requires s.depth > 0 && id % s.depth == count % s.depth && head % s.depth == base % s.depth
    requires base <= count < base + s.depth
    ensures Age(id, head, s.depth) == count - base
  {
    Rings.RingDistance(count, base, s.depth);
  }

  /** In a queue whose counts lie within one turn of the head, a kill takes exactly the entries counted after the
      boundary, the boundary's own too when its first slot is killed, and everything when all is killed. What it
      takes leaves program order; its slot is freed if the response has come, and otherwise waits for it. */
  lemma KillTakes(s: Queue, p: Pace, i: Inputs, boundary: nat, k: nat)
    requires Settled(s) && Keeps(s, p) && i.kill && i.head % s.depth == p.base % s.depth && k < |s.order|
    requires i.killId % s.depth == boundary % s.depth && p.base <= boundary < p.base + s.depth
    ensures s.order[k] < |s.slots| && s.slots[s.order[k]].Some?
    ensures var e, t := s.slots[s.order[k]].value, AfterKill(s, i);
            var stays := && !i.killAll && p.counts[k] <= boundary
                         && !(i.killSelf && i.killSlot == 0 && e.id == i.killId);
            && (s.order[k] in t.order <==> stays)
            && |t.slots| == SLOTS && s.order[k] < SLOTS
            && t.slots[s.order[k]]
               == if stays then Some(e) else if e.data.Some? then None else Some(e.(zombie := true))
  {
    var x := s.order[k];
    assert Carries(s, x, p.counts[k]) && Live(s, x);
    AgeIsCount(s, s.slots[x].value.id, p.counts[k], i.head, p.base);
    AgeIsCount(s, i.killId, boundary, i.head, p.base);
    KillSlot(s, i, x);
    KillShape(s, i);
    hide Age, Settled, Survivors, AfterKill;
  }

  /** So over every run as above: at a kill that names a boundary within one turn of the head, of the entries then
      live those counted up to the boundary stay, without the boundary itself when its first slot is killed, and
      nothing stays when all is killed. */
  lemma KillsExactly(depth: nat, edges: seq<Edge>, base: nat, s: Queue, p: Pace, e: Edge, boundary: nat, k: nat)
    requires depth > 0 && Paced(Empty(depth), Pace(base, []), edges, s, p)
    requires WellFormed(s) && Legal(s, e.inputs) && Disciplined(s, p, e) && !e.inputs.rst && e.inputs.kill
    requires e.inputs.killId % s.depth == boundary % s.depth && e.base <= boundary < e.base + s.depth
    requires k < |p.counts| && k < |s.order|
    ensures s.order[k] < |s.slots| && s.slots[s.order[k]].Some?
    ensures var id := s.slots[s.order[k]].value.id;
            s.order[k] in AfterKill(Filled(s, e.inputs), e.inputs).order
            <==> && !e.inputs.killAll && p.counts[k] <= boundary
                 && !(e.inputs.killSelf && e.inputs.killSlot == 0 && id == e.inputs.killId)
  {
    var i := e.inputs;
    assert Consistent(Empty(depth)) && Keeps(Empty(depth), Pace(base, [])) by { hide Paced; }
    PacedKeeps(Empty(depth), Pace(base, []), edges, s, p) by { hide Paced; }
    SettledFrom(s);
    ReserveKeeps(s, p, e);
    ReserveSettled(s, i);
    ResponseKeeps(Reserved(s, i), Pace(e.base, Counted(p, e)), i);
    FilledSettled(s, i);
    NoReserve(s, i);
    assert Carries(s, s.order[k], p.counts[k]);
    hide Paced, Consistent, Settled, Keeps, Disciplined, AfterKill, Legal;
    KillTakes(Filled(s, i), Pace(e.base, p.counts), i, boundary, k);
    FilledId(s, i, k);
  }

  /** A kill and a reservation never meet in one edge. */
  lemma NoReserve(s: Queue, i: Inputs)
    requires Legal(s, i) && !i.rst && i.kill
    ensures !i.reserve && Reserved(s, i) == s
  {
  }

  lemma FilledId(s: Queue, i: Inputs, k: nat)
    requires Settled(s) && Legal(s, i) && !i.rst && i.kill && k < |s.order|
    ensures var t := Filled(s, i);
            && t.order == s.order && t.depth == s.depth && SameId(s, t, s.order[k])
  {
    assert Live(s, s.order[k]);
    NoReserve(s, i);
  }
}
