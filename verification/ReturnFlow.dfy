/** The return queue as its reader sees it: what is on display after an edge, what is handed over, and how soon. */
module ReturnFlow {
  import opened ReturnQueue
  import opened Wrappers

  /** An update in this cycle is to this entry. */
  predicate Updated(i: Inputs, e: Entry) {
    (i.slowUpdate && e.id == i.slowId) || (i.resolveUpdate && e.id == i.resolveId)
  }

  /** The entry behind the one on display, or the oldest if none is. */
  function Candidate(s: Queue): Option<Entry>
    requires WellFormed(s)
  {
    if s.output.None? then (if s.order == [] then None else s.slots[s.order[0]])
    else if |s.order| < 2 then None else s.slots[s.order[1]]
  }

  /** It can be shown: its response is there, its prediction has arrived, and nothing updates it now. */
  predicate Presentable(i: Inputs, e: Entry) { e.data.Some? && i.briefDone && i.briefId == e.id && !Updated(i, e) }

  /** A reset, a kill or an update of the entry on display clears the display. Otherwise an entry that is not taken
      stays, and one that is taken, or an empty display, makes room for the candidate if it can be shown. */
  lemma ShownNext(s: Queue, i: Inputs)
    requires Consistent(s) && Legal(s, i)
    ensures Tick(s, i).output ==
            if i.rst || i.kill || (s.output.Some? && Updated(i, s.output.value)) then None
            else if s.output.Some? && !i.deqReady then s.output
            else if Candidate(s).Some? && Presentable(i, Candidate(s).value) then Candidate(s)
            else None
  {
    hide AfterDequeue, AfterKill, Filled;
  }

  /** The entry on display is handed over exactly when the reader takes it in a cycle without reset, kill or update of
      it. */
  lemma HandedOver(s: Queue, i: Inputs)
    ensures DeqValid(s, i) <==> s.output.Some? && !i.rst && !i.kill && !Updated(i, s.output.value)
    ensures Delivers(s, i) <==> i.deqReady && DeqValid(s, i)
  {
  }

  /** Then, and only then, the oldest entry leaves the queue; a reservation joins at its end. */
  lemma OrderNext(s: Queue, i: Inputs)
    requires Consistent(s) && Legal(s, i) && !i.kill
    ensures Tick(s, i).order ==
            if i.rst then []
            else
              var after := s.order + (if i.reserve then [ReserveSlot(s, i)] else []);
              if s.output.Some? && i.deqReady && !Updated(i, s.output.value) then after[1..] else after
  {
    hide ReserveSlot;
  }

  /** The head of the queue, once it can be shown, is shown after the next edge and handed over in the cycle after that
      if the reader takes it. */
  lemma TwoEdges(s: Queue, i: Inputs, j: Inputs)
    requires Consistent(s) && Legal(s, i) && s.output == None && s.order != []
    requires var e := s.slots[s.order[0]].value;
             Presentable(i, e) && !i.rst && !i.kill && !j.rst && !j.kill && !Updated(j, e) && j.deqReady
    ensures WellFormed(Tick(s, i)) && Consistent(Tick(s, i)) && Tick(s, i).output == s.slots[s.order[0]]
    ensures Delivers(Tick(s, i), j) && Tick(s, i).order != [] && Tick(s, i).order[0] == s.order[0]
  {
    assert Live(s, s.order[0]);
    TickConsistent(s, i);
    ShownNext(s, i);
    OrderNext(s, i);
    HandedOver(s, i);
    HandedOver(Tick(s, i), j);
    hide Tick, Legal, Live;
  }

  /** Without stalls the queue hands over an entry in every cycle: the one behind the entry that is taken is on display
      in the next cycle. */
  lemma Streams(s: Queue, i: Inputs)
    requires Consistent(s) && Legal(s, i) && s.output.Some? && |s.order| >= 2 && i.deqReady && !i.rst && !i.kill
    requires !Updated(i, s.output.value) && Presentable(i, s.slots[s.order[1]].value)
    ensures Delivers(s, i) && Tick(s, i).output == s.slots[s.order[1]]
    ensures Tick(s, i).order != [] && Tick(s, i).order[0] == s.order[1]
  {
    assert Live(s, s.order[1]);
    ShownNext(s, i);
    OrderNext(s, i);
    HandedOver(s, i);
    hide Tick, Legal, Live;
  }

  /** A reservation takes an empty slot, the lowest if none is named, for an entry that waits for its response. */
  lemma ReservationLands(s: Queue, i: Inputs)
    requires Consistent(s) && Legal(s, i) && !i.rst && !i.kill && i.reserve
    ensures var x := ReserveSlot(s, i);
            && x < SLOTS && s.slots[x].None?
            && (i.reserveIdx.Some? ==> x == i.reserveIdx.value)
            && (i.reserveIdx.None? ==> forall y :: 0 <= y < x ==> s.slots[y].Some?)
            && x < |Tick(s, i).slots|
            && var e := Tick(s, i).slots[x];
               && e.Some? && e.value.id == i.reserveId && e.value.pc == i.reservePc && !e.value.zombie
               && (if i.response && i.responseIdx == x
                   then e.value.data == Some(i.responseData) && e.value.excValid == i.responseExc
                        && e.value.excCause == i.responseCause
                   else e.value.data == None && !e.value.excValid && e.value.excCause == 0)
  {
    if i.reserveIdx.None? { LowestFree(s.slots, 0); }
    if s.order != [] { assert Live(s, s.order[0]); }
    hide Delivers, FreeFrom;
  }

  lemma {:induction false} LowestFree(slots: seq<Option<Entry>>, k: nat)
    requires k <= |slots|
    ensures forall y :: k <= y < FreeFrom(slots, k) && y < |slots| ==> slots[y].Some?
    decreases |slots| - k
  {
    if k < |slots| && slots[k].Some? { LowestFree(slots, k + 1); }
  }

  /** A response completes the entry it answers; a zombie's only frees its slot. */
  lemma ResponseLands(s: Queue, i: Inputs)
    requires Consistent(s) && Legal(s, i) && !i.rst && !i.kill && i.response
    requires i.responseIdx < SLOTS && s.slots[i.responseIdx].Some?
    ensures |Tick(s, i).slots| == SLOTS
    ensures var before, after := s.slots[i.responseIdx].value, Tick(s, i).slots[i.responseIdx];
            if before.zombie then after == None
            else after == Some(Entry(before.id, before.pc, Some(i.responseData), false, i.responseExc, i.responseCause))
  {
  }
}
