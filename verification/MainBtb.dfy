/** The main branch target buffer: the model whose training lands one edge late, the frozen reference
    whose training lands at once, and the proof that no input sequence tells them apart. */
module MainBtb {
  import opened Rings
  import opened TagTable
  import opened Wrappers

  datatype Cfi = NoCfi | Br | Jal | Jalr

  datatype Config = Config(vaddrBits: nat, shift: nat, setBits: nat, ways: nat, tagBits: nat, slots: nat)

  predicate ConfigOk(c: Config) { c.ways >= 2 && c.tagBits >= 1 }

  datatype Train = Train(
    valid: bool, pc: nat, brCommit: set<nat>, cfiValid: bool, cfiSlot: nat, cfiType: Cfi, ras: nat, target: nat)

  datatype Inputs = Inputs(rst: bool, queryValid: bool, queryPc: nat, stall: bool, kill: bool, train: Train)

  datatype Response = Response(
    hit: bool, brMask: set<nat>, jalMask: set<nat>, cfiSlot: nat, cfiType: Cfi, ras: nat, target: nat)

  datatype PendingRead = PendingRead(tag: Tag, ways: Row<Response>)

  datatype Table = Table(rows: seq<Row<Response>>, victim: seq<nat>)

  function NoTrain(): Train { Train(false, 0, {}, false, 0, NoCfi, 0, 0) }

  function Miss(): Response { Response(false, {}, {}, 0, NoCfi, 0, 0) }

  function SetOf(c: Config, pc: nat): nat { pc / Pow2(c.shift) % Pow2(c.setBits) }

  function TagOf(c: Config, pc: nat): Tag
    requires ConfigOk(c)
  {
    Fold(pc, c.shift + c.setBits, c.vaddrBits, c.tagBits)
  }

  /** A packet that carries something to learn. */
  predicate Active(t: Train) { t.valid && (t.brCommit != {} || TakenCfi(t)) }

  predicate TakenCfi(t: Train) { t.cfiValid && t.cfiType != NoCfi }

  /** The model asserts that a taken control-flow instruction names a slot of the region. */
  predicate LegalTrain(c: Config, t: Train) { Active(t) && TakenCfi(t) ==> t.cfiSlot < c.slots }

  /** The entry that a packet makes of the one before: masks grow, and a taken instruction owns the target. */
  function Learn(old_: Response, t: Train): Response {
    var br := old_.brMask + t.brCommit;
    if !TakenCfi(t) then old_.(hit := true, brMask := br)
    else
      Response(true, if t.cfiType == Br then br + {t.cfiSlot} else br,
               if t.cfiType == Jal then old_.jalMask + {t.cfiSlot} else old_.jalMask,
               t.cfiSlot, t.cfiType, t.ras, t.target)
  }

  predicate TableOk(c: Config, t: Table) {
    && |t.rows| == Pow2(c.setBits) && |t.victim| == |t.rows|
    && forall k :: 0 <= k < |t.rows| ==> |t.rows[k]| == c.ways && t.victim[k] < c.ways
  }

  function EmptyTable(c: Config): (t: Table)
    requires ConfigOk(c)
    ensures TableOk(c, t)
  {
    Table(seq(Pow2(c.setBits), _ => seq(c.ways, _ => None)), seq(Pow2(c.setBits), _ => 0))
  }

  function Or<T>(x: Option<T>, d: T): T { if x.Some? then x.value else d }

  function Trained(c: Config, table: Table, t: Train): Table
    requires ConfigOk(c) && TableOk(c, table)
  {
    if !Active(t) then table
    else
      var k, tag := SetOf(c, t.pc), TagOf(c, t.pc);
      var row, victim := table.rows[k], table.victim[k];
      Table(table.rows[k := Insert(row, victim, tag, Learn(Or(Lookup(row, tag), Miss()), t))],
            table.victim[k := NextVictim(row, victim, tag)])
  }

  /** What a query registered at an edge finds in the table at that edge. */
  function NextPending(c: Config, table: Table, pending: Option<PendingRead>, i: Inputs): Option<PendingRead>
    requires ConfigOk(c) && TableOk(c, table)
  {
    if i.kill then None
    else if i.stall then pending
    else if i.queryValid then Some(PendingRead(TagOf(c, i.queryPc), table.rows[SetOf(c, i.queryPc)]))
    else None
  }

  datatype Visible = Visible(valid: bool, response: Response)

  function Shown(pending: Option<PendingRead>, i: Inputs): Visible {
    if i.rst || i.stall || i.kill || pending.None? then Visible(false, Miss())
    else Visible(true, Or(Lookup(pending.value.ways, pending.value.tag), Miss()))
  }

  // ------------------------------------------- the two models, edge by edge

  datatype Delayed = Delayed(table: Table, train: Train, pending: Option<PendingRead>)
  datatype Immediate = Immediate(table: Table, pending: Option<PendingRead>)

  function DelayedReset(c: Config): Delayed
    requires ConfigOk(c)
  {
    Delayed(EmptyTable(c), NoTrain(), None)
  }

  function ImmediateReset(c: Config): Immediate
    requires ConfigOk(c)
  {
    Immediate(EmptyTable(c), None)
  }

  function DelayedTick(c: Config, s: Delayed, i: Inputs): Delayed
    requires ConfigOk(c) && TableOk(c, s.table)
  {
    if i.rst then DelayedReset(c)
    else
      TrainedOk(c, s.table, s.train);
      var table := Trained(c, s.table, s.train);
      Delayed(table, i.train, NextPending(c, table, s.pending, i))
  }

  function ImmediateTick(c: Config, s: Immediate, i: Inputs): Immediate
    requires ConfigOk(c) && TableOk(c, s.table)
  {
    if i.rst then ImmediateReset(c)
    else Immediate(Trained(c, s.table, i.train), NextPending(c, s.table, s.pending, i))
  }

  lemma TrainedOk(c: Config, table: Table, t: Train)
    requires ConfigOk(c) && TableOk(c, table)
    ensures TableOk(c, Trained(c, table, t))
  {
  }

  /** The reference is ahead of the delayed model by exactly the packet still waiting. */
  predicate Related(c: Config, s: Delayed, l: Immediate)
    requires ConfigOk(c)
  {
    TableOk(c, s.table) && TableOk(c, l.table) && l.table == Trained(c, s.table, s.train) && l.pending == s.pending
  }

  lemma EdgeKeepsRelated(c: Config, s: Delayed, l: Immediate, i: Inputs)
    requires ConfigOk(c) && Related(c, s, l)
    ensures Related(c, DelayedTick(c, s, i), ImmediateTick(c, l, i)) && Shown(s.pending, i) == Shown(l.pending, i)
  {
    TrainedOk(c, s.table, s.train);
    TrainedOk(c, l.table, i.train);
    hide TableOk, Insert, Learn, EmptyTable;
    assert Trained(c, EmptyTable(c), NoTrain()) == EmptyTable(c);
  }

  function DelayedTrace(c: Config, s: Delayed, inputs: seq<Inputs>): seq<Visible>
    requires ConfigOk(c) && TableOk(c, s.table)
    decreases inputs
  {
    if inputs == [] then []
    else
      TrainedOk(c, s.table, s.train);
      [Shown(s.pending, inputs[0])] + DelayedTrace(c, DelayedTick(c, s, inputs[0]), inputs[1..])
  }

  function ImmediateTrace(c: Config, s: Immediate, inputs: seq<Inputs>): seq<Visible>
    requires ConfigOk(c) && TableOk(c, s.table)
    decreases inputs
  {
    if inputs == [] then []
    else
      TrainedOk(c, s.table, inputs[0].train);
      [Shown(s.pending, inputs[0])] + ImmediateTrace(c, ImmediateTick(c, s, inputs[0]), inputs[1..])
  }

  /** From related states on, both show the same in every cycle, through resets, stalls and kills. */
  lemma {:induction false} TracesAgree(c: Config, s: Delayed, l: Immediate, inputs: seq<Inputs>)
    requires ConfigOk(c) && Related(c, s, l)
    ensures DelayedTrace(c, s, inputs) == ImmediateTrace(c, l, inputs)
    decreases inputs
  {
    hide TableOk, DelayedTick, ImmediateTick, Trained, Shown;
    if inputs != [] {
      EdgeKeepsRelated(c, s, l, inputs[0]);
      TracesAgree(c, DelayedTick(c, s, inputs[0]), ImmediateTick(c, l, inputs[0]), inputs[1..]);
    }
  }

  lemma ObservationallyEqual(c: Config, inputs: seq<Inputs>)
    requires ConfigOk(c)
    ensures DelayedTrace(c, DelayedReset(c), inputs) == ImmediateTrace(c, ImmediateReset(c), inputs)
  {
    hide TableOk, EmptyTable;
    assert Trained(c, EmptyTable(c), NoTrain()) == EmptyTable(c);
    TracesAgree(c, DelayedReset(c), ImmediateReset(c), inputs);
  }

  // ----------------------------------------------------- what a packet teaches

  /** What a query that is registered over this table is answered in the next cycle. */
  function Answer(c: Config, table: Table, pc: nat): Response
    requires ConfigOk(c) && TableOk(c, table)
  {
    Or(Lookup(table.rows[SetOf(c, pc)], TagOf(c, pc)), Miss())
  }

  /** A query's answer is registered at its edge and shown a cycle later, over the table as it was at the edge. A stall
      holds it back and keeps it, a kill or a reset drops it, and a cycle without a query leaves nothing to show. */
  lemma AnswerShown(c: Config, s: Immediate, i: Inputs, i': Inputs)
    requires ConfigOk(c) && TableOk(c, s.table) && !i'.rst && !i'.stall && !i'.kill
    ensures var shown := Shown(ImmediateTick(c, s, i).pending, i');
            if i.rst || i.kill then !shown.valid
            else if i.stall then shown == Shown(s.pending, i')
            else shown.valid == i.queryValid && (i.queryValid ==> shown.response == Answer(c, s.table, i.queryPc))
    ensures i.rst || i.kill || i.stall ==> !Shown(s.pending, i).valid
  {
    hide TagOf, SetOf, TableOk, Trained, EmptyTable;
  }

  /** After a reset every query misses. */
  lemma ColdMisses(c: Config, pc: nat)
    requires ConfigOk(c)
    ensures var told := Answer(c, EmptyTable(c), pc);
            && !told.hit && told.brMask == {} && told.jalMask == {} && told.cfiType == NoCfi && told.cfiSlot == 0
            && told.ras == 0 && told.target == 0
  {
    assert EmptyTable(c).rows[SetOf(c, pc)] == seq(c.ways, _ => None);
    hide TagOf, SetOf;
  }

  /** What a packet teaches is what the next query of its region is told: a taken instruction its slot, type, stack
      action and target, a packet without one leaves those as they were, and the masks grow by the committed
      branches and by the taken branch or jump, and by nothing else. */
  lemma TaughtIsTold(c: Config, table: Table, t: Train, pc: nat)
    requires ConfigOk(c) && TableOk(c, table)
    requires t.valid && (t.brCommit != {} || (t.cfiValid && t.cfiType != NoCfi))
    requires SetOf(c, pc) == SetOf(c, t.pc) && TagOf(c, pc) == TagOf(c, t.pc)
    ensures TableOk(c, Trained(c, table, t))
    ensures var before, told := Answer(c, table, pc), Answer(c, Trained(c, table, t), pc);
            var taken := t.cfiValid && t.cfiType != NoCfi;
            && told.hit
            && (if taken
                then told.cfiSlot == t.cfiSlot && told.cfiType == t.cfiType && told.ras == t.ras
                     && told.target == t.target
                else told.cfiSlot == before.cfiSlot && told.cfiType == before.cfiType && told.ras == before.ras
                     && told.target == before.target)
            && (forall k :: k in told.brMask <==>
                            k in before.brMask || k in t.brCommit || (taken && t.cfiType == Br && k == t.cfiSlot))
            && (forall k :: k in told.jalMask <==>
                            k in before.jalMask || (taken && t.cfiType == Jal && k == t.cfiSlot))
  {
    var row, tag := table.rows[SetOf(c, t.pc)], TagOf(c, t.pc);
    InsertThenLookup(row, table.victim[SetOf(c, t.pc)], tag, Learn(Or(Lookup(row, tag), Miss()), t));
    TrainedOk(c, table, t);
    hide SetOf, TagOf, Insert, NextVictim, Lookup;
  }

  /** A packet that carries nothing, or is for another set, changes no answer. */
  lemma OthersKeep(c: Config, table: Table, t: Train, pc: nat)
    requires ConfigOk(c) && TableOk(c, table)
    requires SetOf(c, pc) != SetOf(c, t.pc)
             || !t.valid || (t.brCommit == {} && !(t.cfiValid && t.cfiType != NoCfi))
    ensures TableOk(c, Trained(c, table, t)) && Answer(c, Trained(c, table, t), pc) == Answer(c, table, pc)
  {
    TrainedOk(c, table, t);
    hide SetOf, TagOf, Insert, NextVictim, Lookup, Learn;
  }

  /** The addresses of a region share a set, and consecutive regions go round the sets. */
  lemma SetsGoRound(c: Config, region: nat, offset: nat)
    requires offset < Pow2(c.shift)
    ensures SetOf(c, region * Pow2(c.shift) + offset) == region % Pow2(c.setBits)
  {
    ModOf(region * Pow2(c.shift) + offset, region, offset, Pow2(c.shift));
    hide Pow2;
  }

  /** A tag bit is the parity of the address bits above the set number that are a whole number of tag widths apart. */
  lemma TagBits(c: Config, pc: nat, j: nat)
    requires ConfigOk(c) && j < c.tagBits
    ensures |TagOf(c, pc)| == c.tagBits
    ensures TagOf(c, pc)[j] <==> Odd(|Counted(pc, c.shift + c.setBits, c.vaddrBits, c.tagBits, j)|)
  {
    FoldIsParity(pc, c.shift + c.setBits, c.vaddrBits, c.tagBits, j);
    hide FoldBit, Counted, Odd;
  }

  // -------------------------------------------------- each set is a queue

  /** The queue of a set after one packet. */
  function Queued(c: Config, q: seq<Tagged<Response>>, set_: nat, t: Train): seq<Tagged<Response>>
    requires ConfigOk(c)
  {
    if !Active(t) || SetOf(c, t.pc) != set_ then q
    else
      var tag := TagOf(c, t.pc);
      var k := FindInQueue(q, tag);
      Enqueue(q, c.ways, tag, Learn(if k < |q| then q[k].body else Miss(), t))
  }

  function QueueAfter(c: Config, set_: nat, trains: seq<Train>): seq<Tagged<Response>>
    requires ConfigOk(c)
  {
    if trains == [] then [] else Queued(c, QueueAfter(c, set_, trains[..|trains| - 1]), set_, trains[|trains| - 1])
  }

  function TableAfter(c: Config, trains: seq<Train>): (t: Table)
    requires ConfigOk(c)
    ensures TableOk(c, t)
  {
    if trains == [] then EmptyTable(c)
    else
      TrainedOk(c, TableAfter(c, trains[..|trains| - 1]), trains[|trains| - 1]);
      Trained(c, TableAfter(c, trains[..|trains| - 1]), trains[|trains| - 1])
  }

  lemma TrainIsQueued(c: Config, table: Table, set_: nat, q: seq<Tagged<Response>>, t: Train)
    requires ConfigOk(c) && TableOk(c, table) && set_ < |table.rows|
    requires Holds(table.rows[set_], table.victim[set_], q)
    ensures TableOk(c, Trained(c, table, t))
    ensures Holds(Trained(c, table, t).rows[set_], Trained(c, table, t).victim[set_], Queued(c, q, set_, t))
  {
    TrainedOk(c, table, t);
    if Active(t) && SetOf(c, t.pc) == set_ {
      var row, tag := table.rows[set_], TagOf(c, t.pc);
      LookupIsFind(row, table.victim[set_], q, tag);
      InsertIsEnqueue(row, table.victim[set_], q, tag, Learn(Or(Lookup(row, tag), Miss()), t));
    }
    hide Holds, Insert, Enqueue, Learn, TagOf, NextVictim, FindInQueue;
  }

  /** After any packets, every set holds its last `ways` allocations, each updated in place, oldest at the
      victim pointer, and never two entries with one tag. */
  lemma {:induction false} SetIsQueue(c: Config, set_: nat, trains: seq<Train>)
    requires ConfigOk(c) && set_ < Pow2(c.setBits)
    ensures var t := TableAfter(c, trains); Holds(t.rows[set_], t.victim[set_], QueueAfter(c, set_, trains))
  {
    if trains == [] {
      assert TableAfter(c, trains) == EmptyTable(c);
    } else {
      var n := |trains| - 1;
      SetIsQueue(c, set_, trains[..n]);
      TrainIsQueued(c, TableAfter(c, trains[..n]), set_, QueueAfter(c, set_, trains[..n]), trains[n]);
    }
    hide Holds, Trained, Queued;
  }

  function DelayedAfter(c: Config, inputs: seq<Inputs>): (s: Delayed)
    requires ConfigOk(c)
    ensures TableOk(c, s.table)
  {
    if inputs == [] then DelayedReset(c)
    else
      var s := DelayedAfter(c, inputs[..|inputs| - 1]);
      TrainedOk(c, s.table, s.train);
      DelayedTick(c, s, inputs[|inputs| - 1])
  }

  /** The packets presented since the last reset. */
  function TrainsSince(inputs: seq<Inputs>): seq<Train> {
    if inputs == [] || inputs[|inputs| - 1].rst then []
    else TrainsSince(inputs[..|inputs| - 1]) + [inputs[|inputs| - 1].train]
  }

  /** In the delayed model, the last packet is still to be applied to those since the last reset. */
  lemma {:induction false} DelayedHolds(c: Config, inputs: seq<Inputs>)
    requires ConfigOk(c)
    ensures var s := DelayedAfter(c, inputs); Trained(c, s.table, s.train) == TableAfter(c, TrainsSince(inputs))
  {
    hide TableOk, Insert, Learn, EmptyTable, NextPending;
    if inputs == [] || inputs[|inputs| - 1].rst {
      assert Trained(c, EmptyTable(c), NoTrain()) == EmptyTable(c);
    } else {
      var n := |inputs| - 1;
      DelayedHolds(c, inputs[..n]);
      assert TrainsSince(inputs)[..|TrainsSince(inputs)| - 1] == TrainsSince(inputs[..n]);
    }
  }

  // --------------------------------------------------- the models as objects

  /** The training step, searching the set as the models do. */
  method TrainTable(c: Config, table: Table, t: Train) returns (r: Table)
    requires ConfigOk(c) && TableOk(c, table)
    ensures r == Trained(c, table, t) && TableOk(c, r)
  {
    TrainedOk(c, table, t);
    if !t.valid || (t.brCommit == {} && !(t.cfiValid && t.cfiType != NoCfi)) { return table; }
    var k := SetOf(c, t.pc);
    var tag := ComputeFold(t.pc, c.shift + c.setBits, c.vaddrBits, c.tagBits);
    var row := table.rows[k];
    var match', empty := 0, 0;
    while match' < |row| && !(row[match'].Some? && row[match'].value.tag == tag)
      invariant match' <= |row| && FindTag(row, tag, 0) == FindTag(row, tag, match')
    {
      match' := match' + 1;
    }
    while empty < |row| && row[empty].Some?
      invariant empty <= |row| && FindEmpty(row, 0) == FindEmpty(row, empty)
    {
      empty := empty + 1;
    }
    var way := if match' < |row| then match' else if empty < |row| then empty else table.victim[k];
    var old_ := if match' < |row| then row[way].value.body else Miss();
    r := table.(rows := table.rows[k := row[way := Some(Tagged(tag, Learn(old_, t)))]]);
    if match' == |row| && empty == |row| {
      r := r.(victim := table.victim[k := (way + 1) % c.ways]);
    }
    assert r == Trained(c, table, t) by {
      assert table.victim[k := table.victim[k]] == table.victim;
    }
  }

  /** The answer to the pending query, searching the ways that were read for it. */
  method ComputeShown(pending: Option<PendingRead>, i: Inputs) returns (v: Visible)
    ensures v == Shown(pending, i)
  {
    if i.rst || i.stall || i.kill || pending.None? { return Visible(false, Miss()); }
    var ways, tag := pending.value.ways, pending.value.tag;
    for way := 0 to |ways|
      invariant FindTag(ways, tag, 0) == FindTag(ways, tag, way)
    {
      if ways[way].Some? && ways[way].value.tag == tag { return Visible(true, ways[way].value.body); }
    }
    v := Visible(true, Miss());
  }

  class PipelinedBtb {
    const c: Config
    var table: Table
    var pendingTrain: Train
    var pending: Option<PendingRead>

    ghost function View(): Delayed
      reads this
    {
      Delayed(table, pendingTrain, pending)
    }

    ghost predicate Valid()
      reads this
    {
      ConfigOk(c) && TableOk(c, table)
    }

    constructor (c: Config)
      requires ConfigOk(c)
      ensures Valid() && this.c == c && View() == DelayedReset(c)
    {
      this.c := c;
      table, pendingTrain, pending := EmptyTable(c), NoTrain(), None;
    }

    method VisibleNow(i: Inputs) returns (v: Visible)
      requires Valid()
      ensures v == Shown(pending, i)
    {
      v := ComputeShown(pending, i);
    }

    /** One clock edge; `ok` is false when the packet that is trained fails the model's assertion. */
    method Tick(i: Inputs) returns (ok: bool)
      requires Valid()
      modifies this
      ensures Valid() && View() == DelayedTick(c, old(View()), i)
      ensures ok <==> i.rst || (var t := old(pendingTrain);
                                t.valid && t.cfiValid && t.cfiType != NoCfi ==> t.cfiSlot < c.slots)
    {
      if i.rst {
        table, pendingTrain, pending := EmptyTable(c), NoTrain(), None;
        return true;
      }
      ok := LegalTrain(c, pendingTrain);
      table := TrainTable(c, table, pendingTrain);
      pendingTrain := i.train;
      if i.kill {
        pending := None;
      } else if !i.stall {
        if i.queryValid {
          var tag := ComputeFold(i.queryPc, c.shift + c.setBits, c.vaddrBits, c.tagBits);
          pending := Some(PendingRead(tag, table.rows[SetOf(c, i.queryPc)]));
        } else {
          pending := None;
        }
      }
    }
  }

  class LegacyBtb {
    const c: Config
    var table: Table
    var pending: Option<PendingRead>

    ghost function View(): Immediate
      reads this
    {
      Immediate(table, pending)
    }

    ghost predicate Valid()
      reads this
    {
      ConfigOk(c) && TableOk(c, table)
    }

    constructor (c: Config)
      requires ConfigOk(c)
      ensures Valid() && this.c == c && View() == ImmediateReset(c)
    {
      this.c := c;
      table, pending := EmptyTable(c), None;
    }

    method VisibleNow(i: Inputs) returns (v: Visible)
      requires Valid()
      ensures v == Shown(pending, i)
    {
      v := ComputeShown(pending, i);
    }

    /** One clock edge; `ok` is false when the packet that is trained fails the model's assertion. */
    method Tick(i: Inputs) returns (ok: bool)
      requires Valid()
      modifies this
      ensures Valid() && View() == ImmediateTick(c, old(View()), i)
      ensures ok <==> i.rst || (var t := i.train;
                                t.valid && t.cfiValid && t.cfiType != NoCfi ==> t.cfiSlot < c.slots)
    {
      if i.rst {
        table, pending := EmptyTable(c), None;
        return true;
      }
      ok := LegalTrain(c, i.train);
      if i.kill {
        pending := None;
      } else if !i.stall {
        if i.queryValid {
          var tag := ComputeFold(i.queryPc, c.shift + c.setBits, c.vaddrBits, c.tagBits);
          pending := Some(PendingRead(tag, table.rows[SetOf(c, i.queryPc)]));
        } else {
          pending := None;
        }
      }
      table := TrainTable(c, table, i.train);
    }
  }
}
