/** The first-level branch target buffer: fully associative, trained in place, with a two-bit counter
    for the branch that owns an entry. */
module Ubtb {
  import opened Rings
  import opened TagTable
  import opened Wrappers

  datatype Cfi = NoCfi | Br | Jal | Jalr

  datatype Config = Config(vaddrBits: nat, shift: nat, entries: nat, tagBits: nat, slots: nat)

  predicate ConfigOk(c: Config) { c.entries > 0 && c.tagBits > 0 && c.slots > 0 && c.shift <= c.vaddrBits }

  datatype Train = Train(
    valid: bool, pc: nat, brCommit: set<nat>, cfiValid: bool, cfiSlot: nat, cfiType: Cfi, ras: nat, target: nat)

  datatype Inputs = Inputs(rst: bool, queryValid: bool, queryPc: nat, stall: bool, train: Train)

  datatype Entry = Entry(
    brMask: set<nat>, jalMask: set<nat>, ownerValid: bool, cfiSlot: nat, cfiType: Cfi, ras: nat, target: nat, ctr: nat)

  datatype Prediction = Prediction(
    base: nat, entrySlot: nat, brMask: set<nat>, jalMask: set<nat>, cfiValid: bool, cfiSlot: nat, cfiType: Cfi,
    ras: nat, taken: bool, target: nat, nextPc: nat)

  datatype Table = Table(row: Row<Entry>, replace: nat)

  function Blank(): Entry { Entry({}, {}, false, 0, NoCfi, 0, 0, 0) }

  predicate TakenCfi(t: Train) { t.cfiValid && t.cfiType != NoCfi }

  predicate Active(t: Train) { t.valid && (t.brCommit != {} || TakenCfi(t)) }

  function TagOf(c: Config, pc: nat): Tag
    requires ConfigOk(c)
  {
    Fold(pc, c.shift, c.vaddrBits, c.tagBits)
  }

  /** The owner's counter after a packet: up for its own branch taken, down for it committed and not
      taken, fresh when the owner changes. */
  function NextCounter(e: Entry, matched: bool, t: Train): nat {
    var owned := matched && e.ownerValid && e.cfiType == Br;
    if TakenCfi(t) then
      if t.cfiType != Br then 0
      else if owned && e.cfiSlot == t.cfiSlot then (if e.ctr < 3 then e.ctr + 1 else 3)
      else 2
    else if owned && e.cfiSlot in t.brCommit then (if e.ctr > 0 then e.ctr - 1 else 0)
    else e.ctr
  }

  function Learn(e: Entry, matched: bool, t: Train): Entry {
    var br := e.brMask + t.brCommit;
    var ctr := NextCounter(e, matched, t);
    if !TakenCfi(t) then e.(brMask := br, ctr := ctr)
    else
      Entry(if t.cfiType == Br then br + {t.cfiSlot} else br,
            if t.cfiType == Jal then e.jalMask + {t.cfiSlot} else e.jalMask,
            true, t.cfiSlot, t.cfiType, t.ras, t.target, ctr)
  }

  predicate TableOk(c: Config, t: Table) { |t.row| == c.entries && t.replace < c.entries }

  function EmptyTable(c: Config): Table { Table(seq(c.entries, _ => None), 0) }

  /** Entries are made only for taken instructions; others only touch an entry that is there. */
  function Trained(c: Config, table: Table, t: Train): Table
    requires ConfigOk(c) && TableOk(c, table)
  {
    if !Active(t) then table
    else
      var tag := TagOf(c, t.pc);
      var old_ := Lookup(table.row, tag);
      if old_.None? && !TakenCfi(t) then table
      else
        Table(Insert(table.row, table.replace, tag, Learn(if old_.Some? then old_.value else Blank(), old_.Some?, t)),
              NextVictim(table.row, table.replace, tag))
  }

  function AfterEdge(c: Config, table: Table, i: Inputs): Table
    requires ConfigOk(c) && TableOk(c, table)
  {
    if i.rst then EmptyTable(c) else Trained(c, table, i.train)
  }

  lemma TickOk(c: Config, table: Table, i: Inputs)
    requires ConfigOk(c) && TableOk(c, table)
    ensures TableOk(c, AfterEdge(c, table, i))
  {
  }

  // ------------------------------------------------------- the table is a queue

  function Queued(c: Config, q: seq<Tagged<Entry>>, t: Train): seq<Tagged<Entry>>
    requires ConfigOk(c)
  {
    if !Active(t) then q
    else
      var tag := TagOf(c, t.pc);
      var k := FindInQueue(q, tag);
      if k == |q| && !TakenCfi(t) then q
      else Enqueue(q, c.entries, tag, Learn(if k < |q| then q[k].body else Blank(), k < |q|, t))
  }

  function TableAfter(c: Config, inputs: seq<Inputs>): (t: Table)
    requires ConfigOk(c)
    ensures TableOk(c, t)
  {
    if inputs == [] then EmptyTable(c)
    else
      TickOk(c, TableAfter(c, inputs[..|inputs| - 1]), inputs[|inputs| - 1]);
      AfterEdge(c, TableAfter(c, inputs[..|inputs| - 1]), inputs[|inputs| - 1])
  }

  function QueueAfter(c: Config, inputs: seq<Inputs>): seq<Tagged<Entry>>
    requires ConfigOk(c)
  {
    if inputs == [] || inputs[|inputs| - 1].rst then []
    else Queued(c, QueueAfter(c, inputs[..|inputs| - 1]), inputs[|inputs| - 1].train)
  }

  lemma TrainIsQueued(c: Config, table: Table, q: seq<Tagged<Entry>>, t: Train)
    requires ConfigOk(c) && TableOk(c, table) && Holds(table.row, table.replace, q)
    ensures Holds(Trained(c, table, t).row, Trained(c, table, t).replace, Queued(c, q, t))
  {
    if Active(t) {
      var tag := TagOf(c, t.pc);
      var old_ := Lookup(table.row, tag);
      LookupIsFind(table.row, table.replace, q, tag);
      InsertIsEnqueue(table.row, table.replace, q, tag,
                      Learn(if old_.Some? then old_.value else Blank(), old_.Some?, t));
    }
    hide Holds, Insert, Enqueue, Learn, TagOf, NextVictim;
  }

  /** After any inputs the table holds its last allocations, each updated in place: gaps fill in order, then
      the pointer evicts the oldest, and no tag ever occurs twice. */
  lemma {:induction false} TableIsQueue(c: Config, inputs: seq<Inputs>)
    requires ConfigOk(c)
    ensures Holds(TableAfter(c, inputs).row, TableAfter(c, inputs).replace, QueueAfter(c, inputs))
  {
    if inputs == [] || inputs[|inputs| - 1].rst {
      assert TableAfter(c, inputs) == EmptyTable(c);
    } else {
      var n := |inputs| - 1;
      TableIsQueue(c, inputs[..n]);
      TrainIsQueued(c, TableAfter(c, inputs[..n]), QueueAfter(c, inputs[..n]), inputs[n].train);
    }
    hide Holds, Trained, Queued;
  }

  /** Counters stay in two bits, and only a taken branch owns a running counter: a jump's is zero. */
  ghost predicate Sane(e: Entry) {
    e.ctr <= 3 && (e.ctr > 0 ==> e.ownerValid && e.cfiType == Br) && (e.cfiType == NoCfi <==> !e.ownerValid)
    && (e.ownerValid && e.cfiType == Br ==> e.cfiSlot in e.brMask)
    && (e.ownerValid && e.cfiType == Jal ==> e.cfiSlot in e.jalMask)
  }

  lemma {:induction false} EntriesSane(c: Config, inputs: seq<Inputs>)
    requires ConfigOk(c)
    ensures forall k :: 0 <= k < |QueueAfter(c, inputs)| ==> Sane(QueueAfter(c, inputs)[k].body)
  {
    if inputs != [] && !inputs[|inputs| - 1].rst {
      var n := |inputs| - 1;
      EntriesSane(c, inputs[..n]);
      QueuedSane(c, QueueAfter(c, inputs[..n]), inputs[n].train);
    }
  }

  lemma QueuedSane(c: Config, q: seq<Tagged<Entry>>, t: Train)
    requires ConfigOk(c) && forall k :: 0 <= k < |q| ==> Sane(q[k].body)
    ensures forall k :: 0 <= k < |Queued(c, q, t)| ==> Sane(Queued(c, q, t)[k].body)
  {
    var j := FindInQueue(q, TagOf(c, t.pc));
    if j < |q| { LearnSane(q[j].body, true, t); } else if TakenCfi(t) { LearnSane(Blank(), false, t); }
    hide Learn, Sane, TagOf;
  }

  lemma LearnSane(e: Entry, matched: bool, t: Train)
    requires Sane(e) && (matched || e == Blank())
    ensures matched || TakenCfi(t) ==> Sane(Learn(e, matched, t))
  {
  }

  // -------------------------------------------------------------- predictions

  function Times(a: nat, b: nat): nat { a * b }

  /** The address of the region, its low bits cleared. */
  function Base(c: Config, pc: nat): nat {
    QuotientNat(pc, Pow2(c.shift));
    Times(pc / Pow2(c.shift), Pow2(c.shift))
  }

  datatype Visible = Visible(valid: bool, ready: bool, prediction: Prediction)

  /** A hit redirects only to a jump, or a branch whose counter is in the upper half, at or after the slot
      where the query enters the region. */
  predicate Takes(e: Entry, slot: nat) {
    e.ownerValid && e.cfiSlot >= slot && (e.cfiType == Jal || e.cfiType == Jalr || (e.cfiType == Br && e.ctr >= 2))
  }

  function NoPrediction(): Prediction { Prediction(0, 0, {}, {}, false, 0, NoCfi, 0, false, 0, 0) }

  function Shown(c: Config, table: Table, i: Inputs): Visible
    requires ConfigOk(c) && TableOk(c, table)
  {
    if i.rst || i.stall || !i.queryValid then Visible(false, !i.rst, NoPrediction())
    else
      var base := Base(c, i.queryPc);
      var slot := i.queryPc / 2 % c.slots;
      var next := (base + Pow2(c.shift)) % Pow2(c.vaddrBits);
      var e := Lookup(table.row, TagOf(c, base));
      if e.None? then Visible(false, true, NoPrediction().(base := base, entrySlot := slot, nextPc := next))
      else if Takes(e.value, slot) then
        Visible(true, true,
                Prediction(base, slot, e.value.brMask, e.value.jalMask, true, e.value.cfiSlot, e.value.cfiType,
                                       e.value.ras, true, e.value.target, e.value.target))
      else Visible(true, true,
                   Prediction(base, slot, e.value.brMask, e.value.jalMask, false, 0, NoCfi, 0, false, 0, next))
  }

  /** What a taken instruction teaches is what the next query of its region is told: same entry, and a
      redirect to its target whenever the query enters at or before its slot. */
  lemma TaughtIsShown(c: Config, inputs: seq<Inputs>, t: Train, i: Inputs)
    requires ConfigOk(c) && t.valid && TakenCfi(t)
    requires !i.rst && !i.stall && i.queryValid && TagOf(c, Base(c, i.queryPc)) == TagOf(c, t.pc)
    requires i.queryPc / 2 % c.slots <= t.cfiSlot
    requires t.cfiType == Br ==>
               forall k :: 0 <= k < |QueueAfter(c, inputs)| && QueueAfter(c, inputs)[k].tag == TagOf(c, t.pc) ==>
                 var e := QueueAfter(c, inputs)[k].body; e.cfiType == Br && e.cfiSlot == t.cfiSlot ==> e.ctr > 0
    ensures TableOk(c, Trained(c, TableAfter(c, inputs), t))
    ensures var v := Shown(c, Trained(c, TableAfter(c, inputs), t), i);
            v.valid && v.prediction.taken && v.prediction.nextPc == t.target && v.prediction.cfiSlot == t.cfiSlot
            && v.prediction.cfiType == t.cfiType
  {
    var table, q, tag := TableAfter(c, inputs), QueueAfter(c, inputs), TagOf(c, t.pc);
    TableIsQueue(c, inputs);
    EntriesSane(c, inputs);
    LookupIsFind(table.row, table.replace, q, tag);
    var old_ := Lookup(table.row, tag);
    var e := Learn(if old_.Some? then old_.value else Blank(), old_.Some?, t);
    InsertThenLookup(table.row, table.replace, tag, e);
    hide TableAfter, QueueAfter, Holds, TagOf, Insert, Base, NextVictim, Lookup;
  }

  /** How an entry's counter follows the outcomes of the branch that owns it: a step up, not past 3, when it is taken,
      a step down, not past 0, when it is committed and not taken, and otherwise none. A new owner starts afresh: a
      branch weakly taken, a jump without a counter. The masks grow by what was committed, and nothing else. */
  lemma CounterFollows(c: Config, table: Table, t: Train, e: Entry)
    requires ConfigOk(c) && TableOk(c, table) && Lookup(table.row, TagOf(c, t.pc)) == Some(e)
    requires t.valid && (t.brCommit != {} || (t.cfiValid && t.cfiType != NoCfi))
    ensures TableOk(c, Trained(c, table, t)) && Lookup(Trained(c, table, t).row, TagOf(c, t.pc)).Some?
    ensures var e' := Lookup(Trained(c, table, t).row, TagOf(c, t.pc)).value;
            if t.cfiValid && t.cfiType != NoCfi then
              && Owns(e', t)
              && (t.cfiType != Br ==> e'.ctr == 0)
              && (t.cfiType == Br ==>
                    if e.ownerValid && e.cfiType == Br && e.cfiSlot == t.cfiSlot
                    then e'.ctr == (if e.ctr >= 3 then 3 else e.ctr + 1)
                    else e'.ctr == 2)
            else
              && e'.ownerValid == e.ownerValid && e'.cfiSlot == e.cfiSlot && e'.cfiType == e.cfiType
              && e'.target == e.target && e'.ras == e.ras
              && (if e.ownerValid && e.cfiType == Br && e.cfiSlot in t.brCommit
                  then (if e.ctr == 0 then e'.ctr == 0 else e'.ctr == e.ctr - 1)
                  else e'.ctr == e.ctr)
    ensures MasksGrow(e.brMask, e.jalMask, Lookup(Trained(c, table, t).row, TagOf(c, t.pc)).value, t)
  {
    InsertThenLookup(table.row, table.replace, TagOf(c, t.pc), Learn(e, true, t));
    TickOk(c, table, Inputs(false, false, 0, false, t));
    hide TagOf, Insert, NextVictim, Lookup;
  }

  ghost predicate Owns(e: Entry, t: Train) {
    e.ownerValid && e.cfiSlot == t.cfiSlot && e.cfiType == t.cfiType && e.target == t.target && e.ras == t.ras
  }

  ghost predicate MasksGrow(br: set<nat>, jal: set<nat>, e: Entry, t: Train) {
    var taken := t.cfiValid && t.cfiType != NoCfi;
    && (forall k :: k in e.brMask <==> k in br || k in t.brCommit || (taken && t.cfiType == Br && k == t.cfiSlot))
    && (forall k :: k in e.jalMask <==> k in jal || (taken && t.cfiType == Jal && k == t.cfiSlot))
  }

  /** A region that is not in the table enters it with a taken instruction, and with nothing else. */
  lemma FirstTaught(c: Config, table: Table, t: Train)
    requires ConfigOk(c) && TableOk(c, table) && Lookup(table.row, TagOf(c, t.pc)).None?
    ensures TableOk(c, Trained(c, table, t))
    ensures if t.valid && t.cfiValid && t.cfiType != NoCfi
            then var e := Lookup(Trained(c, table, t).row, TagOf(c, t.pc));
                 e.Some? && Owns(e.value, t) && MasksGrow({}, {}, e.value, t)
                 && e.value.ctr == (if t.cfiType == Br then 2 else 0)
            else Trained(c, table, t) == table
  {
    InsertThenLookup(table.row, table.replace, TagOf(c, t.pc), Learn(Blank(), false, t));
    TickOk(c, table, Inputs(false, false, 0, false, t));
    hide TagOf, Insert, NextVictim, Lookup;
  }

  /** What a query is told of an entry: the masks, and a redirect to its owner's target, with the owner's slot, type and
      stack action, when the owner is at or after the slot of entry and is a jump or a branch that the counter
      believes taken; otherwise the next region. Without an entry it is told the next region only. */
  lemma QueryTold(c: Config, table: Table, i: Inputs)
    requires ConfigOk(c) && TableOk(c, table) && !i.rst && !i.stall && i.queryValid
    ensures var found, v := Lookup(table.row, TagOf(c, Base(c, i.queryPc))), Shown(c, table, i);
            var p := v.prediction;
            && v.ready && v.valid == found.Some? && p.base == Base(c, i.queryPc) && p.entrySlot < c.slots
            && (p.taken <==> found.Some? && found.value.ownerValid && p.entrySlot <= found.value.cfiSlot
                             && (match found.value.cfiType
                                 case NoCfi => false case Br => found.value.ctr > 1
                                 case Jal => true case Jalr => true))
            && p.cfiValid == p.taken
            && (if p.taken
                then p.cfiSlot == found.value.cfiSlot && p.cfiType == found.value.cfiType
                     && p.ras == found.value.ras && p.target == found.value.target && p.nextPc == p.target
                else p.nextPc == (p.base + Pow2(c.shift)) % Pow2(c.vaddrBits) && p.cfiType == NoCfi
                     && p.cfiSlot == 0 && p.ras == 0 && p.target == 0)
            && p.brMask == (if found.Some? then found.value.brMask else {})
            && p.jalMask == (if found.Some? then found.value.jalMask else {})
  {
    hide TagOf, Lookup, Base;
  }

  /** Without a query to answer nothing is shown, and the table is ready except in reset. */
  lemma NothingAsked(c: Config, table: Table, i: Inputs)
    requires ConfigOk(c) && TableOk(c, table) && (i.rst || i.stall || !i.queryValid)
    ensures var v := Shown(c, table, i);
            var p := v.prediction;
            && !v.valid && (v.ready <==> !i.rst)
            && p.base == p.entrySlot == p.cfiSlot == p.ras == p.target == p.nextPc == 0
            && p.brMask == p.jalMask == {} && !p.cfiValid && !p.taken && p.cfiType == NoCfi
  {
    hide TagOf, Lookup, Base;
  }

  /** A tag bit is the parity of the region number's bits that are a whole number of tag widths apart. */
  lemma TagBits(c: Config, pc: nat, j: nat)
    requires ConfigOk(c) && j < c.tagBits
    ensures |TagOf(c, pc)| == c.tagBits
    ensures TagOf(c, pc)[j] <==> Odd(|Counted(pc, c.shift, c.vaddrBits, c.tagBits, j)|)
  {
    FoldIsParity(pc, c.shift, c.vaddrBits, c.tagBits, j);
    hide FoldBit, Counted, Odd;
  }

  /** The region of an address, and the slot at which it enters, for regions of two bytes a slot. */
  lemma RegionAndSlot(c: Config, table: Table, i: Inputs, region: nat, slot: nat, half: nat)
    requires ConfigOk(c) && TableOk(c, table) && !i.rst && !i.stall && i.queryValid
    requires Pow2(c.shift) == 2 * c.slots && slot < c.slots && half < 2
    requires i.queryPc == region * Pow2(c.shift) + 2 * slot + half
    ensures Shown(c, table, i).prediction.base == region * Pow2(c.shift)
    ensures Shown(c, table, i).prediction.entrySlot == slot
  {
    ModOf(i.queryPc, region, 2 * slot + half, Pow2(c.shift));
    assert i.queryPc == 2 * (region * c.slots + slot) + half;
    ModOf(i.queryPc, region * c.slots + slot, half, 2);
    ModOf(region * c.slots + slot, region, slot, c.slots);
    hide TagOf, Lookup, Pow2;
  }

  /** A region whose owner is a branch stops redirecting after two packets in which that branch is not taken, whatever
      its counter was: the next query falls through to the next region. */
  lemma NotTakenTwice(c: Config, inputs: seq<Inputs>, e: Entry, a: Train, b: Train, i: Inputs)
    requires ConfigOk(c) && Lookup(TableAfter(c, inputs).row, TagOf(c, a.pc)) == Some(e)
    requires e.ownerValid && e.cfiType == Br && e.cfiSlot in a.brCommit && e.cfiSlot in b.brCommit
    requires a.valid && b.valid && !(a.cfiValid && a.cfiType != NoCfi) && !(b.cfiValid && b.cfiType != NoCfi)
    requires TagOf(c, a.pc) == TagOf(c, b.pc)
    requires !i.rst && !i.stall && i.queryValid && TagOf(c, Base(c, i.queryPc)) == TagOf(c, b.pc)
    ensures var table := TableAfter(c, inputs);
            && TableOk(c, Trained(c, table, a)) && TableOk(c, Trained(c, Trained(c, table, a), b))
            && var v := Shown(c, Trained(c, Trained(c, table, a), b), i);
               v.valid && !v.prediction.taken
               && v.prediction.nextPc == (Base(c, i.queryPc) + Pow2(c.shift)) % Pow2(c.vaddrBits)
  {
    var table := TableAfter(c, inputs);
    CounterInRange(c, inputs, TagOf(c, a.pc));
    CounterFollows(c, table, a, e);
    CounterFollows(c, Trained(c, table, a), b, Lookup(Trained(c, table, a).row, TagOf(c, a.pc)).value);
    hide Trained, TableAfter, TagOf, Base, Lookup, TableOk, MasksGrow;
  }

  lemma CounterInRange(c: Config, inputs: seq<Inputs>, tag: Tag)
    requires ConfigOk(c)
    ensures var e := Lookup(TableAfter(c, inputs).row, tag); e.Some? ==> e.value.ctr <= 3
  {
    var table, q := TableAfter(c, inputs), QueueAfter(c, inputs);
    TableIsQueue(c, inputs);
    EntriesSane(c, inputs);
    LookupIsFind(table.row, table.replace, q, tag);
    hide TableAfter, QueueAfter, Holds, Lookup;
  }

  // --------------------------------------------------------- the model as an object

  class UbtbModel {
    const c: Config
    var row: Row<Entry>
    var replace: nat

    ghost function View(): Table
      reads this
    {
      Table(row, replace)
    }

    constructor (c: Config)
      requires ConfigOk(c)
      ensures this.c == c && View() == EmptyTable(c) && TableOk(c, View())
    {
      this.c := c;
      row, replace := seq(c.entries, _ => None), 0;
    }

    /** The answer to a query, searching the whole table. */
    method VisibleNow(i: Inputs) returns (v: Visible)
      requires ConfigOk(c) && TableOk(c, View())
      ensures v == Shown(c, View(), i)
    {
      if i.rst || i.stall || !i.queryValid { return Visible(false, !i.rst, NoPrediction()); }
      var base := Base(c, i.queryPc);
      var slot := i.queryPc / 2 % c.slots;
      var next := (base + Pow2(c.shift)) % Pow2(c.vaddrBits);
      var tag := ComputeFold(base, c.shift, c.vaddrBits, c.tagBits);
      var index := 0;
      while index < |row| && !(row[index].Some? && row[index].value.tag == tag)
        invariant index <= |row| && FindTag(row, tag, 0) == FindTag(row, tag, index)
      {
        index := index + 1;
      }
      if index == |row| { return Visible(false, true,
                                         NoPrediction().(base := base, entrySlot := slot, nextPc := next)); }
      var e := row[index].value.body;
      var take := e.ownerValid && e.cfiSlot >= slot
      && (e.cfiType == Jal || e.cfiType == Jalr || (e.cfiType == Br && e.ctr >= 2));
      v := Visible(true, true, Prediction(
        base, slot, e.brMask, e.jalMask, take, if take then e.cfiSlot else 0, if take then e.cfiType else NoCfi,
        if take then e.ras else 0, take, if take then e.target else 0, if take then e.target else next));
    }

    method Tick(i: Inputs)
      requires ConfigOk(c) && TableOk(c, View())
      modifies this
      ensures TableOk(c, View()) && View() == AfterEdge(c, old(View()), i)
    {
      if i.rst {
        row, replace := seq(c.entries, _ => None), 0;
        return;
      }
      var t := i.train;
      if !t.valid || (t.brCommit == {} && !(t.cfiValid && t.cfiType != NoCfi)) { return; }
      var tag := ComputeFold(t.pc, c.shift, c.vaddrBits, c.tagBits);
      var index := 0;
      while index < |row| && !(row[index].Some? && row[index].value.tag == tag)
        invariant index <= |row| && FindTag(row, tag, 0) == FindTag(row, tag, index)
      {
        index := index + 1;
      }
      var matched := index < |row|;
      if !matched && !(t.cfiValid && t.cfiType != NoCfi) { return; }
      if !matched {
        index := 0;
        while index < |row| && row[index].Some?
          invariant index <= |row| && FindEmpty(row, 0) == FindEmpty(row, index)
        {
          index := index + 1;
        }
        if index == |row| {
          index := replace;
          replace := (index + 1) % c.entries;
        }
      }
      var e := if matched then row[index].value.body else Blank();
      var brMask, jalMask, ctr := e.brMask + t.brCommit, e.jalMask, e.ctr;
      if t.cfiValid && t.cfiType != NoCfi {
        if t.cfiType == Br {
          brMask := brMask + {t.cfiSlot};
          if matched && e.ownerValid && e.cfiType == Br && e.cfiSlot == t.cfiSlot {
            ctr := if e.ctr < 3 then e.ctr + 1 else 3;
          } else {
            ctr := 2;
          }
        } else {
          ctr := 0;
        }
        if t.cfiType == Jal { jalMask := jalMask + {t.cfiSlot}; }
        e := Entry(brMask, jalMask, true, t.cfiSlot, t.cfiType, t.ras, t.target, ctr);
      } else {
        if matched && e.ownerValid && e.cfiType == Br && e.cfiSlot in t.brCommit {
          ctr := if e.ctr > 0 then e.ctr - 1 else 0;
        }
        e := e.(brMask := brMask, ctr := ctr);
      }
      row := row[index := Some(Tagged(tag, e))];
    }
  }
}
