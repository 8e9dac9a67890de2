/** The two predictor models: one whose accepted packets wait two edges before they are written, and the
    frozen reference that writes at once. */
module TageModels {
  import opened TagTable
  import opened Tage
  import opened Wrappers

  datatype Inputs = Inputs(
    rst: bool, queryValid: bool, pc: nat, folds: nat, stall: bool, kill: bool, train: Packet)

  function NoPacket(): Packet { Packet(false, 0, 0, [], {}, {}) }

  /** The two query registers. */
  datatype Pipe = Pipe(s1: Option<Query>, s2: Option<Snapshot>)

  predicate PipeOk(c: Config, p: Pipe) {
    (p.s1.Some? ==> QueryOk(c, p.s1.value)) && (p.s2.Some? ==> SnapshotOk(c, p.s2.value))
  }

  function NextPipe(c: Config, s: Store, p: Pipe, i: Inputs): Pipe
    requires ConfigOk(c) && StoreOk(c, s) && PipeOk(c, p)
  {
    if i.kill then Pipe(None, None)
    else if i.stall then p
    else Pipe(if i.queryValid then Some(MakeQuery(c, i.pc, i.folds)) else None,
              if p.s1.Some? then Some(Read(c, s, p.s1.value)) else None)
  }

  lemma NextPipeOk(c: Config, s: Store, p: Pipe, i: Inputs)
    requires ConfigOk(c) && StoreOk(c, s) && PipeOk(c, p)
    ensures PipeOk(c, NextPipe(c, s, p, i))
  {
    MakeQueryOk(c, i.pc, i.folds);
    if p.s1.Some? { ReadOk(c, s, p.s1.value); }
    hide StoreOk, QueryOk, SnapshotOk, MakeQuery, Read;
  }

  datatype Visible = Visible(valid: bool, response: Response)

  function Shown(c: Config, p: Pipe, i: Inputs): Visible
    requires ConfigOk(c) && PipeOk(c, p)
  {
    if p.s2.Some? && !(i.rst || i.stall || i.kill) then Visible(true, Predict(c, p.s2.value))
    else Visible(false, Response({}, {}, []))
  }

  datatype Delayed = Delayed(store: Store, pending: Packet, write: Packet, pipe: Pipe)
  datatype Immediate = Immediate(store: Store, pipe: Pipe)

  ghost predicate DelayedOk(c: Config, s: Delayed) { ConfigOk(c) && StoreOk(c, s.store) && PipeOk(c, s.pipe) }
  ghost predicate ImmediateOk(c: Config, s: Immediate) { ConfigOk(c) && StoreOk(c, s.store) && PipeOk(c, s.pipe) }

  function DelayedReset(c: Config): Delayed
    requires ConfigOk(c)
  {
    Delayed(ResetStore(c), NoPacket(), NoPacket(), Pipe(None, None))
  }

  function ImmediateReset(c: Config): Immediate
    requires ConfigOk(c)
  {
    Immediate(ResetStore(c), Pipe(None, None))
  }

  /** A packet is refused only while the one before it, still waiting, shares a row with it. */
  predicate Ready(c: Config, pending: Packet, i: Inputs)
    requires ConfigOk(c)
  {
    !i.rst && (!(pending.valid && pending.commit != {} && i.train.commit != {}) || Independent(c, pending, i.train))
  }

  function DelayedTick(c: Config, s: Delayed, i: Inputs): Delayed
    requires ConfigOk(c) && StoreOk(c, s.store) && PipeOk(c, s.pipe)
  {
    if i.rst then DelayedReset(c)
    else
      TrainOk(c, s.store, s.write);
      var store := Train(c, s.store, s.write);
      Delayed(store, if Ready(c, s.pending, i) then i.train else NoPacket(), s.pending, NextPipe(c, store, s.pipe, i))
  }

  function ImmediateTick(c: Config, s: Immediate, i: Inputs): Immediate
    requires ConfigOk(c) && StoreOk(c, s.store) && PipeOk(c, s.pipe)
  {
    if i.rst then ImmediateReset(c)
    else Immediate(Train(c, s.store, i.train), NextPipe(c, s.store, s.pipe, i))
  }

  lemma DelayedTickOk(c: Config, s: Delayed, i: Inputs)
    requires DelayedOk(c, s)
    ensures DelayedOk(c, DelayedTick(c, s, i))
  {
    TrainOk(c, s.store, s.write);
    NextPipeOk(c, Train(c, s.store, s.write), s.pipe, i);
    hide StoreOk, ResetStore, Train, NextPipe, QueryOk, SnapshotOk, Ready;
  }

  lemma ImmediateTickOk(c: Config, s: Immediate, i: Inputs)
    requires ImmediateOk(c, s)
    ensures ImmediateOk(c, ImmediateTick(c, s, i))
  {
    TrainOk(c, s.store, i.train);
    NextPipeOk(c, s.store, s.pipe, i);
    hide StoreOk, ResetStore, Train, NextPipe, QueryOk, SnapshotOk;
  }

  /** The reference is ahead of the delayed store by exactly the packet about to be written. */
  ghost predicate Related(c: Config, s: Delayed, l: Immediate) {
    DelayedOk(c, s) && ImmediateOk(c, l) && l.store == Train(c, s.store, s.write) && l.pipe == s.pipe
  }

  /** The reference is driven with the packet accepted one cycle earlier. */
  lemma EdgeKeepsRelated(c: Config, s: Delayed, l: Immediate, i: Inputs)
    requires Related(c, s, l)
    ensures Related(c, DelayedTick(c, s, i), ImmediateTick(c, l, i.(train := s.pending)))
    ensures Shown(c, s.pipe, i) == Shown(c, l.pipe, i)
  {
    DelayedTickOk(c, s, i);
    ImmediateTickOk(c, l, i.(train := s.pending));
    TrainOk(c, s.store, s.write);
    hide StoreOk, ResetStore, NextPipe, QueryOk, SnapshotOk, Ready, TrainWith;
    if i.rst { assert Train(c, ResetStore(c), NoPacket()) == ResetStore(c) by { NothingTrained(c, ResetStore(c)); } }
    assert NextPipe(c, l.store, l.pipe, i.(train := s.pending)) == NextPipe(c, l.store, l.pipe, i) by {
      TrainNotRead(c, l.store, l.pipe, i, s.pending);
    }
    hide Train;
  }

  lemma NothingTrained(c: Config, s: Store)
    requires ConfigOk(c) && StoreOk(c, s)
    ensures Train(c, s, NoPacket()) == s
  {
    TrainIsWrite(c, s, NoPacket());
  }

  lemma TrainNotRead(c: Config, s: Store, p: Pipe, i: Inputs, packet: Packet)
    requires ConfigOk(c) && StoreOk(c, s) && PipeOk(c, p)
    ensures NextPipe(c, s, p, i.(train := packet)) == NextPipe(c, s, p, i)
  {
    hide StoreOk, QueryOk, SnapshotOk, MakeQuery, Read;
  }

  ghost function DelayedTrace(c: Config, s: Delayed, inputs: seq<Inputs>): seq<Visible>
    requires DelayedOk(c, s)
    decreases inputs
  {
    if inputs == [] then []
    else
      DelayedTickOk(c, s, inputs[0]);
      [Shown(c, s.pipe, inputs[0])] + DelayedTrace(c, DelayedTick(c, s, inputs[0]), inputs[1..])
  }

  ghost function ImmediateTrace(c: Config, s: Immediate, inputs: seq<Inputs>): seq<Visible>
    requires ImmediateOk(c, s)
    decreases inputs
  {
    if inputs == [] then []
    else
      ImmediateTickOk(c, s, inputs[0]);
      [Shown(c, s.pipe, inputs[0])] + ImmediateTrace(c, ImmediateTick(c, s, inputs[0]), inputs[1..])
  }

  /** The same inputs, but with each packet replaced by the one accepted in the cycle before. */
  ghost function OneCycleLater(c: Config, s: Delayed, inputs: seq<Inputs>): seq<Inputs>
    requires DelayedOk(c, s)
    decreases inputs
  {
    if inputs == [] then []
    else
      DelayedTickOk(c, s, inputs[0]);
      [inputs[0].(train := s.pending)] + OneCycleLater(c, DelayedTick(c, s, inputs[0]), inputs[1..])
  }

  lemma {:induction false} TracesAgree(c: Config, s: Delayed, l: Immediate, inputs: seq<Inputs>)
    requires Related(c, s, l)
    ensures DelayedTrace(c, s, inputs) == ImmediateTrace(c, l, OneCycleLater(c, s, inputs))
    decreases inputs
  {
    hide Related, StoreOk, DelayedTick, ImmediateTick, Shown, PipeOk;
    RelatedOk(c, s, l);
    if inputs != [] {
      EdgeKeepsRelated(c, s, l, inputs[0]);
      var s', l' := DelayedTick(c, s, inputs[0]), ImmediateTick(c, l, inputs[0].(train := s.pending));
      TracesAgree(c, s', l', inputs[1..]);
      DelayedTickOk(c, s, inputs[0]);
      var later := OneCycleLater(c, s, inputs);
      assert later[0] == inputs[0].(train := s.pending) && later[1..] == OneCycleLater(c, s', inputs[1..]);
      assert Shown(c, l.pipe, later[0]) == Shown(c, l.pipe, inputs[0]) by {
        ShownNotTrained(c, l, inputs[0], s.pending);
      }
    }
  }

  lemma RelatedOk(c: Config, s: Delayed, l: Immediate)
    requires Related(c, s, l)
    ensures DelayedOk(c, s) && ImmediateOk(c, l)
  {
  }

  lemma ShownNotTrained(c: Config, l: Immediate, i: Inputs, packet: Packet)
    requires ImmediateOk(c, l)
    ensures Shown(c, l.pipe, i.(train := packet)) == Shown(c, l.pipe, i)
  {
  }

  /** From reset, for all inputs, validity and predictions agree cycle by cycle. */
  lemma ObservationallyEqual(c: Config, inputs: seq<Inputs>)
    requires ConfigOk(c)
    ensures DelayedTrace(c, DelayedReset(c), inputs)
            == ImmediateTrace(c, ImmediateReset(c), OneCycleLater(c, DelayedReset(c), inputs))
  {
    NothingTrained(c, ResetStore(c));
    hide StoreOk, ResetStore, Train, PipeOk;
    TracesAgree(c, DelayedReset(c), ImmediateReset(c), inputs);
  }

  /** An accepted packet is independent of the one waiting before it: the order of the two does not matter. */
  lemma AcceptedCommutes(c: Config, s: Store, pending: Packet, i: Inputs)
    requires ConfigOk(c) && StoreOk(c, s) && Ready(c, pending, i)
    ensures StoreOk(c, Train(c, s, pending)) && StoreOk(c, Train(c, s, i.train))
    ensures Train(c, Train(c, s, pending), i.train) == Train(c, Train(c, s, i.train), pending)
    ensures var q := MakeQuery(c, i.train.pc, i.train.folds);
            QueryOk(c, q) && RowsOk(c, RowsAt(s, q))
            && TrainWith(c, Train(c, s, pending), i.train, s.base[q.baseIdx], RowsAt(s, q))
               == Train(c, Train(c, s, pending), i.train)
  {
    TrainOk(c, s, pending);
    TrainOk(c, s, i.train);
    MakeQueryOk(c, i.train.pc, i.train.folds);
    ReadOk(c, s, MakeQuery(c, i.train.pc, i.train.folds));
    if Independent(c, pending, i.train) {
      IndependentTrain(c, s, pending, i.train);
    } else {
      InactiveTrain(c, s, pending);
      InactiveTrain(c, s, i.train);
      InactiveTrain(c, Train(c, s, i.train), pending);
      InactiveTrain(c, Train(c, s, pending), i.train);
      hide MakeQuery, Train, Write, BaseNext, RowsNext, StoreOk, QueryOk;
    }
  }

  lemma InactiveTrain(c: Config, s: Store, p: Packet)
    requires ConfigOk(c) && StoreOk(c, s)
    ensures !Active(p) ==> Train(c, s, p) == s
  {
    TrainIsWrite(c, s, p);
  }

  /** A refused packet is accepted when it is offered again: a dependency costs exactly one cycle. */
  lemma RefusedOnce(c: Config, s: Delayed, i: Inputs, i': Inputs)
    requires DelayedOk(c, s) && !i.rst && !Ready(c, s.pending, i) && !i'.rst
    ensures Ready(c, DelayedTick(c, s, i).pending, i')
  {
  }

  // --------------------------------------------------- the models as objects

  /** One packet, slot by slot, with the rows it touched written back at the end. */
  method ApplyPacket(c: Config, s: Store, p: Packet) returns (r: Store)
    requires ConfigOk(c) && StoreOk(c, s)
    ensures r == Train(c, s, p) && StoreOk(c, r)
  {
    TrainOk(c, s, p);
    TrainIsWrite(c, s, p);
    if !p.valid || p.commit == {} { return s; }
    var q := MakeQuery(c, p.pc, p.folds);
    var original := RowsAt(s, q);
    var base := s.base[q.baseIdx];
    var updated, next, touched := TrainSlots(c, q, original, base, p);
    WriteBack(c, s, q, original, updated, touched);
    r := Store(s.base[q.baseIdx := next],
               seq(Tables(c), t requires 0 <= t < Tables(c) =>
                   if touched[t] then s.tagged[t][q.idx[t] := updated[t]] else s.tagged[t]));
    assert r == Write(s, q, next, updated);
  }

  method TrainSlots(c: Config, q: Query, original: seq<PredRow>, base: seq<nat>, p: Packet)
    returns (updated: seq<PredRow>, next: seq<nat>, touched: seq<bool>)
    requires ConfigOk(c) && RowsOk(c, original) && QueryOk(c, q) && |base| == c.slots
    ensures updated == RowsNext(c, q, original, p, c.slots) && next == BaseNext(c, base, p)
    ensures |touched| == Tables(c) && forall t :: 0 <= t < Tables(c) && !touched[t] ==> updated[t] == original[t]
  {
    updated, next := original, base;
    touched := seq(Tables(c), _ => false);
    for slot := 0 to c.slots
      invariant updated == RowsNext(c, q, original, p, slot) && |touched| == Tables(c) && |next| == c.slots
      invariant forall t :: 0 <= t < Tables(c) && !touched[t] ==> updated[t] == original[t]
      invariant forall k :: 0 <= k < c.slots ==>
                  next[k] == if k < slot && k in p.commit then TrainCtr(c, base[k], k in p.taken) else base[k]
    {
      if slot in p.commit {
        next := next[slot := TrainCtr(c, next[slot], slot in p.taken)];
        updated, touched := TrainSlot(c, q, original, updated, touched, p, slot);
      }
    }
    assert next == BaseNext(c, base, p);
  }

  method TrainSlot(c: Config, q: Query, original: seq<PredRow>, rows: seq<PredRow>, marks: seq<bool>, p: Packet,
                   slot: nat)
    returns (updated: seq<PredRow>, touched: seq<bool>)
    requires ConfigOk(c) && RowsOk(c, original) && RowsOk(c, rows) && QueryOk(c, q) && slot < c.slots
             && |marks| == Tables(c)
    ensures RowsOk(c, ReinforceStep(c, q, original, rows, p, slot))
    ensures updated == AllocateStep(c, q, ReinforceStep(c, q, original, rows, p, slot), p, slot)
    ensures |touched| == Tables(c)
    ensures forall t :: 0 <= t < Tables(c) && !touched[t] ==> !marks[t] && updated[t] == rows[t]
  {
    ReinforceOk(c, q, original, rows, p, slot);
    var actual := slot in p.taken;
    var u := Unpack(c.slots, p.meta, slot);
    updated, touched := rows, marks;
    if u.provider < Tables(c) && original[u.provider].valid && original[u.provider].tag == q.tags[u.provider] {
      updated := updated[u.provider := Reinforce(c, updated[u.provider], slot, actual, u)];
      touched := touched[u.provider := true];
    }
    assert updated == ReinforceStep(c, q, original, rows, p, slot);
    hide Unpack, ReinforceStep, Reinforce;
    updated, touched := ClaimRow(c, q, updated, touched, p, slot);
  }

  method ClaimRow(c: Config, q: Query, rows: seq<PredRow>, marks: seq<bool>, p: Packet, slot: nat)
    returns (updated: seq<PredRow>, touched: seq<bool>)
    requires ConfigOk(c) && RowsOk(c, rows) && QueryOk(c, q) && slot < c.slots && |marks| == Tables(c)
    ensures updated == AllocateStep(c, q, rows, p, slot)
    ensures |touched| == Tables(c)
    ensures forall t :: 0 <= t < Tables(c) && !touched[t] ==> !marks[t] && updated[t] == rows[t]
  {
    hide Unpack, Allocate, Weaken, Replaceable, RowOk;
    var actual := slot in p.taken;
    var u := Unpack(c.slots, p.meta, slot);
    updated, touched := rows, marks;
    if u.final != actual {
      var first := if u.provider < Tables(c) then u.provider + 1 else 0;
      var t := FindReplaceable(q, updated, first);
      if t < Tables(c) {
        RowSize(c, updated[t]);
        updated, touched := updated[t := Allocate(c, q.tags[t], updated[t], slot, actual)], touched[t := true];
      } else if first < Tables(c) {
        updated, touched := updated[first := Weaken(c, updated[first])], touched[first := true];
      }
    }
  }

  method FindReplaceable(q: Query, rows: seq<PredRow>, first: nat) returns (t: nat)
    requires |q.tags| == |rows| && first <= |rows|
    ensures t == FirstReplaceable(q, rows, first)
  {
    t := first;
    while t < |rows| && !Replaceable(q, rows, t)
      invariant first <= t <= |rows| && FirstReplaceable(q, rows, first) == FirstReplaceable(q, rows, t)
    {
      t := t + 1;
    }
  }

  lemma RowSize(c: Config, r: PredRow)
    requires RowOk(c, r)
    ensures |r.ctr| == c.slots && |r.useful| == c.slots
  {
  }

  /** Rows that were not touched need not be written. */
  lemma WriteBack(c: Config, s: Store, q: Query, original: seq<PredRow>, updated: seq<PredRow>, touched: seq<bool>)
    requires ConfigOk(c) && StoreOk(c, s) && QueryOk(c, q) && original == RowsAt(s, q)
    requires |updated| == |touched| == Tables(c)
    requires forall t :: 0 <= t < Tables(c) && !touched[t] ==> updated[t] == original[t]
    ensures forall t :: 0 <= t < Tables(c) && !touched[t] ==> s.tagged[t][q.idx[t] := updated[t]] == s.tagged[t]
  {
  }

  class TageModel {
    const c: Config
    var store: Store
    var pending: Packet
    var write: Packet
    var s1: Option<Query>
    var s2: Option<Snapshot>

    ghost function View(): Delayed
      reads this
    {
      Delayed(store, pending, write, Pipe(s1, s2))
    }

    constructor (c: Config)
      requires ConfigOk(c)
      ensures this.c == c && View() == DelayedReset(c) && DelayedOk(c, View())
    {
      this.c := c;
      store, pending, write, s1, s2 := ResetStore(c), NoPacket(), NoPacket(), None, None;
    }

    method VisibleNow(i: Inputs) returns (v: Visible, ready: bool)
      requires DelayedOk(c, View())
      ensures v == Shown(c, View().pipe, i) && ready == Ready(c, pending, i)
    {
      ready := Ready(c, pending, i);
      if s2.Some? && !(i.rst || i.stall || i.kill) {
        var r := ComputePrediction(c, s2.value);
        v := Visible(true, r);
      } else {
        v := Visible(false, Response({}, {}, []));
      }
    }

    method Tick(i: Inputs)
      requires DelayedOk(c, View())
      modifies this
      ensures DelayedOk(c, View()) && View() == DelayedTick(c, old(View()), i)
    {
      DelayedTickOk(c, View(), i);
      hide StoreOk, ResetStore, Train, QueryOk, SnapshotOk, Independent;
      if i.rst {
        store, pending, write, s1, s2 := ResetStore(c), NoPacket(), NoPacket(), None, None;
        return;
      }
      var accepted := Ready(c, pending, i);
      store := ApplyPacket(c, store, write);
      write := pending;
      pending := if accepted then i.train else NoPacket();
      if i.kill {
        s1, s2 := None, None;
      } else if !i.stall {
        s2 := if s1.Some? then Some(Read(c, store, s1.value)) else None;
        s1 := if i.queryValid then Some(MakeQuery(c, i.pc, i.folds)) else None;
      }
    }
  }

  class LegacyTageModel {
    const c: Config
    var store: Store
    var s1: Option<Query>
    var s2: Option<Snapshot>

    ghost function View(): Immediate
      reads this
    {
      Immediate(store, Pipe(s1, s2))
    }

    constructor (c: Config)
      requires ConfigOk(c)
      ensures this.c == c && View() == ImmediateReset(c) && ImmediateOk(c, View())
    {
      this.c := c;
      store, s1, s2 := ResetStore(c), None, None;
    }

    method Tick(i: Inputs)
      requires ImmediateOk(c, View())
      modifies this
      ensures ImmediateOk(c, View()) && View() == ImmediateTick(c, old(View()), i)
    {
      ImmediateTickOk(c, View(), i);
      hide StoreOk, ResetStore, Train, QueryOk, SnapshotOk;
      if i.rst {
        store, s1, s2 := ResetStore(c), None, None;
        return;
      }
      if i.kill {
        s1, s2 := None, None;
      } else if !i.stall {
        s2 := if s1.Some? then Some(Read(c, store, s1.value)) else None;
        s1 := if i.queryValid then Some(MakeQuery(c, i.pc, i.folds)) else None;
      }
      store := ApplyPacket(c, store, i.train);
    }
  }
}
