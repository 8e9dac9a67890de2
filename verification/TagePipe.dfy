/** The predictor's two query registers and its training port, as its user sees them. */
module TagePipe {
  import opened Tage
  import opened TageModels
  import opened Wrappers

  predicate Calm(i: Inputs) { !i.rst && !i.stall && !i.kill }

  /** A query is answered two cycles later, from the store as it is one cycle later: it sees the packet trained in
      its own cycle. */
  lemma AnswerTakesTwo(c: Config, s: Immediate, i: Inputs, j: Inputs, k: Inputs)
    requires ImmediateOk(c, s) && Calm(i) && Calm(j) && Calm(k)
    ensures var s1 := ImmediateTick(c, s, i);
            && ImmediateOk(c, s1) && ImmediateOk(c, ImmediateTick(c, s1, j))
            && QueryOk(c, MakeQuery(c, i.pc, i.folds)) && StoreOk(c, Train(c, s.store, i.train))
            && SnapshotOk(c, Read(c, Train(c, s.store, i.train), MakeQuery(c, i.pc, i.folds)))
            && var v := Shown(c, ImmediateTick(c, s1, j).pipe, k);
               && v.valid == i.queryValid
               && (i.queryValid ==>
                     v.response == Predict(c, Read(c, Train(c, s.store, i.train), MakeQuery(c, i.pc, i.folds))))
  {
    var s1 := ImmediateTick(c, s, i);
    ImmediateTickOk(c, s, i);
    ImmediateTickOk(c, s1, j);
    TrainOk(c, s.store, i.train);
    MakeQueryOk(c, i.pc, i.folds);
    ReadOk(c, Train(c, s.store, i.train), MakeQuery(c, i.pc, i.folds));
    hide StoreOk, Train, MakeQuery, QueryOk, Predict, Read, SnapshotOk;
  }

  /** A stall shows nothing and keeps both queries; a kill or a reset drops both. */
  lemma Interrupted(c: Config, s: Immediate, i: Inputs, j: Inputs)
    requires ImmediateOk(c, s) && !Calm(i)
    ensures ImmediateOk(c, ImmediateTick(c, s, i)) && !Shown(c, s.pipe, i).valid
    ensures var pipe := ImmediateTick(c, s, i).pipe;
            if i.rst || i.kill then pipe.s1 == None && !Shown(c, pipe, j).valid else pipe == s.pipe
  {
    ImmediateTickOk(c, s, i);
    hide StoreOk, Train, MakeQuery, QueryOk, Predict, Read, SnapshotOk;
  }

  /** A packet is refused only in reset, or when it and the one waiting both carry something and share the base row
      or the row of some table; and then it is. */
  lemma ReadyExact(c: Config, pending: Packet, i: Inputs)
    requires ConfigOk(c)
    ensures var a, b := MakeQuery(c, pending.pc, pending.folds), MakeQuery(c, i.train.pc, i.train.folds);
            && |a.idx| == |b.idx| == Tables(c)
            && (Ready(c, pending, i) <==>
                && !i.rst
                && (pending.valid && pending.commit != {} && i.train.commit != {} ==>
                      a.baseIdx != b.baseIdx && forall t :: 0 <= t < Tables(c) ==> a.idx[t] != b.idx[t]))
  {
    MakeQueryOk(c, pending.pc, pending.folds);
    MakeQueryOk(c, i.train.pc, i.train.folds);
    hide MakeQuery;
  }

  /** An accepted packet is written two edges later; a refused one is not written at all. */
  lemma WrittenLater(c: Config, s: Delayed, i: Inputs, j: Inputs, k: Inputs)
    requires DelayedOk(c, s) && !i.rst && !j.rst && !k.rst
    ensures var s1 := DelayedTick(c, s, i);
            && DelayedOk(c, s1) && DelayedOk(c, DelayedTick(c, s1, j))
            && StoreOk(c, s1.store) && DelayedOk(c, DelayedTick(c, DelayedTick(c, s1, j), k))
            && var before, after := DelayedTick(c, s1, j).store, DelayedTick(c, DelayedTick(c, s1, j), k).store;
               && before == Train(c, s1.store, s.pending)
               && after == if Ready(c, s.pending, i) then Train(c, before, i.train) else before
  {
    var s1 := DelayedTick(c, s, i);
    DelayedTickOk(c, s, i);
    DelayedTickOk(c, s1, j);
    DelayedTickOk(c, DelayedTick(c, s1, j), k);
    NothingTrained(c, DelayedTick(c, s1, j).store);
    hide StoreOk, Train, MakeQuery, QueryOk, Predict, Read, SnapshotOk, Ready, NextPipe, PipeOk;
  }
}
