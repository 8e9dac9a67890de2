/** The write side of the router: one clocked state machine between a master and two exits, with the
    transactions that can be seen on each of the three ports. */
module AxiWrites {
  import opened AxiDecode
  import opened Wrappers

  datatype State = Idle | ToDram | ToLow | Error | ErrorReply
  datatype Regs = Regs(state: State, id: nat, remaining: nat, done: bool)

  const RESET := Regs(Idle, 0, 0, false)
  const DECERR: nat := 3

  datatype Beat = Beat(data: nat, strobe: nat, last: bool)
  datatype Reply = Reply(id: nat, resp: nat)
  datatype Offer = Offer(valid: bool, reply: Reply)

  const SILENT := Offer(false, Reply(0, 0))

  datatype Inputs = Inputs(
    awValid: bool, aw: Burst, wValid: bool, w: Beat, bReady: bool,
    dramAwReady: bool, lowAwReady: bool, dramWReady: bool, lowWReady: bool, dramB: Offer, lowB: Offer)

  datatype Outputs = Outputs(
    awReady: bool, dramAwValid: bool, lowAwValid: bool, wReady: bool, dramWValid: bool, lowWValid: bool,
    b: Offer, dramBReady: bool, lowBReady: bool)

  const NOTHING := Outputs(false, false, false, false, false, false, SILENT, false, false)

  function Drive(e: Exits, s: Regs, i: Inputs): Outputs {
    match s.state
    case Idle =>
      (match ExitOf(e, i.aw, true)
       case Dram => NOTHING.(awReady := i.dramAwReady, dramAwValid := i.awValid)
       case Low => NOTHING.(awReady := i.lowAwReady, lowAwValid := i.awValid)
       case Neither => NOTHING.(awReady := true))
    case ToDram =>
      NOTHING.(wReady := i.dramWReady && !s.done, dramWValid := i.wValid && !s.done,
               b := i.dramB, dramBReady := i.bReady)
    case ToLow =>
      NOTHING.(wReady := i.lowWReady && !s.done, lowWValid := i.wValid && !s.done,
               b := i.lowB, lowBReady := i.bReady)
    case Error => NOTHING.(wReady := true)
    case ErrorReply => NOTHING.(b := Offer(true, Reply(s.id, DECERR)))
  }

  function Clocked(e: Exits, s: Regs, i: Inputs): Regs {
    var o := Drive(e, s, i);
    match s.state
    case Idle =>
      if i.awValid && o.awReady then
        (match ExitOf(e, i.aw, true)
         case Dram => s.(state := ToDram, done := false)
         case Low => s.(state := ToLow, done := false)
         case Neither => Regs(Error, i.aw.id, (i.aw.len + 1) % 0x200, false))
      else s.(done := false)
    case ToDram =>
      s.(state := if o.b.valid && i.bReady then Idle else ToDram, done := s.done || (i.wValid && o.wReady && i.w.last))
    case ToLow =>
      s.(state := if o.b.valid && i.bReady then Idle else ToLow, done := s.done || (i.wValid && o.wReady && i.w.last))
    case Error =>
      if !i.wValid then s
      else s.(remaining := (s.remaining + 0x1ff) % 0x200, state := if s.remaining == 1 then ErrorReply else Error)
    case ErrorReply => if i.bReady then s.(state := Idle) else s
  }

  // -------------------------------------------------------- transactions on a port

  /** An accepted address, the data beats accepted for it so far, and its reply. */
  datatype Txn = Txn(aw: Burst, beats: seq<Beat>, reply: Option<Reply>)

  predicate Filled(t: Txn) { |t.beats| == t.aw.len + 1 }
  predicate Complete(t: Txn) { Filled(t) && t.reply.Some? }
  predicate Open(log: seq<Txn>) { log != [] && !Complete(log[|log| - 1]) }

  /** A transaction after a cycle in which a beat, a reply, both or neither was transferred. */
  function Grown(t: Txn, wFires: bool, beat: Beat, bFires: bool, reply: Reply): Txn {
    Txn(t.aw, if wFires then t.beats + [beat] else t.beats, if bFires then Some(reply) else t.reply)
  }

  function Seen(log: seq<Txn>, awFires: bool, aw: Burst, wFires: bool, beat: Beat, bFires: bool,
                reply: Reply): seq<Txn> {
    var n := |log| - 1;
    var log' := if log != [] && (wFires || bFires) then log[n := Grown(log[n], wFires, beat, bFires, reply)] else log;
    if awFires then log' + [Txn(aw, [], None)] else log'
  }

  /** The master marks exactly the last data beat of a burst. */
  predicate Frames(log: seq<Txn>, i: Inputs) {
    i.wValid && Open(log) && !Filled(log[|log| - 1]) ==> (i.w.last <==> |log[|log| - 1].beats| == log[|log| - 1].aw.len)
  }

  /** An exit replies only to an address that it accepted, has not replied to, and has all the data of, at the
      earliest in the cycle in which it takes the last beat. */
  predicate Obeys(log: seq<Txn>, b: Offer, takes: bool) {
    b.valid ==> Open(log) && var t := log[|log| - 1];
                             t.reply.None? && b.reply.id == t.aw.id
                             && |t.beats| + (if takes then 1 else 0) == t.aw.len + 1
  }

  datatype System = System(regs: Regs, master: seq<Txn>, dram: seq<Txn>, low: seq<Txn>)

  const START := System(RESET, [], [], [])

  predicate Legal(e: Exits, y: System, i: Inputs) {
    var o := Drive(e, y.regs, i);
    && OnWires(i.aw) && Frames(y.master, i)
    && Obeys(y.dram, i.dramB, o.dramWValid && i.dramWReady) && Obeys(y.low, i.lowB, o.lowWValid && i.lowWReady)
  }

  function Cycle(e: Exits, y: System, i: Inputs): System {
    var o := Drive(e, y.regs, i);
    System(Clocked(e, y.regs, i),
           Seen(y.master, i.awValid && o.awReady, i.aw, i.wValid && o.wReady, i.w, o.b.valid && i.bReady, o.b.reply),
           Seen(y.dram, o.dramAwValid && i.dramAwReady, i.aw, o.dramWValid && i.dramWReady, i.w,
                i.dramB.valid && o.dramBReady, i.dramB.reply),
           Seen(y.low, o.lowAwValid && i.lowAwReady, i.aw, o.lowWValid && i.lowWReady, i.w,
                i.lowB.valid && o.lowBReady, i.lowB.reply))
  }

  function Run(e: Exits, inputs: seq<Inputs>): System {
    if inputs == [] then START else Cycle(e, Run(e, inputs[..|inputs| - 1]), inputs[|inputs| - 1])
  }

  predicate LegalRun(e: Exits, inputs: seq<Inputs>) {
    inputs == []
        || (LegalRun(e, inputs[..|inputs| - 1]) && Legal(e, Run(e, inputs[..|inputs| - 1]), inputs[|inputs| - 1]))
  }

  // ------------------------------------------------------------------ invariant

  /** No beat is taken beyond the burst, the last one alone is marked, and the reply comes after all of them
      with the identifier of the address: a decode error if no exit takes it. */
  predicate Served(e: Exits, t: Txn) {
    && |t.beats| <= t.aw.len + 1
    && (forall k :: 0 <= k < |t.beats| ==> (t.beats[k].last <==> k == t.aw.len))
    && (t.reply.Some? ==>
          && Filled(t) && t.reply.value.id == t.aw.id
          && (ExitOf(e, t.aw, true) == Neither ==> t.reply.value.resp == DECERR))
  }

  function For(e: Exits, log: seq<Txn>, exit_: Exit): seq<Txn> {
    if log == [] then []
    else For(e, log[..|log| - 1], exit_) + if ExitOf(e, log[|log| - 1].aw, true) == exit_ then [log[|log| - 1]] else []
  }

  predicate Stage(e: Exits, s: Regs, t: Txn) {
    match ExitOf(e, t.aw, true)
    case Dram => s.state == ToDram && (s.done <==> Filled(t))
    case Low => s.state == ToLow && (s.done <==> Filled(t))
    case Neither =>
      s.id == t.aw.id
      && if Filled(t) then s.state == ErrorReply
         else s.state == Error && s.remaining == t.aw.len + 1 - |t.beats|
  }

  ghost predicate Invariant(e: Exits, y: System) {
    && (forall k :: 0 <= k < |y.master| ==> Served(e, y.master[k]) && y.master[k].aw.len < 0x100)
    && (forall k :: 0 <= k < |y.master| - 1 ==> Complete(y.master[k]))
    && y.dram == For(e, y.master, Dram) && y.low == For(e, y.master, Low)
    && if Open(y.master) then y.master[|y.master| - 1].reply.None? && Stage(e, y.regs, y.master[|y.master| - 1])
       else y.regs.state == Idle
  }

  lemma ForLast(e: Exits, log: seq<Txn>, t: Txn, exit_: Exit)
    ensures For(e, log + [t], exit_) == For(e, log, exit_) + if ExitOf(e, t.aw, true) == exit_ then [t] else []
  {
    assert (log + [t])[..|log|] == log;
  }

  lemma ForGrown(e: Exits, log: seq<Txn>, t': Txn, exit_: Exit)
    requires log != [] && t'.aw == log[|log| - 1].aw
    ensures var f := For(e, log, exit_);
            For(e, log[|log| - 1 := t'], exit_)
            == if ExitOf(e, t'.aw, true) == exit_ then f[..|f| - 1] + [t'] else f
    ensures ExitOf(e, t'.aw, true) == exit_ ==> For(e, log, exit_) != []
  {
    hide ExitOf;
    var n := |log| - 1;
    assert log[n := t'] == log[..n] + [t'] && log == log[..n] + [log[n]];
    ForLast(e, log[..n], t', exit_);
    ForLast(e, log[..n], log[n], exit_);
  }

  lemma ForOpen(e: Exits, log: seq<Txn>)
    requires log != []
    ensures For(e, log, ExitOf(e, log[|log| - 1].aw, true)) != []
    ensures var f := For(e, log, ExitOf(e, log[|log| - 1].aw, true)); f[|f| - 1] == log[|log| - 1]
  {
    assert log == log[..|log| - 1] + [log[|log| - 1]];
  }

  lemma StageBusy(e: Exits, s: Regs, t: Txn)
    requires Stage(e, s, t)
    ensures s.state != Idle
  {
  }

  lemma FirstStage(e: Exits, s: Regs, i: Inputs)
    requires s.state == Idle && OnWires(i.aw) && i.awValid && Drive(e, s, i).awReady
    ensures Served(e, Txn(i.aw, [], None)) && Stage(e, Clocked(e, s, i), Txn(i.aw, [], None))
  {
    hide ExitOf;
  }

  lemma AddressKeeps(e: Exits, y: System, i: Inputs)
    requires Invariant(e, y) && OnWires(i.aw) && y.regs.state == Idle
    ensures Invariant(e, Cycle(e, y, i))
  {
    hide ExitOf, For, Served, Stage;
    if Open(y.master) { StageBusy(e, y.regs, y.master[|y.master| - 1]); }
    if i.awValid && Drive(e, y.regs, i).awReady {
      FirstStage(e, y.regs, i);
      ForLast(e, y.master, Txn(i.aw, [], None), Dram);
      ForLast(e, y.master, Txn(i.aw, [], None), Low);
    }
  }

  /** What the master port transfers in a cycle of an open transaction: a next beat of it, or its reply after
      the last beat. */
  predicate Fits(e: Exits, t: Txn, wFires: bool, beat: Beat, bFires: bool, reply: Reply) {
    && (wFires ==> !Filled(t) && (beat.last <==> |t.beats| == t.aw.len))
    && (bFires ==> |t.beats| + (if wFires then 1 else 0) == t.aw.len + 1 && reply.id == t.aw.id
                   && (ExitOf(e, t.aw, true) == Neither ==> reply.resp == DECERR))
  }

  lemma TransfersFit(e: Exits, y: System, i: Inputs)
    requires Invariant(e, y) && Legal(e, y, i) && y.regs.state != Idle
    ensures Open(y.master)
    ensures var o := Drive(e, y.regs, i);
            Fits(e, y.master[|y.master| - 1], i.wValid && o.wReady, i.w, o.b.valid && i.bReady, o.b.reply)
  {
    hide ExitOf, For, Served;
    ForOpen(e, y.master);
  }

  lemma GrownServed(e: Exits, t: Txn, wFires: bool, beat: Beat, bFires: bool, reply: Reply)
    requires Served(e, t) && t.reply.None? && Fits(e, t, wFires, beat, bFires, reply)
    ensures Served(e, Grown(t, wFires, beat, bFires, reply))
  {
    hide ExitOf;
  }

  lemma StageKeeps(e: Exits, s: Regs, t: Txn, i: Inputs)
    requires Stage(e, s, t) && Served(e, t) && t.reply.None? && t.aw.len < 0x100 && s.state != Idle
    requires var o := Drive(e, s, i); Fits(e, t, i.wValid && o.wReady, i.w, o.b.valid && i.bReady, o.b.reply)
    ensures var o := Drive(e, s, i);
            var t' := Grown(t, i.wValid && o.wReady, i.w, o.b.valid && i.bReady, o.b.reply);
            if Complete(t') then Clocked(e, s, i).state == Idle else t'.reply.None? && Stage(e, Clocked(e, s, i), t')
  {
    hide ExitOf;
  }

  lemma LogsKeep(e: Exits, y: System, i: Inputs)
    requires Invariant(e, y) && y.regs.state != Idle
    ensures var y' := Cycle(e, y, i); y'.dram == For(e, y'.master, Dram) && y'.low == For(e, y'.master, Low)
  {
    hide ExitOf, For, Served;
    var o := Drive(e, y.regs, i);
    var n := |y.master| - 1;
    var t' := Grown(y.master[n], i.wValid && o.wReady, i.w, o.b.valid && i.bReady, o.b.reply);
    ForGrown(e, y.master, t', Dram);
    ForGrown(e, y.master, t', Low);
    ForOpen(e, y.master);
  }

  lemma TransferKeeps(e: Exits, y: System, i: Inputs)
    requires Invariant(e, y) && Legal(e, y, i) && y.regs.state != Idle
    ensures Invariant(e, Cycle(e, y, i))
  {
    hide ExitOf, For, Served, Obeys, Fits, Stage, Clocked, Frames;
    TransfersFit(e, y, i);
    LogsKeep(e, y, i);
    var o := Drive(e, y.regs, i);
    var t := y.master[|y.master| - 1];
    GrownServed(e, t, i.wValid && o.wReady, i.w, o.b.valid && i.bReady, o.b.reply);
    StageKeeps(e, y.regs, t, i);
  }

  lemma StartHolds(e: Exits) ensures Invariant(e, START) {}

  lemma LegalAddress(e: Exits, y: System, i: Inputs) requires Legal(e, y, i) ensures OnWires(i.aw) {}

  lemma {:induction false} EveryRun(e: Exits, inputs: seq<Inputs>)
    requires LegalRun(e, inputs)
    ensures Invariant(e, Run(e, inputs))
    decreases |inputs|
  {
    hide Invariant, Cycle, Legal;
    if inputs == [] {
      StartHolds(e);
    } else {
      var n := |inputs| - 1;
      EveryRun(e, inputs[..n]);
      if Run(e, inputs[..n]).regs.state == Idle {
        LegalAddress(e, Run(e, inputs[..n]), inputs[n]);
        AddressKeeps(e, Run(e, inputs[..n]), inputs[n]);
      } else {
        TransferKeeps(e, Run(e, inputs[..n]), inputs[n]);
      }
    }
  }

  // ------------------------------------------------------------------- theorems

  /** Over every run, every address that the master handed over but the last has given all its data beats to
      one place and got exactly one reply, after them. Each exit saw exactly the addresses that chose it, with
      the same beats and replies. The last address is served in full or still under way. */
  lemma WritesServed(e: Exits, inputs: seq<Inputs>)
    requires LegalRun(e, inputs)
    ensures var y := Run(e, inputs);
            && (forall k :: 0 <= k < |y.master| ==> Served(e, y.master[k]))
            && (forall k :: 0 <= k < |y.master| - 1 ==> Complete(y.master[k]))
            && (Open(y.master) <==> y.regs.state != Idle)
            && y.dram == For(e, y.master, Dram) && y.low == For(e, y.master, Low)
  {
    hide ExitOf, For, Served, Cycle, Stage;
    EveryRun(e, inputs);
    var y := Run(e, inputs);
    if Open(y.master) { StageBusy(e, y.regs, y.master[|y.master| - 1]); }
  }

  lemma StageQuiet(e: Exits, y: System, i: Inputs)
    requires Invariant(e, y) && Legal(e, y, i) && Open(y.master)
    ensures var o := Drive(e, y.regs, i);
            && !o.awReady && !o.dramAwValid && !o.lowAwValid
            && (Filled(y.master[|y.master| - 1]) ==> !o.wReady && !o.dramWValid && !o.lowWValid)
            && (o.b.valid && !(i.wValid && o.wReady) ==> Filled(y.master[|y.master| - 1]))
  {
    hide ExitOf, For, Served, Frames;
    ForOpen(e, y.master);
  }

  /** No data is taken, or shown to an exit, before an address or after the last beat of its burst, no reply is
      given before that last beat, and no address is taken before the reply. */
  lemma NoStrayData(e: Exits, inputs: seq<Inputs>, i: Inputs)
    requires LegalRun(e, inputs) && Legal(e, Run(e, inputs), i)
    ensures var y := Run(e, inputs);
            var o := Drive(e, y.regs, i);
            && (!Open(y.master) ==> !o.wReady && !o.dramWValid && !o.lowWValid && !o.b.valid)
            && (Open(y.master) ==> !o.awReady && !o.dramAwValid && !o.lowAwValid)
            && (Open(y.master) && Filled(y.master[|y.master| - 1]) ==> !o.wReady && !o.dramWValid && !o.lowWValid)
            && (Open(y.master) && o.b.valid && !(i.wValid && o.wReady) ==> Filled(y.master[|y.master| - 1]))
  {
    hide ExitOf, For, Served, Cycle, Stage, Frames, Legal;
    EveryRun(e, inputs);
    var y := Run(e, inputs);
    if Open(y.master) { StageQuiet(e, y, i); }
  }

  lemma MasterGrows(e: Exits, y: System, i: Inputs)
    requires Open(y.master) && Stage(e, y.regs, y.master[|y.master| - 1])
    ensures var o, n := Drive(e, y.regs, i), |y.master| - 1;
            Cycle(e, y, i).master
            == y.master[n := Grown(y.master[n], i.wValid && o.wReady, i.w, o.b.valid && i.bReady, o.b.reply)]
  {
    hide ExitOf, Clocked;
  }

  lemma StageDrives(e: Exits, s: Regs, t: Txn, i: Inputs)
    requires Stage(e, s, t)
    ensures var o, exit_ := Drive(e, s, i), ExitOf(e, t.aw, true);
            var takes := match exit_ case Dram => i.dramWReady case Low => i.lowWReady case Neither => true;
            var replies := match exit_ case Dram => i.dramB.valid case Low => i.lowB.valid case Neither => true;
            if Filled(t) then !o.wReady && o.b.valid == replies else o.wReady == takes
  {
    hide ExitOf;
  }

  /** A transaction moves on whenever the master and the place it goes to let it. */
  lemma WriteProgress(e: Exits, inputs: seq<Inputs>, i: Inputs)
    requires LegalRun(e, inputs) && Legal(e, Run(e, inputs), i) && Open(Run(e, inputs).master)
    ensures var y := Run(e, inputs);
            var n := |y.master| - 1;
            var t, exit_ := y.master[n], ExitOf(e, y.master[n].aw, true);
            var taken := i.wValid && match exit_ case Dram => i.dramWReady case Low => i.lowWReady case Neither => true;
            var replies := match exit_ case Dram => i.dramB.valid case Low => i.lowB.valid case Neither => true;
            var given := i.bReady && replies;
            var y' := Cycle(e, y, i);
            && |y'.master| == n + 1
            && (!Filled(t) ==> |y'.master[n].beats| == |t.beats| + if taken then 1 else 0)
            && (Filled(t) ==> y'.master[n].beats == t.beats && (y'.master[n].reply.Some? <==> given))
  {
    hide ExitOf, For, Served, Legal, Drive, Cycle, Stage;
    var y := Run(e, inputs);
    EveryRun(e, inputs);
    MasterGrows(e, y, i);
    StageDrives(e, y.regs, y.master[|y.master| - 1], i);
  }

  /** Nothing offered is withdrawn while the side it comes from holds it. */
  lemma OffersStay(e: Exits, s: Regs, i: Inputs, i': Inputs)
    requires i.awValid && i'.awValid && i'.aw == i.aw && i'.w == i.w && (i.wValid ==> i'.wValid)
    requires (i.dramB.valid ==> i'.dramB == i.dramB) && (i.lowB.valid ==> i'.lowB == i.lowB)
    ensures var o, o' := Drive(e, s, i), Drive(e, Clocked(e, s, i), i');
            && (o.dramAwValid && !i.dramAwReady ==> o'.dramAwValid)
            && (o.lowAwValid && !i.lowAwReady ==> o'.lowAwValid)
            && (o.b.valid && !i.bReady ==> o'.b == o.b)
            && (o.dramWValid && !i.dramWReady && !(i.bReady && i.dramB.valid) ==> o'.dramWValid)
            && (o.lowWValid && !i.lowWReady && !(i.bReady && i.lowB.valid) ==> o'.lowWValid)
  {
    hide ExitOf;
  }

  lemma {:induction false} ForHolds(e: Exits, log: seq<Txn>, k: nat, exit_: Exit)
    requires k < |log|
    ensures ExitOf(e, log[k].aw, true) == exit_ ==> log[k] in For(e, log, exit_)
    decreases |log|
  {
    hide ExitOf;
    if k < |log| - 1 {
      ForHolds(e, log[..|log| - 1], k, exit_);
    }
  }

  lemma {:induction false} ForOnly(e: Exits, log: seq<Txn>, t: Txn, exit_: Exit)
    requires t in For(e, log, exit_)
    ensures ExitOf(e, t.aw, true) == exit_
    decreases |log|
  {
    hide ExitOf;
    if t in For(e, log[..|log| - 1], exit_) { ForOnly(e, log[..|log| - 1], t, exit_); }
  }

  /** Over every run, an aligned burst no wider than the bus is seen by the memory exit exactly when the memory
      region serves it and by the low exit exactly when a region there does, with the very beats that the master
      saw; and what no region serves is seen by neither. */
  lemma WritesReach(e: Exits, inputs: seq<Inputs>, k: nat)
    requires ExitsOk(e) && LegalRun(e, inputs) && k < |Run(e, inputs).master|
    requires var b := Run(e, inputs).master[k].aw; OnWires(b) && b.size <= e.maxSize && b.addr % Width(b) == 0
    ensures var y := Run(e, inputs);
            var t := y.master[k];
            && (t in y.dram <==> Serves(e.dram, t.aw, true))
            && (t in y.low <==> exists j :: 0 <= j < |e.low| && Serves(e.low[j], t.aw, true))
  {
    hide ExitOf, Serves, For, Served, Stage, ExitsOk, Cycle, OnWires, Width;
    EveryRun(e, inputs);
    var y := Run(e, inputs);
    var t := y.master[k];
    ExitExact(e, t.aw, true);
    ForHolds(e, y.master, k, Dram);
    ForHolds(e, y.master, k, Low);
    if t in y.dram { ForOnly(e, y.master, t, Dram); }
    if t in y.low { ForOnly(e, y.master, t, Low); }
  }
}
