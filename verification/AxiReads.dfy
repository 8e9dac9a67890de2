/** The read side of the router: one clocked state machine between a master and two exits, with the
    transactions that can be seen on each of the three ports. */
module AxiReads {
  import opened AxiDecode

  datatype State = Idle | ToDram | ToLow | Error
  datatype Regs = Regs(state: State, id: nat, remaining: nat)

  const RESET := Regs(Idle, 0, 0)
  const DECERR: nat := 3

  datatype Beat = Beat(id: nat, data: nat, resp: nat, last: bool)
  datatype Offer = Offer(valid: bool, beat: Beat)

  const SILENT := Offer(false, Beat(0, 0, 0, false))

  /** What the master and the exits drive in one cycle. */
  datatype Inputs = Inputs(
    arValid: bool, ar: Burst, rReady: bool, dramArReady: bool, lowArReady: bool, dramR: Offer, lowR: Offer)

  /** What the router drives. */
  datatype Outputs = Outputs(
    arReady: bool, dramArValid: bool, lowArValid: bool, r: Offer, dramRReady: bool, lowRReady: bool)

  function Drive(e: Exits, s: Regs, i: Inputs): Outputs {
    match s.state
    case Idle =>
      (match ExitOf(e, i.ar, false)
       case Dram => Outputs(i.dramArReady, i.arValid, false, SILENT, false, false)
       case Low => Outputs(i.lowArReady, false, i.arValid, SILENT, false, false)
       case Neither => Outputs(true, false, false, SILENT, false, false))
    case ToDram => Outputs(false, false, false, i.dramR, i.rReady, false)
    case ToLow => Outputs(false, false, false, i.lowR, false, i.rReady)
    case Error => Outputs(false, false, false, Offer(true, Beat(s.id, 0, DECERR, s.remaining == 1)), false, false)
  }

  function Clocked(e: Exits, s: Regs, i: Inputs): Regs {
    var o := Drive(e, s, i);
    match s.state
    case Idle =>
      if i.arValid && o.arReady then
        (match ExitOf(e, i.ar, false)
         case Dram => s.(state := ToDram)
         case Low => s.(state := ToLow)
         case Neither => Regs(Error, i.ar.id, (i.ar.len + 1) % 0x200))
      else s
    case ToDram => if o.r.valid && i.rReady && o.r.beat.last then s.(state := Idle) else s
    case ToLow => if o.r.valid && i.rReady && o.r.beat.last then s.(state := Idle) else s
    case Error =>
      if i.rReady then Regs(if s.remaining == 1 then Idle else Error, s.id, (s.remaining + 0x1ff) % 0x200) else s
  }

  // -------------------------------------------------------- transactions on a port

  /** An accepted address and the beats returned for it so far. */
  datatype Txn = Txn(ar: Burst, beats: seq<Beat>)

  predicate Complete(t: Txn) { |t.beats| == t.ar.len + 1 }

  /** The port waits for beats of its last transaction. */
  predicate Open(log: seq<Txn>) { log != [] && !Complete(log[|log| - 1]) }

  /** A log of a port after a cycle in which an address, a beat, or neither was transferred. */
  function Seen(log: seq<Txn>, arFires: bool, ar: Burst, rFires: bool, beat: Beat): seq<Txn> {
    var n := |log| - 1;
    var log' := if rFires && log != [] then log[n := log[n].(beats := log[n].beats + [beat])] else log;
    if arFires then log' + [Txn(ar, [])] else log'
  }

  /** An exit obeys AXI: it offers a beat only for an address that it accepted and has not answered in full,
      with that address's identifier, and marks exactly the last one. */
  predicate Obeys(log: seq<Txn>, r: Offer) {
    r.valid ==> Open(log) && var t := log[|log| - 1];
                             r.beat.id == t.ar.id && (r.beat.last <==> |t.beats| == t.ar.len)
  }

  /** The router with what was seen on its three ports. */
  datatype System = System(regs: Regs, master: seq<Txn>, dram: seq<Txn>, low: seq<Txn>)

  const START := System(RESET, [], [], [])

  predicate Legal(y: System, i: Inputs) { OnWires(i.ar) && Obeys(y.dram, i.dramR) && Obeys(y.low, i.lowR) }

  function Cycle(e: Exits, y: System, i: Inputs): System {
    var o := Drive(e, y.regs, i);
    System(Clocked(e, y.regs, i),
           Seen(y.master, i.arValid && o.arReady, i.ar, o.r.valid && i.rReady, o.r.beat),
           Seen(y.dram, o.dramArValid && i.dramArReady, i.ar, i.dramR.valid && o.dramRReady, i.dramR.beat),
           Seen(y.low, o.lowArValid && i.lowArReady, i.ar, i.lowR.valid && o.lowRReady, i.lowR.beat))
  }

  function Run(e: Exits, inputs: seq<Inputs>): System {
    if inputs == [] then START else Cycle(e, Run(e, inputs[..|inputs| - 1]), inputs[|inputs| - 1])
  }

  predicate LegalRun(e: Exits, inputs: seq<Inputs>) {
    inputs == [] || (LegalRun(e, inputs[..|inputs| - 1]) && Legal(Run(e, inputs[..|inputs| - 1]), inputs[|inputs| - 1]))
  }

  // ------------------------------------------------------------------ invariant

  /** The beats carry the identifier of the address, and the last one of the burst alone is marked. A refused
      address gets decode errors. */
  predicate Answered(e: Exits, t: Txn) {
    && |t.beats| <= t.ar.len + 1
    && (forall k :: 0 <= k < |t.beats| ==> t.beats[k].id == t.ar.id && (t.beats[k].last <==> k == t.ar.len))
    && (ExitOf(e, t.ar, false) == Neither ==>
          forall k :: 0 <= k < |t.beats| ==> t.beats[k].resp == DECERR && t.beats[k].data == 0)
  }

  /** The transactions whose address chose an exit. */
  function For(e: Exits, log: seq<Txn>, exit_: Exit): seq<Txn> {
    if log == [] then []
    else For(e, log[..|log| - 1], exit_) + if ExitOf(e, log[|log| - 1].ar, false) == exit_ then [log[|log| - 1]] else []
  }

  function StateFor(exit_: Exit): State { match exit_ case Dram => ToDram case Low => ToLow case Neither => Error }

  ghost predicate Invariant(e: Exits, y: System) {
    && (forall k :: 0 <= k < |y.master| ==> Answered(e, y.master[k]) && y.master[k].ar.len < 0x100)
    && (forall k :: 0 <= k < |y.master| - 1 ==> Complete(y.master[k]))
    && y.dram == For(e, y.master, Dram) && y.low == For(e, y.master, Low)
    && if Open(y.master) then
         var t := y.master[|y.master| - 1];
         && y.regs.state == StateFor(ExitOf(e, t.ar, false))
         && (y.regs.state == Error ==> y.regs.id == t.ar.id && y.regs.remaining == t.ar.len + 1 - |t.beats|)
       else y.regs.state == Idle
  }

  lemma ForLast(e: Exits, log: seq<Txn>, t: Txn, exit_: Exit)
    ensures For(e, log + [t], exit_) == For(e, log, exit_) + if ExitOf(e, t.ar, false) == exit_ then [t] else []
  {
    assert (log + [t])[..|log|] == log;
  }

  /** A beat changes the last transaction of the port it comes from, and of the master's. */
  lemma ForBeat(e: Exits, log: seq<Txn>, beat: Beat, exit_: Exit)
    requires log != []
    ensures var t := log[|log| - 1];
            For(e, log[|log| - 1 := t.(beats := t.beats + [beat])], exit_)
            == if ExitOf(e, t.ar, false) == exit_ then Seen(For(e, log, exit_), false, t.ar, true, beat)
               else For(e, log, exit_)
  {
    hide ExitOf;
    var n := |log| - 1;
    var t := log[n];
    var t' := t.(beats := t.beats + [beat]);
    assert log[n := t'] == log[..n] + [t'] && log == log[..n] + [t];
    ForLast(e, log[..n], t', exit_);
    ForLast(e, log[..n], t, exit_);
  }

  /** If the master's last transaction is open, it is the last one of the exit its address chose. */
  lemma ForOpen(e: Exits, log: seq<Txn>)
    requires log != []
    ensures For(e, log, ExitOf(e, log[|log| - 1].ar, false)) != []
    ensures var f := For(e, log, ExitOf(e, log[|log| - 1].ar, false)); f[|f| - 1] == log[|log| - 1]
  {
    assert log == log[..|log| - 1] + [log[|log| - 1]];
  }

  lemma AddressKeeps(e: Exits, y: System, i: Inputs)
    requires Invariant(e, y) && OnWires(i.ar) && y.regs.state == Idle
    ensures Invariant(e, Cycle(e, y, i))
  {
    hide ExitOf, For;
    if i.arValid && Drive(e, y.regs, i).arReady {
      ForLast(e, y.master, Txn(i.ar, []), Dram);
      ForLast(e, y.master, Txn(i.ar, []), Low);
    }
  }

  /** The beat that the router offers is the next one of the open transaction. */
  lemma OfferedNext(e: Exits, y: System, i: Inputs)
    requires Invariant(e, y) && Legal(y, i) && y.regs.state != Idle
    ensures Open(y.master)
    ensures var o, t := Drive(e, y.regs, i), y.master[|y.master| - 1];
            o.r.valid ==> o.r.beat.id == t.ar.id && (o.r.beat.last <==> |t.beats| == t.ar.len)
                          && (ExitOf(e, t.ar, false) == Neither ==> o.r.beat.resp == DECERR && o.r.beat.data == 0)
  {
    hide ExitOf, For;
    ForOpen(e, y.master);
  }

  lemma AnsweredBeat(e: Exits, t: Txn, beat: Beat)
    requires Answered(e, t) && !Complete(t)
    requires beat.id == t.ar.id && (beat.last <==> |t.beats| == t.ar.len)
    requires ExitOf(e, t.ar, false) == Neither ==> beat.resp == DECERR && beat.data == 0
    ensures Answered(e, t.(beats := t.beats + [beat]))
  {
    hide ExitOf;
  }

  lemma BeatKeeps(e: Exits, y: System, i: Inputs)
    requires Invariant(e, y) && Legal(y, i) && y.regs.state != Idle
    ensures Invariant(e, Cycle(e, y, i))
  {
    hide ExitOf, For, Answered, Obeys;
    OfferedNext(e, y, i);
    var o := Drive(e, y.regs, i);
    if o.r.valid && i.rReady {
      AnsweredBeat(e, y.master[|y.master| - 1], o.r.beat);
      ForBeat(e, y.master, o.r.beat, Dram);
      ForBeat(e, y.master, o.r.beat, Low);
      ForOpen(e, y.master);
    }
  }

  lemma {:induction false} EveryRun(e: Exits, inputs: seq<Inputs>)
    requires LegalRun(e, inputs)
    ensures Invariant(e, Run(e, inputs))
    decreases |inputs|
  {
    hide Invariant, Cycle, Legal;
    if inputs == [] {
      StartHolds(e);
    } else {
      var n := |inputs| - 1;
      EveryRun(e, inputs[..n]);
      if Run(e, inputs[..n]).regs.state == Idle {
        LegalAddress(Run(e, inputs[..n]), inputs[n]);
        AddressKeeps(e, Run(e, inputs[..n]), inputs[n]);
      } else {
        BeatKeeps(e, Run(e, inputs[..n]), inputs[n]);
      }
    }
  }

  lemma StartHolds(e: Exits) ensures Invariant(e, START) {}

  lemma LegalAddress(y: System, i: Inputs) requires Legal(y, i) ensures OnWires(i.ar) {}

  // ------------------------------------------------------------------- theorems

  /** Over every run, every address that the master handed over but the last is answered in full: with as
      many beats as it asked for, with its identifier, the last beat alone marked, and decode errors if no exit
      takes it. The beats of the others are those of the exit that the address chose, and each exit saw
      exactly the addresses that chose it. The last address is answered in full or still waiting. */
  lemma ReadsAnswered(e: Exits, inputs: seq<Inputs>)
    requires LegalRun(e, inputs)
    ensures var y := Run(e, inputs);
            && (forall k :: 0 <= k < |y.master| ==> Answered(e, y.master[k]))
            && (forall k :: 0 <= k < |y.master| - 1 ==> Complete(y.master[k]))
            && (Open(y.master) <==> y.regs.state != Idle)
            && y.dram == For(e, y.master, Dram) && y.low == For(e, y.master, Low)
  {
    hide ExitOf, For, Answered, Cycle;
    EveryRun(e, inputs);
  }

  /** No address is taken while beats are outstanding, and no beat is given while none are. */
  lemma OneAtATime(e: Exits, inputs: seq<Inputs>, i: Inputs)
    requires LegalRun(e, inputs) && Legal(Run(e, inputs), i)
    ensures var y := Run(e, inputs);
            var o := Drive(e, y.regs, i);
            (Open(y.master) ==> !o.arReady && !o.dramArValid && !o.lowArValid)
            && (!Open(y.master) ==> !o.r.valid && !o.dramRReady && !o.lowRReady)
  {
    hide ExitOf, For, Answered, Cycle, Obeys;
    EveryRun(e, inputs);
  }

  /** A transaction moves on in every cycle in which the master takes a beat and there is one: always for a
      refused address, and otherwise when the chosen exit offers one. */
  lemma ReadProgress(e: Exits, inputs: seq<Inputs>, i: Inputs)
    requires LegalRun(e, inputs) && Legal(Run(e, inputs), i) && Open(Run(e, inputs).master)
    ensures var y := Run(e, inputs);
            var n := |y.master| - 1;
            var exit_ := ExitOf(e, y.master[n].ar, false);
            var offered := match exit_ case Dram => i.dramR.valid case Low => i.lowR.valid case Neither => true;
            var moves := i.rReady && offered;
            var y' := Cycle(e, y, i);
            |y'.master| == n + 1 && |y'.master[n].beats| == |y.master[n].beats| + if moves then 1 else 0
  {
    hide ExitOf, For, Answered, Obeys;
    EveryRun(e, inputs);
  }

  function TakenBeats(inputs: seq<Inputs>): nat {
    if inputs == [] then 0 else TakenBeats(inputs[..|inputs| - 1]) + if inputs[|inputs| - 1].rReady then 1 else 0
  }

  function Registers(e: Exits, s: Regs, inputs: seq<Inputs>): Regs {
    if inputs == [] then s else Clocked(e, Registers(e, s, inputs[..|inputs| - 1]), inputs[|inputs| - 1])
  }

  /** A refused address waits for nothing but the master: the error lasts as long as the master has not taken
      as many beats as it asked for, and not longer. */
  lemma {:induction false} ErrorLasts(e: Exits, s: Regs, inputs: seq<Inputs>)
    requires s.state == Error && 1 <= s.remaining <= 0x100 && TakenBeats(inputs) <= s.remaining
    requires inputs != [] ==> TakenBeats(inputs[..|inputs| - 1]) < s.remaining
    ensures Registers(e, s, inputs)
            == Regs(if TakenBeats(inputs) == s.remaining then Idle else Error, s.id, s.remaining - TakenBeats(inputs))
    decreases |inputs|
  {
    hide ExitOf;
    if inputs != [] {
      var before := inputs[..|inputs| - 1];
      if before != [] { TakenGrows(before); }
      ErrorLasts(e, s, before);
    }
  }

  lemma TakenGrows(inputs: seq<Inputs>)
    requires inputs != []
    ensures TakenBeats(inputs[..|inputs| - 1]) <= TakenBeats(inputs)
  {
  }

  /** Nothing offered is withdrawn: an address goes on to the same exit while the master holds it, a beat
      is offered to the master again while its exit holds it, and so is an error. */
  lemma OffersStay(e: Exits, s: Regs, i: Inputs, i': Inputs)
    requires i.arValid && i'.arValid && i'.ar == i.ar
    requires i.dramR.valid ==> i'.dramR == i.dramR
    requires i.lowR.valid ==> i'.lowR == i.lowR
    ensures var o, o' := Drive(e, s, i), Drive(e, Clocked(e, s, i), i');
            && (o.dramArValid && !i.dramArReady ==> o'.dramArValid)
            && (o.lowArValid && !i.lowArReady ==> o'.lowArValid)
            && (o.r.valid && !i.rReady ==> o'.r == o.r)
  {
    hide ExitOf;
  }

  lemma {:induction false} ForHolds(e: Exits, log: seq<Txn>, k: nat, exit_: Exit)
    requires k < |log|
    ensures ExitOf(e, log[k].ar, false) == exit_ ==> log[k] in For(e, log, exit_)
    decreases |log|
  {
    hide ExitOf;
    if k < |log| - 1 {
      ForHolds(e, log[..|log| - 1], k, exit_);
    }
  }

  lemma {:induction false} ForOnly(e: Exits, log: seq<Txn>, t: Txn, exit_: Exit)
    requires t in For(e, log, exit_)
    ensures ExitOf(e, t.ar, false) == exit_
    decreases |log|
  {
    hide ExitOf;
    if t in For(e, log[..|log| - 1], exit_) { ForOnly(e, log[..|log| - 1], t, exit_); }
  }

  /** Over every run, an aligned burst no wider than the bus is seen by the memory exit exactly when the memory
      region serves it and by the low exit exactly when a region there does, with the very beats that the master
      saw; and what no region serves is seen by neither. */
  lemma ReadsReach(e: Exits, inputs: seq<Inputs>, k: nat)
    requires ExitsOk(e) && LegalRun(e, inputs) && k < |Run(e, inputs).master|
    requires var b := Run(e, inputs).master[k].ar; OnWires(b) && b.size <= e.maxSize && b.addr % Width(b) == 0
    ensures var y := Run(e, inputs);
            var t := y.master[k];
            && (t in y.dram <==> Serves(e.dram, t.ar, false))
            && (t in y.low <==> exists j :: 0 <= j < |e.low| && Serves(e.low[j], t.ar, false))
  {
    hide ExitOf, Serves, For, Answered, ExitsOk, Cycle, OnWires, Width;
    EveryRun(e, inputs);
    var y := Run(e, inputs);
    var t := y.master[k];
    ExitExact(e, t.ar, false);
    ForHolds(e, y.master, k, Dram);
    ForHolds(e, y.master, k, Low);
    if t in y.dram { ForOnly(e, y.master, t, Dram); }
    if t in y.low { ForOnly(e, y.master, t, Low); }
  }
}
