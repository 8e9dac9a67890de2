/** The router itself: the registers of its two state machines and what one clock does to them. */
module AxiRouter {
  import opened AxiDecode
  import R = AxiReads
  import W = AxiWrites

  class Router {
    const exits: Exits
    var readState: R.State
    var readId: nat
    var readRemaining: nat
    var writeState: W.State
    var writeId: nat
    var writeRemaining: nat
    var writeDone: bool

    function ReadRegs(): R.Regs reads this { R.Regs(readState, readId, readRemaining) }
    function WriteRegs(): W.Regs reads this { W.Regs(writeState, writeId, writeRemaining, writeDone) }

    constructor (exits: Exits)
      ensures this.exits == exits && ReadRegs() == R.RESET && WriteRegs() == W.RESET
    {
      this.exits := exits;
      readState, readId, readRemaining := R.Idle, 0, 0;
      writeState, writeId, writeRemaining, writeDone := W.Idle, 0, 0, false;
    }

    /** One clock of both sides, which do not touch each other. */
    method Clock(r: R.Inputs, w: W.Inputs) returns (ro: R.Outputs, wo: W.Outputs)
      modifies this
      ensures ro == R.Drive(exits, old(ReadRegs()), r) && ReadRegs() == R.Clocked(exits, old(ReadRegs()), r)
      ensures wo == W.Drive(exits, old(WriteRegs()), w) && WriteRegs() == W.Clocked(exits, old(WriteRegs()), w)
    {
      ro := Read(r);
      wo := Write(w);
    }

    method Read(i: R.Inputs) returns (o: R.Outputs)
      modifies `readState, `readId, `readRemaining
      ensures o == R.Drive(exits, old(ReadRegs()), i) && ReadRegs() == R.Clocked(exits, old(ReadRegs()), i)
    {
      hide ExitOf;
      o := R.Outputs(false, false, false, R.SILENT, false, false);
      match readState {
        case Idle =>
          var exit_ := ExitOf(exits, i.ar, false);
          if exit_ == Dram {
            o := o.(dramArValid := i.arValid, arReady := i.dramArReady);
            if i.arValid && o.arReady { readState := R.ToDram; }
          } else if exit_ == Low {
            o := o.(lowArValid := i.arValid, arReady := i.lowArReady);
            if i.arValid && o.arReady { readState := R.ToLow; }
          } else {
            o := o.(arReady := true);
            if i.arValid { readId, readRemaining, readState := i.ar.id, (i.ar.len + 1) % 0x200, R.Error; }
          }
        case ToDram =>
          o := o.(r := i.dramR, dramRReady := i.rReady);
          if o.r.valid && i.rReady && o.r.beat.last { readState := R.Idle; }
        case ToLow =>
          o := o.(r := i.lowR, lowRReady := i.rReady);
          if o.r.valid && i.rReady && o.r.beat.last { readState := R.Idle; }
        case Error =>
          o := o.(r := R.Offer(true, R.Beat(readId, 0, R.DECERR, readRemaining == 1)));
          if i.rReady {
            if readRemaining == 1 { readState := R.Idle; }
            readRemaining := (readRemaining + 0x1ff) % 0x200;
          }
      }
    }

    method Write(i: W.Inputs) returns (o: W.Outputs)
      modifies `writeState, `writeId, `writeRemaining, `writeDone
      ensures o == W.Drive(exits, old(WriteRegs()), i) && WriteRegs() == W.Clocked(exits, old(WriteRegs()), i)
    {
      hide ExitOf;
      o := W.NOTHING;
      match writeState {
        case Idle =>
          writeDone := false;
          var exit_ := ExitOf(exits, i.aw, true);
          if exit_ == Dram {
            o := o.(dramAwValid := i.awValid, awReady := i.dramAwReady);
            if i.awValid && o.awReady { writeState := W.ToDram; }
          } else if exit_ == Low {
            o := o.(lowAwValid := i.awValid, awReady := i.lowAwReady);
            if i.awValid && o.awReady { writeState := W.ToLow; }
          } else {
            o := o.(awReady := true);
            if i.awValid { writeId, writeRemaining, writeState := i.aw.id, (i.aw.len + 1) % 0x200, W.Error; }
          }
        case ToDram =>
          o := o.(dramWValid := i.wValid && !writeDone, wReady := i.dramWReady && !writeDone,
                  b := i.dramB, dramBReady := i.bReady);
          if i.wValid && o.wReady && i.w.last { writeDone := true; }
          if o.b.valid && i.bReady { writeState := W.Idle; }
        case ToLow =>
          o := o.(lowWValid := i.wValid && !writeDone, wReady := i.lowWReady && !writeDone,
                  b := i.lowB, lowBReady := i.bReady);
          if i.wValid && o.wReady && i.w.last { writeDone := true; }
          if o.b.valid && i.bReady { writeState := W.Idle; }
        case Error =>
          o := o.(wReady := true);
          if i.wValid {
            if writeRemaining == 1 { writeState := W.ErrorReply; }
            writeRemaining := (writeRemaining + 0x1ff) % 0x200;
          }
        case ErrorReply =>
          o := o.(b := W.Offer(true, W.Reply(writeId, W.DECERR)));
          if i.bReady { writeState := W.Idle; }
      }
    }
  }
}
