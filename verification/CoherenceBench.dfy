/** The bench as the object it is: its methods update the maps in place, refuse what its checks refuse,
    and otherwise take exactly the step that module Coherence reasons about. */
module CoherenceBench {
  import opened Coherence
  import opened Wrappers

  class Bench {
    const seed: nat
    var cycle: nat
    var arch: map<Line, Data>
    var history: map<Line, seq<Change>>
    var held: map<Line, Perm>
    var copies: map<Line, Copy>
    var puts: map<nat, PutState>
    var upq: seq<Up>
    var probe: Option<Probe>
    var present: map<nat, Txn>
    var out: map<nat, map<nat, Txn>>
    ghost var moments: seq<Moment>

    ghost function View(): State
      reads this
    {
      State(seed, cycle, arch, history, held, copies, puts, upq, probe, present, out, moments)
    }

    constructor (seed: nat)
      ensures View() == Start(seed)
    {
      this.seed := seed;
      cycle, arch, history, held, copies := 0, map[], map[], map[], map[];
      puts, upq, probe, present, out := map[], [], None, map[], map[];
      moments := [Moment(0, 0, map[])];
    }

    function OutOf(c: nat): (r: map<nat, Txn>)
      reads this
      ensures r == Coherence.Out(View(), c)
    {
      if c in out then out[c] else map[]
    }

    method Record(line: Line, data: Data)
      modifies this`arch, this`history, this`moments
      ensures View() == Commit(old(View()), line, data)
    {
      arch := arch[line := data];
      history := history[line := HistoryOf(history, line) + [Change(cycle, data)]];
      moments := moments + [Moment(cycle, line, arch)];
    }

    method StoreBytes(line: Line, offset: nat, bytes: seq<nat>) returns (ok: bool)
      modifies this
      ensures ok == StoreOk(old(View()), line, offset, bytes)
      ensures View() == if ok then Store(old(View()), line, offset, bytes) else old(View())
    {
      ok := offset + |bytes| <= 64 && line in copies && !copies[line].S?
          && copies[line].data == GoldenIn(seed, arch, line);
      if ok {
        var data := Overwrite(copies[line].data, offset, bytes);
        copies := copies[line := M(data)];
        Record(line, data);
      }
    }

    method EvictLine(line: Line, tid: nat) returns (ok: bool)
      modifies this
      ensures ok == EvictOk(old(View()), line, tid)
      ensures View() == if ok then Evict(old(View()), line, tid) else old(View())
    {
      ok := line in copies && tid !in puts;
      if ok {
        puts := puts[tid := PutState(line, false)];
        upq := upq + [Up(Put, copies[line].M?, line, tid, copies[line].data)];
      }
    }

    method SubmitRequest(c: nat, op: ReqOp, line: Line, tid: nat, error: bool, mask: set<nat>, data: Data)
      returns (ok: bool)
      modifies this
      ensures ok == SubmitOk(old(View()), c, tid)
      ensures View() == if ok then Submit(old(View()), c, op, line, tid, error, mask, data) else old(View())
    {
      ok := c !in present && tid !in OutOf(c) && |OutOf(c)| < 4 && (c == 2 ==> OutOf(2) == map[] && tid == 0);
      if ok {
        present := present[c := Txn(op, line, tid, cycle, error, mask, data)];
      }
    }

    /** Queues the answer to the pending probe when it is due; `ok` is false when a check fails. */
    method AnswerProbe() returns (ok: bool)
      modifies this
      ensures ok == (AnswerDue(old(View())) ==> AnswerOk(old(View())))
      ensures View() == if AnswerDue(old(View())) && ok then Answer(old(View())) else old(View())
    {
      ok := true;
      if probe.Some? && upq == [] {
        var line := probe.value.line;
        var busy := (exists tid :: tid in OutOf(0) && OutOf(0)[tid].line == line)
        || (exists tid :: tid in puts && puts[tid].line == line);
        if !busy {
          ok := line in copies ==> (copies[line].S? <==> !probe.value.owner);
          if ok {
            var answer := if probe.value.op == Inv then InvAck else DownAck;
            upq := upq + [Up(answer, line in copies && copies[line].M?, line, 0,
                             if line in copies then copies[line].data else NoData())];
          }
        }
      }
    }

    /** Byte by byte, the masked bytes of the written line over the golden ones. */
    method MergeLine(golden: Data, mask: set<nat>, data: Data) returns (merged: Data)
      ensures merged == Merge(golden, mask, data)
    {
      var bytes: seq<nat> := golden;
      for i := 0 to 64
        invariant |bytes| == 64
        invariant forall k :: 0 <= k < 64 ==> bytes[k] == if k < i && k in mask then data[k] else golden[k]
      {
        if i in mask { bytes := bytes[i := data[i]]; }
      }
      merged := bytes;
      assert bytes == Merge(golden, mask, data);
    }

    /** One response from the home to client c. */
    method TakeResponse(c: nat, r: Response) returns (ok: bool)
      modifies this
      ensures ok == RespondOk(old(View()), c, r)
      ensures View() == if ok then Respond(old(View()), c, r) else old(View())
    {
      if c == 0 && r.op == PutAck {
        ok := r.tid in puts && puts[r.tid].accepted;
        if ok { puts := puts - {r.tid}; }
        return;
      }
      ok := r.tid in OutOf(c) && r.err == OutOf(c)[r.tid].error;
      if !ok { return; }
      var t := OutOf(c)[r.tid];
      if c == 0 {
        ok := TakeGrant(t, r);
      } else if c == 2 && t.op == MaskWrite {
        ok := r.op == WriteAck && (!r.err ==> t.line !in held);
        if ok {
          out := out[c := OutOf(c) - {r.tid}];
          if !r.err {
            var merged := MergeLine(GoldenIn(seed, arch, t.line), t.mask, t.data);
            Record(t.line, merged);
          }
        }
      } else {
        var fits := InWindowNow(t.line, t.start, r.data);
        ok := r.op == ReadData && (!r.err ==> fits && !(t.line in held && held[t.line] == Owner));
        if ok { out := out[c := OutOf(c) - {r.tid}]; }
      }
    }

    method TakeGrant(t: Txn, r: Response) returns (ok: bool)
      requires r.op != PutAck && r.tid in OutOf(0) && t == OutOf(0)[r.tid] && r.err == t.error
      modifies this
      ensures ok == GrantOk(old(View()), t, r)
      ensures View() == if ok then Respond(old(View()), 0, r) else old(View())
    {
      var golden := GoldenIn(seed, arch, t.line);
      ok := (r.op == DataS || r.op == DataE || r.op == AckE) && (t.op == GetM ==> r.op != DataS);
      if !ok { return; }
      if !r.err {
        if r.op == AckE {
          ok := t.op == GetM && t.line in held && held[t.line] == Shared && t.line in copies
              && copies[t.line].data == golden;
        } else {
          ok := t.line !in held && r.data == golden;
        }
        if !ok { return; }
        var data := if r.op == AckE then copies[t.line].data else r.data;
        held := held[t.line := if r.op == DataS then Shared else Owner];
        copies := copies[t.line := if r.op == DataS then S(data) else E(data)];
      }
      out := out[0 := OutOf(0) - {r.tid}];
    }

    /** The read check, scanning the history of the line. */
    method InWindowNow(line: Line, start: nat, x: Data) returns (fits: bool)
      ensures fits == InWindow(View(), line, start, x)
    {
      var h := HistoryOf(history, line);
      fits := x == Prior(h, start, Initial(seed, line));
      for i := 0 to |h|
        invariant fits <==> x == Prior(h, start, Initial(seed, line))
                            || exists k :: 0 <= k < i && start < h[k].cycle <= cycle && h[k].data == x
      {
        fits := fits || (start < h[i].cycle <= cycle && h[i].data == x);
      }
    }

    /** The home takes the oldest queued answer. By OwnChecksHold this never fails in a coherent state. */
    method AcceptUp() returns (ok: bool)
      modifies this
      ensures ok == TakeUpOk(old(View()))
      ensures View() == if ok then TakeUp(old(View())) else old(View())
    {
      ok := upq != [];
      if !ok { return; }
      var u := upq[0];
      ok := (u.dirty ==> u.line in held && held[u.line] == Owner)
      && (if u.op == Put then u.line in held
          else probe.Some? && probe.value.line == u.line && (u.op == InvAck <==> probe.value.op == Inv));
      if !ok { return; }
      upq := upq[1..];
      if u.op == Put {
        held, copies := held - {u.line}, copies - {u.line};
        puts := puts[u.tid := PutState(u.line, true)];
      } else {
        if u.op == InvAck {
          held, copies := held - {u.line}, copies - {u.line};
        } else if u.line in held {
          held, copies := held[u.line := Shared], copies[u.line := S(u.data)];
        }
        probe := None;
      }
    }

    method AcceptProbe(p: Probe, dmaWrite: bool) returns (ok: bool)
      modifies this
      ensures ok == TakeProbeOk(old(View()), p, dmaWrite)
      ensures View() == if ok then TakeProbe(old(View()), p) else old(View())
    {
      var writes := exists tid :: tid in OutOf(2) && OutOf(2)[tid].op == MaskWrite && OutOf(2)[tid].line == p.line;
      var expected := p.op == Inv && writes;
      ok := probe.None? && (p.op == Inv || p.owner) && dmaWrite == expected;
      if ok { probe := Some(p); }
    }

    /** The home takes the request that client c presents. */
    method AcceptRequest(c: nat) returns (ok: bool)
      modifies this
      ensures ok == TakeRequestOk(old(View()), c)
      ensures View() == if ok then TakeRequest(old(View()), c) else old(View())
    {
      ok := c in present && present[c].tid !in OutOf(c);
      if !ok { return; }
      var t := present[c];
      if c == 0 {
        ok := (if t.op == GetS then t.line !in held else t.line in held ==> held[t.line] != Owner)
        && !exists tid :: tid in puts && puts[tid].line == t.line;
        if !ok { return; }
      }
      out := out[c := OutOf(c)[t.tid := t]];
      present := present - {c};
    }

    method EndCycle()
      modifies this`cycle
      ensures View() == NextCycle(old(View()))
    {
      cycle := cycle + 1;
    }
  }
}
