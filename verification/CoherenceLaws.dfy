/** The home bench seen from outside: what it accepts, what each accepted event does to a line, and that no transaction
    is lost or answered twice. */
module CoherenceLaws {
  import opened Coherence
  import opened Wrappers

  // ---------------------------------------------------------------- acceptance

  ghost predicate Exclusive(s: State, line: Line) { line in s.copies && (s.copies[line].E? || s.copies[line].M?) }

  /** Somebody holds the line, but not alone. */
  ghost predicate SharedOnly(s: State, line: Line) { line in s.copies && s.copies[line].S? }

  lemma CopiesTell(s: State, line: Line)
    requires Coherent(s)
    ensures line in s.held <==> Exclusive(s, line) || SharedOnly(s, line)
    ensures line in s.held ==> (s.held[line] == Owner <==> Exclusive(s, line))
    ensures line in s.copies ==> s.copies[line].data == Golden(s, line)
  {
    if line in s.copies { assert CopyFits(s, line); }
    hide Golden;
  }

  /** A read's answer is accepted exactly when it is the awaited one, with the announced error bit, and, unless that
      bit is set, carries a value that golden memory held at some moment since the read began, while nobody may
      write the line. */
  lemma ReadAnswerExact(s: State, c: nat, r: Response)
    requires Coherent(s) && Recorded(s) && c in s.out && r.tid in s.out[c]
    requires c == 1 || (c == 2 && s.out[c][r.tid].op != MaskWrite)
    ensures var t := s.out[c][r.tid];
            RespondOk(s, c, r) <==>
            && r.op == ReadData && (r.err <==> t.error)
            && (t.error || (HeldSince(s.seed, s.moments, t.line, t.start, r.data) && !Exclusive(s, t.line)))
  {
    var t := s.out[c][r.tid];
    CopiesTell(s, t.line);
    ReadWindowExact(s, t.line, t.start, r.data);
    hide Coherent, Recorded, InWindow, HeldSince, Exclusive, SharedOnly;
  }

  /** A grant is accepted exactly when it answers the request: shared data only for a shared request, exclusive data for
      either, a bare upgrade only for an exclusive one of a shared copy; data only while nobody holds the line, and
      then the golden data. */
  lemma GrantAnswerExact(s: State, r: Response)
    requires Coherent(s) && 0 in s.out && r.tid in s.out[0] && r.op != PutAck
    ensures var t := s.out[0][r.tid];
            RespondOk(s, 0, r) <==>
            && (r.err <==> t.error)
            && (match r.op
                case DataS => t.op != GetM && (t.error || (t.line !in s.copies && r.data == Golden(s, t.line)))
                case DataE => t.error || (t.line !in s.copies && r.data == Golden(s, t.line))
                case AckE => t.error || (t.op == GetM && SharedOnly(s, t.line))
                case _ => false)
  {
    CopiesTell(s, s.out[0][r.tid].line);
    hide Golden, Coherent;
  }

  /** A DMA write is acknowledged exactly when it was asked for and, unless it failed, nobody holds the line. */
  lemma WriteAnswerExact(s: State, r: Response)
    requires Coherent(s) && 2 in s.out && r.tid in s.out[2] && s.out[2][r.tid].op == MaskWrite
    ensures var t := s.out[2][r.tid];
            RespondOk(s, 2, r) <==> r.op == WriteAck && (r.err <==> t.error) && (t.error || t.line !in s.copies)
  {
    CopiesTell(s, s.out[2][r.tid].line);
    hide Coherent;
  }

  /** No answer is accepted for an identifier that is not awaited, and an eviction is completed only once the home has
      taken it. */
  lemma UnmatchedRefused(s: State, c: nat, r: Response)
    ensures RespondOk(s, c, r) ==>
              if c == 0 && r.op == PutAck then r.tid in s.puts && s.puts[r.tid].accepted
              else c in s.out && r.tid in s.out[c]
    ensures c == 0 && r.op == PutAck && r.tid in s.puts && s.puts[r.tid].accepted ==> RespondOk(s, c, r)
  {
    hide ReadOk, GrantOk;
  }

  /** A request is accepted exactly when its identifier is free and, for the data cache, it asks for more than the
      cache has, and no eviction of the line is on its way. */
  lemma RequestExact(s: State, c: nat)
    requires Coherent(s) && c in s.present
    ensures var t := s.present[c];
            TakeRequestOk(s, c) <==>
            && (c in s.out ==> t.tid !in s.out[c])
            && (c == 0 ==>
                  && (if t.op == GetS then t.line !in s.copies else !Exclusive(s, t.line))
                  && forall tid: nat :: tid in s.puts ==> s.puts[tid].line != t.line)
  {
    CopiesTell(s, s.present[c].line);
    hide Coherent, Exclusive;
  }

  /** The answer speaks of the line: it grants it, refuses it, or completes its eviction. */
  ghost predicate Concerns(s: State, r: Response, line: Line) {
    if r.op == PutAck then r.tid in s.puts && s.puts[r.tid].line == line
    else 0 in s.out && r.tid in s.out[0] && s.out[0][r.tid].line == line
  }

  /** A probe is answered as soon as the queue is empty and no answer that the home still owes the data cache speaks of
      the probed line, and never before. */
  lemma AnswerWaits(s: State)
    ensures AnswerDue(s) <==>
            && s.probe.Some? && s.upq == []
            && forall r: Response :: !Concerns(s, r, s.probe.value.line)
  {
    if s.probe.Some? {
      var line := s.probe.value.line;
      if AnswerDue(s) {
        forall r: Response ensures !Concerns(s, r, line) { NotConcerned(s, r, line); }
      } else if tid: nat :| tid in Out(s, 0) && Out(s, 0)[tid].line == line {
        assert Concerns(s, Response(DataS, tid, false, NoData()), line);
      } else if tid: nat :| tid in s.puts && s.puts[tid].line == line {
        assert Concerns(s, Response(PutAck, tid, false, NoData()), line);
      }
    }
  }

  lemma NotConcerned(s: State, r: Response, line: Line)
    requires !GetOutstanding(s, line) && !PutOutstanding(s, line)
    ensures !Concerns(s, r, line)
  {
    assert r.tid in Out(s, 0) ==> Out(s, 0)[r.tid].line != line;
  }

  /** An invalidation is tagged as belonging to a DMA write exactly when one of its line awaits its acknowledgement; so
      behind an untagged one no acknowledgement of the line is accepted. Only the owner is downgraded, and one probe
      is out at a time. */
  lemma ProbeExact(s: State, p: Probe, dmaWrite: bool)
    ensures TakeProbeOk(s, p, dmaWrite) <==>
            && s.probe.None? && (p.op == Down ==> p.owner)
            && (dmaWrite <==>
                p.op == Inv && 2 in s.out
                && exists tid: nat :: tid in s.out[2] && s.out[2][tid].op == MaskWrite && s.out[2][tid].line == p.line)
    ensures TakeProbeOk(s, p, false) && p.op == Inv ==>
            forall r: Response :: RespondOk(s, 2, r) && Out(s, 2)[r.tid].op == MaskWrite ==>
              Out(s, 2)[r.tid].line != p.line
  {
    hide GrantOk, ReadOk;
    if 2 in s.out {
      forall tid: nat | tid in s.out[2] && s.out[2][tid].op == MaskWrite && s.out[2][tid].line == p.line
        ensures WriteOutstanding(s, p.line)
      {
        assert tid in Out(s, 2);
      }
    }
  }

  // ------------------------------------------------------------------- effects

  /** Everything about a line but its requests: its golden value, its copy and who may use it. */
  ghost predicate SameLine(s: State, s': State, line: Line) {
    && Golden(s', line) == Golden(s, line)
    && (line in s'.held <==> line in s.held) && (line in s.held ==> s'.held[line] == s.held[line])
    && (line in s'.copies <==> line in s.copies) && (line in s.copies ==> s'.copies[line] == s.copies[line])
  }

  /** A grant gives the copy it says, of golden data, and touches no other line. */
  lemma GrantLands(s: State, r: Response, other: Line)
    requires Coherent(s) && RespondOk(s, 0, r) && r.op != PutAck && !r.err
    ensures var s', line := Respond(s, 0, r), Out(s, 0)[r.tid].line;
            && line in s'.copies && s'.copies[line] == (if r.op == DataS then S(Golden(s, line))
                                                       else E(Golden(s, line)))
            && line in s'.held && (s'.held[line] == Owner <==> r.op != DataS)
            && Golden(s', line) == Golden(s, line) && (other != line ==> SameLine(s, s', other))
  {
    hide Golden, Coherent;
    assert forall l :: Golden(Respond(s, 0, r), l) == Golden(s, l) by { GoldenKept(s, r); }
  }

  lemma GoldenKept(s: State, r: Response)
    requires RespondOk(s, 0, r)
    ensures Respond(s, 0, r).arch == s.arch && Respond(s, 0, r).seed == s.seed
    ensures forall l :: Golden(Respond(s, 0, r), l) == Golden(s, l)
  {
    if r.op != PutAck && !r.err {
      var t := Out(s, 0)[r.tid];
      GrantArch(s.(out := s.out[0 := Out(s, 0) - {r.tid}]), t, r);
    }
    hide GrantOk, ReadOk, Grant, Merge, Commit, Initial;
  }

  lemma GrantArch(s: State, t: Txn, r: Response)
    requires GrantOk(s, t, r) && !r.err
    ensures Grant(s, t, r).arch == s.arch && Grant(s, t, r).seed == s.seed
  {
    hide GrantOk;
  }

  /** The home takes the oldest answer: an eviction or an invalidation gives the line up, a downgrade leaves it shared
      with the answer's data if it is still held, and no other line is touched. The probe is over once it is
      answered. */
  lemma AnswerLands(s: State, other: Line)
    requires TakeUpOk(s)
    ensures var s', u := TakeUp(s), s.upq[0];
            && s'.upq == s.upq[1..]
            && (u.op != DownAck ==> u.line !in s'.copies && u.line !in s'.held)
            && (u.op == DownAck && u.line in s.held ==>
                  u.line in s'.copies && s'.copies[u.line] == S(u.data) && u.line in s'.held
                  && s'.held[u.line] == Shared)
            && (u.op == DownAck && u.line !in s.held ==> SameLine(s, s', u.line))
            && (other != u.line ==> SameLine(s, s', other))
            && (if u.op == Put then s'.probe == s.probe && u.tid in s'.puts && s'.puts[u.tid] == PutState(u.line, true)
                else s'.probe == None && s'.puts == s.puts)
  {
  }

  /** Before anything is written a line holds the pattern of its number and the seed, byte by byte. */
  lemma ColdMemory(seed: nat, line: Line, k: nat)
    requires k < 64
    ensures Golden(Start(seed), line)[k] == (17 * line + 29 * k + seed) % 256
  {
  }

  /** A request asks, from its presentation to its answer, for what it was submitted for, and remembers the cycle of
      its submission. */
  lemma RequestCarried(s: State, c: nat, op: ReqOp, line: Line, tid: nat, error: bool, mask: set<nat>, data: Data,
                       d: nat)
    requires SubmitOk(s, c, tid)
    ensures var s' := Submit(s, c, op, line, tid, error, mask, data);
            && c in s'.present && Asks(s'.present[c], op, line, tid, error, mask, data)
            && s'.present[c].start == s.cycle
            && (d != c ==> (d in s'.present <==> d in s.present) && (d in s.present ==> s'.present[d] == s.present[d]))
            && s'.out == s.out && s'.puts == s.puts && s'.upq == s.upq && s'.cycle == s.cycle && SameLine(s, s', line)
  {
  }

  ghost predicate Asks(t: Txn, op: ReqOp, line: Line, tid: nat, error: bool, mask: set<nat>, data: Data) {
    t.op == op && t.line == line && t.tid == tid && t.error == error && t.mask == mask && t.data == data
  }

  lemma RequestLands(s: State, c: nat)
    requires TakeRequestOk(s, c)
    ensures var s', t := TakeRequest(s, c), s.present[c];
            && c !in s'.present && c in s'.out && t.tid in s'.out[c] && s'.out[c][t.tid] == t
            && (forall d: nat, tid: nat :: d != c || tid != t.tid ==>
                  (tid in Out(s', d) <==> tid in Out(s, d)) && (tid in Out(s, d) ==> Out(s', d)[tid] == Out(s, d)[tid]))
            && (forall d: nat :: d != c ==> (d in s'.present <==> d in s.present))
            && (forall d: nat :: d != c && d in s.present ==> s'.present[d] == s.present[d])
  {
    hide PutOutstanding;
  }

  // -------------------------------------------------------------- a quiet line

  /** What the home may do by itself that does not begin something new about the line. */
  ghost predicate Elsewhere(s: State, a: Action, line: Line) {
    match a
    case DoRespond(_, _) => true
    case DoTakeUp => true
    case DoNextCycle => true
    case DoAnswer => true
    case DoTakeProbe(p, _) => p.line != line
    case DoTakeRequest(c) => c in s.present && (c == 0 ==> s.present[c].line != line)
    case _ => false
  }

  /** While a line is not busy, nothing the home does by itself touches it, except to begin something new: its golden
      value, its copy and its permission stay, and it stays idle. */
  lemma IdleStays(s: State, a: Action, line: Line)
    requires Coherent(s) && Allowed(s, a) && !LineBusy(s, line) && Elsewhere(s, a, line)
    ensures SameLine(s, After(s, a), line) && !LineBusy(After(s, a), line)
  {
    hide Coherent, Golden;
    match a
    case DoRespond(c, r) => IdleRespond(s, c, r, line);
    case DoTakeUp => IdleTakeUp(s, line);
    case DoTakeRequest(c) => IdleRequest(s, c, line);
    case _ => IdleEasy(s, a, line);
  }

  /** Whatever of s' speaks of the line was there in s. */
  ghost predicate NothingNew(s: State, s': State, line: Line) {
    && (s'.probe.Some? && s'.probe.value.line == line ==> s.probe == s'.probe)
    && (forall c: nat, tid :: tid in Out(s', c) && Out(s', c)[tid].line == line && (c == 0 || c == 2) ==>
          (tid in Out(s, c) && Out(s, c)[tid].line == line) || (c == 2 && 2 in s.present && s.present[2].line == line))
    && (forall tid :: tid in s'.puts && s'.puts[tid].line == line ==> tid in s.puts && s.puts[tid].line == line)
    && (2 in s'.present ==> 2 in s.present && s'.present[2] == s.present[2])
  }

  lemma StillIdle(s: State, s': State, line: Line)
    requires !LineBusy(s, line) && NothingNew(s, s', line)
    ensures !LineBusy(s', line)
  {
  }

  lemma IdleEasy(s: State, a: Action, line: Line)
    requires Allowed(s, a) && !LineBusy(s, line) && Elsewhere(s, a, line)
    requires a.DoTakeProbe? || a.DoNextCycle? || a.DoAnswer?
    ensures SameLine(s, After(s, a), line) && !LineBusy(After(s, a), line)
  {
    StillIdle(s, After(s, a), line);
  }

  lemma IdleRespond(s: State, c: nat, r: Response, line: Line)
    requires RespondOk(s, c, r) && !LineBusy(s, line)
    ensures SameLine(s, Respond(s, c, r), line) && !LineBusy(Respond(s, c, r), line)
  {
    RespondEnds(s, c, r);
    hide RespondOk, Respond, SameLine;
    assert NothingNew(s, Respond(s, c, r), line) by { hide LineBusy; }
    StillIdle(s, Respond(s, c, r), line);
    RespondElsewhere(s, c, r, line);
    hide LineBusy;
  }

  /** An answer ends the transaction or the eviction that it names, and no other, and begins none. */
  lemma RespondEnds(s: State, c: nat, r: Response)
    requires RespondOk(s, c, r)
    ensures var s', putAck := Respond(s, c, r), c == 0 && r.op == PutAck;
            && s'.probe == s.probe && s'.present == s.present && s'.upq == s.upq && s'.cycle == s.cycle
            && (forall d: nat, tid: nat ::
                  tid in Out(s', d) <==> tid in Out(s, d) && (putAck || d != c || tid != r.tid))
            && (forall d: nat, tid: nat :: tid in Out(s', d) ==> Out(s', d)[tid] == Out(s, d)[tid])
            && (forall tid: nat :: tid in s'.puts <==> tid in s.puts && !(putAck && tid == r.tid))
            && (forall tid: nat :: tid in s'.puts ==> s'.puts[tid] == s.puts[tid])
  {
    hide GrantOk, ReadOk, Merge, Golden, Commit;
    if !(c == 0 && r.op == PutAck) { RespondTables(s, c, r); }
  }

  ghost predicate SameTables(s: State, s': State) {
    s'.out == s.out && s'.puts == s.puts && s'.probe == s.probe && s'.present == s.present && s'.upq == s.upq
    && s'.cycle == s.cycle
  }

  lemma GrantTables(s: State, t: Txn, r: Response)
    requires GrantOk(s, t, r) && !r.err
    ensures SameTables(s, Grant(s, t, r)) && forall line :: line != t.line ==> SameLine(s, Grant(s, t, r), line)
  {
    hide GrantOk, Initial;
  }

  lemma CommitTables(s: State, line: Line, data: Data)
    ensures SameTables(s, Commit(s, line, data))
    ensures forall other :: other != line ==> SameLine(s, Commit(s, line, data), other)
  {
    hide Initial, HistoryOf;
  }

  lemma RespondTables(s: State, c: nat, r: Response)
    requires RespondOk(s, c, r) && !(c == 0 && r.op == PutAck)
    ensures SameTables(s.(out := s.out[c := Out(s, c) - {r.tid}]), Respond(s, c, r))
  {
    var t := Out(s, c)[r.tid];
    var s1 := s.(out := s.out[c := Out(s, c) - {r.tid}]);
    hide ReadOk, Merge, Commit, Grant, HistoryOf, Initial;
    if c == 0 && !r.err {
      GrantTables(s1, t, r);
    } else if c == 2 && t.op == MaskWrite && !r.err {
      CommitTables(s1, t.line, Merge(Golden(s, t.line), t.mask, t.data));
    }
    hide GrantOk, SameLine, Golden;
  }

  lemma RespondLines(s: State, c: nat, r: Response)
    requires RespondOk(s, c, r) && !(c == 0 && r.op == PutAck)
    ensures forall line :: line != Out(s, c)[r.tid].line ==> SameLine(s, Respond(s, c, r), line)
    ensures c != 0 && !(c == 2 && Out(s, 2)[r.tid].op == MaskWrite) ==>
              forall line :: SameLine(s, Respond(s, c, r), line)
  {
    var t := Out(s, c)[r.tid];
    var s1 := s.(out := s.out[c := Out(s, c) - {r.tid}]);
    hide ReadOk, Merge, Commit, Grant, HistoryOf, Initial;
    if c == 0 && !r.err {
      GrantTables(s1, t, r);
    } else if c == 2 && t.op == MaskWrite && !r.err {
      CommitTables(s1, t.line, Merge(Golden(s, t.line), t.mask, t.data));
    }
    hide GrantOk, SameTables;
  }

  lemma RespondElsewhere(s: State, c: nat, r: Response, line: Line)
    requires RespondOk(s, c, r) && !LineBusy(s, line)
    ensures SameLine(s, Respond(s, c, r), line)
  {
    if !(c == 0 && r.op == PutAck) {
      RespondLines(s, c, r);
      if c == 0 { assert GetOutstanding(s, Out(s, 0)[r.tid].line); }
      if c == 2 { assert DmaOutstanding(s, Out(s, 2)[r.tid].line); }
      hide Respond, SameLine, GrantOk, ReadOk;
    }
    hide GrantOk, ReadOk, Grant, Commit, GetOutstanding, DmaOutstanding, Initial;
  }

  lemma IdleTakeUp(s: State, line: Line)
    requires Coherent(s) && TakeUpOk(s) && !LineBusy(s, line)
    ensures SameLine(s, TakeUp(s), line) && !LineBusy(TakeUp(s), line)
  {
    assert UpFits(s, s.upq[0]);
    assert s.upq[0].line != line;
    AnswerLands(s, line);
    hide HeldAfter, CopiesAfter, TakeUpOk, Coherent, SameLine, LineBusy;
    StillIdle(s, TakeUp(s), line);
  }

  lemma IdleRequest(s: State, c: nat, line: Line)
    requires TakeRequestOk(s, c) && !LineBusy(s, line) && (c == 0 ==> s.present[c].line != line)
    ensures SameLine(s, TakeRequest(s, c), line) && !LineBusy(TakeRequest(s, c), line)
  {
    hide LineBusy;
    StillIdle(s, TakeRequest(s, c), line);
  }

  // --------------------------------------------------------- nothing is lost

  /** What a run adds to the books of one client, and to those of the evictions. */
  datatype Books = Books(submitted: nat, accepted: nat, answered: nat, evicted: nat, completed: nat)

  function Bit(b: bool): nat { if b then 1 else 0 }

  function Booked(a: Action, c: nat): Books {
    match a
    case DoSubmit(d, _, _, _, _, _, _) => Books(Bit(d == c), 0, 0, 0, 0)
    case DoTakeRequest(d) => Books(0, Bit(d == c), 0, 0, 0)
    case DoRespond(d, r) =>
      var putAck := d == 0 && r.op == PutAck;
      Books(0, 0, Bit(d == c && !putAck), 0, Bit(putAck))
    case DoEvict(_, _) => Books(0, 0, 0, 1, 0)
    case _ => Books(0, 0, 0, 0, 0)
  }

  function Sum(actions: seq<Action>, c: nat): Books {
    if actions == [] then Books(0, 0, 0, 0, 0)
    else
      var a, b := Booked(actions[0], c), Sum(actions[1..], c);
      Books(a.submitted + b.submitted, a.accepted + b.accepted, a.answered + b.answered, a.evicted + b.evicted,
            a.completed + b.completed)
  }

  function Presented(s: State, c: nat): nat { Bit(c in s.present) }

  lemma EntryAdded<T>(m: map<nat, T>, k: nat, v: T)
    requires k !in m
    ensures |m[k := v]| == |m| + 1
  {
    assert m[k := v].Keys == m.Keys + {k};
    assert |m[k := v]| == |m[k := v].Keys| && |m| == |m.Keys|;
  }

  lemma EntryDropped<T>(m: map<nat, T>, k: nat)
    requires k in m
    ensures |m - {k}| == |m| - 1
  {
    assert (m - {k}).Keys == m.Keys - {k};
    assert |m - {k}| == |(m - {k}).Keys| && |m| == |m.Keys|;
  }

  lemma EntryKept<T>(m: map<nat, T>, k: nat, v: T)
    requires k in m
    ensures |m[k := v]| == |m|
  {
    assert m[k := v].Keys == m.Keys;
    assert |m[k := v]| == |m[k := v].Keys| && |m| == |m.Keys|;
  }

  /** One action moves each transaction one step on, or leaves it where it is. */
  ghost predicate Balanced(s: State, b: Books, s': State, c: nat) {
    && Presented(s', c) + b.accepted == Presented(s, c) + b.submitted
    && |Out(s', c)| + b.answered == |Out(s, c)| + b.accepted
    && |s'.puts| + b.completed == |s.puts| + b.evicted
  }

  lemma RespondBalanced(s: State, c: nat, r: Response, d: nat)
    requires RespondOk(s, c, r)
    ensures Balanced(s, Booked(DoRespond(c, r), d), Respond(s, c, r), d)
  {
    hide GrantOk, ReadOk, Merge, Golden, Commit;
    if c == 0 && r.op == PutAck {
      EntryDropped(s.puts, r.tid);
    } else {
      RespondTables(s, c, r);
      hide Respond;
      EntryDropped(Out(s, c), r.tid);
    }
  }

  lemma TakeUpBalanced(s: State, d: nat)
    requires Coherent(s) && TakeUpOk(s)
    ensures Balanced(s, Books(0, 0, 0, 0, 0), TakeUp(s), d)
  {
    var u := s.upq[0];
    assert UpFits(s, u);
    if u.op == Put { EntryKept(s.puts, u.tid, PutState(u.line, true)); }
    hide HeldAfter, CopiesAfter, Coherent;
  }

  lemma RequestBalanced(s: State, c: nat, d: nat)
    requires TakeRequestOk(s, c)
    ensures Balanced(s, Booked(DoTakeRequest(c), d), TakeRequest(s, c), d)
  {
    var t := s.present[c];
    EntryAdded(Out(s, c), t.tid, t);
  }

  lemma ActionBalanced(s: State, a: Action, c: nat)
    requires Coherent(s) && Allowed(s, a)
    ensures Balanced(s, Booked(a, c), After(s, a), c)
  {
    hide Coherent, RespondOk, Respond, TakeUp, TakeRequest, TakeRequestOk, Golden, StoreHarmless, EvictHarmless;
    hide GrantHarmless, AnswerDue, AnswerOk, Overwrite;
    match a
    case DoRespond(d, r) => RespondBalanced(s, d, r, c);
    case DoTakeUp => TakeUpBalanced(s, c);
    case DoTakeRequest(d) => RequestBalanced(s, d, c);
    case DoEvict(line, tid) =>
      EntryAdded(s.puts, tid, PutState(line, false));
    case _ =>
  }

  lemma {:induction false} RunBalanced(s: State, actions: seq<Action>, s': State, c: nat)
    requires Coherent(s) && Leads(s, actions, s')
    ensures Balanced(s, Sum(actions, c), s', c)
    decreases actions
  {
    hide Coherent, Allowed, After, Booked, Presented, Out;
    if actions != [] {
      ActionBalanced(s, actions[0], c);
      ActionKeepsCoherent(s, actions[0]);
      RunBalanced(After(s, actions[0]), actions[1..], s', c);
    }
  }

  /** Over every run, every presented request is accepted or still presented, every accepted one is answered once or
      still awaited, and every eviction is completed once or still under way. */
  lemma NothingLost(seed: nat, actions: seq<Action>, s: State, c: nat)
    requires Leads(Start(seed), actions, s)
    ensures var b := Sum(actions, c);
            && b.submitted == b.accepted + (if c in s.present then 1 else 0)
            && b.accepted == b.answered + (if c in s.out then |s.out[c]| else 0)
            && b.evicted == b.completed + |s.puts|
  {
    StartFine(seed);
    RunBalanced(Start(seed), actions, s, c);
    hide Leads, Coherent, Sum;
  }

  // ------------------------------------------------------------------- credits

  /** Requests of a client that are presented or await their answer. */
  function Pending(s: State, c: nat): nat { Presented(s, c) + |Out(s, c)| }

  /** No more than four requests of a client are pending, and no more than one of the DMA port, under identifier 0. */
  ghost predicate WithinCredit(s: State) {
    && (forall c: nat :: Pending(s, c) <= 4) && Pending(s, 2) <= 1
    && (2 in s.present ==> s.present[2].tid == 0)
    && (forall tid: nat :: tid in Out(s, 2) ==> tid == 0)
  }

  lemma DmaIdentifier(s: State, a: Action)
    requires WithinCredit(s) && Allowed(s, a)
    ensures var s' := After(s, a);
            (2 in s'.present ==> s'.present[2].tid == 0) && (forall tid: nat :: tid in Out(s', 2) ==> tid == 0)
  {
    match a
    case DoRespond(c, r) => RespondEnds(s, c, r);
    case DoTakeRequest(c) => RequestLands(s, c);
    case _ =>
      hide Pending, Presented, TakeUpOk, AnswerDue, AnswerOk, StoreHarmless, EvictHarmless, Golden, Overwrite;
  }

  /** A request is submitted only on a free port, under a free identifier and within the credit. */
  lemma CreditKept(s: State, a: Action)
    requires Coherent(s) && WithinCredit(s) && Allowed(s, a)
    ensures WithinCredit(After(s, a))
  {
    DmaIdentifier(s, a);
    forall c: nat ensures Pending(After(s, a), c) <= (if c == 2 then 1 else 4) {
      ActionBalanced(s, a, c);
      assert Pending(s, c) <= 4;
      if Booked(a, c).submitted > 0 { SubmittedWithin(s, a, c); }
    }
    hide Coherent, Allowed, After, Booked;
  }

  lemma SubmittedWithin(s: State, a: Action, c: nat)
    requires Allowed(s, a) && Booked(a, c).submitted > 0
    ensures Presented(s, c) == 0 && |Out(s, c)| < (if c == 2 then 1 else 4) && Booked(a, c).submitted == 1
  {
  }

  lemma {:induction false} CreditRun(s: State, actions: seq<Action>, s': State)
    requires Coherent(s) && WithinCredit(s) && Leads(s, actions, s')
    ensures WithinCredit(s')
    decreases actions
  {
    hide Coherent, Allowed, After, WithinCredit;
    if actions != [] {
      CreditKept(s, actions[0]);
      ActionKeepsCoherent(s, actions[0]);
      CreditRun(After(s, actions[0]), actions[1..], s');
    }
  }

  /** Over every run, the credits of the ports are kept. */
  lemma CreditsHold(seed: nat, actions: seq<Action>, s: State)
    requires Leads(Start(seed), actions, s)
    ensures WithinCredit(s)
  {
    StartFine(seed);
    assert WithinCredit(Start(seed)) by { hide Leads; }
    CreditRun(Start(seed), actions, s);
    hide Leads, Coherent, WithinCredit;
  }

  /** Whatever is within the credit, under a free identifier and on a free port, may be submitted; nothing else may. */
  lemma SubmitExact(s: State, c: nat, tid: nat)
    requires WithinCredit(s)
    ensures SubmitOk(s, c, tid) <==>
            && c !in s.present && (c in s.out ==> tid !in s.out[c])
            && Pending(s, c) < (if c == 2 then 1 else 4) && (c == 2 ==> tid == 0)
  {
    if c == 2 && |Out(s, 2)| == 0 { assert Out(s, 2) == map[]; }
  }

  /** The clock counts the cycles of a run. */
  lemma {:induction false} CyclesCounted(s: State, actions: seq<Action>, s': State)
    requires Leads(s, actions, s')
    ensures s'.cycle == s.cycle + |actions| - Others(actions)
    decreases actions
  {
    hide Allowed;
    if actions != [] {
      ClockStep(s, actions[0]);
      CyclesCounted(After(s, actions[0]), actions[1..], s');
    }
    hide After;
  }

  function Others(actions: seq<Action>): nat {
    if actions == [] then 0 else Bit(actions[0] != DoNextCycle) + Others(actions[1..])
  }

  lemma ClockStep(s: State, a: Action)
    requires Allowed(s, a)
    ensures After(s, a).cycle == s.cycle + Bit(a == DoNextCycle)
  {
    if a.DoRespond? { RespondEnds(s, a.c, a.r); }
    hide GrantOk, ReadOk, AnswerDue, StoreHarmless, EvictHarmless, Golden, Overwrite;
  }
}
