/** The home bench's permission machine: who may read or write a line, every copy of it, the golden
    memory, the queued answers towards the home, and the window of values a read may return.
    The home is unknown: each of its outputs is an action, and the bench's checks are its guards. */
module Coherence {
  import opened Wrappers

  type Data = d: seq<nat> | |d| == 64 witness seq(64, _ => 0)
  type Line = nat

  datatype Perm = Shared | Owner
  datatype Copy = S(data: Data) | E(data: Data) | M(data: Data)
  datatype ReqOp = GetS | GetM | Read | MaskWrite
  datatype UpOp = Put | InvAck | DownAck
  datatype RespOp = DataS | DataE | AckE | PutAck | ReadData | WriteAck
  datatype ProbeOp = Inv | Down

  datatype Txn = Txn(op: ReqOp, line: Line, tid: nat, start: nat, error: bool, mask: set<nat>, data: Data)
  datatype Up = Up(op: UpOp, dirty: bool, line: Line, tid: nat, data: Data)
  datatype Probe = Probe(op: ProbeOp, owner: bool, line: Line)
  datatype PutState = PutState(line: Line, accepted: bool)
  datatype Change = Change(cycle: nat, data: Data)
  datatype Response = Response(op: RespOp, tid: nat, err: bool, data: Data)

  /** A snapshot of golden memory, taken when `line` changed. */
  datatype Moment = Moment(cycle: nat, line: Line, arch: map<Line, Data>)

  datatype State = State(
    seed: nat, cycle: nat, arch: map<Line, Data>, history: map<Line, seq<Change>>,
    held: map<Line, Perm>, copies: map<Line, Copy>, puts: map<nat, PutState>,
    upq: seq<Up>, probe: Option<Probe>, present: map<nat, Txn>, out: map<nat, map<nat, Txn>>,
    moments: seq<Moment>)

  function Initial(seed: nat, line: Line): Data { seq(64, i requires 0 <= i => (line * 17 + i * 29 + seed) % 256) }

  function GoldenIn(seed: nat, arch: map<Line, Data>, line: Line): Data {
    if line in arch then arch[line] else Initial(seed, line)
  }

  function Golden(s: State, line: Line): Data { GoldenIn(s.seed, s.arch, line) }

  function Out(s: State, c: nat): map<nat, Txn> { if c in s.out then s.out[c] else map[] }

  predicate GetOutstanding(s: State, line: Line) {
    exists tid :: tid in Out(s, 0) && Out(s, 0)[tid].line == line
  }

  predicate PutOutstanding(s: State, line: Line) {
    exists tid :: tid in s.puts && s.puts[tid].line == line
  }

  predicate DmaOutstanding(s: State, line: Line) {
    (2 in s.present && s.present[2].line == line) || exists tid :: tid in Out(s, 2) && Out(s, 2)[tid].line == line
  }

  predicate LineBusy(s: State, line: Line) {
    || (s.probe.Some? && s.probe.value.line == line)
    || GetOutstanding(s, line) || PutOutstanding(s, line) || DmaOutstanding(s, line)
  }

  /** A new golden value for a line, recorded in the history of that line. */
  function Commit(s: State, line: Line, data: Data): State {
    s.(arch := s.arch[line := data],
       history := s.history[line := HistoryOf(s.history, line) + [Change(s.cycle, data)]],
       moments := s.moments + [Moment(s.cycle, line, s.arch[line := data])])
  }

  function HistoryOf(history: map<Line, seq<Change>>, line: Line): seq<Change> {
    if line in history then history[line] else []
  }

  // -------------------------------------------------------- driver actions

  function Overwrite(data: Data, offset: nat, bytes: seq<nat>): Data
    requires offset + |bytes| <= 64
  {
    data[..offset] + bytes + data[offset + |bytes|..]
  }

  predicate StoreOk(s: State, line: Line, offset: nat, bytes: seq<nat>) {
    offset + |bytes| <= 64 && line in s.copies && !s.copies[line].S? && s.copies[line].data == Golden(s, line)
  }

  function Store(s: State, line: Line, offset: nat, bytes: seq<nat>): State
    requires StoreOk(s, line, offset, bytes)
  {
    var data := Overwrite(s.copies[line].data, offset, bytes);
    Commit(s.(copies := s.copies[line := M(data)]), line, data)
  }

  predicate EvictOk(s: State, line: Line, tid: nat) { line in s.copies && tid !in s.puts }

  function Evict(s: State, line: Line, tid: nat): State
    requires EvictOk(s, line, tid)
  {
    s.(puts := s.puts[tid := PutState(line, false)],
       upq := s.upq + [Up(Put, s.copies[line].M?, line, tid, s.copies[line].data)])
  }

  predicate SubmitOk(s: State, c: nat, tid: nat) {
    c !in s.present && tid !in Out(s, c) && |Out(s, c)| < 4 && (c == 2 ==> Out(s, 2) == map[] && tid == 0)
  }

  function Submit(s: State, c: nat, op: ReqOp, line: Line, tid: nat, error: bool, mask: set<nat>, data: Data): State {
    s.(present := s.present[c := Txn(op, line, tid, s.cycle, error, mask, data)])
  }

  // ------------------------------------------------- the parts of one cycle

  function NoData(): Data { seq(64, _ => 0) }

  /** The pending probe is answered once the line has no grant or Put in flight. */
  predicate AnswerDue(s: State) {
    s.probe.Some? && s.upq == [] && !GetOutstanding(s, s.probe.value.line) && !PutOutstanding(s, s.probe.value.line)
  }

  predicate AnswerOk(s: State)
    requires s.probe.Some?
  {
    var line := s.probe.value.line;
    line in s.copies ==> (s.copies[line].S? <==> !s.probe.value.owner)
  }

  function Answer(s: State): State
    requires s.probe.Some?
  {
    var line := s.probe.value.line;
    s.(upq := s.upq + [Up(if s.probe.value.op == Inv then InvAck else DownAck,
                          line in s.copies && s.copies[line].M?, line, 0,
                          if line in s.copies then s.copies[line].data else NoData())])
  }

  predicate GrantOk(s: State, t: Txn, r: Response) {
    && (r.op == DataS || r.op == DataE || r.op == AckE) && (t.op == GetM ==> r.op != DataS)
    && (!r.err ==>
          if r.op == AckE then
            t.op == GetM && t.line in s.held && s.held[t.line] == Shared
            && t.line in s.copies && s.copies[t.line].data == Golden(s, t.line)
          else t.line !in s.held && r.data == Golden(s, t.line))
  }

  predicate ReadOk(s: State, t: Txn, r: Response) {
    r.op == ReadData
    && (!r.err ==> InWindow(s, t.line, t.start, r.data) && !(t.line in s.held && s.held[t.line] == Owner))
  }

  predicate RespondOk(s: State, c: nat, r: Response) {
    if c == 0 && r.op == PutAck then r.tid in s.puts && s.puts[r.tid].accepted
    else
      && r.tid in Out(s, c)
      && var t := Out(s, c)[r.tid];
      && r.err == t.error
      && (if c == 0 then GrantOk(s, t, r)
          else if c == 2 && t.op == MaskWrite then r.op == WriteAck && (!r.err ==> t.line !in s.held)
          else ReadOk(s, t, r))
  }

  function Merge(old_: Data, mask: set<nat>, data: Data): Data {
    seq(64, i requires 0 <= i < 64 => if i in mask then data[i] else old_[i])
  }

  function Grant(s: State, t: Txn, r: Response): State
    requires GrantOk(s, t, r) && !r.err
  {
    var data := if r.op == AckE then s.copies[t.line].data else r.data;
    if r.op == DataS then s.(held := s.held[t.line := Shared], copies := s.copies[t.line := S(data)])
    else s.(held := s.held[t.line := Owner], copies := s.copies[t.line := E(data)])
  }

  function Respond(s: State, c: nat, r: Response): State
    requires RespondOk(s, c, r)
  {
    if c == 0 && r.op == PutAck then s.(puts := s.puts - {r.tid})
    else
      var t := Out(s, c)[r.tid];
      var s' := s.(out := s.out[c := Out(s, c) - {r.tid}]);
      if r.err then s'
      else if c == 0 then Grant(s', t, r)
      else if c == 2 && t.op == MaskWrite then Commit(s', t.line, Merge(Golden(s, t.line), t.mask, t.data))
      else s'
  }

  /** The checks on an answer the home takes; the last ones concern the bench's own bookkeeping. */
  predicate TakeUpOk(s: State) {
    && s.upq != []
    && var u := s.upq[0];
    && (u.dirty ==> u.line in s.held && s.held[u.line] == Owner)
    && (if u.op == Put then u.line in s.held
        else s.probe.Some? && s.probe.value.line == u.line && (u.op == InvAck <==> s.probe.value.op == Inv))
  }

  function HeldAfter(held: map<Line, Perm>, u: Up): map<Line, Perm> {
    if u.op != DownAck then held - {u.line} else if u.line in held then held[u.line := Shared] else held
  }

  function CopiesAfter(copies: map<Line, Copy>, held: map<Line, Perm>, u: Up): map<Line, Copy> {
    if u.op != DownAck then copies - {u.line} else if u.line in held then copies[u.line := S(u.data)] else copies
  }

  function PutsAfter(puts: map<nat, PutState>, u: Up): map<nat, PutState> {
    if u.op == Put then puts[u.tid := PutState(u.line, true)] else puts
  }

  /** An eviction or an invalidation gives the line up, a downgrade keeps it shared. */
  function TakeUp(s: State): State
    requires TakeUpOk(s)
  {
    var u := s.upq[0];
    s.(upq := s.upq[1..], held := HeldAfter(s.held, u), copies := CopiesAfter(s.copies, s.held, u),
       puts := PutsAfter(s.puts, u), probe := if u.op == Put then s.probe else None)
  }

  predicate WriteOutstanding(s: State, line: Line) {
    exists tid :: tid in Out(s, 2) && Out(s, 2)[tid].op == MaskWrite && Out(s, 2)[tid].line == line
  }

  predicate TakeProbeOk(s: State, p: Probe, dmaWrite: bool) {
    && s.probe.None? && (p.op == Inv || p.owner)
    && (dmaWrite <==> p.op == Inv && WriteOutstanding(s, p.line))
  }

  function TakeProbe(s: State, p: Probe): State { s.(probe := Some(p)) }

  predicate TakeRequestOk(s: State, c: nat) {
    && c in s.present && s.present[c].tid !in Out(s, c)
    && (c == 0 ==>
          && (if s.present[c].op == GetS then s.present[c].line !in s.held
              else s.present[c].line in s.held ==> s.held[s.present[c].line] != Owner)
          && !PutOutstanding(s, s.present[c].line))
  }

  function TakeRequest(s: State, c: nat): State
    requires TakeRequestOk(s, c)
  {
    var t := s.present[c];
    s.(out := s.out[c := Out(s, c)[t.tid := t]], present := s.present - {c})
  }

  function NextCycle(s: State): State { s.(cycle := s.cycle + 1) }

  // ------------------------------------------------------- the read window

  /** The value at the end of the start cycle: the last change up to it, or the initial contents. */
  function Prior(h: seq<Change>, start: nat, initial: Data): Data {
    if h == [] then initial
    else if h[|h| - 1].cycle <= start then h[|h| - 1].data
    else Prior(h[..|h| - 1], start, initial)
  }

  /** The values the bench accepts for a read that started in cycle `start`. */
  predicate InWindow(s: State, line: Line, start: nat, x: Data) {
    var h := HistoryOf(s.history, line);
    || x == Prior(h, start, Initial(s.seed, line))
    || exists i :: 0 <= i < |h| && start < h[i].cycle <= s.cycle && h[i].data == x
  }

  // ------------------------------------------------------------ the invariant

  /** A queued answer: what it tells the home is what the bench holds. */
  ghost predicate UpFits(s: State, u: Up) {
    if u.op == Put then
      && u.tid in s.puts && s.puts[u.tid] == PutState(u.line, false)
      && u.line in s.copies && u.data == Golden(s, u.line) && (u.dirty <==> s.copies[u.line].M?)
    else
      && s.probe.Some? && s.probe.value.line == u.line && (u.op == InvAck <==> s.probe.value.op == Inv)
      && (if u.line in s.copies then u.data == Golden(s, u.line) && (u.dirty <==> s.copies[u.line].M?) else !u.dirty)
  }

  ghost predicate CopyFits(s: State, line: Line) {
    line in s.copies ==>
      line in s.held && (s.held[line] == Shared <==> s.copies[line].S?) && s.copies[line].data == Golden(s, line)
  }

  /** Two answers about one line can both be taken: a downgrade, and then an eviction of a clean copy. */
  predicate Compatible(first: Up, second: Up) {
    first.line == second.line ==> first.op == DownAck && second.op == Put && !second.dirty
  }

  /** Permissions and copies correspond, every copy and every queued answer carries golden data, and queued
      answers about one line can be taken one after the other. */
  ghost predicate Coherent(s: State) {
    && s.held.Keys == s.copies.Keys
    && (forall line :: line in s.copies ==> CopyFits(s, line))
    && (forall i :: 0 <= i < |s.upq| ==> UpFits(s, s.upq[i]))
    && (forall i, j :: 0 <= i < j < |s.upq| ==> Compatible(s.upq[i], s.upq[j]))
  }

  ghost predicate AnswerQueued(s: State, line: Line) {
    exists i :: 0 <= i < |s.upq| && s.upq[i].op != Put && s.upq[i].line == line
  }

  // ------------------------------------------------------ what the bench promises

  /** Permissions and copies correspond, and every copy, and every queued answer about a held line, carries
      golden data. */
  ghost predicate Matched(s: State) {
    && s.held.Keys == s.copies.Keys
    && (forall line :: line in s.copies ==> CopyFits(s, line))
    && (forall i :: 0 <= i < |s.upq| && s.upq[i].line in s.copies ==> s.upq[i].data == Golden(s, s.upq[i].line))
  }

  /** However many of the queued answers the home takes, in order, each passes the bench's checks and leaves a
      matched state. */
  ghost predicate Drains(s: State)
    decreases |s.upq|
  {
    Matched(s) && (s.upq != [] ==> TakeUpOk(s) && Drains(TakeUp(s)))
  }

  /** The bench's own checks on an answer the home takes can never fail. */
  lemma OwnChecksHold(s: State)
    requires Coherent(s) && s.upq != []
    ensures TakeUpOk(s)
  {
    assert UpFits(s, s.upq[0]);
    assert s.upq[0].line in s.copies ==> CopyFits(s, s.upq[0].line);
  }

  lemma CoherentMatched(s: State)
    requires Coherent(s)
    ensures Matched(s)
  {
    forall i | 0 <= i < |s.upq| && s.upq[i].line in s.copies ensures s.upq[i].data == Golden(s, s.upq[i].line) {
      assert UpFits(s, s.upq[i]);
    }
  }

  /** In a coherent state the whole queue can be taken. */
  lemma {:induction false} CoherentDrains(s: State)
    requires Coherent(s)
    ensures Drains(s)
    decreases |s.upq|
  {
    hide Coherent, Matched, TakeUpOk, TakeUp;
    CoherentMatched(s);
    if s.upq != [] {
      OwnChecksHold(s);
      TakeUpKeeps(s);
      TakeUpParts(s);
      CoherentDrains(TakeUp(s));
    }
  }

  lemma TakeUpParts(s: State)
    requires TakeUpOk(s)
    ensures var s', u := TakeUp(s), s.upq[0];
            && s'.upq == s.upq[1..] && s'.held == HeldAfter(s.held, u) && s'.copies == CopiesAfter(s.copies, s.held, u)
            && s'.seed == s.seed && s'.arch == s.arch && s'.probe == if u.op == Put then s.probe else None
  {
    hide HeldAfter, CopiesAfter, PutsAfter;
  }

  /** Answers about other lines survive a change of one line's copy and golden value. */
  lemma UpKept(s: State, s': State, u: Up)
    requires UpFits(s, u) && s'.puts == s.puts && s'.probe == s.probe
    requires u.line in s'.copies <==> u.line in s.copies
    requires u.line in s.copies ==> s'.copies[u.line] == s.copies[u.line] && Golden(s', u.line) == Golden(s, u.line)
    ensures UpFits(s', u)
  {
  }

  /** No queued answer about the line would be stale after this store. */
  predicate StoreHarmless(s: State, line: Line, offset: nat, bytes: seq<nat>)
    requires StoreOk(s, line, offset, bytes)
  {
    forall i :: 0 <= i < |s.upq| && s.upq[i].line == line ==>
      s.upq[i].dirty && s.upq[i].data == Overwrite(s.copies[line].data, offset, bytes)
  }

  /** A store keeps coherence exactly when no queued answer about its line is left stale. */
  lemma StoreExact(s: State, line: Line, offset: nat, bytes: seq<nat>)
    requires Coherent(s) && StoreOk(s, line, offset, bytes)
    ensures Coherent(Store(s, line, offset, bytes)) <==> StoreHarmless(s, line, offset, bytes)
  {
    var s' := Store(s, line, offset, bytes);
    assert s'.upq == s.upq && s'.copies == s.copies[line := M(Golden(s', line))];
    if StoreHarmless(s, line, offset, bytes) {
      forall i | 0 <= i < |s'.upq| ensures UpFits(s', s'.upq[i]) { StoreUp(s, line, offset, bytes, s.upq[i]); }
      forall l | l in s'.copies ensures CopyFits(s', l) { assert l in s.copies && CopyFits(s, l) && CopyFits(s, line); }
    } else {
      var i :| 0 <= i < |s.upq| && s.upq[i].line == line
               && !(s.upq[i].dirty && s.upq[i].data == Overwrite(s.copies[line].data, offset, bytes));
      assert !UpFits(s', s'.upq[i]);
    }
    hide StoreOk, UpFits, StoreHarmless, Store, Compatible;
  }

  /** No queued answer about the line carries other data than this store leaves. */
  predicate StoreSeen(s: State, line: Line, offset: nat, bytes: seq<nat>)
    requires StoreOk(s, line, offset, bytes)
  {
    forall i :: 0 <= i < |s.upq| && s.upq[i].line == line ==>
      s.upq[i].data == Overwrite(s.copies[line].data, offset, bytes)
  }

  /** A store leaves a queue that can be taken exactly when no queued answer about its line carries other
      data. */
  lemma StoreDrains(s: State, line: Line, offset: nat, bytes: seq<nat>)
    requires Coherent(s) && StoreOk(s, line, offset, bytes)
    ensures Drains(Store(s, line, offset, bytes)) <==> StoreSeen(s, line, offset, bytes)
  {
    var s' := Store(s, line, offset, bytes);
    StoreEffect(s, line, offset, bytes);
    if StoreHarmless(s, line, offset, bytes) {
      StoreExact(s, line, offset, bytes);
      CoherentDrains(s');
    } else if StoreSeen(s, line, offset, bytes) {
      var i :| 0 <= i < |s.upq| && s.upq[i].line == line && !s.upq[i].dirty;
      assert UpFits(s, s.upq[i]);
      CoherentDrains(s);
      AlikeDrain(s, s');
    } else {
      var i :| 0 <= i < |s.upq| && s.upq[i].line == line
          && s.upq[i].data != Overwrite(s.copies[line].data, offset, bytes);
      assert s'.upq[i] == s.upq[i];
      assert !Matched(s');
    }
    hide Store, StoreOk, Coherent, CopyFits, TakeUpOk, TakeUp, Golden, Overwrite;
  }

  lemma StoreEffect(s: State, line: Line, offset: nat, bytes: seq<nat>)
    requires StoreOk(s, line, offset, bytes)
    ensures var s' := Store(s, line, offset, bytes);
            var data := Overwrite(s.copies[line].data, offset, bytes);
            && line in s'.copies && s'.upq == s.upq && Golden(s', line) == data
            && s.copies[line].data == Golden(s, line)
            && (data == Golden(s, line) ==> Alike(s, s'))
  {
    hide Overwrite, Initial;
  }

  /** States that differ at most in which of the exclusive copies count as modified. */
  ghost predicate Alike(s: State, t: State) {
    && s.held == t.held && s.upq == t.upq && s.probe == t.probe && s.copies.Keys == t.copies.Keys
    && (forall l :: l in s.copies ==> s.copies[l].data == t.copies[l].data && (s.copies[l].S? <==> t.copies[l].S?))
    && (forall l :: Golden(s, l) == Golden(t, l))
  }

  lemma {:induction false} AlikeDrain(s: State, t: State)
    requires Alike(s, t) && Drains(s)
    ensures Drains(t)
    decreases |s.upq|
  {
    AlikeMatched(s, t);
    hide Alike, Matched, TakeUp, TakeUpOk;
    if s.upq != [] {
      TakeUpParts(s);
      AlikeTaken(s, t);
      AlikeDrain(TakeUp(s), TakeUp(t));
    }
    AlikeQueue(s, t);
  }

  lemma AlikeQueue(s: State, t: State) requires Alike(s, t) ensures s.upq == t.upq {}

  lemma AlikeMatched(s: State, t: State)
    requires Alike(s, t) && Matched(s)
    ensures Matched(t)
  {
    forall l | l in t.copies ensures CopyFits(t, l) { assert l in s.copies && CopyFits(s, l); }
    hide Golden;
  }

  lemma AlikeTaken(s: State, t: State)
    requires Alike(s, t) && TakeUpOk(s)
    ensures TakeUpOk(t) && Alike(TakeUp(s), TakeUp(t))
  {
    AlikeAllowed(s, t);
    TakeUpParts(s);
    TakeUpParts(t);
    CopiesAlike(s, t, s.upq[0]);
    hide HeldAfter, CopiesAfter, TakeUp, TakeUpOk;
    assert forall l :: Golden(TakeUp(s), l) == Golden(s, l) && Golden(TakeUp(t), l) == Golden(t, l);
    hide Golden;
  }

  lemma AlikeAllowed(s: State, t: State)
    requires Alike(s, t) && TakeUpOk(s)
    ensures TakeUpOk(t)
  {
    hide Golden;
  }

  lemma CopiesAlike(s: State, t: State, u: Up)
    requires Alike(s, t)
    ensures var a, b := CopiesAfter(s.copies, s.held, u), CopiesAfter(t.copies, t.held, u);
            a.Keys == b.Keys && forall l :: l in a ==> a[l].data == b[l].data && (a[l].S? <==> b[l].S?)
  {
    hide Golden;
  }

  lemma StoreUp(s: State, line: Line, offset: nat, bytes: seq<nat>, u: Up)
    requires StoreOk(s, line, offset, bytes) && UpFits(s, u)
    requires u.line == line ==> u.dirty && u.data == Overwrite(s.copies[line].data, offset, bytes)
    ensures UpFits(Store(s, line, offset, bytes), u)
  {
  }

  /** A driver that waits for the line to be idle never stores into a line with a queued answer. */
  lemma IdleLineUnanswered(s: State, line: Line)
    requires Coherent(s) && !LineBusy(s, line)
    ensures forall i :: 0 <= i < |s.upq| ==> s.upq[i].line != line
  {
    forall i | 0 <= i < |s.upq| ensures s.upq[i].line != line { assert UpFits(s, s.upq[i]); }
  }

  lemma StoreKeeps(s: State, line: Line, offset: nat, bytes: seq<nat>)
    requires Coherent(s) && StoreOk(s, line, offset, bytes) && !LineBusy(s, line)
    ensures Coherent(Store(s, line, offset, bytes))
  {
    hide Coherent, LineBusy, Store;
    IdleLineUnanswered(s, line);
    StoreExact(s, line, offset, bytes);
  }

  /** No eviction or invalidation of the line is queued, and no downgrade of it while its copy is modified. */
  predicate EvictHarmless(s: State, line: Line)
    requires line in s.copies
  {
    forall i :: 0 <= i < |s.upq| && s.upq[i].line == line ==> s.upq[i].op == DownAck && !s.copies[line].M?
  }

  lemma EvictKeeps(s: State, line: Line, tid: nat)
    requires Coherent(s) && EvictOk(s, line, tid) && EvictHarmless(s, line)
    ensures Coherent(Evict(s, line, tid))
  {
    var s' := Evict(s, line, tid);
    forall i | 0 <= i < |s.upq| ensures UpFits(s', s.upq[i]) { assert UpFits(s, s.upq[i]); }
    assert CopyFits(s, line);
    forall l | l in s'.copies ensures CopyFits(s', l) { assert CopyFits(s, l); }
  }

  /** A line that is no longer held, or no longer owned, stays so while answers are taken. */
  predicate Lost(s: State, u: Up) { u.line !in s.held || (u.dirty && s.held[u.line] != Owner) }

  /** So an eviction queued for such a line fails a check when its turn comes. */
  lemma {:induction false} LostFails(s: State, n: nat)
    requires n < |s.upq| && s.upq[n].op == Put && Lost(s, s.upq[n])
    ensures !Drains(s)
    decreases n
  {
    if n > 0 && TakeUpOk(s) {
      LostStays(s, s.upq[n]);
      LostFails(TakeUp(s), n - 1);
    }
    hide Matched;
  }

  lemma LostStays(s: State, u: Up)
    requires TakeUpOk(s) && Lost(s, u)
    ensures Lost(TakeUp(s), u) && TakeUp(s).upq == s.upq[1..]
  {
    hide CopiesAfter, PutsAfter;
  }

  /** An eviction behind another answer about its line that is not compatible with it fails a check. */
  lemma {:induction false} IncompatibleFails(s: State, i: nat, n: nat)
    requires i < n < |s.upq| && s.upq[n].op == Put && !Compatible(s.upq[i], s.upq[n])
    ensures !Drains(s)
    decreases i
  {
    if TakeUpOk(s) {
      TakeUpParts(s);
      if i == 0 {
        HeadLoses(s, s.upq[n]);
        LostFails(TakeUp(s), n - 1);
      } else {
        IncompatibleFails(TakeUp(s), i - 1, n - 1);
      }
    }
    hide Matched, TakeUp;
  }

  lemma HeadLoses(s: State, u: Up)
    requires TakeUpOk(s) && u.op == Put && !Compatible(s.upq[0], u)
    ensures Lost(TakeUp(s), u)
  {
  }

  /** An eviction leaves a queue that can be taken exactly when no eviction or invalidation of its line, and
      no downgrade of a modified copy of it, is queued. */
  lemma EvictExact(s: State, line: Line, tid: nat)
    requires Coherent(s) && EvictOk(s, line, tid)
    ensures Drains(Evict(s, line, tid)) <==> EvictHarmless(s, line)
  {
    var s' := Evict(s, line, tid);
    var n := |s.upq|;
    if EvictHarmless(s, line) {
      EvictKeeps(s, line, tid);
      CoherentDrains(s');
    } else {
      var i :| 0 <= i < n && s.upq[i].line == line && !(s.upq[i].op == DownAck && !s.copies[line].M?);
      assert s'.upq[i] == s.upq[i] && s'.upq[n].line == line;
      IncompatibleFails(s', i, n);
    }
    hide Coherent, Drains, EvictHarmless;
  }

  /** A driver that waits until the line is idle evicts harmlessly. */
  lemma IdleEvictHarmless(s: State, line: Line)
    requires Coherent(s) && line in s.copies && !LineBusy(s, line)
    ensures EvictHarmless(s, line)
  {
    IdleLineUnanswered(s, line);
    hide Coherent, LineBusy;
  }

  /** The answer to a probe keeps coherence. */
  lemma AnswerKeeps(s: State)
    requires Coherent(s) && AnswerDue(s) && AnswerOk(s)
    ensures Coherent(Answer(s))
  {
    var s' := Answer(s);
    var line := s.probe.value.line;
    if line in s.copies { assert CopyFits(s, line); }
    forall l | l in s'.copies ensures CopyFits(s', l) { assert CopyFits(s, l); }
  }

  lemma PutAckKeeps(s: State, r: Response)
    requires Coherent(s) && RespondOk(s, 0, r) && r.op == PutAck
    ensures Coherent(Respond(s, 0, r))
  {
    var s' := Respond(s, 0, r);
    forall i | 0 <= i < |s'.upq| ensures UpFits(s', s'.upq[i]) { assert UpFits(s, s.upq[i]); }
    forall l | l in s'.copies ensures CopyFits(s', l) { assert CopyFits(s, l); }
  }

  /** No answer to a probe of the line waits that was made when the line was not held. */
  predicate GrantHarmless(s: State, line: Line) {
    forall i :: 0 <= i < |s.upq| && s.upq[i].op != Put && s.upq[i].line == line ==> s.upq[i].data == Golden(s, line)
  }

  /** A grant keeps coherence, and a queue that can be taken, exactly when no queued answer about its line
      carries other data. */
  lemma GrantExact(s: State, r: Response)
    requires Coherent(s) && RespondOk(s, 0, r) && r.op != PutAck && !r.err
    ensures Coherent(Respond(s, 0, r)) <==> GrantHarmless(s, Out(s, 0)[r.tid].line)
    ensures Drains(Respond(s, 0, r)) <==> GrantHarmless(s, Out(s, 0)[r.tid].line)
  {
    GrantCoherent(s, r);
    var s' := Respond(s, 0, r);
    var line := Out(s, 0)[r.tid].line;
    if GrantHarmless(s, line) {
      CoherentDrains(s');
    } else {
      GrantFills(s, r);
      var i :| 0 <= i < |s.upq| && s.upq[i].op != Put && s.upq[i].line == line && s.upq[i].data != Golden(s, line);
      assert s'.upq[i] == s.upq[i];
      assert !Matched(s');
    }
    hide Respond, RespondOk, Coherent, CopyFits, TakeUpOk, TakeUp, Golden;
  }

  lemma GrantFills(s: State, r: Response)
    requires RespondOk(s, 0, r) && r.op != PutAck && !r.err
    ensures var s' := Respond(s, 0, r);
            var line := Out(s, 0)[r.tid].line;
            line in s'.copies && s'.upq == s.upq && Golden(s', line) == Golden(s, line)
  {
  }

  lemma GrantCoherent(s: State, r: Response)
    requires Coherent(s) && RespondOk(s, 0, r) && r.op != PutAck && !r.err
    ensures Coherent(Respond(s, 0, r)) <==> GrantHarmless(s, Out(s, 0)[r.tid].line)
  {
    var s' := Respond(s, 0, r);
    var line := Out(s, 0)[r.tid].line;
    forall i | 0 <= i < |s.upq|
      ensures UpFits(s', s.upq[i]) <==>
              (s.upq[i].op != Put && s.upq[i].line == line ==> s.upq[i].data == Golden(s, line))
    {
      assert UpFits(s, s.upq[i]);
      GrantUp(s, r, s.upq[i]);
    }
    forall l | l in s'.copies ensures CopyFits(s', l) { if l != line { assert CopyFits(s, l); } }
    hide RespondOk, UpFits, Compatible;
  }

  lemma GrantUp(s: State, r: Response, u: Up)
    requires RespondOk(s, 0, r) && r.op != PutAck && !r.err && UpFits(s, u) && s.held.Keys == s.copies.Keys
    requires Out(s, 0)[r.tid].line in s.copies ==> CopyFits(s, Out(s, 0)[r.tid].line)
    ensures UpFits(Respond(s, 0, r), u)
            <==> (u.op != Put && u.line == Out(s, 0)[r.tid].line ==> u.data == Golden(s, u.line))
  {
    var s' := Respond(s, 0, r);
    var line := Out(s, 0)[r.tid].line;
    assert line in s'.copies && !s'.copies[line].M? && Golden(s', u.line) == Golden(s, u.line);
    assert line in s.copies ==> s.copies[line].S? by { assert line in s.copies ==> line in s.held && r.op == AckE; }
    hide RespondOk, Golden;
  }

  /** An upgrade is always harmless; other grants are when no answer about the line is waiting. */
  lemma GrantKeeps(s: State, r: Response)
    requires Coherent(s) && RespondOk(s, 0, r) && r.op != PutAck && !r.err
    requires r.op == AckE || !AnswerQueued(s, Out(s, 0)[r.tid].line)
    ensures Coherent(Respond(s, 0, r))
  {
    var line := Out(s, 0)[r.tid].line;
    forall i | 0 <= i < |s.upq| && s.upq[i].op != Put && s.upq[i].line == line
      ensures s.upq[i].data == Golden(s, line)
    {
      assert UpFits(s, s.upq[i]);
    }
    GrantExact(s, r);
    hide Coherent, Respond;
  }

  /** A response without a grant or a golden write: an error, or a completed read. */
  lemma PlainResponseKeeps(s: State, c: nat, r: Response)
    requires Coherent(s) && RespondOk(s, c, r) && !(c == 0 && r.op == PutAck)
    requires r.err || (c != 0 && !(c == 2 && Out(s, c)[r.tid].op == MaskWrite))
    ensures Coherent(Respond(s, c, r))
  {
    var s' := Respond(s, c, r);
    assert s' == s.(out := s'.out);
    forall i | 0 <= i < |s'.upq| ensures UpFits(s', s'.upq[i]) {
      assert UpFits(s, s.upq[i]);
      UpKept(s, s', s.upq[i]);
    }
    forall l | l in s'.copies ensures CopyFits(s', l) { assert CopyFits(s, l); }
  }

  /** An accepted DMA write keeps coherence: nobody holds the line. */
  lemma DmaWriteKeeps(s: State, r: Response)
    requires Coherent(s) && RespondOk(s, 2, r) && Out(s, 2)[r.tid].op == MaskWrite && !r.err
    ensures Coherent(Respond(s, 2, r))
  {
    var s' := Respond(s, 2, r);
    var line := Out(s, 2)[r.tid].line;
    assert line !in s.copies && s'.copies == s.copies && s'.upq == s.upq;
    forall l | l != line ensures Golden(s', l) == Golden(s, l) {
    }
    hide RespondOk, Respond, Merge, Golden;
    forall i | 0 <= i < |s'.upq| ensures UpFits(s', s'.upq[i]) {
      assert UpFits(s, s.upq[i]);
      UpKept(s, s', s.upq[i]);
    }
    forall l | l in s'.copies ensures CopyFits(s', l) { assert CopyFits(s, l); }
  }

  /** What the home taking the answer u0 changes: one line's copy, u0's Put entry, u0's probe. */
  ghost predicate Taken(s: State, s': State, u0: Up) {
    && s'.arch == s.arch && s'.seed == s.seed && s'.out == s.out
    && s'.held.Keys == s'.copies.Keys
    && (forall l :: l != u0.line ==> (l in s'.copies <==> l in s.copies))
    && (forall l :: l != u0.line && l in s.copies ==>
          s'.copies[l] == s.copies[l] && l in s.held && l in s'.held && s'.held[l] == s.held[l])
    && (u0.line in s'.copies ==> CopyFits(s', u0.line))
    && (u0.op == DownAck && u0.line in s.copies ==> u0.line in s'.copies && s'.copies[u0.line].S?)
    && (if u0.op == Put then
          s'.probe == s.probe && u0.tid in s.puts && s'.puts == s.puts[u0.tid := PutState(s.puts[u0.tid].line, true)]
        else s'.puts == s.puts && s'.probe == None)
  }

  lemma PutTaken(s: State)
    requires Coherent(s) && TakeUpOk(s) && s.upq[0].op == Put
    ensures Taken(s, TakeUp(s), s.upq[0])
  {
    assert UpFits(s, s.upq[0]);
    assert forall l :: l in s.copies ==> l in s.held by { assert s.held.Keys == s.copies.Keys; }
    hide Coherent, UpFits, CopyFits, Golden;
  }

  lemma InvTaken(s: State)
    requires Coherent(s) && TakeUpOk(s) && s.upq[0].op == InvAck
    ensures Taken(s, TakeUp(s), s.upq[0])
  {
    assert UpFits(s, s.upq[0]);
    assert forall l :: l in s.copies <==> l in s.held by { assert s.held.Keys == s.copies.Keys; }
    hide Coherent, UpFits, CopyFits, Golden;
  }

  lemma DownTaken(s: State)
    requires Coherent(s) && TakeUpOk(s) && s.upq[0].op == DownAck
    ensures Taken(s, TakeUp(s), s.upq[0])
  {
    var u := s.upq[0];
    assert UpFits(s, u);
    assert forall l :: l in s.copies <==> l in s.held by { assert s.held.Keys == s.copies.Keys; }
    assert u.line in s.held ==> u.data == Golden(s, u.line);
    assert CopyFits(TakeUp(s), u.line) by { assert Golden(TakeUp(s), u.line) == Golden(s, u.line); }
    hide Coherent, UpFits, CopyFits, Golden;
  }

  lemma TakenEffect(s: State)
    requires Coherent(s) && TakeUpOk(s)
    ensures Taken(s, TakeUp(s), s.upq[0]) && TakeUp(s).upq == s.upq[1..]
  {
    if s.upq[0].op == Put { PutTaken(s); } else if s.upq[0].op == InvAck { InvTaken(s); } else { DownTaken(s); }
    hide Taken, Coherent;
  }

  /** An answer behind the one that is taken still fits. */
  lemma UpTaken(s: State, s': State, u0: Up, u: Up)
    requires UpFits(s, u) && UpFits(s, u0) && Taken(s, s', u0) && Compatible(u0, u)
    ensures UpFits(s', u)
  {
    assert Golden(s', u.line) == Golden(s, u.line);
    hide Golden;
  }

  /** The home taking the oldest answer keeps coherence: an eviction, an invalidation or a downgrade. */
  lemma TakeUpKeeps(s: State)
    requires Coherent(s) && TakeUpOk(s)
    ensures Coherent(TakeUp(s))
  {
    hide TakeUp;
    var s' := TakeUp(s);
    var u0 := s.upq[0];
    TakenEffect(s);
    hide TakeUpOk;
    assert UpFits(s, u0);
    forall i | 0 <= i < |s'.upq| ensures UpFits(s', s'.upq[i]) {
      assert s'.upq[i] == s.upq[i + 1] && UpFits(s, s.upq[i + 1]);
      UpTaken(s, s', u0, s.upq[i + 1]);
    }
    forall l | l in s'.copies ensures CopyFits(s', l) { if l != u0.line { assert CopyFits(s, l); } }
    hide UpFits, CopyFits, Compatible;
  }

  lemma TakeProbeKeeps(s: State, p: Probe, dmaWrite: bool)
    requires Coherent(s) && TakeProbeOk(s, p, dmaWrite)
    ensures Coherent(TakeProbe(s, p))
  {
    var s' := TakeProbe(s, p);
    forall i | 0 <= i < |s'.upq| ensures UpFits(s', s'.upq[i]) { assert UpFits(s, s.upq[i]); }
    forall l | l in s'.copies ensures CopyFits(s', l) { assert CopyFits(s, l); }
  }

  lemma TakeRequestKeeps(s: State, c: nat)
    requires Coherent(s) && TakeRequestOk(s, c)
    ensures Coherent(TakeRequest(s, c))
  {
    var s' := TakeRequest(s, c);
    forall i | 0 <= i < |s'.upq| ensures UpFits(s', s'.upq[i]) {
      assert UpFits(s, s.upq[i]);
      UpKept(s, s', s.upq[i]);
    }
    forall l | l in s'.copies ensures CopyFits(s', l) { assert CopyFits(s, l); }
  }

  /** Presenting a request and passing to the next cycle touch nothing the invariant speaks of. */
  lemma QuietKeeps(s: State, s': State)
    requires Coherent(s) && s' == s.(present := s'.present, cycle := s'.cycle)
    ensures Coherent(s')
  {
    forall i | 0 <= i < |s'.upq| ensures UpFits(s', s'.upq[i]) {
      assert UpFits(s, s.upq[i]);
      UpKept(s, s', s.upq[i]);
    }
    forall l | l in s'.copies ensures CopyFits(s', l) { assert CopyFits(s, l); }
  }

  // ------------------------------------------------------- byte by byte

  /** A store changes exactly the bytes it names, in its copy and in golden memory alike, and no other line. */
  lemma StoreLands(s: State, line: Line, offset: nat, bytes: seq<nat>, k: nat, other: Line)
    requires StoreOk(s, line, offset, bytes) && k < 64
    ensures var s' := Store(s, line, offset, bytes);
            var byte := if offset <= k < offset + |bytes| then bytes[k - offset] else Golden(s, line)[k];
            && line in s'.copies && s'.copies[line].M? && s'.copies[line].data[k] == byte && Golden(s', line)[k] == byte
            && (other != line ==>
                  && Golden(s', other) == Golden(s, other)
                  && (other in s'.copies <==> other in s.copies)
                  && (other in s.copies ==> s'.copies[other] == s.copies[other]))
            && s'.held == s.held && s'.upq == s.upq && s'.puts == s.puts && s'.probe == s.probe
  {
  }

  /** An acknowledged DMA write changes exactly the bytes of its mask in golden memory, and nothing the bench
      holds. */
  lemma DmaWriteLands(s: State, r: Response, k: nat, other: Line)
    requires RespondOk(s, 2, r) && Out(s, 2)[r.tid].op == MaskWrite && !r.err && k < 64
    ensures var s', t := Respond(s, 2, r), Out(s, 2)[r.tid];
            && Golden(s', t.line)[k] == (if k in t.mask then t.data[k] else Golden(s, t.line)[k])
            && (other != t.line ==> Golden(s', other) == Golden(s, other))
            && s'.held == s.held && s'.copies == s.copies && s'.upq == s.upq && s'.puts == s.puts
  {
    hide ReadOk, GrantOk;
  }

  // -------------------------------------------------------------- the record

  /** The history of one line, read off the snapshots of the whole golden memory. */
  function LineHistory(moments: seq<Moment>, line: Line): seq<Change>
    requires moments != []
  {
    if |moments| == 1 then []
    else
      var last := moments[|moments| - 1];
      var before := LineHistory(moments[..|moments| - 1], line);
      if last.line == line && line in last.arch then before + [Change(last.cycle, last.arch[line])] else before
  }

  /** Snapshots in order of time, each changing exactly the line it names. */
  ghost predicate Chronicle(moments: seq<Moment>) {
    && moments != [] && moments[0].cycle == 0 && moments[0].arch == map[]
    && (forall k :: 0 < k < |moments| ==>
          && moments[k - 1].cycle <= moments[k].cycle
          && moments[k].line in moments[k].arch
          && moments[k].arch == moments[k - 1].arch[moments[k].line := moments[k].arch[moments[k].line]])
  }

  /** History is complete: it is what the snapshots say, up to the golden memory of now. */
  ghost predicate Recorded(s: State) { RecordOf(s.arch, s.history, s.moments, s.cycle) }

  ghost predicate RecordOf(arch: map<Line, Data>, history: map<Line, seq<Change>>, moments: seq<Moment>, cycle: nat) {
    && Chronicle(moments)
    && moments[|moments| - 1].arch == arch && moments[|moments| - 1].cycle <= cycle
    && forall line :: HistoryOf(history, line) == LineHistory(moments, line)
  }

  lemma CommitRecords(s: State, line: Line, data: Data)
    requires Recorded(s)
    ensures Recorded(Commit(s, line, data))
  {
    var s' := Commit(s, line, data);
    var n := |s.moments|;
    assert s'.moments[..n] == s.moments && s'.moments[n] == Moment(s.cycle, line, s'.arch);
    forall l ensures HistoryOf(s'.history, l) == LineHistory(s'.moments, l) {
      assert HistoryOf(s.history, l) == LineHistory(s.moments, l);
    }
    hide LineHistory, HistoryOf;
  }

  /** Snapshot k shows the value in the line, and was not yet superseded at the end of cycle `start`. */
  ghost predicate HeldAt(seed: nat, moments: seq<Moment>, line: Line, start: nat, x: Data, k: nat) {
    && k < |moments| && GoldenIn(seed, moments[k].arch, line) == x
    && (start < moments[k].cycle || k == |moments| - 1 || start < moments[k + 1].cycle)
  }

  /** Golden memory held this value in the line at some moment from the end of cycle `start` on. */
  ghost predicate HeldSince(seed: nat, moments: seq<Moment>, line: Line, start: nat, x: Data) {
    exists k: nat :: HeldAt(seed, moments, line, start, x, k)
  }

  ghost predicate InHistory(h: seq<Change>, start: nat, initial: Data, x: Data) {
    x == Prior(h, start, initial) || exists i :: 0 <= i < |h| && start < h[i].cycle && h[i].data == x
  }

  lemma {:induction false} HistoryTimes(moments: seq<Moment>, line: Line, i: nat)
    requires Chronicle(moments) && i < |LineHistory(moments, line)|
    ensures LineHistory(moments, line)[i].cycle <= moments[|moments| - 1].cycle
    decreases |moments|
  {
    if |moments| > 1 {
      var n := |moments| - 1;
      var before := LineHistory(moments[..n], line);
      if i < |before| {
        ChroniclePrefix(moments);
        HistoryTimes(moments[..n], line, i);
      }
    }
  }

  lemma ChroniclePrefix(moments: seq<Moment>)
    requires Chronicle(moments) && |moments| > 1
    ensures Chronicle(moments[..|moments| - 1])
  {
  }

  /** The last recorded change of a line is its golden value. */
  lemma {:induction false} LastChange(seed: nat, moments: seq<Moment>, line: Line)
    requires Chronicle(moments)
    ensures var h := LineHistory(moments, line);
            GoldenIn(seed, moments[|moments| - 1].arch, line)
            == if h == [] then Initial(seed, line) else h[|h| - 1].data
    ensures LineHistory(moments, line) == [] ==> line !in moments[|moments| - 1].arch
    decreases |moments|
  {
    if |moments| > 1 {
      ChroniclePrefix(moments);
      LastChange(seed, moments[..|moments| - 1], line);
      assert moments[..|moments| - 1][|moments| - 2] == moments[|moments| - 2];
    }
  }

  /** Dropping the newest snapshot drops at most the value it holds now, when it is recent enough. */
  lemma HeldSincePrefix(seed: nat, moments: seq<Moment>, line: Line, start: nat, x: Data)
    requires Chronicle(moments) && |moments| > 1
    ensures var n := |moments| - 1;
            HeldSince(seed, moments, line, start, x) <==>
            || x == GoldenIn(seed, moments[n].arch, line)
            || (start < moments[n].cycle && HeldSince(seed, moments[..n], line, start, x))
  {
    var n := |moments| - 1;
    forall k: nat | k < n
      ensures HeldAt(seed, moments, line, start, x, k) <==>
              start < moments[n].cycle && HeldAt(seed, moments[..n], line, start, x, k)
    {
      HeldAtPrefix(seed, moments, line, start, x, k);
    }
    assert HeldAt(seed, moments, line, start, x, n) <==> x == GoldenIn(seed, moments[n].arch, line);
    if HeldSince(seed, moments, line, start, x) {
      var k: nat :| HeldAt(seed, moments, line, start, x, k);
      assert k < n ==> HeldAt(seed, moments[..n], line, start, x, k);
    }
    if start < moments[n].cycle && HeldSince(seed, moments[..n], line, start, x) {
      var k: nat :| HeldAt(seed, moments[..n], line, start, x, k);
      assert HeldAt(seed, moments, line, start, x, k);
    }
    hide GoldenIn, Chronicle;
  }

  lemma HeldAtPrefix(seed: nat, moments: seq<Moment>, line: Line, start: nat, x: Data, k: nat)
    requires Chronicle(moments) && |moments| > 1 && k < |moments| - 1
    ensures var n := |moments| - 1;
            HeldAt(seed, moments, line, start, x, k) <==>
            start < moments[n].cycle && HeldAt(seed, moments[..n], line, start, x, k)
  {
    var n := |moments| - 1;
    Sorted(moments, k);
    Sorted(moments, k + 1);
    assert moments[..n][k] == moments[k] && (k < n - 1 ==> moments[..n][k + 1] == moments[k + 1]);
    hide GoldenIn, Chronicle;
  }

  lemma {:induction false} Sorted(moments: seq<Moment>, k: nat)
    requires Chronicle(moments) && k < |moments|
    ensures moments[k].cycle <= moments[|moments| - 1].cycle
    decreases |moments| - k
  {
    if k < |moments| - 1 { Sorted(moments, k + 1); }
  }

  lemma InHistoryAppend(h: seq<Change>, c: Change, start: nat, initial: Data, x: Data)
    ensures start < c.cycle ==>
            (InHistory(h + [c], start, initial, x) <==> x == c.data || InHistory(h, start, initial, x))
  {
    var h' := h + [c];
    assert h'[..|h|] == h;
    if exists i :: 0 <= i < |h| && start < h[i].cycle && h[i].data == x {
      var i :| 0 <= i < |h| && start < h[i].cycle && h[i].data == x;
      assert h'[i] == h[i];
    }
    assert h'[|h|] == c;
  }

  /** The per-line history admits exactly the values that the snapshots show golden memory to have held. */
  lemma {:induction false} WindowIsTruth(seed: nat, moments: seq<Moment>, line: Line, start: nat, x: Data)
    requires Chronicle(moments)
    ensures InHistory(LineHistory(moments, line), start, Initial(seed, line), x) <==>
            HeldSince(seed, moments, line, start, x)
    decreases |moments|
  {
    var n := |moments| - 1;
    var h := LineHistory(moments, line);
    LastChange(seed, moments, line);
    if n == 0 {
      assert HeldAt(seed, moments, line, start, x, 0) <==> GoldenIn(seed, moments[0].arch, line) == x;
    } else {
      ChroniclePrefix(moments);
      HeldSincePrefix(seed, moments, line, start, x);
      if start < moments[n].cycle {
        WindowIsTruth(seed, moments[..n], line, start, x);
        var before := LineHistory(moments[..n], line);
        InHistoryAppend(before, Change(moments[n].cycle, GoldenIn(seed, moments[n].arch, line)), start,
                        Initial(seed, line), x);
        if moments[n].line != line { StillHeld(seed, moments, line, start); }
      } else {
        AllEarly(moments, line, start);
      }
    }
  }

  lemma AllEarly(moments: seq<Moment>, line: Line, start: nat)
    requires Chronicle(moments) && moments[|moments| - 1].cycle <= start
    ensures forall i :: 0 <= i < |LineHistory(moments, line)| ==> LineHistory(moments, line)[i].cycle <= start
  {
    forall i | 0 <= i < |LineHistory(moments, line)| ensures LineHistory(moments, line)[i].cycle <= start {
      HistoryTimes(moments, line, i);
    }
  }

  lemma StillHeld(seed: nat, moments: seq<Moment>, line: Line, start: nat)
    requires Chronicle(moments) && |moments| > 1 && moments[|moments| - 1].line != line
    ensures var n := |moments| - 1; HeldSince(seed, moments[..n], line, start, GoldenIn(seed, moments[n].arch, line))
  {
    var n := |moments| - 1;
    assert moments[..n][n - 1] == moments[n - 1];
    assert HeldAt(seed, moments[..n], line, start, GoldenIn(seed, moments[n].arch, line), n - 1);
  }

  /** The read check accepts a value exactly when golden memory held it in the line at some moment
      from the end of the request's start cycle until now. */
  lemma ReadWindowExact(s: State, line: Line, start: nat, x: Data)
    requires Recorded(s)
    ensures InWindow(s, line, start, x) <==> HeldSince(s.seed, s.moments, line, start, x)
  {
    WindowIsTruth(s.seed, s.moments, line, start, x);
    var h := LineHistory(s.moments, line);
    assert h == HistoryOf(s.history, line);
    forall i | 0 <= i < |h| ensures h[i].cycle <= s.cycle { HistoryTimes(s.moments, line, i); }
    hide LineHistory, HeldSince, Prior;
  }

  // ------------------------------------------------------------------- runs

  datatype Action =
    | DoStore(line: Line, offset: nat, bytes: seq<nat>)
    | DoEvict(line: Line, putId: nat)
    | DoSubmit(client: nat, op: ReqOp, reqLine: Line, reqId: nat, error: bool, mask: set<nat>, data: Data)
    | DoAnswer
    | DoRespond(c: nat, r: Response)
    | DoTakeUp
    | DoTakeProbe(p: Probe, dmaWrite: bool)
    | DoTakeRequest(requester: nat)
    | DoNextCycle

  /** The bench's checks, without the three kinds of action that pass them and do harm: stores, evictions and
      grants of data that leave a queued answer stale, or one that cannot be taken. */
  ghost predicate Allowed(s: State, a: Action) {
    match a
    case DoStore(line, offset, bytes) => StoreOk(s, line, offset, bytes) && StoreHarmless(s, line, offset, bytes)
    case DoEvict(line, tid) => EvictOk(s, line, tid) && EvictHarmless(s, line)
    case DoSubmit(c, _, _, tid, _, _, _) => SubmitOk(s, c, tid)
    case DoAnswer => AnswerDue(s) && AnswerOk(s)
    case DoRespond(c, r) =>
      RespondOk(s, c, r)
      && (c == 0 && r.op != PutAck && r.op != AckE && !r.err ==> GrantHarmless(s, Out(s, 0)[r.tid].line))
    case DoTakeUp => TakeUpOk(s)
    case DoTakeProbe(p, dmaWrite) => TakeProbeOk(s, p, dmaWrite)
    case DoTakeRequest(c) => TakeRequestOk(s, c)
    case DoNextCycle => true
  }

  ghost function After(s: State, a: Action): State
    requires Allowed(s, a)
  {
    match a
    case DoStore(line, offset, bytes) => Store(s, line, offset, bytes)
    case DoEvict(line, tid) => Evict(s, line, tid)
    case DoSubmit(c, op, line, tid, error, mask, data) => Submit(s, c, op, line, tid, error, mask, data)
    case DoAnswer => Answer(s)
    case DoRespond(c, r) => Respond(s, c, r)
    case DoTakeUp => TakeUp(s)
    case DoTakeProbe(p, _) => TakeProbe(s, p)
    case DoTakeRequest(c) => TakeRequest(s, c)
    case DoNextCycle => NextCycle(s)
  }

  function Start(seed: nat): State {
    State(seed, 0, map[], map[], map[], map[], map[], [], None, map[], map[], [Moment(0, 0, map[])])
  }

  ghost predicate Leads(s: State, actions: seq<Action>, s': State)
    decreases actions
  {
    if actions == [] then s' == s
    else Allowed(s, actions[0]) && Leads(After(s, actions[0]), actions[1..], s')
  }

  lemma ActionKeepsCoherent(s: State, a: Action)
    requires Coherent(s) && Allowed(s, a)
    ensures Coherent(After(s, a))
  {
    hide Coherent, Store, Evict, Submit, Answer, Respond, TakeUp, TakeRequest, GrantOk, ReadOk, InWindow, StoreOk;
    hide Drains;
    match a
    case DoStore(line, offset, bytes) => StoreExact(s, line, offset, bytes);
    case DoEvict(line, tid) => EvictKeeps(s, line, tid);
    case DoSubmit(c, op, line, tid, error, mask, data) => SubmitKeeps(s, c, op, line, tid, error, mask, data);
    case DoAnswer => AnswerKeeps(s);
    case DoRespond(c, r) =>
      if c == 0 && r.op == PutAck { PutAckKeeps(s, r); }
      else if c == 0 && !r.err { if r.op == AckE { GrantKeeps(s, r); } else { GrantExact(s, r); } }
      else if c == 2 && Out(s, 2)[r.tid].op == MaskWrite && !r.err { DmaWriteKeeps(s, r); }
      else { PlainResponseKeeps(s, c, r); }
    case DoTakeUp => TakeUpKeeps(s);
    case DoTakeProbe(p, dmaWrite) => TakeProbeKeeps(s, p, dmaWrite);
    case DoTakeRequest(c) => TakeRequestKeeps(s, c);
    case DoNextCycle => QuietKeeps(s, NextCycle(s));
  }

  lemma SubmitKeeps(s: State, c: nat, op: ReqOp, line: Line, tid: nat, error: bool, mask: set<nat>, data: Data)
    requires Coherent(s)
    ensures Coherent(Submit(s, c, op, line, tid, error, mask, data))
  {
    hide Coherent;
    QuietKeeps(s, Submit(s, c, op, line, tid, error, mask, data));
  }

  lemma LaterRecord(s: State)
    requires Recorded(s)
    ensures Recorded(NextCycle(s))
  {
    hide Chronicle, LineHistory, HistoryOf;
  }

  lemma StoreKeepsRecord(s: State, line: Line, offset: nat, bytes: seq<nat>)
    requires Recorded(s) && StoreOk(s, line, offset, bytes)
    ensures Recorded(Store(s, line, offset, bytes))
  {
    hide RecordOf, Commit;
    var data := Overwrite(s.copies[line].data, offset, bytes);
    var s' := s.(copies := s.copies[line := M(data)]);
    CommitRecords(s', line, data);
  }

  lemma TakeUpKeepsRecord(s: State)
    requires Recorded(s) && TakeUpOk(s)
    ensures Recorded(TakeUp(s))
  {
    hide RecordOf, HeldAfter, CopiesAfter, PutsAfter;
  }

  lemma TakeRequestKeepsRecord(s: State, c: nat)
    requires Recorded(s) && TakeRequestOk(s, c)
    ensures Recorded(TakeRequest(s, c))
  {
    hide RecordOf, PutOutstanding;
  }

  lemma ActionKeepsRecord(s: State, a: Action)
    requires Recorded(s) && Allowed(s, a)
    ensures Recorded(After(s, a))
  {
    hide RecordOf, LineBusy, StoreOk, Store, Respond, RespondOk, TakeUp, TakeUpOk, TakeRequest, TakeRequestOk;
    match a
    case DoStore(line, offset, bytes) => StoreKeepsRecord(s, line, offset, bytes);
    case DoRespond(c, r) => ResponseKeepsRecord(s, c, r);
    case DoTakeUp => TakeUpKeepsRecord(s);
    case DoTakeRequest(c) => TakeRequestKeepsRecord(s, c);
    case DoNextCycle => LaterRecord(s);
    case _ =>
  }

  lemma GrantKeepsRecord(s: State, t: Txn, r: Response)
    requires Recorded(s) && GrantOk(s, t, r) && !r.err
    ensures Recorded(Grant(s, t, r))
  {
    hide RecordOf, Golden;
  }

  lemma ResponseKeepsRecord(s: State, c: nat, r: Response)
    requires Recorded(s) && RespondOk(s, c, r)
    ensures Recorded(Respond(s, c, r))
  {
    hide RecordOf, Commit, Merge, ReadOk, Grant;
    if !(c == 0 && r.op == PutAck) {
      var t := Out(s, c)[r.tid];
      var s' := s.(out := s.out[c := Out(s, c) - {r.tid}]);
      if c == 0 && !r.err {
        GrantKeepsRecord(s', t, r);
      } else if c == 2 && t.op == MaskWrite && !r.err {
        CommitRecords(s', t.line, Merge(Golden(s, t.line), t.mask, t.data));
      }
    }
  }

  lemma {:induction false} RunsKeep(s: State, actions: seq<Action>, s': State)
    requires Coherent(s) && Recorded(s) && Leads(s, actions, s')
    ensures Coherent(s') && Recorded(s')
    decreases actions
  {
    hide Coherent, Recorded, Allowed, After;
    if actions != [] {
      ActionKeepsCoherent(s, actions[0]);
      ActionKeepsRecord(s, actions[0]);
      RunsKeep(After(s, actions[0]), actions[1..], s');
    }
  }

  /** Every state the bench can reach, whatever the home does: permissions and copies correspond, copies
      and queued answers carry golden data, all queued answers can be taken one after the other and pass the
      bench's checks, and the read check accepts exactly the values golden memory has held since the read
      started. */
  lemma ReachableStates(seed: nat, actions: seq<Action>, s: State)
    requires Leads(Start(seed), actions, s)
    ensures Coherent(s) && Drains(s) && (s.upq != [] ==> TakeUpOk(s))
    ensures forall line, start, x :: InWindow(s, line, start, x) <==> HeldSince(s.seed, s.moments, line, start, x)
  {
    hide Leads, TakeUpOk, Drains;
    StartFine(seed);
    RunsKeep(Start(seed), actions, s);
    CoherentDrains(s);
    if s.upq != [] { OwnChecksHold(s); }
    hide Coherent, Recorded, InWindow, HeldSince;
    forall line, start, x ensures InWindow(s, line, start, x) <==> HeldSince(s.seed, s.moments, line, start, x) {
      ReadWindowExact(s, line, start, x);
    }
  }

  lemma StartFine(seed: nat)
    ensures Coherent(Start(seed)) && Recorded(Start(seed))
  {
  }

  // --------------------------------------- why the drivers' rules are needed

  ghost predicate Steps(s: State, a: Action, s': State) { Allowed(s, a) && s' == After(s, a) }

  lemma Submitted(s: State, t: Txn)
    requires s.present == map[] && s.out == map[] && t.start == s.cycle
    ensures Steps(s, DoSubmit(0, t.op, t.line, t.tid, t.error, t.mask, t.data), s.(present := map[0 := t]))
  {
  }

  lemma Requested(s: State, t: Txn)
    requires s.present == map[0 := t] && s.out == map[] && s.held == map[] && s.puts == map[]
    ensures Steps(s, DoTakeRequest(0), s.(present := map[], out := map[0 := map[t.tid := t]]))
  {
    assert s.present - {0} == map[];
  }

  lemma Granted(s: State, t: Txn, d: Data)
    requires s.out == map[0 := map[t.tid := t]] && s.held == map[] && s.copies == map[] && s.upq == []
    requires !t.error && d == Golden(s, t.line)
    ensures Steps(s, DoRespond(0, Response(DataE, t.tid, false, d)),
                  s.(out := map[0 := map[]], held := map[t.line := Owner], copies := map[t.line := E(d)]))
  {
    assert map[t.tid := t] - {t.tid} == map[];
    assert Out(s, 0)[t.tid] == t;
    hide Golden;
  }

  /** One action more. */
  lemma {:induction false} LeadsThen(s0: State, actions: seq<Action>, s: State, a: Action, s': State)
    requires Leads(s0, actions, s) && Steps(s, a, s')
    ensures Leads(s0, actions + [a], s')
    decreases actions
  {
    hide Allowed, After;
    if actions == [] {
      assert Leads(s', [], s') && [a][1..] == [];
    } else {
      LeadsThen(After(s0, actions[0]), actions[1..], s, a, s');
      assert (actions + [a])[1..] == actions[1..] + [a];
    }
  }

  /** Line 0 was fetched to be written, and nothing else has happened. */
  function Owned(): (s: State)
    ensures StoreOk(s, 0, 0, [0])
  {
    Start(1).(out := map[0 := map[]], held := map[0 := Owner], copies := map[0 := E(Initial(1, 0))])
  }

  lemma OwnedReached() returns (actions: seq<Action>)
    ensures Leads(Start(1), actions, Owned())
  {
    hide Leads, Steps, Initial;
    var d := Initial(1, 0);
    var s0 := Start(1);
    var t := Txn(GetM, 0, 0, 0, false, {}, d);
    Submitted(s0, t);
    var s1 := s0.(present := map[0 := t]);
    Requested(s1, t);
    var s2 := s1.(present := map[], out := map[0 := map[0 := t]]);
    Granted(s2, t, d);
    assert Owned() == s2.(out := map[0 := map[]], held := map[0 := Owner], copies := map[0 := E(d)]);
    var a0, a1, a2 := DoSubmit(0, GetM, 0, 0, false, {}, d), DoTakeRequest(0),
        DoRespond(0, Response(DataE, 0, false, d));
    LeadsNone(s0);
    LeadsThen(s0, [], s0, a0, s1);
    actions := [] + [a0];
    LeadsThen(s0, actions, s1, a1, s2);
    actions := actions + [a1];
    LeadsThen(s0, actions, s2, a2, Owned());
    actions := actions + [a2];
  }

  lemma LeadsNone(s: State) ensures Leads(s, [], s) {}

  /** After it, its eviction is queued. */
  function Evicting(): State {
    Owned().(puts := map[0 := PutState(0, false)], upq := [Up(Put, false, 0, 0, Initial(1, 0))])
  }

  lemma EvictingReached() returns (actions: seq<Action>)
    ensures Leads(Start(1), actions, Evicting())
  {
    var before := OwnedReached();
    OwnedEvicts();
    hide Leads, Steps, Owned, Evicting;
    LeadsThen(Start(1), before, Owned(), DoEvict(0, 0), Evicting());
    actions := before + [DoEvict(0, 0)];
  }

  lemma OwnedEvicts()
    ensures Steps(Owned(), DoEvict(0, 0), Evicting())
  {
    hide Initial;
  }

  /** A reachable state in which a store to a busy line passes the bench's checks and leaves the Put
      already on its way to the home with stale data. */
  lemma BusyStoreBreaks()
    ensures exists actions, s, line: Line, bytes: seq<nat> ::
              Leads(Start(1), actions, s) && StoreOk(s, line, 0, bytes) && !Coherent(Store(s, line, 0, bytes))
  {
    var actions := EvictingReached();
    assert Evicting().upq == [Up(Put, false, 0, 0, Initial(1, 0))] && Evicting().copies == map[0 := E(Initial(1, 0))];
    assert Golden(Evicting(), 0) == Initial(1, 0);
    hide Leads, Evicting, Store, StoreOk, Coherent, Initial, StoreHarmless;
    StaleStore(Evicting(), Initial(1, 0));
    StoreExactAt(Evicting(), actions);
  }

  /** A reachable state in which a second eviction of a line, under another identifier, passes the bench's
      checks, and the home taking both evictions does not. */
  lemma SecondEvictBreaks()
    ensures exists actions, s ::
              && Leads(Start(1), actions, s) && EvictOk(s, 0, 1)
              && var s' := Evict(s, 0, 1);
              && |s'.upq| == 2 && TakeUpOk(s') && |TakeUp(s').upq| == 1 && !TakeUpOk(TakeUp(s'))
  {
    var actions := EvictingReached();
    SecondFails();
    hide Leads, Evicting, Evict, EvictOk, TakeUp, TakeUpOk;
    assert Leads(Start(1), actions, Evicting());
  }

  lemma SecondFails()
    ensures EvictOk(Evicting(), 0, 1)
    ensures var s' := Evict(Evicting(), 0, 1);
            |s'.upq| == 2 && TakeUpOk(s') && |TakeUp(s').upq| == 1 && !TakeUpOk(TakeUp(s'))
  {
    hide Initial;
  }

  /** Line 0 was then written, and a probe that takes its ownership away is answered. */
  function Downgrading(): State {
    var s := Store(Owned(), 0, 0, [0]);
    Answer(s.(probe := Some(Probe(Down, true, 0))))
  }

  lemma DowngradingReached() returns (actions: seq<Action>)
    ensures Leads(Start(1), actions, Downgrading())
  {
    actions := OwnedReached();
    var s := Store(Owned(), 0, 0, [0]);
    var p := Probe(Down, true, 0);
    DowngradeSteps();
    hide Leads, Steps, Owned, Store, Answer;
    LeadsThen(Start(1), actions, Owned(), DoStore(0, 0, [0]), s);
    actions := actions + [DoStore(0, 0, [0])];
    LeadsThen(Start(1), actions, s, DoTakeProbe(p, false), s.(probe := Some(p)));
    actions := actions + [DoTakeProbe(p, false)];
    LeadsThen(Start(1), actions, s.(probe := Some(p)), DoAnswer, Downgrading());
    actions := actions + [DoAnswer];
  }

  lemma DowngradeSteps()
    ensures var s := Store(Owned(), 0, 0, [0]);
            var p := Probe(Down, true, 0);
            && Steps(Owned(), DoStore(0, 0, [0]), s)
            && Steps(s, DoTakeProbe(p, false), s.(probe := Some(p)))
            && Steps(s.(probe := Some(p)), DoAnswer, Downgrading())
  {
    hide Initial, Overwrite;
  }

  /** A reachable state in which an eviction of a modified copy, behind its downgrade, passes the bench's
      checks, and the home taking both answers does not. */
  lemma DowngradedEvictBreaks()
    ensures exists actions, s ::
              && Leads(Start(1), actions, s) && EvictOk(s, 0, 0)
              && var s' := Evict(s, 0, 0);
              && |s'.upq| == 2 && TakeUpOk(s') && |TakeUp(s').upq| == 1 && !TakeUpOk(TakeUp(s'))
  {
    var actions := DowngradingReached();
    DowngradedFails();
    hide Leads, Downgrading, Evict, EvictOk, TakeUp, TakeUpOk;
    assert Leads(Start(1), actions, Downgrading());
  }

  lemma DowngradedFails()
    ensures EvictOk(Downgrading(), 0, 0)
    ensures var s' := Evict(Downgrading(), 0, 0);
            |s'.upq| == 2 && TakeUpOk(s') && |TakeUp(s').upq| == 1 && !TakeUpOk(TakeUp(s'))
  {
    hide Initial, Overwrite;
  }

  lemma StaleStore(s: State, d: Data)
    requires s.upq == [Up(Put, false, 0, 0, d)] && s.copies == map[0 := E(d)] && d == Golden(s, 0)
    ensures StoreOk(s, 0, 0, [0]) && !StoreHarmless(s, 0, 0, [0])
  {
    assert s.upq[0].line == 0 && !s.upq[0].dirty;
  }

  lemma StoreExactAt(s: State, actions: seq<Action>)
    requires Leads(Start(1), actions, s) && StoreOk(s, 0, 0, [0]) && !StoreHarmless(s, 0, 0, [0])
    ensures Leads(Start(1), actions, s) && !Coherent(Store(s, 0, 0, [0]))
  {
    hide Leads, StoreHarmless, Store, StoreOk;
    ReachableStates(1, actions, s);
    StoreExact(s, 0, 0, [0]);
  }

  lemma Probed(s: State, p: Probe)
    requires s.probe.None? && s.out == map[] && p.op == Down && p.owner
    ensures Steps(s, DoTakeProbe(p, false), s.(probe := Some(p)))
  {
  }

  lemma Answered(s: State, line: Line)
    requires s.probe == Some(Probe(Down, true, line)) && s.out == map[] && s.puts == map[] && s.copies == map[]
             && s.upq == []
    ensures Steps(s, DoAnswer, s.(upq := [Up(DownAck, false, line, 0, NoData())]))
  {
    assert !GetOutstanding(s, line) && !PutOutstanding(s, line);
    hide NoData;
  }

  /** A reachable state in which a grant passes the bench's checks although an answer for the line is
      queued; when the home then takes the answer, the bench's copy no longer matches golden memory. */
  lemma GrantDuringAnswerBreaks()
    ensures exists actions, s, r ::
              Leads(Start(1), actions, s) && RespondOk(s, 0, r) && AnswerQueued(s, 0) && !Coherent(Respond(s, 0, r))
              && TakeUpOk(Respond(s, 0, r)) && !CopyFits(TakeUp(Respond(s, 0, r)), 0)
  {
    assert NoData()[0] == 0 && Initial(1, 0)[0] == 1;
    hide Leads, Steps, Respond, RespondOk, Coherent, Initial, NoData, TakeUp, TakeUpOk, CopyFits;
    var d := Initial(1, 0);
    var s0 := Start(1);
    var p := Probe(Down, true, 0);
    var t := Txn(GetS, 0, 0, 0, false, {}, d);
    Probed(s0, p);
    var s1 := s0.(probe := Some(p));
    Answered(s1, 0);
    var s2 := s1.(upq := [Up(DownAck, false, 0, 0, NoData())]);
    Submitted(s2, t);
    var s3 := s2.(present := map[0 := t]);
    Requested(s3, t);
    var s := s3.(present := map[], out := map[0 := map[0 := t]]);
    var a0, a1 := DoTakeProbe(p, false), DoAnswer;
    var a2, a3 := DoSubmit(0, GetS, 0, 0, false, {}, d), DoTakeRequest(0);
    var actions: seq<Action> := [];
    LeadsNone(s0);
    LeadsThen(s0, actions, s0, a0, s1);
    actions := actions + [a0];
    LeadsThen(s0, actions, s1, a1, s2);
    actions := actions + [a1];
    LeadsThen(s0, actions, s2, a2, s3);
    actions := actions + [a2];
    LeadsThen(s0, actions, s3, a3, s);
    actions := actions + [a3];
    var r := Response(DataE, 0, false, d);
    RacedGrant(s, r);
    Racing(s, r, actions);
  }

  lemma Racing(s: State, r: Response, actions: seq<Action>)
    requires Leads(Start(1), actions, s) && RespondOk(s, 0, r) && AnswerQueued(s, 0) && !Coherent(Respond(s, 0, r))
    requires TakeUpOk(Respond(s, 0, r)) && !CopyFits(TakeUp(Respond(s, 0, r)), 0)
    ensures exists actions, s, r ::
              Leads(Start(1), actions, s) && RespondOk(s, 0, r) && AnswerQueued(s, 0) && !Coherent(Respond(s, 0, r))
              && TakeUpOk(Respond(s, 0, r)) && !CopyFits(TakeUp(Respond(s, 0, r)), 0)
  {
    hide *;
  }

  lemma RacedGrant(s: State, r: Response)
    requires s.seed == 1 && s.arch == map[] && s.held == map[] && s.copies == map[] && s.puts == map[]
    requires s.probe == Some(Probe(Down, true, 0)) && s.upq == [Up(DownAck, false, 0, 0, NoData())]
    requires s.out == map[0 := map[0 := Txn(GetS, 0, 0, 0, false, {}, Initial(1, 0))]]
    requires r == Response(DataE, 0, false, Initial(1, 0)) && NoData() != Initial(1, 0)
    ensures RespondOk(s, 0, r) && AnswerQueued(s, 0) && !Coherent(Respond(s, 0, r))
    ensures TakeUpOk(Respond(s, 0, r)) && !CopyFits(TakeUp(Respond(s, 0, r)), 0)
  {
    var s' := Respond(s, 0, r);
    assert s'.copies == map[0 := E(Initial(1, 0))] && s'.held == map[0 := Owner];
    assert !UpFits(s', s'.upq[0]);
    assert s.upq[0].line == 0;
    hide Initial, NoData;
  }
}
