/** The fetch return queue: eight slots filled out of order and delivered in order, with selective kill,
    zombie slots that wait for a response nobody wants, and a registered output snapshot. */
module ReturnQueue {
  import Rings
  import opened Wrappers

  const SLOTS: nat := 8

  datatype Entry = Entry(id: nat, pc: nat, data: Option<nat>, zombie: bool, excValid: bool, excCause: nat)

  datatype Inputs = Inputs(
    rst: bool,
    reserve: bool, reserveId: nat, reservePc: nat, reserveIdx: Option<nat>,
    response: bool, responseIdx: nat, responseId: nat, responseData: nat, responseExc: bool, responseCause: nat,
    briefDone: bool, briefId: nat, deqReady: bool,
    kill: bool, killAll: bool, killSelf: bool, killId: nat, killSlot: nat, head: nat,
    slowUpdate: bool, slowId: nat, resolveUpdate: bool, resolveId: nat)

  datatype Queue = Queue(depth: nat, slots: seq<Option<Entry>>, order: seq<nat>, output: Option<Entry>)

  function Empty(depth: nat): Queue { Queue(depth, seq(SLOTS, _ => None), [], None) }

  predicate WellFormed(s: Queue) {
    s.depth > 0 && |s.slots| == SLOTS && forall k :: 0 <= k < |s.order| ==> s.order[k] < SLOTS
  }

  function BriefEntry(s: Queue): Option<Entry>
    requires WellFormed(s)
  {
    var n := if s.output.Some? then 1 else 0;
    if |s.order| > n then s.slots[s.order[n]] else None
  }

  predicate Refresh(i: Inputs, e: Option<Entry>) {
    e.Some? && ((i.slowUpdate && i.slowId == e.value.id) || (i.resolveUpdate && i.resolveId == e.value.id))
  }

  function FreeFrom(slots: seq<Option<Entry>>, k: nat): nat
    requires k <= |slots|
    decreases |slots| - k
  {
    if k == |slots| then 0 else if slots[k].None? then k else FreeFrom(slots, k + 1)
  }

  function Free(s: Queue): nat { FreeFrom(s.slots, 0) }

  predicate Ready(s: Queue, i: Inputs) {
    (exists k :: 0 <= k < |s.slots| && s.slots[k].None?) && !i.rst && !i.kill
  }

  predicate DeqValid(s: Queue, i: Inputs) { s.output.Some? && !(i.rst || i.kill || Refresh(i, s.output)) }

  predicate Delivers(s: Queue, i: Inputs) { DeqValid(s, i) && i.deqReady }

  /** The new snapshot is taken from the entry behind the one on display. */
  predicate Captures(s: Queue, i: Inputs)
    requires WellFormed(s)
  {
    var c := BriefEntry(s);
    && !i.rst && !i.kill && !Refresh(i, s.output)
    && (s.output.None? || Delivers(s, i))
    && c.Some? && c.value.data.Some? && i.briefDone && i.briefId == c.value.id && !Refresh(i, c)
  }

  function NextOutput(s: Queue, i: Inputs): Option<Entry>
    requires WellFormed(s)
  {
    if i.kill || Refresh(i, s.output) then None
    else if Captures(s, i) then BriefEntry(s)
    else if Delivers(s, i) then None
    else s.output
  }

  // ----------------------------------------- the four parts of a clock edge

  function ReserveSlot(s: Queue, i: Inputs): nat {
    if i.reserveIdx.Some? then i.reserveIdx.value else Free(s)
  }

  predicate ReserveOk(s: Queue, i: Inputs) {
    i.reserve ==> Ready(s, i) && ReserveSlot(s, i) < |s.slots| && s.slots[ReserveSlot(s, i)].None?
  }

  function Reserved(s: Queue, i: Inputs): Queue
    requires ReserveOk(s, i)
  {
    if !i.reserve then s
    else
      var k := ReserveSlot(s, i);
      s.(slots := s.slots[k := Some(Entry(i.reserveId, i.reservePc, None, false, false, 0))], order := s.order + [k])
  }

  predicate ResponseOk(s: Queue, i: Inputs) {
    i.response ==>
      i.responseIdx < |s.slots| && s.slots[i.responseIdx].Some?
      && s.slots[i.responseIdx].value.data.None? && s.slots[i.responseIdx].value.id == i.responseId
  }

  function Responded(s: Queue, i: Inputs): Queue
    requires ResponseOk(s, i)
  {
    if !i.response then s
    else
      var e := s.slots[i.responseIdx].value;
      s.(slots := s.slots[i.responseIdx :=
        if e.zombie then None
        else Some(e.(data := Some(i.responseData), excValid := i.responseExc, excCause := i.responseCause))])
  }

  /** Distance of an identifier from the head around the ring. */
  function Age(id: nat, head: nat, depth: nat): nat
    requires depth > 0
  {
    (id % depth - head % depth) % depth
  }

  predicate Killed(s: Queue, i: Inputs, e: Entry)
    requires s.depth > 0
  {
    i.killAll || Age(e.id, i.head, s.depth) > Age(i.killId, i.head, s.depth)
    || (i.killSelf && i.killSlot == 0 && e.id == i.killId)
  }

  predicate KilledAt(s: Queue, i: Inputs, slot: nat)
    requires s.depth > 0
  {
    slot < |s.slots| && s.slots[slot].Some? && Killed(s, i, s.slots[slot].value)
  }

  /** The kill takes a suffix of program order: the assertion inside the kill loop does not fire. */
  ghost predicate KillsSuffix(s: Queue, i: Inputs)
    requires s.depth > 0
  {
    forall j, k :: 0 <= j < k < |s.order| && KilledAt(s, i, s.order[j]) ==> KilledAt(s, i, s.order[k])
  }

  function Survivors(s: Queue, i: Inputs, order: seq<nat>): (kept: seq<nat>)
    requires s.depth > 0
    ensures forall k :: 0 <= k < |kept| ==> kept[k] in order && !KilledAt(s, i, kept[k])
    ensures forall x :: x in order && !KilledAt(s, i, x) ==> x in kept
  {
    if order == [] then []
    else
      var rest := Survivors(s, i, order[..|order| - 1]);
      if KilledAt(s, i, order[|order| - 1]) then rest else rest + [order[|order| - 1]]
  }

  /** A killed entry that has its response leaves its slot; one that has not stays on as a zombie. */
  function Mark(e: Entry): Option<Entry> { if e.data.None? then Some(e.(zombie := true)) else None }

  function AfterKill(s: Queue, i: Inputs): Queue
    requires s.depth > 0
  {
    if !i.kill then s
    else
      s.(slots := seq(|s.slots|, k requires 0 <= k < |s.slots| =>
                      if k in s.order && KilledAt(s, i, k) then Mark(s.slots[k].value) else s.slots[k]),
         order := Survivors(s, i, s.order))
  }

  function AfterDequeue(s: Queue, delivers: bool): Queue
    requires WellFormed(s)
  {
    if delivers && s.order != [] then s.(slots := s.slots[s.order[0] := None], order := s.order[1..]) else s
  }

  /** What the model asserts of its inputs. */
  predicate Legal(s: Queue, i: Inputs) {
    i.rst || (ReserveOk(s, i) && ResponseOk(Reserved(s, i), i))
  }

  function Filled(s: Queue, i: Inputs): Queue
    requires !i.rst && Legal(s, i)
  {
    Responded(Reserved(s, i), i)
  }

  function Tick(s: Queue, i: Inputs): Queue
    requires WellFormed(s) && Legal(s, i)
  {
    if i.rst then Empty(s.depth)
    else
      AfterDequeue(AfterKill(Filled(s, i), i), Delivers(s, i)).(output := NextOutput(s, i))
  }

  // ------------------------------------------------------------ consistency

  predicate Live(s: Queue, x: nat) { x < |s.slots| && s.slots[x].Some? && !s.slots[x].value.zombie }

  predicate Zombie(s: Queue, x: nat) { x < |s.slots| && s.slots[x].Some? && s.slots[x].value.zombie }

  ghost predicate Distinct(order: seq<nat>) { forall j, k :: 0 <= j < k < |order| ==> order[j] != order[k] }

  /** Occupied slots are the live ones, each once in program order, and zombies without a response; a
      snapshot on display is the oldest entry as it stands. */
  ghost predicate Consistent(s: Queue) {
    && WellFormed(s) && Distinct(s.order)
    && (forall k :: 0 <= k < |s.order| ==> Live(s, s.order[k]))
    && (forall x: nat :: Live(s, x) ==> x in s.order)
    && (forall x: nat :: Zombie(s, x) ==> s.slots[x].value.data.None?)
    && (s.output.Some? ==> s.order != [] && s.slots[s.order[0]] == s.output && s.output.value.data.Some?)
  }

  ghost predicate Settled(s: Queue) {
    Consistent(s.(output := None))
  }

  lemma ReserveSettled(s: Queue, i: Inputs)
    requires Settled(s) && ReserveOk(s, i)
    ensures Settled(Reserved(s, i))
  {
    if i.reserve {
      var k := ReserveSlot(s, i);
      var s' := Reserved(s, i);
      forall j | 0 <= j < |s.order| ensures s.order[j] != k { assert Live(s, s.order[j]); }
      forall x: nat | Live(s', x) ensures x in s'.order { if x != k { assert Live(s, x); } }
      forall x: nat | Zombie(s', x) ensures s'.slots[x].value.data.None? { assert Zombie(s, x); }
    }
  }

  lemma ResponseSettled(s: Queue, i: Inputs)
    requires Settled(s) && ResponseOk(s, i)
    ensures Settled(Responded(s, i))
  {
    var s' := Responded(s, i);
    forall k | 0 <= k < |s'.order| ensures Live(s', s'.order[k]) { assert Live(s, s.order[k]); }
    forall x: nat | Live(s', x) ensures x in s'.order { assert Live(s, x); }
    forall x: nat | Zombie(s', x) ensures s'.slots[x].value.data.None? { assert Zombie(s, x); }
  }

  lemma {:induction false} SurvivorsDistinct(s: Queue, i: Inputs, order: seq<nat>)
    requires s.depth > 0 && Distinct(order)
    ensures Distinct(Survivors(s, i, order))
  {
    if order != [] {
      var n := |order| - 1;
      SurvivorsDistinct(s, i, order[..n]);
    }
  }

  /** What the kill leaves in one slot. */
  lemma KillSlot(s: Queue, i: Inputs, x: nat)
    requires Settled(s) && i.kill && x < SLOTS
    ensures var t := AfterKill(s, i).slots[x];
            if Live(s, x) && KilledAt(s, i, x) then t == Mark(s.slots[x].value) else t == s.slots[x]
  {
    if x in s.order {
      var k :| 0 <= k < |s.order| && s.order[k] == x;
      assert Live(s, s.order[k]);
    }
    hide Survivors, KilledAt, Mark;
  }

  lemma KillSettled(s: Queue, i: Inputs)
    requires Settled(s)
    ensures Settled(AfterKill(s, i))
  {
    if i.kill {
      var s' := AfterKill(s, i);
      SurvivorsDistinct(s, i, s.order);
      forall x: nat | x < SLOTS
        ensures Live(s', x) <==> Live(s, x) && !KilledAt(s, i, x)
        ensures Zombie(s', x) ==> s'.slots[x].value.data.None?
      {
        KillSlot(s, i, x);
        assert Zombie(s, x) ==> s.slots[x].value.data.None?;
      }
      hide AfterKill, KilledAt, Survivors, Mark;
      assert s'.order == Survivors(s, i, s.order) && |s'.slots| == SLOTS by { KillShape(s, i); }
      forall k | 0 <= k < |s'.order| ensures s'.order[k] < SLOTS && Live(s', s'.order[k]) {
        assert s'.order[k] in s.order && Live(s, s'.order[k]);
      }
      forall x: nat | Live(s', x) ensures x in s'.order { assert Live(s, x); }
    }
  }

  lemma KillShape(s: Queue, i: Inputs)
    requires Settled(s) && i.kill
    ensures AfterKill(s, i).order == Survivors(s, i, s.order) && |AfterKill(s, i).slots| == SLOTS
  {
    hide Survivors;
  }

  lemma DequeueSettled(s: Queue, delivers: bool)
    requires Settled(s)
    ensures Settled(AfterDequeue(s, delivers))
  {
    var s' := AfterDequeue(s, delivers);
    if delivers && s.order != [] {
      forall k | 0 <= k < |s'.order| ensures Live(s', s'.order[k]) {
        assert s'.order[k] == s.order[k + 1] && Live(s, s.order[k + 1]);
      }
      forall x: nat | Live(s', x) ensures x in s'.order {
        assert Live(s, x) && x in s.order && x != s.order[0];
      }
      forall x: nat | Zombie(s', x) ensures s'.slots[x].value.data.None? { assert Zombie(s, x); }
    }
  }

  /** One clock edge before the snapshot register is considered. */
  function Moved(s: Queue, i: Inputs): Queue
    requires WellFormed(s) && !i.rst && Legal(s, i)
  {
    AfterDequeue(AfterKill(Filled(s, i), i), Delivers(s, i))
  }

  lemma FilledSettled(s: Queue, i: Inputs)
    requires Settled(s) && !i.rst && Legal(s, i)
    ensures Settled(Filled(s, i)) && Filled(s, i).output == s.output
    ensures s.order <= Filled(s, i).order
    ensures forall x :: x in s.order && s.slots[x].value.data.Some? ==> Filled(s, i).slots[x] == s.slots[x]
  {
    ReserveSettled(s, i);
    ResponseSettled(Reserved(s, i), i);
    assert forall x :: x in s.order ==> Live(s, x);
    hide Settled, Live;
  }

  lemma MovedSettled(s: Queue, i: Inputs)
    requires Settled(s) && !i.rst && Legal(s, i)
    ensures Settled(Moved(s, i))
  {
    hide Filled, AfterKill, Delivers, Live, Zombie;
    FilledSettled(s, i);
    KillSettled(Filled(s, i), i);
    DequeueSettled(AfterKill(Filled(s, i), i), Delivers(s, i));
  }

  /** Without a kill, what was in the queue with its response stays where it is until delivered. */
  lemma MovedKeeps(s: Queue, i: Inputs)
    requires Consistent(s) && !i.rst && !i.kill && Legal(s, i)
    ensures var first := if Delivers(s, i) then 1 else 0;
            && s.order[first..] <= Moved(s, i).order
            && forall k :: first <= k < |s.order| && s.slots[s.order[k]].value.data.Some? ==>
                 Moved(s, i).slots[s.order[k]] == s.slots[s.order[k]]
  {
    SettledFrom(s);
    FilledSettled(s, i);
    var t := Filled(s, i);
    assert AfterKill(t, i) == t;
    assert forall k :: 0 <= k < |s.order| ==> t.order[k] == s.order[k];
    hide Filled, Settled, AfterKill, Legal;
  }

  lemma SettledFrom(s: Queue)
    requires Consistent(s)
    ensures Settled(s)
  {
    assert forall x: nat :: Live(s.(output := None), x) <==> Live(s, x);
    assert forall x: nat :: Zombie(s.(output := None), x) <==> Zombie(s, x);
  }

  lemma ConsistentFrom(s: Queue, output: Option<Entry>)
    requires Settled(s)
    requires output.Some? ==>
             s.order != [] && s.order[0] < |s.slots| && s.slots[s.order[0]] == output && output.value.data.Some?
    ensures Consistent(s.(output := output))
  {
    var t := s.(output := output);
    assert forall x: nat :: Live(s.(output := None), x) <==> Live(t, x);
    assert forall x: nat :: Zombie(s.(output := None), x) <==> Zombie(t, x);
  }

  /** Every legal clock edge keeps the queue consistent. */
  lemma TickConsistent(s: Queue, i: Inputs)
    requires Consistent(s) && Legal(s, i)
    ensures Consistent(Tick(s, i))
  {
    if !i.rst {
      SettledFrom(s);
      MovedSettled(s, i);
      if NextOutput(s, i).Some? { SnapshotFits(s, i); }
      ConsistentFrom(Moved(s, i), NextOutput(s, i));
      hide Consistent, Settled, Moved, NextOutput;
    }
  }

  /** The snapshot register shows the oldest entry as the queue holds it after the edge. */
  lemma SnapshotFits(s: Queue, i: Inputs)
    requires Consistent(s) && !i.rst && Legal(s, i) && NextOutput(s, i).Some?
    ensures var t := Moved(s, i);
            && t.order != [] && t.order[0] < |t.slots|
            && t.slots[t.order[0]] == NextOutput(s, i) && NextOutput(s, i).value.data.Some?
  {
    MovedKeeps(s, i);
    SettledFrom(s);
    MovedSettled(s, i);
    MovedWellFormed(s, i);
    hide Moved, Legal;
  }

  lemma MovedWellFormed(s: Queue, i: Inputs)
    requires !i.rst && WellFormed(s) && Legal(s, i) && Settled(Moved(s, i))
    ensures WellFormed(Moved(s, i))
  {
  }

  // ------------------------------------------------------------- the record

  datatype Answer = Answer(data: nat, exc: bool, cause: nat)
  datatype Request = Request(id: nat, pc: nat)
  /** A delivery: which request, what was shown, the edges at which the snapshot was captured and taken,
      and the last edge up to then at which an update named its identifier. */
  datatype Delivery = Delivery(serial: nat, entry: Entry, captured: nat, at: nat, updated: Option<nat>)

  /** What happened since the last reset. Requests are numbered by the order of their reservation;
      `serial` gives the number of the request that occupies a slot. */
  datatype Log = Log(
    now: nat, requests: seq<Request>, serial: map<nat, nat>, answers: map<nat, Answer>,
    killed: set<nat>, delivered: seq<Delivery>, captured: nat, updated: map<nat, nat>)

  function Fresh(): Log { Log(0, [], map[], map[], {}, [], 0, map[]) }

  function SerialOf(log: Log, slot: nat): nat { if slot in log.serial then log.serial[slot] else 0 }

  function LogReserve(log: Log, s: Queue, i: Inputs): Log {
    if !i.reserve then log
    else log.(serial := log.serial[ReserveSlot(s, i) := |log.requests|],
              requests := log.requests + [Request(i.reserveId, i.reservePc)])
  }

  function LogResponse(log: Log, i: Inputs): Log {
    if !i.response then log
    else
      var answer := Answer(i.responseData, i.responseExc, i.responseCause);
      log.(answers := log.answers[SerialOf(log, i.responseIdx) := answer])
  }

  function LogKill(log: Log, s: Queue, i: Inputs): Log
    requires s.depth > 0
  {
    if !i.kill then log
    else log.(killed := log.killed + KilledSerials(log, s, i))
  }

  function KilledSerials(log: Log, s: Queue, i: Inputs): set<nat>
    requires s.depth > 0
  {
    set k | 0 <= k < |s.order| && KilledAt(s, i, s.order[k]) :: SerialOf(log, s.order[k])
  }

  function LogDeliver(log: Log, s: Queue, i: Inputs): Log {
    if !Delivers(s, i) || s.order == [] then log
    else
      var e := s.output.value;
      var updated := Updated(log.updated, i, log.now);
      log.(delivered := log.delivered + [Delivery(SerialOf(log, s.order[0]), e, log.captured, log.now,
                                                  if e.id in updated then Some(updated[e.id]) else None)])
  }

  function LogEdge(log: Log, s: Queue, i: Inputs): Log
    requires WellFormed(s)
  {
    log.(now := log.now + 1, captured := if Captures(s, i) then log.now else log.captured,
         updated := Updated(log.updated, i, log.now))
  }

  /** The record after one clock edge, from the inputs and the state before it. */
  function Recorded(log: Log, s: Queue, i: Inputs): Log
    requires WellFormed(s) && Legal(s, i)
  {
    if i.rst then Fresh()
    else LogEdge(LogDeliver(LogKill(LogResponse(LogReserve(log, s, i), i), Filled(s, i), i), s, i), s, i)
  }

  /** For every identifier, the last edge at which a slow or resolve update named it. */
  function Updated(updated: map<nat, nat>, i: Inputs, now: nat): map<nat, nat> {
    var u := if i.slowUpdate then updated[i.slowId := now] else updated;
    if i.resolveUpdate then u[i.resolveId := now] else u
  }

  /** An entry is the one reserved under this number, with the response to it, if it has come. */
  ghost predicate Matches(log: Log, n: nat, e: Entry) {
    && n < |log.requests| && log.requests[n] == Request(e.id, e.pc)
    && (if e.data.Some? then n in log.answers && log.answers[n] == Answer(e.data.value, e.excValid, e.excCause)
        else n !in log.answers)
  }

  /** The requests in program order, by number. */
  function Serials(log: Log, order: seq<nat>): seq<nat> {
    seq(|order|, k requires 0 <= k < |order| => SerialOf(log, order[k]))
  }

  function DeliveredSerials(log: Log): seq<nat> {
    seq(|log.delivered|, k requires 0 <= k < |log.delivered| => log.delivered[k].serial)
  }

  ghost predicate Increasing(q: seq<nat>) { forall j, k :: 0 <= j < k < |q| ==> q[j] < q[k] }

  /** Delivered requests, then live ones, in order of reservation; together with the killed ones they are
      all requests, each once. */
  ghost predicate Accounted(log: Log, order: seq<nat>) {
    var d, l := DeliveredSerials(log), Serials(log, order);
    && Increasing(d) && Increasing(l)
    && (forall m, n :: m in d && n in l ==> m < n)
    && (forall n: nat :: n < |log.requests| <==> n in d || n in l || n in log.killed)
    && (forall n :: n in log.killed ==> n !in d && n !in l)
  }

  ghost predicate Faithful(log: Log, s: Queue) {
    && (forall x: nat :: x < |s.slots| && s.slots[x].Some? ==>
        x in log.serial && Matches(log, log.serial[x], s.slots[x].value))
    && (forall x: nat, y: nat :: x < |s.slots| && s.slots[x].Some? && y < |s.slots| && s.slots[y].Some? && x != y ==>
        SerialOf(log, x) != SerialOf(log, y))
    && (forall n :: n in log.answers ==> n < |log.requests|)
    && (forall k :: 0 <= k < |log.delivered| ==>
        Matches(log, log.delivered[k].serial, log.delivered[k].entry) && log.delivered[k].entry.data.Some?)
  }

  /** The record agrees with the queue. */
  ghost predicate Book(log: Log, s: Queue) {
    Faithful(log, s) && Accounted(log, s.order)
  }

  lemma ReserveBooked(log: Log, s: Queue, i: Inputs)
    requires Settled(s) && ReserveOk(s, i) && Book(log, s)
    ensures Book(LogReserve(log, s, i), Reserved(s, i))
  {
    if i.reserve {
      var k := ReserveSlot(s, i);
      var n := |log.requests|;
      var log', s' := LogReserve(log, s, i), Reserved(s, i);
      forall j | 0 <= j < |s.order| ensures s.order[j] != k { assert Live(s, s.order[j]); }
      assert DeliveredSerials(log') == DeliveredSerials(log);
      assert Serials(log', s'.order) == Serials(log, s.order) + [n];
      var l := Serials(log, s.order);
      assert forall j :: 0 <= j < |l| ==> l[j] in l;
      assert Faithful(log', s') by { ReserveFaithful(log, s, i); }
    }
  }

  lemma ReserveFaithful(log: Log, s: Queue, i: Inputs)
    requires |s.slots| == SLOTS && ReserveOk(s, i) && Faithful(log, s) && i.reserve
    ensures Faithful(LogReserve(log, s, i), Reserved(s, i))
  {
    var log', s' := LogReserve(log, s, i), Reserved(s, i);
    forall x: nat | x < |s'.slots| && s'.slots[x].Some?
      ensures x in log'.serial && Matches(log', log'.serial[x], s'.slots[x].value)
    {
      if x != ReserveSlot(s, i) { assert Matches(log, log.serial[x], s.slots[x].value); }
    }
    forall k | 0 <= k < |log'.delivered| ensures Matches(log', log'.delivered[k].serial, log'.delivered[k].entry) {
      assert Matches(log, log.delivered[k].serial, log.delivered[k].entry);
    }
    forall x: nat, y: nat | x < |s'.slots| && s'.slots[x].Some? && y < |s'.slots| && s'.slots[y].Some? && x != y
      ensures SerialOf(log', x) != SerialOf(log', y)
    {
      if x != ReserveSlot(s, i) { assert Matches(log, log.serial[x], s.slots[x].value); }
      if y != ReserveSlot(s, i) { assert Matches(log, log.serial[y], s.slots[y].value); }
    }
  }

  lemma ResponseBooked(log: Log, s: Queue, i: Inputs)
    requires Settled(s) && ResponseOk(s, i) && Book(log, s)
    ensures Book(LogResponse(log, i), Responded(s, i))
  {
    if i.response {
      var log', s' := LogResponse(log, i), Responded(s, i);
      var x0 := i.responseIdx;
      assert Matches(log, log.serial[x0], s.slots[x0].value);
      forall x: nat | x < |s'.slots| && s'.slots[x].Some?
        ensures x in log'.serial && Matches(log', log'.serial[x], s'.slots[x].value)
      {
        assert Matches(log, log.serial[x], s.slots[x].value);
        if x != x0 { assert SerialOf(log, x) != SerialOf(log, x0); }
      }
      forall k | 0 <= k < |log'.delivered| ensures Matches(log', log'.delivered[k].serial, log'.delivered[k].entry) {
        assert Matches(log, log.delivered[k].serial, log.delivered[k].entry);
      }
      assert Serials(log', s'.order) == Serials(log, s.order) && DeliveredSerials(log') == DeliveredSerials(log);
      assert forall x: nat :: SerialOf(log', x) == SerialOf(log, x);
    }
  }

  /** Number n belongs to an entry of this order that survives the kill. */
  ghost predicate Spared(log: Log, s: Queue, i: Inputs, order: seq<nat>, n: nat)
    requires s.depth > 0
  {
    exists k :: 0 <= k < |order| && SerialOf(log, order[k]) == n && !KilledAt(s, i, order[k])
  }

  lemma SparedAppend(log: Log, s: Queue, i: Inputs, init: seq<nat>, x: nat, n: nat)
    requires s.depth > 0
    ensures Spared(log, s, i, init + [x], n) <==>
            Spared(log, s, i, init, n) || (SerialOf(log, x) == n && !KilledAt(s, i, x))
  {
    var order := init + [x];
    if Spared(log, s, i, init, n) {
      var k :| 0 <= k < |init| && SerialOf(log, init[k]) == n && !KilledAt(s, i, init[k]);
      assert order[k] == init[k];
    }
    assert order[|init|] == x;
    if Spared(log, s, i, order, n) {
      var k :| 0 <= k < |order| && SerialOf(log, order[k]) == n && !KilledAt(s, i, order[k]);
      assert k < |init| ==> order[k] == init[k];
    }
    hide SerialOf, KilledAt;
  }

  lemma SerialsAppend(log: Log, init: seq<nat>, x: nat)
    ensures Serials(log, init + [x]) == Serials(log, init) + [SerialOf(log, x)]
  {
    hide SerialOf;
  }

  /** The numbers of the survivors are those of the order without the killed, still in order. */
  lemma {:induction false} SurvivorSerials(log: Log, s: Queue, i: Inputs, order: seq<nat>)
    requires s.depth > 0 && Increasing(Serials(log, order))
    ensures Increasing(Serials(log, Survivors(s, i, order)))
    ensures forall n: nat :: n in Serials(log, Survivors(s, i, order)) <==> Spared(log, s, i, order, n)
  {
    if order != [] {
      var m := |order| - 1;
      var init, x := order[..m], order[m];
      assert order == init + [x];
      SerialsAppend(log, init, x);
      var l := Serials(log, init);
      assert Increasing(l) by { assert forall j :: 0 <= j < m ==> l[j] == Serials(log, order)[j]; }
      SurvivorSerials(log, s, i, init);
      var kept := Survivors(s, i, init);
      SerialsAppend(log, kept, x);
      forall n: nat | Spared(log, s, i, init, n) ensures n < SerialOf(log, x) {
        var k :| 0 <= k < |init| && SerialOf(log, init[k]) == n && !KilledAt(s, i, init[k]);
        assert Serials(log, order)[k] < Serials(log, order)[m];
      }
      var l' := Serials(log, kept);
      forall k | 0 <= k < |l'| ensures l'[k] < SerialOf(log, x) { assert l'[k] in l'; }
      forall n: nat ensures n in Serials(log, Survivors(s, i, order)) <==> Spared(log, s, i, order, n) {
        SparedAppend(log, s, i, init, x, n);
      }
    }
    hide SerialOf, KilledAt, Spared;
  }

  /** The kill splits the live numbers into the survivors' and the newly killed ones. */
  lemma KillSplits(log: Log, s: Queue, i: Inputs, n: nat)
    requires s.depth > 0 && Increasing(Serials(log, s.order))
    ensures n in Serials(log, s.order) <==> Spared(log, s, i, s.order, n) || n in KilledSerials(log, s, i)
    ensures !(Spared(log, s, i, s.order, n) && n in KilledSerials(log, s, i))
  {
    var l := Serials(log, s.order);
    if n in l {
      var k :| 0 <= k < |l| && l[k] == n;
      assert SerialOf(log, s.order[k]) == n;
    }
    if Spared(log, s, i, s.order, n) {
      var k :| 0 <= k < |s.order| && SerialOf(log, s.order[k]) == n && !KilledAt(s, i, s.order[k]);
      assert l[k] == n;
      forall j | 0 <= j < |s.order| && SerialOf(log, s.order[j]) == n ensures j == k { assert l[j] == n; }
    }
    if n in KilledSerials(log, s, i) {
      var j :| 0 <= j < |s.order| && KilledAt(s, i, s.order[j]) && SerialOf(log, s.order[j]) == n;
      assert l[j] == n;
    }
    hide SerialOf, KilledAt;
  }

  lemma KillAccounted(log: Log, s: Queue, i: Inputs)
    requires s.depth > 0 && Accounted(log, s.order) && i.kill
    ensures Accounted(LogKill(log, s, i), Survivors(s, i, s.order))
  {
    var log', order' := LogKill(log, s, i), Survivors(s, i, s.order);
    SameSerials(log, log', order');
    SurvivorSerials(log, s, i, s.order);
    forall n: nat
      ensures n in Serials(log, s.order) <==> n in Serials(log, order') || n in KilledSerials(log, s, i)
      ensures !(n in Serials(log, order') && n in KilledSerials(log, s, i))
    {
      KillSplits(log, s, i, n);
    }
    hide Survivors, KilledAt, SerialOf, KilledSerials, Serials, DeliveredSerials;
  }

  lemma SameSerials(log: Log, log': Log, order: seq<nat>)
    requires log'.serial == log.serial && log'.delivered == log.delivered
    ensures Serials(log', order) == Serials(log, order) && DeliveredSerials(log') == DeliveredSerials(log)
  {
  }

  /** Dropping entries or turning them into zombies keeps the record faithful. */
  lemma FewerFaithful(log: Log, s: Queue, log': Log, s': Queue)
    requires Faithful(log, s) && |s'.slots| == |s.slots|
    requires log'.requests == log.requests && log'.serial == log.serial && log'.answers == log.answers
    requires log'.delivered == log.delivered
    requires forall x: nat :: x < |s'.slots| && s'.slots[x].Some? ==>
               s.slots[x].Some? && s'.slots[x].value.(zombie := false) == s.slots[x].value.(zombie := false)
    ensures Faithful(log', s')
  {
    forall x: nat | x < |s'.slots| && s'.slots[x].Some?
      ensures x in log'.serial && Matches(log', log'.serial[x], s'.slots[x].value)
    {
      assert Matches(log, log.serial[x], s.slots[x].value);
    }
    forall k | 0 <= k < |log'.delivered| ensures Matches(log', log'.delivered[k].serial, log'.delivered[k].entry) {
      assert Matches(log, log.delivered[k].serial, log.delivered[k].entry);
    }
  }

  lemma KillFaithful(log: Log, s: Queue, i: Inputs)
    requires Settled(s) && Faithful(log, s) && i.kill
    ensures Faithful(LogKill(log, s, i), AfterKill(s, i))
  {
    KillShape(s, i);
    forall x: nat | x < SLOTS
      ensures var t := AfterKill(s, i).slots[x];
              t.Some? ==> s.slots[x].Some? && t.value.(zombie := false) == s.slots[x].value.(zombie := false)
    {
      KillSlot(s, i, x);
    }
    hide AfterKill, KilledSerials, Faithful;
    FewerFaithful(log, s, LogKill(log, s, i), AfterKill(s, i));
  }

  lemma KillBooked(log: Log, s: Queue, i: Inputs)
    requires Settled(s) && Book(log, s)
    ensures Book(LogKill(log, s, i), AfterKill(s, i))
  {
    if i.kill {
      KillFaithful(log, s, i);
      KillAccounted(log, s, i);
      KillShape(s, i);
      hide LogKill, AfterKill, Faithful, Accounted;
    }
  }

  lemma DeliverFaithful(log: Log, s: Queue, t: Queue, i: Inputs)
    requires Settled(t) && Faithful(log, t) && Delivers(s, i) && s.output.value.data.Some?
    requires t.order != [] && s.order != [] && t.order[0] == s.order[0] && t.slots[t.order[0]] == s.output
    ensures Faithful(LogDeliver(log, s, i), AfterDequeue(t, true))
  {
    var log', t' := LogDeliver(log, s, i), AfterDequeue(t, true);
    var x0 := t.order[0];
    assert Live(t, x0) && Matches(log, log.serial[x0], t.slots[x0].value);
    assert t'.slots == t.slots[x0 := None];
    var last := log'.delivered[|log.delivered|];
    assert last.serial == log.serial[x0] && last.entry == t.slots[x0].value;
    hide LogDeliver, AfterDequeue, Settled;
    SameRequests(log, log', t, t');
    forall k | 0 <= k < |log'.delivered|
      ensures Matches(log', log'.delivered[k].serial, log'.delivered[k].entry) && log'.delivered[k].entry.data.Some?
    {
      if k < |log.delivered| {
        assert Matches(log, log.delivered[k].serial, log.delivered[k].entry);
        assert log'.delivered[k] == log.delivered[k];
      }
    }
    hide Matches;
  }

  /** Moving the first number of one increasing list to the end of another, smaller one. */
  lemma MoveFirst(d: seq<nat>, l: seq<nat>)
    requires Increasing(d) && Increasing(l) && l != [] && forall m, n :: m in d && n in l ==> m < n
    ensures Increasing(d + [l[0]]) && Increasing(l[1..])
    ensures forall m, n :: m in d + [l[0]] && n in l[1..] ==> m < n
    ensures forall n :: n in d || n in l <==> n in d + [l[0]] || n in l[1..]
  {
    var d', l' := d + [l[0]], l[1..];
    assert l == [l[0]] + l' && l[0] in l;
    assert forall k :: 0 <= k < |d| ==> d[k] in d;
    assert forall n :: n in l' ==> n in l;
    forall n | n in l' ensures l[0] < n {
      var k :| 0 <= k < |l'| && l'[k] == n;
      assert l[k + 1] == n;
    }
  }

  lemma DeliverAccounted(log: Log, log': Log, order: seq<nat>)
    requires Accounted(log, order) && order != []
    requires log'.serial == log.serial && log'.requests == log.requests && log'.killed == log.killed
    requires DeliveredSerials(log') == DeliveredSerials(log) + [SerialOf(log, order[0])]
    ensures Accounted(log', order[1..])
  {
    var l, d := Serials(log, order), DeliveredSerials(log);
    assert Serials(log', order[1..]) == l[1..] && l[0] == SerialOf(log, order[0]);
    MoveFirst(d, l);
    hide Serials, DeliveredSerials, SerialOf, Increasing;
  }

  lemma DeliverBooked(log: Log, s: Queue, t: Queue, i: Inputs)
    requires Settled(t) && Book(log, t) && Consistent(s) && Delivers(s, i)
    requires t.order != [] && t.order[0] == s.order[0] && t.slots[t.order[0]] == s.output
    ensures Book(LogDeliver(log, s, i), AfterDequeue(t, true))
  {
    var log' := LogDeliver(log, s, i);
    DeliverFaithful(log, s, t, i);
    assert DeliveredSerials(log') == DeliveredSerials(log) + [SerialOf(log, t.order[0])];
    DeliverAccounted(log, log', t.order);
    hide Faithful, Accounted, Consistent, DeliveredSerials;
  }

  lemma SameRequests(log: Log, log': Log, t: Queue, t': Queue)
    requires Faithful(log, t) && |t'.slots| == |t.slots|
    requires log'.requests == log.requests && log'.serial == log.serial && log'.answers == log.answers
    requires forall x: nat :: x < |t'.slots| && t'.slots[x].Some? ==> t'.slots[x] == t.slots[x]
    ensures forall x: nat :: x < |t'.slots| && t'.slots[x].Some? ==>
            x in log'.serial && Matches(log', log'.serial[x], t'.slots[x].value)
    ensures forall m, e :: Matches(log', m, e) <==> Matches(log, m, e)
  {
  }

  // ------------------------------------------------------- fresh snapshots

  /** The snapshot on display is no older than the last update of its identifier, and every delivery was
      of a snapshot captured after the last update known when it was taken. */
  ghost predicate Current(log: Log, s: Queue) {
    && (forall id :: id in log.updated ==> log.updated[id] < log.now)
    && (s.output.Some? ==> log.captured < log.now)
    && (s.output.Some? && s.output.value.id in log.updated ==> log.updated[s.output.value.id] < log.captured)
    && (forall k :: 0 <= k < |log.delivered| ==>
          log.delivered[k].captured < log.delivered[k].at < log.now
          && (log.delivered[k].updated.Some? ==> log.delivered[k].updated.value < log.delivered[k].captured))
  }

  lemma UpdatedOther(updated: map<nat, nat>, i: Inputs, now: nat, e: Option<Entry>)
    requires e.Some? && !Refresh(i, e)
    ensures e.value.id in Updated(updated, i, now) <==> e.value.id in updated
    ensures e.value.id in updated ==> Updated(updated, i, now)[e.value.id] == updated[e.value.id]
  {
  }

  lemma OutputCurrent(log: Log, s: Queue, i: Inputs)
    requires WellFormed(s) && Current(log, s) && NextOutput(s, i).Some?
    ensures var updated, e := Updated(log.updated, i, log.now), NextOutput(s, i).value;
            var captured := if Captures(s, i) then log.now else log.captured;
            captured <= log.now && (e.id in updated ==> updated[e.id] < captured)
  {
    if Captures(s, i) { UpdatedOther(log.updated, i, log.now, BriefEntry(s)); }
    if s.output.Some? && !Refresh(i, s.output) { UpdatedOther(log.updated, i, log.now, s.output); }
    hide Updated, BriefEntry;
  }

  lemma DeliveryCurrent(log: Log, s: Queue, i: Inputs)
    requires Current(log, s) && Delivers(s, i)
    ensures var updated, e := Updated(log.updated, i, log.now), s.output.value;
            log.captured < log.now && (e.id in updated ==> updated[e.id] < log.captured)
  {
    UpdatedOther(log.updated, i, log.now, s.output);
    hide Updated;
  }

  lemma RecordedEdge(log: Log, s: Queue, i: Inputs)
    requires WellFormed(s) && Legal(s, i) && !i.rst
    ensures var log', s' := Recorded(log, s, i), Tick(s, i);
            log'.updated == Updated(log.updated, i, log.now) && log'.now == log.now + 1
            && s'.output == NextOutput(s, i) && log'.captured == if Captures(s, i) then log.now else log.captured
  {
    hide Filled, Captures, NextOutput, KilledSerials, Updated, AfterKill, AfterDequeue;
  }

  lemma UpdatedEarlier(updated: map<nat, nat>, i: Inputs, now: nat)
    requires forall id :: id in updated ==> updated[id] < now
    ensures forall id :: id in Updated(updated, i, now) ==> Updated(updated, i, now)[id] <= now
  {
  }

  lemma TickCurrent(log: Log, s: Queue, i: Inputs)
    requires Consistent(s) && Legal(s, i) && Current(log, s)
    ensures Current(Recorded(log, s, i), Tick(s, i))
  {
    hide Recorded, Tick, Legal, Captures, Updated, NextOutput, Delivers, SerialOf;
    if i.rst {
      assert Recorded(log, s, i) == Fresh() && Tick(s, i).output.None? by { ResetEdge(log, s, i); }
    } else {
      RecordedEdge(log, s, i);
      DeliveredAfter(log, s, i);
      UpdatedEarlier(log.updated, i, log.now);
      if NextOutput(s, i).Some? { OutputCurrent(log, s, i); }
      if Delivers(s, i) { DeliveryCurrent(log, s, i); }
    }
  }

  lemma ResetEdge(log: Log, s: Queue, i: Inputs)
    requires WellFormed(s) && Legal(s, i) && i.rst
    ensures Recorded(log, s, i) == Fresh() && Tick(s, i) == Empty(s.depth)
  {
  }

  lemma DeliveredAfter(log: Log, s: Queue, i: Inputs)
    requires Consistent(s) && Legal(s, i) && !i.rst
    ensures !Delivers(s, i) ==> Recorded(log, s, i).delivered == log.delivered
    ensures Delivers(s, i) ==>
              var serial, e := SerialOf(LogResponse(LogReserve(log, s, i), i), s.order[0]), s.output.value;
              var u := Updated(log.updated, i, log.now);
              var updated := if e.id in u then Some(u[e.id]) else None;
              Recorded(log, s, i).delivered
              == log.delivered + [Delivery(serial, e, log.captured, log.now, updated)]
  {
    hide Filled, Captures, NextOutput, KilledSerials;
  }

  // ------------------------------------------------------------- all runs

  lemma EdgeKeepsBook(log: Log, s: Queue, i: Inputs, t: Queue)
    requires WellFormed(s) && Book(log, t)
    ensures Book(LogEdge(log, s, i), t)
  {
    var log' := LogEdge(log, s, i);
    SameSerials(log, log', t.order);
    SameRequests(log, log', t, t);
    hide Captures, Serials, DeliveredSerials, Matches, Updated;
  }

  lemma FilledBooked(log: Log, s: Queue, i: Inputs)
    requires Settled(s) && !i.rst && Legal(s, i) && Book(log, s)
    ensures Book(LogResponse(LogReserve(log, s, i), i), Filled(s, i))
  {
    hide Book, LogReserve, LogResponse, Settled, ReserveOk, ResponseOk, Responded;
    ReserveBooked(log, s, i);
    ReserveSettled(s, i);
    ResponseBooked(LogReserve(log, s, i), Reserved(s, i), i);
  }

  lemma MovedBooked(log: Log, s: Queue, i: Inputs)
    requires Consistent(s) && !i.rst && Legal(s, i)
    requires Book(log, Filled(s, i)) && Settled(Filled(s, i))
    ensures Book(LogDeliver(LogKill(log, Filled(s, i), i), s, i), Moved(s, i))
  {
    var t := Filled(s, i);
    KillBooked(log, t, i);
    KillSettled(t, i);
    if Delivers(s, i) {
      SettledFrom(s);
      FilledSettled(s, i);
      assert AfterKill(t, i) == t && LogKill(log, t, i) == log;
      assert s.order != [] && t.order[0] == s.order[0];
      DeliverBooked(log, s, t, i);
    }
    hide Book, LogKill, AfterKill, Filled, Settled, Legal, LogDeliver;
    assert !Delivers(s, i) ==> LogDeliver(LogKill(log, t, i), s, i) == LogKill(log, t, i) by {
      NoDelivery(LogKill(log, t, i), s, i);
    }
  }

  lemma NoDelivery(log: Log, s: Queue, i: Inputs)
    ensures !Delivers(s, i) ==> LogDeliver(log, s, i) == log
  {
  }

  lemma OutputFree(log: Log, s: Queue, output: Option<Entry>)
    requires Book(log, s)
    ensures Book(log, s.(output := output))
  {
    hide Matches;
  }

  lemma TickBooked(log: Log, s: Queue, i: Inputs)
    requires Consistent(s) && Legal(s, i) && Book(log, s)
    ensures Book(Recorded(log, s, i), Tick(s, i))
  {
    if i.rst {
      ResetEdge(log, s, i);
      assert Book(Fresh(), Empty(s.depth));
    } else {
      SettledFrom(s);
      FilledSettled(s, i);
      FilledBooked(log, s, i);
      var log2 := LogResponse(LogReserve(log, s, i), i);
      MovedBooked(log2, s, i);
      hide Book, LogKill, LogDeliver, LogReserve, LogResponse, LogEdge, Moved, Legal, Consistent, Settled, Filled;
      hide NextOutput;
      var log4 := LogDeliver(LogKill(log2, Filled(s, i), i), s, i);
      EdgeKeepsBook(log4, s, i, Moved(s, i));
      OutputFree(LogEdge(log4, s, i), Moved(s, i), NextOutput(s, i));
      TickParts(log, s, i);
    }
  }

  lemma TickParts(log: Log, s: Queue, i: Inputs)
    requires WellFormed(s) && Legal(s, i) && !i.rst
    ensures Tick(s, i) == Moved(s, i).(output := NextOutput(s, i))
    ensures Recorded(log, s, i) ==
            LogEdge(LogDeliver(LogKill(LogResponse(LogReserve(log, s, i), i), Filled(s, i), i), s, i), s, i)
  {
    hide LogKill, LogDeliver, LogReserve, LogResponse, LogEdge, AfterKill, AfterDequeue, Filled, NextOutput;
  }

  ghost predicate Leads(s: Queue, log: Log, inputs: seq<Inputs>, s': Queue, log': Log)
    decreases inputs
  {
    if inputs == [] then s' == s && log' == log
    else
      && WellFormed(s) && Legal(s, inputs[0])
      && Leads(Tick(s, inputs[0]), Recorded(log, s, inputs[0]), inputs[1..], s', log')
  }

  lemma {:induction false} RunsKeep(s: Queue, log: Log, inputs: seq<Inputs>, s': Queue, log': Log)
    requires Consistent(s) && Book(log, s) && Current(log, s) && Leads(s, log, inputs, s', log')
    ensures Consistent(s') && Book(log', s') && Current(log', s')
    decreases inputs
  {
    hide Consistent, Book, Current, Legal, Tick, Recorded, WellFormed;
    if inputs != [] {
      TickConsistent(s, inputs[0]);
      TickBooked(log, s, inputs[0]);
      TickCurrent(log, s, inputs[0]);
      RunsKeep(Tick(s, inputs[0]), Recorded(log, s, inputs[0]), inputs[1..], s', log');
    }
  }

  /** Every run from reset on legal inputs: slots and program order agree; what was delivered is, in order
      of reservation and each once, every request that is neither killed nor still waiting, with the
      response to that very request; and no delivery came from a snapshot older than an update to it. */
  lemma EveryRun(depth: nat, inputs: seq<Inputs>, s: Queue, log: Log)
    requires depth > 0 && Leads(Empty(depth), Fresh(), inputs, s, log)
    ensures Consistent(s) && Accounted(log, s.order)
    ensures forall k :: 0 <= k < |log.delivered| ==>
              var d := log.delivered[k];
              && d.serial < |log.requests| && log.requests[d.serial] == Request(d.entry.id, d.entry.pc)
              && d.serial in log.answers && d.entry.data.Some?
              && log.answers[d.serial] == Answer(d.entry.data.value, d.entry.excValid, d.entry.excCause)
              && d.captured < d.at && (d.updated.Some? ==> d.updated.value < d.captured)
  {
    assert Consistent(Empty(depth)) && Book(Fresh(), Empty(depth)) && Current(Fresh(), Empty(depth)) by { hide Leads; }
    hide Leads, Tick, Recorded, Consistent;
    RunsKeep(Empty(depth), Fresh(), inputs, s, log);
    forall k | 0 <= k < |log.delivered| ensures Matches(log, log.delivered[k].serial, log.delivered[k].entry) {
    }
    hide Accounted;
  }

  // --------------------------------------------------------------- zombies

  /** A zombie leaves its slot exactly when the response to it comes; until then it stays as it is. */
  lemma ZombieWaits(s: Queue, i: Inputs, x: nat)
    requires Consistent(s) && Legal(s, i) && !i.rst && Zombie(s, x)
    ensures Tick(s, i).slots[x] == if i.response && i.responseIdx == x then None else s.slots[x]
  {
    SettledFrom(s);
    FilledSettled(s, i);
    var t := Filled(s, i);
    assert t.slots[x] == if i.response && i.responseIdx == x then None else s.slots[x];
    if i.kill { KillSlot(t, i, x); }
    assert AfterKill(t, i).slots[x] == t.slots[x];
    if Delivers(s, i) {
      assert AfterKill(t, i) == t && t.order[0] == s.order[0];
      assert Live(s, s.order[0]);
    }
    hide Filled, AfterKill, NextOutput, Legal, Settled;
  }

  // -------------------------------------------------- the kill and the ring

  /** Live identifiers get further from the head in program order. */
  ghost predicate RingOrdered(s: Queue, head: nat)
    requires s.depth > 0
  {
    forall j, k :: 0 <= j < k < |s.order| && s.order[j] < |s.slots| && s.order[k] < |s.slots|
                   && s.slots[s.order[j]].Some? && s.slots[s.order[k]].Some? ==>
      Age(s.slots[s.order[j]].value.id, head, s.depth) < Age(s.slots[s.order[k]].value.id, head, s.depth)
  }

  /** Then every kill takes a suffix of program order, whatever its boundary, flags and generation. */
  lemma OrderedKillsSuffix(s: Queue, i: Inputs)
    requires Settled(s) && RingOrdered(s, i.head)
    ensures KillsSuffix(s, i)
  {
    forall j, k | 0 <= j < k < |s.order| && KilledAt(s, i, s.order[j]) ensures KilledAt(s, i, s.order[k]) {
      assert Live(s, s.order[j]) && Live(s, s.order[k]);
    }
    hide Age;
  }

  /** When the killed are a suffix of an order, the survivors are the prefix before it. */
  lemma {:induction false} SurvivorsPrefix(s: Queue, i: Inputs, order: seq<nat>)
    requires s.depth > 0
    requires forall j, k :: 0 <= j < k < |order| && KilledAt(s, i, order[j]) ==> KilledAt(s, i, order[k])
    ensures Survivors(s, i, order) <= order
  {
    if order != [] {
      var m := |order| - 1;
      SurvivorsPrefix(s, i, order[..m]);
      if !KilledAt(s, i, order[m]) { AllSurvive(s, i, order[..m]); }
      assert order == order[..m] + [order[m]];
    }
    hide KilledAt;
  }

  lemma {:induction false} AllSurvive(s: Queue, i: Inputs, order: seq<nat>)
    requires s.depth > 0 && forall k :: 0 <= k < |order| ==> !KilledAt(s, i, order[k])
    ensures Survivors(s, i, order) == order
  {
    hide KilledAt;
    if order != [] {
      var m := |order| - 1;
      AllSurvive(s, i, order[..m]);
      assert order == order[..m] + [order[m]];
    }
  }

  /** The survivors of a kill in an ordered ring are a prefix of program order, still ordered. */
  lemma KillKeepsOrder(s: Queue, i: Inputs)
    requires Settled(s) && RingOrdered(s, i.head)
    ensures AfterKill(s, i).order <= s.order && RingOrdered(AfterKill(s, i), i.head)
  {
    if i.kill {
      OrderedKillsSuffix(s, i);
      SurvivorsPrefix(s, i, s.order);
      KillShape(s, i);
      var t := AfterKill(s, i);
      forall x: nat | x < SLOTS && t.slots[x].Some?
        ensures s.slots[x].Some? && t.slots[x].value.id == s.slots[x].value.id
      {
        KillSlot(s, i, x);
      }
      assert t.depth == s.depth;
      hide AfterKill, Survivors, Age;
    }
  }

  /** Identifiers that count up within one turn of the ring, seen modulo its depth and so with any wrap
      position and any generation bits, are ordered from the head. */
  lemma CountingIsOrdered(s: Queue, head: nat, counts: seq<nat>, base: nat)
    requires WellFormed(s) && |counts| == |s.order| && base % s.depth == head % s.depth
    requires forall k :: 0 <= k < |s.order| ==>
               s.slots[s.order[k]].Some? && s.slots[s.order[k]].value.id % s.depth == counts[k] % s.depth
               && base <= counts[k] < base + s.depth
    requires Increasing(counts)
    ensures RingOrdered(s, head)
  {
    forall k | 0 <= k < |s.order| ensures Age(s.slots[s.order[k]].value.id, head, s.depth) == counts[k] - base {
      Rings.RingDistance(counts[k], base, s.depth);
    }
    hide Age;
  }

  /** So the assertion in the kill loop cannot fire while live identifiers are ordered from the head. */
  lemma AssertionHolds(s: Queue, i: Inputs)
    requires Consistent(s) && Legal(s, i) && !i.rst && i.kill && RingOrdered(s, i.head)
    ensures KillsSuffix(Filled(s, i), i)
  {
    SettledFrom(s);
    FilledSettled(s, i);
    var t := Filled(s, i);
    assert t.order == s.order && t.depth == s.depth;
    forall x: nat | x < SLOTS && t.slots[x].Some?
      ensures s.slots[x].Some? && t.slots[x].value.id == s.slots[x].value.id
    {
    }
    hide Filled, Age, Consistent, Settled;
    assert RingOrdered(t, i.head);
    OrderedKillsSuffix(t, i);
  }
}
