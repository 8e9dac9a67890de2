/** What the predictor learns, told from counters and predictions: training follows outcomes, and the prediction
    follows the counters. */
module TageLaws {
  import opened Rings
  import opened TagTable
  import opened Tage
  import opened Wrappers

  // ----------------------------------------------------------------- counters

  /** A saturating step: one up or one down, but not past the ends of an n-bit counter. */
  predicate Steps(before: nat, after: nat, up: bool, bits: nat) {
    if up then (if before == Pow2(bits) - 1 then after == before else after == before + 1)
    else if before == 0 then after == 0 else after == before - 1
  }

  lemma HalfPower(n: nat)
    requires n > 0
    ensures Pow2(n) == 2 * Pow2(n - 1)
  {
  }

  lemma CtrSteps(c: Config, ctr: nat, taken: bool)
    requires ctr <= CtrMax(c)
    ensures Steps(ctr, TrainCtr(c, ctr, taken), taken, c.ctrBits)
  {
    hide Pow2;
  }

  lemma UsefulSteps(c: Config, useful: nat, up: bool)
    requires useful <= UsefulMax(c)
    ensures Steps(useful, TrainUseful(c, useful, up), up, c.usefulBits)
  {
    hide Pow2;
  }

  /** A counter predicts taken from the middle of its range on. */
  lemma UpperHalf(c: Config, ctr: nat)
    requires ConfigOk(c) && ctr <= CtrMax(c)
    ensures PredictsTaken(c, ctr) <==> ctr >= Pow2(c.ctrBits - 1)
  {
    var half := Pow2(c.ctrBits - 1);
    HalfPower(c.ctrBits);
    hide Pow2;
    if ctr >= half { ModOf(ctr, 1, ctr - half, half); } else { ModOf(ctr, 0, ctr, half); }
  }

  // -------------------------------------------------------------- base counters

  function BaseOf(c: Config, p: Packet): nat
    requires ConfigOk(c)
  {
    MakeQuery(c, p.pc, p.folds).baseIdx
  }

  /** A committed slot's base counter steps with its outcome, any other slot keeps its own. */
  lemma BaseTrained(c: Config, s: Store, p: Packet, slot: nat)
    requires ConfigOk(c) && StoreOk(c, s) && p.valid && p.commit != {} && slot < c.slots
    ensures BaseOf(c, p) < |s.base| && StoreOk(c, Train(c, s, p))
    ensures var before, after := s.base[BaseOf(c, p)][slot], Train(c, s, p).base[BaseOf(c, p)][slot];
            if slot in p.commit then Steps(before, after, slot in p.taken, c.ctrBits) else after == before
  {
    TrainOk(c, s, p);
    TrainIsWrite(c, s, p);
    var q := MakeQuery(c, p.pc, p.folds);
    var base := s.base[q.baseIdx];
    assert BaseOk(c, base);
    CtrSteps(c, base[slot], slot in p.taken);
    hide MakeQuery, TrainCtr, Train, RowsNext, Pow2, RowOk, Steps;
  }

  /** A packet that is not valid, or commits nothing, teaches nothing. */
  lemma IdleKeeps(c: Config, s: Store, p: Packet)
    requires ConfigOk(c) && StoreOk(c, s) && (!p.valid || p.commit == {})
    ensures Train(c, s, p) == s
  {
    hide MakeQuery, StoreOk;
  }

  function TrainAll(c: Config, s: Store, packets: seq<Packet>): (r: Store)
    requires ConfigOk(c) && StoreOk(c, s)
    ensures StoreOk(c, r)
  {
    if packets == [] then s
    else
      TrainOk(c, TrainAll(c, s, packets[..|packets| - 1]), packets[|packets| - 1]);
      Train(c, TrainAll(c, s, packets[..|packets| - 1]), packets[|packets| - 1])
  }

  /** Packets that all report the same outcome of one branch slot of one base row. */
  predicate AllReport(c: Config, packets: seq<Packet>, baseIdx: nat, slot: nat, taken: bool)
    requires ConfigOk(c)
  {
    forall k :: 0 <= k < |packets| ==>
      packets[k].valid && BaseOf(c, packets[k]) == baseIdx && slot in packets[k].commit
      && (slot in packets[k].taken <==> taken)
  }

  function Least(a: int, b: int): int { if a < b then a else b }

  lemma {:induction false} CounterClimbs(c: Config, s: Store, packets: seq<Packet>, baseIdx: nat, slot: nat)
    requires ConfigOk(c) && StoreOk(c, s) && slot < c.slots && baseIdx < |s.base|
    requires AllReport(c, packets, baseIdx, slot, true)
    ensures baseIdx < |TrainAll(c, s, packets).base|
    ensures TrainAll(c, s, packets).base[baseIdx][slot] >= Least(|packets|, Pow2(c.ctrBits) - 1)
    decreases |packets|
  {
    if packets != [] {
      var rest := packets[..|packets| - 1];
      CounterClimbs(c, s, rest, baseIdx, slot);
      BaseTrained(c, TrainAll(c, s, rest), packets[|packets| - 1], slot);
    }
    hide Train, StoreOk, Pow2, BaseOf;
  }

  lemma {:induction false} CounterFalls(c: Config, s: Store, packets: seq<Packet>, baseIdx: nat, slot: nat)
    requires ConfigOk(c) && StoreOk(c, s) && slot < c.slots && baseIdx < |s.base|
    requires AllReport(c, packets, baseIdx, slot, false)
    ensures baseIdx < |TrainAll(c, s, packets).base|
    ensures |packets| < Pow2(c.ctrBits) ==>
              TrainAll(c, s, packets).base[baseIdx][slot] <= Pow2(c.ctrBits) - 1 - |packets|
    ensures |packets| >= Pow2(c.ctrBits) ==> TrainAll(c, s, packets).base[baseIdx][slot] == 0
    decreases |packets|
  {
    if packets != [] {
      var rest := packets[..|packets| - 1];
      CounterFalls(c, s, rest, baseIdx, slot);
      BaseTrained(c, TrainAll(c, s, rest), packets[|packets| - 1], slot);
    } else {
      assert BaseOk(c, s.base[baseIdx]);
    }
    hide Train, Pow2, BaseOf, RowOk;
  }

  predicate Hit(q: Query, rows: seq<PredRow>, t: nat) {
    t < |rows| && t < |q.tags| && rows[t].valid && rows[t].tag == q.tags[t]
  }

  /** What the predictor answers when no tagged row matches: the direction of the base counter. */
  lemma BasePredicts(c: Config, s: Store, q: Query, slot: nat)
    requires ConfigOk(c) && StoreOk(c, s) && QueryOk(c, q) && slot < c.slots
    requires forall t :: 0 <= t < Tables(c) ==> !Hit(q, RowsAt(s, q), t)
    ensures SnapshotOk(c, Read(c, s, q))
    ensures slot in Predict(c, Read(c, s, q)).taken <==> s.base[q.baseIdx][slot] >= Pow2(c.ctrBits - 1)
  {
    ReadOk(c, s, q);
    var snap := Read(c, s, q);
    forall t | 0 <= t < Tables(c) ensures !Matches(q, snap.rows, t) {
      assert !Hit(q, snap.rows, t);
    }
    ProviderIsLongest(c, snap, slot);
    assert BaseOk(c, s.base[q.baseIdx]);
    UpperHalf(c, s.base[q.baseIdx][slot]);
    hide Predict, Unpack, Pow2, StoreOk, PredictsTaken, CtrMax;
  }

  /** Enough packets of one outcome leave the counter in that outcome's half. */
  lemma CounterSettles(c: Config, s: Store, packets: seq<Packet>, baseIdx: nat, slot: nat, taken: bool)
    requires ConfigOk(c) && StoreOk(c, s) && slot < c.slots && baseIdx < |s.base|
    requires AllReport(c, packets, baseIdx, slot, taken) && |packets| >= Pow2(c.ctrBits - 1)
    ensures baseIdx < |TrainAll(c, s, packets).base|
    ensures TrainAll(c, s, packets).base[baseIdx][slot] >= Pow2(c.ctrBits - 1) <==> taken
  {
    HalfPower(c.ctrBits);
    if taken { CounterClimbs(c, s, packets, baseIdx, slot); } else { CounterFalls(c, s, packets, baseIdx, slot); }
    hide TrainAll, Pow2, AllReport, StoreOk;
  }

  /** A branch slot that is taken 2^(ctrBits - 1) times in a row is predicted taken from then on, as long as no
      tagged row speaks for it; one that is not taken as often is predicted not taken. */
  lemma LearnsDirection(c: Config, s: Store, packets: seq<Packet>, q: Query, slot: nat, taken: bool)
    requires ConfigOk(c) && StoreOk(c, s) && QueryOk(c, q) && slot < c.slots
    requires AllReport(c, packets, q.baseIdx, slot, taken) && |packets| >= Pow2(c.ctrBits - 1)
    requires forall t :: 0 <= t < Tables(c) ==> !Hit(q, RowsAt(TrainAll(c, s, packets), q), t)
    ensures SnapshotOk(c, Read(c, TrainAll(c, s, packets), q))
    ensures slot in Predict(c, Read(c, TrainAll(c, s, packets), q)).taken <==> taken
  {
    BasePredicts(c, TrainAll(c, s, packets), q, slot);
    CounterSettles(c, s, packets, q.baseIdx, slot, taken);
    hide Predict, Read, Pow2, TrainAll, RowsAt, AllReport, SnapshotOk, Hit, StoreOk;
  }

  // -------------------------------------------------------------- tagged rows

  /** A row that a mispredicted slot may claim: empty, its own already, or useful to no slot. */
  predicate Claimable(q: Query, rows: seq<PredRow>, t: nat) {
    t < |rows| && t < |q.tags|
    && (!rows[t].valid || rows[t].tag == q.tags[t] || forall k :: 0 <= k < |rows[t].useful| ==> rows[t].useful[k] == 0)
  }

  /** The provider's row after reinforcement: its counter for the slot steps with the outcome; its usefulness for the
      slot steps up or down as it was right or wrong, if the alternative said otherwise; nothing else changes. */
  ghost predicate Reinforced(c: Config, r: PredRow, r': PredRow, slot: nat, actual: bool, u: SlotPrediction) {
    && r'.valid == r.valid && r'.tag == r.tag && |r'.ctr| == |r.ctr| && |r'.useful| == |r.useful|
    && slot < |r.ctr| && slot < |r.useful|
    && Steps(r.ctr[slot], r'.ctr[slot], actual, c.ctrBits)
    && (if u.alt == u.providerPred then r'.useful[slot] == r.useful[slot]
        else Steps(r.useful[slot], r'.useful[slot], u.providerPred == actual, c.usefulBits))
    && (forall k :: 0 <= k < |r.ctr| && k != slot ==> r'.ctr[k] == r.ctr[k])
    && (forall k :: 0 <= k < |r.useful| && k != slot ==> r'.useful[k] == r.useful[k])
  }

  /** A claimed row: valid, tagged for the branch, weak in the direction of the outcome for the slot and not useful
      for it yet. Other slots keep what they had under the same tag, and otherwise start weakly not taken. */
  ghost predicate Claimed(c: Config, q: Query, t: nat, r: PredRow, r': PredRow, slot: nat, actual: bool)
    requires ConfigOk(c)
  {
    && t < |q.tags| && r'.valid && r'.tag == q.tags[t] && |r'.ctr| == c.slots && |r'.useful| == c.slots
    && slot < c.slots && r'.useful[slot] == 0
    && r'.ctr[slot] == (if actual then Pow2(c.ctrBits - 1) else Pow2(c.ctrBits - 1) - 1)
    && (forall k :: 0 <= k < c.slots && k != slot ==>
          if r.valid && r.tag == q.tags[t] && k < |r.ctr| && k < |r.useful|
          then r'.ctr[k] == r.ctr[k] && r'.useful[k] == r.useful[k]
          else r'.ctr[k] == Pow2(c.ctrBits - 1) - 1 && r'.useful[k] == 0)
  }

  /** An aged row: every slot's usefulness steps down. */
  ghost predicate Aged(c: Config, r: PredRow, r': PredRow) {
    && r'.valid == r.valid && r'.tag == r.tag && r'.ctr == r.ctr && |r'.useful| == |r.useful|
    && forall k :: 0 <= k < |r.useful| ==> Steps(r.useful[k], r'.useful[k], false, c.usefulBits)
  }

  /** What reinforcement makes of row t: only the provider's row changes, and only if it still matched. */
  ghost predicate ReinforcedAt(c: Config, q: Query, original: seq<PredRow>, rows: seq<PredRow>, rows': seq<PredRow>,
                               p: Packet, slot: nat, t: nat)
    requires t < |rows| == |rows'|
  {
    var u := Unpack(c.slots, p.meta, slot);
    if t == u.provider && Hit(q, original, t) then Reinforced(c, rows[t], rows'[t], slot, slot in p.taken, u)
    else rows'[t] == rows[t]
  }

  /** What allocation makes of row t: a wrong direction claims the first claimable row of a longer history, ages the
      next longer one if none is claimable, and touches no other; a right one touches nothing. */
  ghost predicate AllocatedAt(c: Config, q: Query, rows: seq<PredRow>, rows': seq<PredRow>, p: Packet, slot: nat,
                              t: nat)
    requires ConfigOk(c) && t < |rows| == |rows'|
  {
    var u := Unpack(c.slots, p.meta, slot);
    var first := if u.provider < Tables(c) then u.provider + 1 else 0;
    var wrong := u.final != (slot in p.taken);
    if wrong && first <= t && Claimable(q, rows, t) && (forall k :: first <= k < t ==> !Claimable(q, rows, k))
    then Claimed(c, q, t, rows[t], rows'[t], slot, slot in p.taken)
    else if wrong && t == first && (forall k :: first <= k < |rows| ==> !Claimable(q, rows, k))
    then Aged(c, rows[t], rows'[t])
    else rows'[t] == rows[t]
  }

  lemma ReinforceLaw(c: Config, q: Query, original: seq<PredRow>, rows: seq<PredRow>, p: Packet, slot: nat, t: nat)
    requires ConfigOk(c) && RowsOk(c, original) && RowsOk(c, rows) && slot < c.slots && |q.tags| == Tables(c)
    requires t < Tables(c)
    ensures |ReinforceStep(c, q, original, rows, p, slot)| == |rows|
    ensures ReinforcedAt(c, q, original, rows, ReinforceStep(c, q, original, rows, p, slot), p, slot, t)
  {
    assert RowOk(c, rows[t]);
    var u := Unpack(c.slots, p.meta, slot);
    CtrSteps(c, rows[t].ctr[slot], slot in p.taken);
    UsefulSteps(c, rows[t].useful[slot], u.providerPred == (slot in p.taken));
    hide Unpack, TrainCtr, TrainUseful, Steps, CtrMax, UsefulMax;
  }

  lemma ClaimLaw(c: Config, q: Query, t: nat, r: PredRow, slot: nat, actual: bool)
    requires ConfigOk(c) && RowOk(c, r) && slot < c.slots && t < |q.tags|
    ensures Claimed(c, q, t, r, Allocate(c, q.tags[t], r, slot, actual), slot, actual)
  {
    hide Pow2;
  }

  lemma AgeLaw(c: Config, r: PredRow)
    requires RowOk(c, r)
    ensures Aged(c, r, Weaken(c, r))
  {
    forall k | 0 <= k < |r.useful| ensures Steps(r.useful[k], Weaken(c, r).useful[k], false, c.usefulBits) {
      UsefulSteps(c, r.useful[k], false);
    }
    hide Steps, TrainUseful;
  }

  lemma AllocateLaw(c: Config, q: Query, rows: seq<PredRow>, p: Packet, slot: nat, t: nat)
    requires ConfigOk(c) && RowsOk(c, rows) && slot < c.slots && |q.tags| == Tables(c) && t < Tables(c)
    ensures |AllocateStep(c, q, rows, p, slot)| == |rows|
    ensures AllocatedAt(c, q, rows, AllocateStep(c, q, rows, p, slot), p, slot, t)
  {
    assert RowOk(c, rows[t]);
    ClaimLaw(c, q, t, rows[t], slot, slot in p.taken);
    AgeLaw(c, rows[t]);
    forall k | 0 <= k < Tables(c) ensures Claimable(q, rows, k) <==> Replaceable(q, rows, k) { }
    hide Unpack, Allocate, Weaken, Claimed, Aged, RowOk, Claimable, Replaceable;
  }

  /** One committed slot: reinforcement, then allocation, on every row. */
  ghost predicate SlotTrained(c: Config, q: Query, original: seq<PredRow>, rows: seq<PredRow>, rows': seq<PredRow>,
                              p: Packet, slot: nat)
    requires ConfigOk(c) && |rows| == |rows'|
  {
    exists mid: seq<PredRow> :: |mid| == |rows|
      && forall t :: 0 <= t < |rows| ==>
           ReinforcedAt(c, q, original, rows, mid, p, slot, t) && AllocatedAt(c, q, mid, rows', p, slot, t)
  }

  lemma SlotLaw(c: Config, q: Query, original: seq<PredRow>, rows: seq<PredRow>, p: Packet, slot: nat)
    requires ConfigOk(c) && RowsOk(c, original) && RowsOk(c, rows) && slot < c.slots && |q.tags| == Tables(c)
    ensures |SlotNext(c, q, original, rows, p, slot)| == |rows|
    ensures SlotTrained(c, q, original, rows, SlotNext(c, q, original, rows, p, slot), p, slot)
  {
    ReinforceOk(c, q, original, rows, p, slot);
    var mid := ReinforceStep(c, q, original, rows, p, slot);
    hide ReinforceStep, AllocateStep, ReinforcedAt, AllocatedAt, RowOk;
    forall t | 0 <= t < |rows|
      ensures |mid| == |rows| && |AllocateStep(c, q, mid, p, slot)| == |rows|
      ensures ReinforcedAt(c, q, original, rows, mid, p, slot, t)
      ensures AllocatedAt(c, q, mid, AllocateStep(c, q, mid, p, slot), p, slot, t)
    {
      ReinforceLaw(c, q, original, rows, p, slot, t);
      AllocateLaw(c, q, mid, p, slot, t);
    }
  }

  /** The committed slots, lowest first, as steps from the rows the packet read to the rows it leaves. */
  ghost predicate TrainedBy(c: Config, q: Query, steps: seq<seq<PredRow>>, p: Packet)
    requires ConfigOk(c)
  {
    steps != [] && (forall k :: 0 <= k < |steps| ==> |steps[k]| == Tables(c))
    && forall k :: 0 <= k < |steps| - 1 ==>
         if k in p.commit then SlotTrained(c, q, steps[0], steps[k], steps[k + 1], p, k) else steps[k + 1] == steps[k]
  }

  lemma {:induction false} RowsTrained(c: Config, q: Query, original: seq<PredRow>, p: Packet, n: nat)
      returns (steps: seq<seq<PredRow>>)
    requires ConfigOk(c) && RowsOk(c, original) && n <= c.slots && |q.tags| == Tables(c)
    ensures |steps| == n + 1 && steps[0] == original && steps[n] == RowsNext(c, q, original, p, n)
    ensures TrainedBy(c, q, steps, p)
  {
    hide RowOk, SlotTrained, SlotNext;
    if n == 0 {
      steps := [original];
    } else {
      steps := RowsTrained(c, q, original, p, n - 1);
      if n - 1 in p.commit { SlotLaw(c, q, original, steps[n - 1], p, n - 1); }
      steps := steps + [RowsNext(c, q, original, p, n)];
    }
  }

  /** What a packet makes of the rows it indexes: slot by slot, the provider's row is reinforced, and a wrong direction
      claims or ages a row of a longer history. */
  lemma TrainsRows(c: Config, s: Store, p: Packet) returns (steps: seq<seq<PredRow>>)
    requires ConfigOk(c) && StoreOk(c, s) && p.valid && p.commit != {}
    ensures var q := MakeQuery(c, p.pc, p.folds);
            && |steps| == c.slots + 1 && TrainedBy(c, q, steps, p)
            && QueryOk(c, q) && |s.tagged| == |Train(c, s, p).tagged| == Tables(c)
            && (forall t :: 0 <= t < Tables(c) ==> q.idx[t] < |s.tagged[t]| == |Train(c, s, p).tagged[t]|)
            && (forall t :: 0 <= t < Tables(c) ==> steps[0][t] == s.tagged[t][q.idx[t]])
            && (forall t :: 0 <= t < Tables(c) ==> Train(c, s, p).tagged[t][q.idx[t]] == steps[c.slots][t])
  {
    TrainIsWrite(c, s, p);
    var q := MakeQuery(c, p.pc, p.folds);
    steps := RowsTrained(c, q, RowsAt(s, q), p, c.slots);
    hide MakeQuery, RowsNext, BaseNext, Train, RowOk, BaseOk, SlotTrained;
  }

  // ---------------------------------------------------------- the direction

  predicate LongestHit(snap: Snapshot, n: nat, t: nat) {
    t < n && Hit(snap.query, snap.rows, t) && forall k :: t < k < n ==> !Hit(snap.query, snap.rows, k)
  }

  /** dir is what the longest match among the first n tables says, or the base when none matches. */
  ghost predicate Speaks(c: Config, snap: Snapshot, n: nat, slot: nat, dir: bool)
    requires ConfigOk(c) && RowsOk(c, snap.rows) && BaseOk(c, snap.base) && n <= Tables(c) && slot < c.slots
  {
    && (forall t :: 0 <= t < n && LongestHit(snap, n, t) ==>
          (dir <==> RowOk(c, snap.rows[t]) && snap.rows[t].ctr[slot] >= Pow2(c.ctrBits - 1)))
    && ((forall k :: 0 <= k < n ==> !Hit(snap.query, snap.rows, k)) ==>
        (dir <==> snap.base[slot] >= Pow2(c.ctrBits - 1)))
  }

  lemma LastSpeaks(c: Config, snap: Snapshot, n: nat, slot: nat)
    requires ConfigOk(c) && RowsOk(c, snap.rows) && BaseOk(c, snap.base) && n <= Tables(c) && slot < c.slots
    requires |snap.query.tags| == Tables(c)
    ensures Speaks(c, snap, n, slot, PredOf(c, snap, LastMatch(snap.query, snap.rows, n), slot))
  {
    var last := LastMatch(snap.query, snap.rows, n);
    forall k | 0 <= k < n ensures Hit(snap.query, snap.rows, k) <==> Matches(snap.query, snap.rows, k) { }
    if last.Some? {
      assert Hit(snap.query, snap.rows, last.value);
      assert RowOk(c, snap.rows[last.value]);
      UpperHalf(c, snap.rows[last.value].ctr[slot]);
    } else {
      UpperHalf(c, snap.base[slot]);
    }
    hide Pow2, PredictsTaken, CtrMax, LastMatch;
  }

  /** The answer for one slot: what the provider says, unless its counter is one of the two in the middle and it is
      not useful yet, when the shorter histories are asked. */
  ghost predicate Answers(c: Config, snap: Snapshot, slot: nat, u: SlotPrediction)
    requires ConfigOk(c) && RowsOk(c, snap.rows) && BaseOk(c, snap.base) && slot < c.slots
  {
    var half := Pow2(c.ctrBits - 1);
    && (u.provider < Tables(c) || u.provider == BASE_CODE)
    && Speaks(c, snap, Tables(c), slot, u.providerPred)
    && Speaks(c, snap, if u.provider < Tables(c) then u.provider else 0, slot, u.alt)
    && (u.final <==>
        if u.provider < Tables(c) && RowOk(c, snap.rows[u.provider]) && snap.rows[u.provider].useful[slot] == 0
           && half - 1 <= snap.rows[u.provider].ctr[slot] <= half
        then u.alt else u.providerPred)
  }

  lemma SlotAnswers(c: Config, snap: Snapshot, slot: nat)
    requires ConfigOk(c) && RowsOk(c, snap.rows) && BaseOk(c, snap.base) && slot < c.slots
    requires |snap.query.tags| == Tables(c) && SnapshotOk(c, snap)
    ensures Answers(c, snap, slot, PredictSlot(c, snap, slot))
  {
    var u := PredictSlot(c, snap, slot);
    LastSpeaks(c, snap, Tables(c), slot);
    LastSpeaks(c, snap, if u.provider < Tables(c) then u.provider else 0, slot);
    if u.provider < Tables(c) { assert RowOk(c, snap.rows[u.provider]); }
    hide Pow2, Speaks, PredOf, CtrMax, UsefulMax, RowOk;
  }

  /** So the response says: its directions, and the word that travels with the branch to its training. */
  lemma DirectionMeans(c: Config, snap: Snapshot, slot: nat)
    requires ConfigOk(c) && RowsOk(c, snap.rows) && BaseOk(c, snap.base) && slot < c.slots
    requires |snap.query.tags| == Tables(c)
    ensures SnapshotOk(c, snap)
    ensures Answers(c, snap, slot, Unpack(c.slots, Predict(c, snap).meta, slot))
    ensures slot in Predict(c, snap).taken <==> Unpack(c.slots, Predict(c, snap).meta, slot).final
  {
    assert SnapshotOk(c, snap) by {
      forall t | 0 <= t < |snap.rows| ensures |snap.rows[t].ctr| == c.slots && |snap.rows[t].useful| == c.slots {
        assert RowOk(c, snap.rows[t]);
      }
    }
    ProviderIsLongest(c, snap, slot);
    SlotAnswers(c, snap, slot);
    hide Predict, PredictSlot, Unpack, Answers, RowOk;
  }

  lemma ColdRows(c: Config, q: Query)
    requires ConfigOk(c) && QueryOk(c, q)
    ensures var s := ResetStore(c);
            && StoreOk(c, s) && s.base[q.baseIdx] == seq(c.slots, _ => Pow2(c.ctrBits - 1) - 1)
            && forall t :: 0 <= t < Tables(c) ==> !Hit(q, RowsAt(s, q), t)
  {
    hide Pow2;
  }

  /** After a reset no tagged row speaks and every branch is predicted not taken. */
  lemma ColdStart(c: Config, q: Query, slot: nat)
    requires ConfigOk(c) && QueryOk(c, q) && slot < c.slots
    ensures SnapshotOk(c, Read(c, ResetStore(c), q))
    ensures var r := Predict(c, Read(c, ResetStore(c), q)); slot !in r.taken && slot !in r.providerHit
  {
    var s := ResetStore(c);
    hide ResetStore, StoreOk, Unpack, Pow2, RowOk, BaseOk, Predict;
    ColdRows(c, q);
    ReadOk(c, s, q);
    BasePredicts(c, s, q, slot);
    forall t | 0 <= t < Tables(c) ensures !Matches(q, RowsAt(s, q), t) {
      assert !Hit(q, RowsAt(s, q), t);
    }
    ProviderIsLongest(c, Read(c, s, q), slot);
  }

  // ------------------------------------------------------------------ queries

  /** Halving drops the lowest bit. */
  lemma HalfDivided(n: nat, low: nat, p: nat)
    requires low < 2 && p > 0
    ensures (low + 2 * n) / (2 * p) == n / p
  {
    var q, r := n / p, n % p;
    assert n == q * p + r;
    assert q * (2 * p) == 2 * (q * p);
    ModOf(low + 2 * n, q, 2 * r + low, 2 * p);
  }

  lemma {:induction false} BitOfNumber(b: Bits, j: nat)
    requires j < |b|
    ensures BitOf(ToNat(b), j) <==> b[j]
  {
    if j > 0 {
      BitOfNumber(b[1..], j - 1);
      HalfDivided(ToNat(b[1..]), if b[0] then 1 else 0, Pow2(j - 1));
    }
  }

  /** The folded address bit at position j of a fold of this width. */
  ghost predicate PcParity(c: Config, pc: nat, width: nat, j: nat)
    requires width > 0
  {
    Odd(|Counted(pc, c.shift, c.vaddrBits, width, j)|)
  }

  /** The bits a query is made of. An index bit is the address fold against the first history fold of its table, a tag
      bit the address fold against the second, and against the third one position up. */
  lemma QueryBits(c: Config, pc: nat, folds: nat, t: nat, j: nat)
    requires ConfigOk(c) && t < Tables(c)
    ensures var q := MakeQuery(c, pc, folds);
            && |q.idx| == Tables(c) == |q.tags| && |q.tags[t]| == c.tagBits[t]
            && (j < c.baseBits ==> (BitOf(q.baseIdx, j) <==> PcParity(c, pc, c.baseBits, j)))
            && (j < c.indexBits[t] ==>
                  (BitOf(q.idx[t], j) <==>
                   (PcParity(c, pc, c.indexBits[t], j) != BitOf(folds, Offset(c, t) + j))))
            && (j < c.tagBits[t] ==>
                  (q.tags[t][j] <==>
                   ((PcParity(c, pc, c.tagBits[t], j) != BitOf(folds, Offset(c, t) + c.indexBits[t] + j))
                    != (j > 0 && BitOf(folds, Offset(c, t) + c.indexBits[t] + c.tagBits[t] + (j - 1))))))
  {
    hide Offset, BitOf, FoldBit, Counted, Odd, ToNat;
    FoldIsParity(pc, c.shift, c.vaddrBits, c.baseBits, j);
    FoldIsParity(pc, c.shift, c.vaddrBits, c.indexBits[t], j);
    FoldIsParity(pc, c.shift, c.vaddrBits, c.tagBits[t], j);
    if j < c.baseBits { BitOfNumber(PcFold(c, pc, c.baseBits), j); }
    if j < c.indexBits[t] {
      BitOfNumber(Xor(PcFold(c, pc, c.indexBits[t]), Field(folds, Offset(c, t), c.indexBits[t])), j);
    }
  }

  lemma {:induction false} OffsetsGrow(c: Config, t: nat, u: nat)
    requires ConfigOk(c) && t < u <= Tables(c)
    ensures Offset(c, t) + c.indexBits[t] + 2 * c.tagBits[t] - 1 <= Offset(c, u)
    decreases u
  {
    if t < u - 1 { OffsetsGrow(c, t, u - 1); }
  }

  ghost predicate InTable(c: Config, t: nat, b: nat)
    requires ConfigOk(c) && t < Tables(c)
  {
    Offset(c, t) <= b < Offset(c, t) + c.indexBits[t] + 2 * c.tagBits[t] - 1
  }

  /** The three folds of every table lie in the history word without gap or overlap: each of its bits belongs to
      exactly one table. */
  lemma {:induction false} FieldsTile(c: Config, b: nat, n: nat) returns (t: nat)
    requires ConfigOk(c) && n <= Tables(c) && b < Offset(c, n)
    ensures t < n && InTable(c, t, b) && forall u: nat :: u < n && InTable(c, u, b) ==> u == t
    ensures Offset(c, 0) == 0
    decreases n
  {
    if Offset(c, n - 1) <= b { t := n - 1; } else { t := FieldsTile(c, b, n - 1); }
    forall u: nat | u < n && InTable(c, u, b) ensures u == t {
      if u < t { OffsetsGrow(c, u, t); } else if t < u { OffsetsGrow(c, t, u); }
    }
  }
}
