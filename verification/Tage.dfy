/** The tagged geometric-history branch predictor: its rows, its prediction, and its training step. */
module Tage {
  import opened Rings
  import opened TagTable
  import opened Wrappers

  type Bits = seq<bool>

  /** `indexBits` and `tagBits` give one width for each tagged table. */
  datatype Config = Config(
    vaddrBits: nat, shift: nat, slots: nat, baseBits: nat, indexBits: seq<nat>, tagBits: seq<nat>,
    ctrBits: nat, usefulBits: nat)

  predicate ConfigOk(c: Config) {
    && c.baseBits >= 1 && c.ctrBits >= 1 && |c.indexBits| == |c.tagBits| <= 7
    && forall t :: 0 <= t < |c.indexBits| ==> c.indexBits[t] >= 1 && c.tagBits[t] >= 1
  }

  function Tables(c: Config): nat { |c.indexBits| }

  const BASE_CODE: nat := 7

  /** The two weak counter values on either side of the middle. */
  function WeakTaken(c: Config): (n: nat)
    ensures n > 0
  {
    if c.ctrBits == 0 then 1 else Pow2(c.ctrBits - 1)
  }

  function WeakNot(c: Config): nat { WeakTaken(c) - 1 }

  function CtrMax(c: Config): nat { Pow2(c.ctrBits) - 1 }
  function UsefulMax(c: Config): nat { Pow2(c.usefulBits) - 1 }

  datatype PredRow = PredRow(valid: bool, tag: Bits, ctr: seq<nat>, useful: seq<nat>)
  datatype Query = Query(baseIdx: nat, idx: seq<nat>, tags: seq<Bits>)
  datatype Snapshot = Snapshot(query: Query, base: seq<nat>, rows: seq<PredRow>)
  datatype Packet = Packet(valid: bool, pc: nat, folds: nat, meta: Bits, commit: set<nat>, taken: set<nat>)
  datatype Store = Store(base: seq<seq<nat>>, tagged: seq<seq<PredRow>>)

  // ------------------------------------------------------------------ queries

  function ToNat(b: Bits): (n: nat)
    ensures n < Pow2(|b|)
  {
    if b == [] then 0 else (if b[0] then 1 else 0) + 2 * ToNat(b[1..])
  }

  function Xor(a: Bits, b: Bits): Bits
    requires |a| == |b|
  {
    seq(|a|, j requires 0 <= j < |a| => a[j] != b[j])
  }

  /** Bits offset, offset + 1, ... of a packed word. */
  function Field(word: nat, offset: nat, n: nat): Bits { seq(n, j requires 0 <= j => BitOf(word, offset + j)) }

  /** Where table t's three history folds start in the packed word. */
  function Offset(c: Config, t: nat): nat
    requires ConfigOk(c) && t <= Tables(c)
  {
    if t == 0 then 0 else Offset(c, t - 1) + c.indexBits[t - 1] + 2 * c.tagBits[t - 1] - 1
  }

  function PcFold(c: Config, pc: nat, width: nat): Bits
    requires width > 0
  {
    Fold(pc, c.shift, c.vaddrBits, width)
  }

  function IndexOf(c: Config, pc: nat, folds: nat, t: nat): nat
    requires ConfigOk(c) && t < Tables(c)
  {
    ToNat(Xor(PcFold(c, pc, c.indexBits[t]), Field(folds, Offset(c, t), c.indexBits[t])))
  }

  function TagBitsOf(c: Config, pc: nat, folds: nat, t: nat): Bits
    requires ConfigOk(c) && t < Tables(c)
  {
    var w := c.tagBits[t];
    var at := Offset(c, t) + c.indexBits[t];
    Xor(Xor(PcFold(c, pc, w), Field(folds, at, w)), [false] + Field(folds, at + w, w - 1))
  }

  function MakeQuery(c: Config, pc: nat, folds: nat): Query
    requires ConfigOk(c)
  {
    Query(ToNat(PcFold(c, pc, c.baseBits)),
          seq(Tables(c), t requires 0 <= t < Tables(c) => IndexOf(c, pc, folds, t)),
          seq(Tables(c), t requires 0 <= t < Tables(c) => TagBitsOf(c, pc, folds, t)))
  }

  // ------------------------------------------------------------------- shapes

  predicate RowOk(c: Config, r: PredRow) {
    && |r.ctr| == c.slots && |r.useful| == c.slots
    && (forall k :: 0 <= k < |r.ctr| ==> r.ctr[k] <= CtrMax(c))
    && (forall k :: 0 <= k < |r.useful| ==> r.useful[k] <= UsefulMax(c))
  }

  predicate BaseOk(c: Config, b: seq<nat>) { |b| == c.slots && forall k :: 0 <= k < |b| ==> b[k] <= CtrMax(c) }

  predicate StoreOk(c: Config, s: Store) {
    && |s.base| == Pow2(c.baseBits) && (forall k :: 0 <= k < |s.base| ==> BaseOk(c, s.base[k]))
    && |s.tagged| == Tables(c)
    && (forall t :: 0 <= t < Tables(c) ==> |s.tagged[t]| == Pow2(c.indexBits[t]))
    && (forall t, k :: 0 <= t < Tables(c) && 0 <= k < |s.tagged[t]| ==> RowOk(c, s.tagged[t][k]))
  }

  predicate QueryOk(c: Config, q: Query) {
    && q.baseIdx < Pow2(c.baseBits) && |q.idx| == Tables(c) && |q.tags| == Tables(c)
    && forall t :: 0 <= t < Tables(c) ==> q.idx[t] < Pow2(c.indexBits[t])
  }

  lemma MakeQueryOk(c: Config, pc: nat, folds: nat)
    requires ConfigOk(c)
    ensures QueryOk(c, MakeQuery(c, pc, folds))
  {
  }

  function ResetRow(c: Config): PredRow { PredRow(false, [], seq(c.slots, _ => 0), seq(c.slots, _ => 0)) }

  lemma CounterBounds(c: Config)
    requires ConfigOk(c)
    ensures WeakTaken(c) <= CtrMax(c)
  {
  }

  function ResetStore(c: Config): (s: Store)
    requires ConfigOk(c)
    ensures StoreOk(c, s)
  {
    CounterBounds(c);
    Store(seq(Pow2(c.baseBits), _ => seq(c.slots, _ => WeakNot(c))),
          seq(Tables(c), t requires 0 <= t < Tables(c) => seq(Pow2(c.indexBits[t]), _ => ResetRow(c))))
  }

  function RowsAt(s: Store, q: Query): seq<PredRow>
    requires |q.idx| == |s.tagged| && forall t :: 0 <= t < |s.tagged| ==> q.idx[t] < |s.tagged[t]|
  {
    seq(|s.tagged|, t requires 0 <= t < |s.tagged| => s.tagged[t][q.idx[t]])
  }

  function Read(c: Config, s: Store, q: Query): Snapshot
    requires ConfigOk(c) && StoreOk(c, s) && QueryOk(c, q)
  {
    Snapshot(q, s.base[q.baseIdx], RowsAt(s, q))
  }

  // --------------------------------------------------------------- predictions

  datatype SlotPrediction = SlotPrediction(provider: nat, alt: bool, providerPred: bool, final: bool)

  predicate PredictsTaken(c: Config, ctr: nat) { ctr / WeakTaken(c) % 2 == 1 }

  predicate Matches(q: Query, rows: seq<PredRow>, t: nat) {
    t < |rows| && t < |q.tags| && rows[t].valid && rows[t].tag == q.tags[t]
  }

  /** The last matching table below n, or n itself as "none". */
  function LastMatch(q: Query, rows: seq<PredRow>, n: nat): (t: Option<nat>)
    ensures t.Some? ==> t.value < n && Matches(q, rows, t.value)
    ensures forall k :: (if t.Some? then t.value + 1 else 0) <= k < n ==> !Matches(q, rows, k)
  {
    if n == 0 then None else if Matches(q, rows, n - 1) then Some(n - 1) else LastMatch(q, rows, n - 1)
  }

  predicate PredOf(c: Config, snap: Snapshot, t: Option<nat>, slot: nat)
    requires slot < |snap.base|
    requires t.Some? ==> t.value < |snap.rows| && slot < |snap.rows[t.value].ctr|
  {
    PredictsTaken(c, if t.Some? then snap.rows[t.value].ctr[slot] else snap.base[slot])
  }

  predicate SnapshotOk(c: Config, snap: Snapshot) {
    && |snap.base| == c.slots && |snap.rows| == Tables(c) && |snap.query.tags| == Tables(c)
    && forall t :: 0 <= t < |snap.rows| ==> |snap.rows[t].ctr| == c.slots && |snap.rows[t].useful| == c.slots
  }

  /** The longest matching history provides, the next longest or the base is the alternative, and a
      provider that is weak and not yet useful yields to the alternative. */
  function PredictSlot(c: Config, snap: Snapshot, slot: nat): SlotPrediction
    requires SnapshotOk(c, snap) && slot < c.slots
  {
    var p := LastMatch(snap.query, snap.rows, Tables(c));
    var a := if p.Some? then LastMatch(snap.query, snap.rows, p.value) else None;
    var providerPred := PredOf(c, snap, p, slot);
    var alt := PredOf(c, snap, a, slot);
    var weak := p.Some? && snap.rows[p.value].useful[slot] == 0
    && (snap.rows[p.value].ctr[slot] == WeakNot(c) || snap.rows[p.value].ctr[slot] == WeakTaken(c));
    SlotPrediction(if p.Some? then p.value else BASE_CODE, alt, providerPred, if weak then alt else providerPred)
  }

  function PredictAll(c: Config, snap: Snapshot): seq<SlotPrediction>
    requires SnapshotOk(c, snap)
  {
    seq(c.slots, k requires 0 <= k < c.slots => PredictSlot(c, snap, k))
  }

  /** One slot, as the loop over tables that keeps the latest match and the prediction before it. */
  method ScanSlot(c: Config, snap: Snapshot, slot: nat) returns (r: SlotPrediction)
    requires ConfigOk(c) && SnapshotOk(c, snap) && slot < c.slots
    ensures r == PredictSlot(c, snap, slot)
  {
    var provider := BASE_CODE;
    var ctr := snap.base[slot];
    var providerPred := PredictsTaken(c, ctr);
    var alt := providerPred;
    var useful := 0;
    for t := 0 to |snap.rows|
      invariant var p := LastMatch(snap.query, snap.rows, t);
                && provider == (if p.Some? then p.value else BASE_CODE)
                && providerPred == PredOf(c, snap, p, slot)
                && alt == PredOf(c, snap, if p.Some? then LastMatch(snap.query, snap.rows, p.value) else None, slot)
                && (p.Some? ==> ctr == snap.rows[p.value].ctr[slot] && useful == snap.rows[p.value].useful[slot])
    {
      var row := snap.rows[t];
      if row.valid && row.tag == snap.query.tags[t] {
        alt := providerPred;
        provider, ctr := t, row.ctr[slot];
        providerPred := PredictsTaken(c, ctr);
        useful := row.useful[slot];
      }
    }
    var final := providerPred;
    if provider != BASE_CODE && useful == 0 && (ctr == WeakNot(c) || ctr == WeakTaken(c)) { final := alt; }
    r := SlotPrediction(provider, alt, providerPred, final);
  }

  // ----------------------------------------------- the prediction word

  datatype Response = Response(taken: set<nat>, providerHit: set<nat>, meta: Bits)

  function Bit(n: nat, k: nat): bool {
    if k == 0 then n % 2 == 1 else if k == 1 then n / 2 % 2 == 1 else n / 4 % 2 == 1
  }

  /** The slot that bit b of the word speaks of. */
  function Owner(slots: nat, b: nat): nat
    requires b < 6 * slots
  {
    if b < 3 * slots then b / 3 else if b < 4 * slots then b - 3 * slots
    else if b < 5 * slots then b - 4 * slots else b - 5 * slots
  }

  predicate PackedBit(slots: nat, u: SlotPrediction, b: nat) {
    if b < 3 * slots then Bit(u.provider, b % 3)
    else if b < 4 * slots then u.alt
    else if b < 5 * slots then u.providerPred
    else u.final
  }

  /** Provider codes in three bits a slot, then a bit a slot for each of the three directions. */
  function Pack(slots: nat, preds: seq<SlotPrediction>): Bits
    requires |preds| == slots
  {
    seq(6 * slots, b requires 0 <= b < 6 * slots => PackedBit(slots, preds[Owner(slots, b)], b))
  }

  function MetaBit(meta: Bits, b: nat): nat { if b < |meta| && meta[b] then 1 else 0 }

  function Unpack(slots: nat, meta: Bits, slot: nat): SlotPrediction {
    SlotPrediction(
      MetaBit(meta, 3 * slot) + 2 * MetaBit(meta, 3 * slot + 1) + 4 * MetaBit(meta, 3 * slot + 2),
      MetaBit(meta, 3 * slots + slot) == 1, MetaBit(meta, 4 * slots + slot) == 1, MetaBit(meta, 5 * slots + slot) == 1)
  }

  lemma ProviderBits(slots: nat, preds: seq<SlotPrediction>, slot: nat, j: nat)
    requires |preds| == slots && slot < slots && j < 3
    ensures 3 * slot + j < 6 * slots && Pack(slots, preds)[3 * slot + j] == Bit(preds[slot].provider, j)
  {
    assert (3 * slot + j) / 3 == slot && (3 * slot + j) % 3 == j;
  }

  lemma DirectionBits(slots: nat, preds: seq<SlotPrediction>, slot: nat)
    requires |preds| == slots && slot < slots
    ensures Pack(slots, preds)[3 * slots + slot] == preds[slot].alt
    ensures Pack(slots, preds)[4 * slots + slot] == preds[slot].providerPred
    ensures Pack(slots, preds)[5 * slots + slot] == preds[slot].final
  {
  }

  /** Training reads back from the word exactly what the prediction put there, for every slot. */
  lemma PackUnpack(slots: nat, preds: seq<SlotPrediction>, slot: nat)
    requires |preds| == slots && slot < slots && preds[slot].provider < 8
    ensures Unpack(slots, Pack(slots, preds), slot) == preds[slot]
  {
    assert |Pack(slots, preds)| == 6 * slots;
    hide Pack, Bit, PackedBit, Owner, MetaBit;
    var meta := Pack(slots, preds);
    ProviderUnpacked(slots, preds, slot);
    DirectionBits(slots, preds, slot);
    MetaBitIs(meta, 3 * slots + slot);
    MetaBitIs(meta, 4 * slots + slot);
    MetaBitIs(meta, 5 * slots + slot);
  }

  lemma ProviderUnpacked(slots: nat, preds: seq<SlotPrediction>, slot: nat)
    requires |preds| == slots && slot < slots && preds[slot].provider < 8
    ensures Unpack(slots, Pack(slots, preds), slot).provider == preds[slot].provider
  {
    assert |Pack(slots, preds)| == 6 * slots;
    hide Pack, Bit, PackedBit, Owner, MetaBit;
    var meta := Pack(slots, preds);
    ProviderBits(slots, preds, slot, 0);
    ProviderBits(slots, preds, slot, 1);
    ProviderBits(slots, preds, slot, 2);
    ThreeBits(preds[slot].provider);
    MetaBitIs(meta, 3 * slot);
    MetaBitIs(meta, 3 * slot + 1);
    MetaBitIs(meta, 3 * slot + 2);
  }

  lemma MetaBitIs(meta: Bits, b: nat)
    requires b < |meta|
    ensures MetaBit(meta, b) == if meta[b] then 1 else 0
  {
  }

  lemma ThreeBits(n: nat)
    requires n < 8
    ensures n == (if Bit(n, 0) then 1 else 0) + 2 * (if Bit(n, 1) then 1 else 0) + 4 * (if Bit(n, 2) then 1 else 0)
  {
  }

  function Predict(c: Config, snap: Snapshot): Response
    requires SnapshotOk(c, snap)
  {
    var preds := PredictAll(c, snap);
    Response((set k | 0 <= k < c.slots && preds[k].final), (set k | 0 <= k < c.slots && preds[k].provider != BASE_CODE),
             Pack(c.slots, preds))
  }

  /** The word filled in slot by slot. */
  method ComputePrediction(c: Config, snap: Snapshot) returns (r: Response)
    requires ConfigOk(c) && SnapshotOk(c, snap)
    ensures r == Predict(c, snap)
  {
    var slots := c.slots;
    ghost var preds := PredictAll(c, snap);
    var taken: set<nat>, hit: set<nat> := {}, {};
    var meta: Bits := seq(6 * slots, _ => false);
    for slot := 0 to slots
      invariant taken == set k | 0 <= k < slot && preds[k].final
      invariant hit == set k | 0 <= k < slot && preds[k].provider != BASE_CODE
      invariant Filled(slots, preds, meta, slot)
    {
      var p := ScanSlot(c, snap, slot);
      if p.final { taken := taken + {slot}; }
      if p.provider != BASE_CODE { hit := hit + {slot}; }
      FillSlot(slots, preds, meta, slot);
      meta := Fill(slots, meta, slot, p);
    }
    assert meta == Pack(slots, preds) by { hide PackedBit; }
    r := Response(taken, hit, meta);
  }

  /** The bits of the first n slots are in place, the others still clear. */
  ghost predicate Filled(slots: nat, preds: seq<SlotPrediction>, meta: Bits, n: nat)
    requires |preds| == slots
  {
    |meta| == 6 * slots
    && forall b :: 0 <= b < 6 * slots ==>
         meta[b] == (Owner(slots, b) < n && PackedBit(slots, preds[Owner(slots, b)], b))
  }

  function Fill(slots: nat, meta: Bits, slot: nat, p: SlotPrediction): Bits
    requires |meta| == 6 * slots && slot < slots
  {
    meta[3 * slot := Bit(p.provider, 0)][3 * slot + 1 := Bit(p.provider, 1)][3 * slot + 2 := Bit(p.provider, 2)]
    [3 * slots + slot := p.alt][4 * slots + slot := p.providerPred][5 * slots + slot := p.final]
  }

  lemma FillSlot(slots: nat, preds: seq<SlotPrediction>, meta: Bits, slot: nat)
    requires |preds| == slots && slot < slots && Filled(slots, preds, meta, slot)
    ensures Filled(slots, preds, Fill(slots, meta, slot, preds[slot]), slot + 1)
  {
    var meta' := Fill(slots, meta, slot, preds[slot]);
    forall b | 0 <= b < 6 * slots
      ensures meta'[b] == if Owner(slots, b) == slot then PackedBit(slots, preds[slot], b) else meta[b]
    {
      OwnerBits(slots, slot, b);
    }
    hide Fill, Owner, PackedBit;
  }

  lemma OwnerBits(slots: nat, slot: nat, b: nat)
    requires slot < slots && b < 6 * slots
    ensures Owner(slots, b) == slot <==>
            b == 3 * slot || b == 3 * slot + 1 || b == 3 * slot + 2
            || b == 3 * slots + slot || b == 4 * slots + slot || b == 5 * slots + slot
    ensures (3 * slot) % 3 == 0 && (3 * slot + 1) % 3 == 1 && (3 * slot + 2) % 3 == 2
  {
  }

  /** The provider code names the longest matching history, and 7 when only the base predicts. */
  lemma ProviderIsLongest(c: Config, snap: Snapshot, slot: nat)
    requires ConfigOk(c) && SnapshotOk(c, snap) && slot < c.slots
    ensures var u := Unpack(c.slots, Predict(c, snap).meta, slot);
            && u == PredictSlot(c, snap, slot)
            && (forall t: nat :: t < Tables(c) ==>
                  (u.provider == t <==>
                   Matches(snap.query, snap.rows, t)
                   && forall k :: t < k < Tables(c) ==> !Matches(snap.query, snap.rows, k)))
            && (u.provider == BASE_CODE <==> forall k :: 0 <= k < Tables(c) ==> !Matches(snap.query, snap.rows, k))
            && (slot in Predict(c, snap).taken <==> u.final)
            && (slot in Predict(c, snap).providerHit <==> u.provider != BASE_CODE)
  {
    PackUnpack(c.slots, PredictAll(c, snap), slot);
    hide Pack, Unpack, PredOf, Matches;
  }

  // ------------------------------------------------------------------ training

  function TrainCtr(c: Config, ctr: nat, taken: bool): nat {
    if taken then (if ctr + 1 < CtrMax(c) then ctr + 1 else CtrMax(c)) else if ctr > 0 then ctr - 1 else 0
  }

  function TrainUseful(c: Config, useful: nat, up: bool): nat {
    if up then (if useful + 1 < UsefulMax(c) then useful + 1 else UsefulMax(c))
    else if useful > 0 then useful - 1
    else 0
  }

  function BaseNext(c: Config, base: seq<nat>, p: Packet): seq<nat> {
    seq(|base|, k requires 0 <= k < |base| => if k in p.commit then TrainCtr(c, base[k], k in p.taken) else base[k])
  }

  function Reinforce(c: Config, r: PredRow, slot: nat, actual: bool, u: SlotPrediction): PredRow
    requires slot < |r.ctr| && slot < |r.useful|
  {
    r.(ctr := r.ctr[slot := TrainCtr(c, r.ctr[slot], actual)],
       useful :=
         if u.providerPred == u.alt then r.useful
         else r.useful[slot := TrainUseful(c, r.useful[slot], u.providerPred == actual)])
  }

  predicate Replaceable(q: Query, rows: seq<PredRow>, t: nat)
    requires t < |rows| && t < |q.tags|
  {
    !rows[t].valid || rows[t].tag == q.tags[t] || forall k :: 0 <= k < |rows[t].useful| ==> rows[t].useful[k] == 0
  }

  function FirstReplaceable(q: Query, rows: seq<PredRow>, t: nat): (a: nat)
    requires |q.tags| == |rows| && t <= |rows|
    ensures t <= a <= |rows|
    ensures a < |rows| ==> Replaceable(q, rows, a)
    ensures forall k :: t <= k < a ==> !Replaceable(q, rows, k)
    decreases |rows| - t
  {
    if t == |rows| || Replaceable(q, rows, t) then t else FirstReplaceable(q, rows, t + 1)
  }

  function Allocate(c: Config, tag: Bits, r: PredRow, slot: nat, actual: bool): PredRow
    requires slot < c.slots && slot < |r.ctr| && slot < |r.useful|
  {
    var claimed := if r.valid && r.tag == tag then r
                 else PredRow(true, tag, seq(c.slots, _ => WeakNot(c)), seq(c.slots, _ => 0));
    claimed.(ctr := claimed.ctr[slot := if actual then WeakTaken(c) else WeakNot(c)],
             useful := claimed.useful[slot := 0])
  }

  function Weaken(c: Config, r: PredRow): PredRow {
    r.(useful := seq(|r.useful|, k requires 0 <= k < |r.useful| => TrainUseful(c, r.useful[k], false)))
  }

  predicate RowsOk(c: Config, rows: seq<PredRow>) {
    |rows| == Tables(c) && forall t :: 0 <= t < |rows| ==> RowOk(c, rows[t])
  }

  /** The provider that predicted is reinforced, if it is still there. */
  function ReinforceStep(c: Config, q: Query, original: seq<PredRow>, rows: seq<PredRow>, p: Packet,
                         slot: nat): seq<PredRow>
    requires |original| == |rows| && RowsOk(c, rows) && slot < c.slots && |q.tags| == Tables(c)
  {
    var u := Unpack(c.slots, p.meta, slot);
    if u.provider < Tables(c) && Matches(q, original, u.provider)
    then rows[u.provider := Reinforce(c, rows[u.provider], slot, slot in p.taken, u)]
    else rows
  }

  /** A wrong direction claims the first replaceable longer row, or else ages the next longer one. */
  function AllocateStep(c: Config, q: Query, rows: seq<PredRow>, p: Packet, slot: nat): seq<PredRow>
    requires RowsOk(c, rows) && slot < c.slots && |q.tags| == Tables(c)
  {
    var u := Unpack(c.slots, p.meta, slot);
    var actual := slot in p.taken;
    if u.final == actual then rows
    else
      var first := if u.provider < Tables(c) then u.provider + 1 else 0;
      var a := FirstReplaceable(q, rows, first);
      if a < Tables(c) then rows[a := Allocate(c, q.tags[a], rows[a], slot, actual)]
      else if first < Tables(c) then rows[first := Weaken(c, rows[first])]
      else rows
  }

  lemma ReinforceOk(c: Config, q: Query, original: seq<PredRow>, rows: seq<PredRow>, p: Packet, slot: nat)
    requires ConfigOk(c) && |original| == |rows| && RowsOk(c, rows) && slot < c.slots && |q.tags| == Tables(c)
    ensures RowsOk(c, ReinforceStep(c, q, original, rows, p, slot))
  {
    hide Unpack;
  }

  lemma AllocateOk(c: Config, q: Query, rows: seq<PredRow>, p: Packet, slot: nat)
    requires ConfigOk(c) && RowsOk(c, rows) && slot < c.slots && |q.tags| == Tables(c)
    ensures RowsOk(c, AllocateStep(c, q, rows, p, slot))
  {
    CounterBounds(c);
    hide Unpack, WeakTaken, CtrMax, UsefulMax;
  }

  function SlotNext(c: Config, q: Query, original: seq<PredRow>, rows: seq<PredRow>, p: Packet,
                    slot: nat): (r: seq<PredRow>)
    requires ConfigOk(c) && RowsOk(c, original) && RowsOk(c, rows) && slot < c.slots && |q.tags| == Tables(c)
    ensures RowsOk(c, r)
  {
    hide RowOk, Reinforce, Allocate, Weaken, Unpack;
    ReinforceOk(c, q, original, rows, p, slot);
    AllocateOk(c, q, ReinforceStep(c, q, original, rows, p, slot), p, slot);
    AllocateStep(c, q, ReinforceStep(c, q, original, rows, p, slot), p, slot)
  }

  /** The rows after the first n slots have been trained, in order. */
  function RowsNext(c: Config, q: Query, original: seq<PredRow>, p: Packet, n: nat): (r: seq<PredRow>)
    requires ConfigOk(c) && RowsOk(c, original) && n <= c.slots && |q.tags| == Tables(c)
    ensures RowsOk(c, r)
  {
    if n == 0 then original
    else if n - 1 in p.commit then SlotNext(c, q, original, RowsNext(c, q, original, p, n - 1), p, n - 1)
    else RowsNext(c, q, original, p, n - 1)
  }

  function Write(s: Store, q: Query, base: seq<nat>, rows: seq<PredRow>): Store
    requires q.baseIdx < |s.base| && |rows| == |s.tagged| == |q.idx|
    requires forall t :: 0 <= t < |s.tagged| ==> q.idx[t] < |s.tagged[t]|
  {
    Store(s.base[q.baseIdx := base],
          seq(|s.tagged|, t requires 0 <= t < |s.tagged| => s.tagged[t][q.idx[t] := rows[t]]))
  }

  predicate Active(p: Packet) { p.valid && p.commit != {} }

  /** Training with the rows and base counters read beforehand. */
  function TrainWith(c: Config, s: Store, p: Packet, base: seq<nat>, rows: seq<PredRow>): Store
    requires ConfigOk(c) && StoreOk(c, s) && RowsOk(c, rows)
  {
    if !Active(p) then s
    else
      MakeQueryOk(c, p.pc, p.folds);
      var q := MakeQuery(c, p.pc, p.folds);
      Write(s, q, BaseNext(c, base, p), RowsNext(c, q, rows, p, c.slots))
  }

  lemma ReadOk(c: Config, s: Store, q: Query)
    requires ConfigOk(c) && StoreOk(c, s) && QueryOk(c, q)
    ensures RowsOk(c, RowsAt(s, q)) && SnapshotOk(c, Read(c, s, q)) && BaseOk(c, s.base[q.baseIdx])
  {
  }

  function Train(c: Config, s: Store, p: Packet): Store
    requires ConfigOk(c) && StoreOk(c, s)
  {
    MakeQueryOk(c, p.pc, p.folds);
    var q := MakeQuery(c, p.pc, p.folds);
    ReadOk(c, s, q);
    TrainWith(c, s, p, s.base[q.baseIdx], RowsAt(s, q))
  }

  // ------------------------------------------------ what one packet touches

  lemma WriteOk(c: Config, s: Store, q: Query, base: seq<nat>, rows: seq<PredRow>)
    requires ConfigOk(c) && StoreOk(c, s) && QueryOk(c, q) && BaseOk(c, base) && RowsOk(c, rows)
    ensures StoreOk(c, Write(s, q, base, rows))
  {
    hide RowOk, BaseOk;
  }

  lemma BaseNextOk(c: Config, base: seq<nat>, p: Packet)
    requires BaseOk(c, base)
    ensures BaseOk(c, BaseNext(c, base, p))
  {
    hide CtrMax;
  }

  /** Training keeps every row in shape and every counter in its range. */
  lemma TrainOk(c: Config, s: Store, p: Packet)
    requires ConfigOk(c) && StoreOk(c, s)
    ensures StoreOk(c, Train(c, s, p))
  {
    MakeQueryOk(c, p.pc, p.folds);
    var q := MakeQuery(c, p.pc, p.folds);
    ReadOk(c, s, q);
    BaseNextOk(c, s.base[q.baseIdx], p);
    hide MakeQuery, StoreOk, BaseNext, RowOk, BaseOk, QueryOk, RowsNext;
    if Active(p) { WriteOk(c, s, q, BaseNext(c, s.base[q.baseIdx], p), RowsNext(c, q, RowsAt(s, q), p, c.slots)); }
  }

  /** Training changes nothing but the base entry and the one row a table that its own query indexes. */
  lemma TrainTouches(c: Config, s: Store, p: Packet, t: nat, k: nat)
    requires ConfigOk(c) && StoreOk(c, s) && t < Tables(c) && k < Pow2(c.indexBits[t])
    ensures k != MakeQuery(c, p.pc, p.folds).idx[t] ==> Train(c, s, p).tagged[t][k] == s.tagged[t][k]
    ensures forall b :: 0 <= b < |s.base| && b != MakeQuery(c, p.pc, p.folds).baseIdx ==>
            Train(c, s, p).base[b] == s.base[b]
  {
    MakeQueryOk(c, p.pc, p.folds);
    ReadOk(c, s, MakeQuery(c, p.pc, p.folds));
    hide MakeQuery, BaseNext, RowsNext, RowOk, BaseOk;
  }

  predicate Disjoint(a: Query, b: Query) {
    a.baseIdx != b.baseIdx && forall t :: 0 <= t < |a.idx| && t < |b.idx| ==> a.idx[t] != b.idx[t]
  }

  predicate Independent(c: Config, p: Packet, p': Packet)
    requires ConfigOk(c)
  {
    Disjoint(MakeQuery(c, p.pc, p.folds), MakeQuery(c, p'.pc, p'.folds))
  }

  lemma WritesCommute(c: Config, s: Store, a: Query, b: Query, baseA: seq<nat>, baseB: seq<nat>, rowsA: seq<PredRow>,
                      rowsB: seq<PredRow>)
    requires ConfigOk(c) && StoreOk(c, s) && QueryOk(c, a) && QueryOk(c, b) && Disjoint(a, b)
    requires |rowsA| == Tables(c) == |rowsB|
    ensures Write(Write(s, a, baseA, rowsA), b, baseB, rowsB) == Write(Write(s, b, baseB, rowsB), a, baseA, rowsA)
  {
    var x, y := Write(Write(s, a, baseA, rowsA), b, baseB, rowsB), Write(Write(s, b, baseB, rowsB), a, baseA, rowsA);
    assert x.base == y.base;
    forall t | 0 <= t < Tables(c) ensures x.tagged[t] == y.tagged[t] {
      assert a.idx[t] != b.idx[t];
    }
    assert x.tagged == y.tagged;
  }

  lemma ReadsPast(c: Config, s: Store, a: Query, b: Query, base: seq<nat>, rows: seq<PredRow>)
    requires ConfigOk(c) && StoreOk(c, s) && QueryOk(c, a) && QueryOk(c, b) && Disjoint(a, b) && |rows| == Tables(c)
    ensures var s' := Write(s, a, base, rows); RowsAt(s', b) == RowsAt(s, b) && s'.base[b.baseIdx] == s.base[b.baseIdx]
  {
    var s' := Write(s, a, base, rows);
    forall t | 0 <= t < Tables(c) ensures RowsAt(s', b)[t] == RowsAt(s, b)[t] {
      assert a.idx[t] != b.idx[t];
    }
    assert RowsAt(s', b) == RowsAt(s, b);
  }

  /** What a packet writes, when it reads the store itself. */
  lemma TrainIsWrite(c: Config, s: Store, p: Packet)
    requires ConfigOk(c) && StoreOk(c, s)
    ensures var q := MakeQuery(c, p.pc, p.folds);
            QueryOk(c, q) && RowsOk(c, RowsAt(s, q)) &&
            var base, rows := BaseNext(c, s.base[q.baseIdx], p), RowsNext(c, q, RowsAt(s, q), p, c.slots);
            Train(c, s, p) == if Active(p) then Write(s, q, base, rows) else s
  {
    MakeQueryOk(c, p.pc, p.folds);
    ReadOk(c, s, MakeQuery(c, p.pc, p.folds));
    hide MakeQuery, BaseNext, RowsNext, StoreOk, RowOk, BaseOk;
  }

  /** Packets for different rows can be trained in either order, and a packet's rows can be read before an
      earlier packet for different rows is written. */
  lemma IndependentTrain(c: Config, s: Store, p: Packet, p': Packet)
    requires ConfigOk(c) && StoreOk(c, s) && Independent(c, p, p')
    ensures StoreOk(c, Train(c, s, p)) && StoreOk(c, Train(c, s, p'))
    ensures Train(c, Train(c, s, p), p') == Train(c, Train(c, s, p'), p)
    ensures var q' := MakeQuery(c, p'.pc, p'.folds);
            QueryOk(c, q') && RowsOk(c, RowsAt(s, q'))
            && TrainWith(c, Train(c, s, p), p', s.base[q'.baseIdx], RowsAt(s, q')) == Train(c, Train(c, s, p), p')
  {
    TrainOk(c, s, p);
    TrainOk(c, s, p');
    TrainIsWrite(c, s, p);
    TrainIsWrite(c, s, p');
    TrainIsWrite(c, Train(c, s, p), p');
    TrainIsWrite(c, Train(c, s, p'), p);
    var a, b := MakeQuery(c, p.pc, p.folds), MakeQuery(c, p'.pc, p'.folds);
    hide MakeQuery, BaseNext, RowsNext, StoreOk, RowOk, BaseOk, Train, Write, RowsAt, RowsOk, QueryOk;
    var baseA, rowsA := BaseNext(c, s.base[a.baseIdx], p), RowsNext(c, a, RowsAt(s, a), p, c.slots);
    var baseB, rowsB := BaseNext(c, s.base[b.baseIdx], p'), RowsNext(c, b, RowsAt(s, b), p', c.slots);
    ReadsPast(c, s, a, b, baseA, rowsA);
    DisjointSymmetric(a, b);
    ReadsPast(c, s, b, a, baseB, rowsB);
    WritesCommute(c, s, a, b, baseA, baseB, rowsA, rowsB);
  }

  lemma DisjointSymmetric(a: Query, b: Query)
    requires Disjoint(a, b)
    ensures Disjoint(b, a)
  {
  }
}
