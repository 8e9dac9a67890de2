/** A row of tagged entries with a replacement pointer, as the branch target buffers keep it, and the
    bounded first-in first-out queue that it implements. */
module TagTable {
  import opened Rings
  import opened Wrappers

  /** A folded address: one bit for each tag position. */
  type Tag = seq<bool>

  datatype Tagged<T> = Tagged(tag: Tag, body: T)

  type Row<T> = seq<Option<Tagged<T>>>

  predicate BitOf(pc: nat, bit: nat) { pc / Pow2(bit) % 2 == 1 }

  /** Position j of the fold: the parity of the address bits first + j, first + j + width, ... below last. */
  function FoldBit(pc: nat, first: nat, last: nat, width: nat, j: nat): bool
    requires width > 0
    decreases last
  {
    if last <= first then false
    else FoldBit(pc, first, last - 1, width, j) != ((last - 1 - first) % width == j && BitOf(pc, last - 1))
  }

  function Fold(pc: nat, first: nat, last: nat, width: nat): Tag
    requires width > 0
  {
    seq(width, j requires 0 <= j => FoldBit(pc, first, last, width, j))
  }

  /** Address bit b is set, and counts for position j. */
  predicate Counts(pc: nat, first: nat, width: nat, j: nat, b: nat)
    requires width > 0
  {
    first <= b && (b - first) % width == j && BitOf(pc, b)
  }

  ghost function Counted(pc: nat, first: nat, last: nat, width: nat, j: nat): set<nat>
    requires width > 0
  {
    set b | 0 <= b < last && Counts(pc, first, width, j, b)
  }

  lemma FoldStep(pc: nat, first: nat, last: nat, width: nat, j: nat)
    requires width > 0 && first <= last
    ensures FoldBit(pc, first, last + 1, width, j) ==
            (FoldBit(pc, first, last, width, j) != Counts(pc, first, width, j, last))
  {
    hide BitOf;
  }

  lemma CountStep(pc: nat, first: nat, last: nat, width: nat, j: nat)
    requires width > 0
    ensures Counted(pc, first, last + 1, width, j) ==
            Counted(pc, first, last, width, j) + (if Counts(pc, first, width, j, last) then {last} else {})
    ensures last !in Counted(pc, first, last, width, j)
  {
    hide Counts;
  }

  predicate Odd(n: nat) { n % 2 == 1 }

  lemma OddStep(s: set<nat>, x: nat, more: bool)
    requires x !in s
    ensures Odd(|s + (if more then {x} else {})|) <==> (Odd(|s|) != more)
  {
    if more { assert |s + {x}| == |s| + 1; } else { assert s + {} == s; }
  }

  /** A fold bit is set exactly when an odd number of the address bits at its distance are. */
  lemma {:induction false} FoldIsParity(pc: nat, first: nat, last: nat, width: nat, j: nat)
    requires width > 0
    ensures FoldBit(pc, first, last, width, j) <==> Odd(|Counted(pc, first, last, width, j)|)
    decreases last
  {
    hide Counts, FoldBit, Counted, Odd;
    if last <= first {
      NothingCounted(pc, first, last, width, j);
    } else {
      FoldStep(pc, first, last - 1, width, j);
      CountStep(pc, first, last - 1, width, j);
      FoldIsParity(pc, first, last - 1, width, j);
      OddStep(Counted(pc, first, last - 1, width, j), last - 1, Counts(pc, first, width, j, last - 1));
    }
  }

  lemma NothingCounted(pc: nat, first: nat, last: nat, width: nat, j: nat)
    requires width > 0 && last <= first
    ensures !FoldBit(pc, first, last, width, j) && !Odd(|Counted(pc, first, last, width, j)|)
  {
    hide BitOf;
    assert Counted(pc, first, last, width, j) == {};
  }

  /** The fold as the loop over address bits that it is. */
  method ComputeFold(pc: nat, first: nat, last: nat, width: nat) returns (tag: Tag)
    requires width > 0
    ensures tag == Fold(pc, first, last, width)
  {
    tag := seq(width, _ => false);
    if last <= first { return; }
    for bit := first to last
      invariant tag == Fold(pc, first, bit, width)
    {
      var j := (bit - first) % width;
      if BitOf(pc, bit) { tag := tag[j := !tag[j]]; }
    }
  }

  // ------------------------------------------------------------------- rows

  function FindTag<T>(row: Row<T>, tag: Tag, k: nat): nat
    requires k <= |row|
    ensures k <= FindTag(row, tag, k) <= |row|
    ensures FindTag(row, tag, k) < |row| ==>
            row[FindTag(row, tag, k)].Some? && row[FindTag(row, tag, k)].value.tag == tag
    ensures forall j :: k <= j < FindTag(row, tag, k) && row[j].Some? ==> row[j].value.tag != tag
    decreases |row| - k
  {
    if k == |row| || (row[k].Some? && row[k].value.tag == tag) then k else FindTag(row, tag, k + 1)
  }

  function FindEmpty<T>(row: Row<T>, k: nat): nat
    requires k <= |row|
    ensures k <= FindEmpty(row, k) <= |row|
    ensures FindEmpty(row, k) < |row| ==> row[FindEmpty(row, k)].None?
    ensures forall j :: k <= j < FindEmpty(row, k) ==> row[j].Some?
    decreases |row| - k
  {
    if k == |row| || row[k].None? then k else FindEmpty(row, k + 1)
  }

  /** The entry of a tag, if the row has one. */
  function Lookup<T>(row: Row<T>, tag: Tag): Option<T> {
    var k := FindTag(row, tag, 0);
    if k < |row| then Some(row[k].value.body) else None
  }

  /** Where a body for this tag goes: over its own entry, into the first gap, or over the victim. */
  function Way<T>(row: Row<T>, victim: nat, tag: Tag): nat
    requires victim < |row|
  {
    var match' := FindTag(row, tag, 0);
    var empty := FindEmpty(row, 0);
    if match' < |row| then match' else if empty < |row| then empty else victim
  }

  function Insert<T>(row: Row<T>, victim: nat, tag: Tag, body: T): Row<T>
    requires victim < |row|
  {
    row[Way(row, victim, tag) := Some(Tagged(tag, body))]
  }

  function NextVictim<T>(row: Row<T>, victim: nat, tag: Tag): nat
    requires victim < |row|
  {
    if FindTag(row, tag, 0) == |row| && FindEmpty(row, 0) == |row| then (victim + 1) % |row| else victim
  }

  lemma InsertThenLookup<T>(row: Row<T>, victim: nat, tag: Tag, body: T)
    requires victim < |row|
    ensures Lookup(Insert(row, victim, tag, body), tag) == Some(body)
  {
    var row', w := Insert(row, victim, tag, body), Way(row, victim, tag);
    assert row'[w] == Some(Tagged(tag, body));
    assert forall m :: 0 <= m < w ==> row'[m] == row[m] && !(row[m].Some? && row[m].value.tag == tag);
  }

  // ----------------------------------------------------------- the queue

  function FindInQueue<T>(q: seq<Tagged<T>>, tag: Tag): nat
    ensures FindInQueue(q, tag) <= |q|
    ensures FindInQueue(q, tag) < |q| ==> q[FindInQueue(q, tag)].tag == tag
    ensures forall j :: 0 <= j < FindInQueue(q, tag) ==> q[j].tag != tag
  {
    if q == [] then 0 else if q[0].tag == tag then 0 else 1 + FindInQueue(q[1..], tag)
  }

  /** An entry in the queue is updated where it is; a new one goes to the end, and pushes the oldest
      one out when the queue is full. */
  function Enqueue<T>(q: seq<Tagged<T>>, capacity: nat, tag: Tag, body: T): seq<Tagged<T>> {
    var k := FindInQueue(q, tag);
    if k < |q| then q[k := Tagged(tag, body)]
    else (if |q| >= capacity && q != [] then q[1..] else q) + [Tagged(tag, body)]
  }

  predicate OneEach<T>(q: seq<Tagged<T>>) { forall j, k :: 0 <= j < k < |q| ==> q[j].tag != q[k].tag }

  /** The slot of the k-th oldest entry. */
  function SlotOf(k: nat, count: nat, victim: nat, size: nat): nat
    requires size > 0
  {
    if count < size then k else (victim + k) % size
  }

  /** The row holds exactly the queue: filled from the front while there is room, and then in a ring
      whose oldest entry is at the pointer. No tag occurs twice. */
  ghost predicate Holds<T>(row: Row<T>, victim: nat, q: seq<Tagged<T>>) {
    && 0 < |row| && victim < |row| && |q| <= |row| && OneEach(q)
    && (|q| < |row| ==> victim == 0 && forall k :: |q| <= k < |row| ==> row[k].None?)
    && (forall k :: 0 <= k < |q| ==> row[SlotOf(k, |q|, victim, |row|)] == Some(q[k]))
  }

  /** Around a full ring every slot is the k-th oldest for exactly one k. */
  lemma RingSlot(x: nat, victim: nat, size: nat) returns (k: nat)
    requires x < size && victim < size
    ensures k < size && SlotOf(k, size, victim, size) == x
  {
    k := if x >= victim then x - victim else x + size - victim;
    WrapOnce(victim + k, size);
  }

  /** Every entry of a row is in its queue, at its slot. */
  lemma Occupied<T>(row: Row<T>, victim: nat, q: seq<Tagged<T>>, x: nat) returns (k: nat)
    requires Holds(row, victim, q) && x < |row| && row[x].Some?
    ensures k < |q| && SlotOf(k, |q|, victim, |row|) == x && row[x] == Some(q[k])
  {
    if |q| < |row| {
      assert x < |q|;
      k := x;
    } else {
      k := RingSlot(x, victim, |row|);
    }
  }

  lemma SlotsDiffer(j: nat, k: nat, count: nat, victim: nat, size: nat)
    requires victim < size && j < size && k < size && j != k
    ensures SlotOf(j, count, victim, size) != SlotOf(k, count, victim, size) && SlotOf(j, count, victim, size) < size
  {
    WrapOnce(victim + j, size);
    WrapOnce(victim + k, size);
  }

  /** Every entry of the queue is in the row, at its slot. */
  lemma Resident<T>(row: Row<T>, victim: nat, q: seq<Tagged<T>>, k: nat)
    requires Holds(row, victim, q) && k < |q|
    ensures SlotOf(k, |q|, victim, |row|) < |row| && row[SlotOf(k, |q|, victim, |row|)] == Some(q[k])
  {
    SlotInRange(k, |q|, victim, |row|);
  }

  lemma RowHasTag<T>(row: Row<T>, victim: nat, q: seq<Tagged<T>>, tag: Tag)
    requires Holds(row, victim, q)
    ensures FindInQueue(q, tag) < |q| ==> FindTag(row, tag, 0) < |row|
  {
    if FindInQueue(q, tag) < |q| { Resident(row, victim, q, FindInQueue(q, tag)); }
  }

  /** The row finds a tag exactly when the queue has it, and finds its entry. */
  lemma LookupIsFind<T>(row: Row<T>, victim: nat, q: seq<Tagged<T>>, tag: Tag)
    requires Holds(row, victim, q)
    ensures var k := FindInQueue(q, tag);
            && (FindTag(row, tag, 0) < |row| <==> k < |q|)
            && (k < |q| ==> FindTag(row, tag, 0) == SlotOf(k, |q|, victim, |row|))
            && Lookup(row, tag) == if k < |q| then Some(q[k].body) else None
  {
    RowHasTag(row, victim, q, tag);
    var x := FindTag(row, tag, 0);
    if x < |row| {
      var k := FindInQueue(q, tag);
      var j := Occupied(row, victim, q, x);
      assert q[j].tag == tag && k <= j;
      SameTag(q, k, j);
    }
  }

  lemma SameTag<T>(q: seq<Tagged<T>>, j: nat, k: nat)
    requires OneEach(q) && j < |q| && k < |q| && q[j].tag == q[k].tag
    ensures j == k
  {
  }

  lemma FirstGap<T>(row: Row<T>, victim: nat, q: seq<Tagged<T>>)
    requires Holds(row, victim, q)
    ensures FindEmpty(row, 0) == |q|
  {
    if |q| == |row| { FullRow(row, victim, q); } else { assert row[|q|].None?; }
    forall k | 0 <= k < |q| && |q| < |row| ensures row[k].Some? {
      assert row[SlotOf(k, |q|, victim, |row|)] == Some(q[k]);
    }
  }

  /** Training a row is enqueuing: an update in place, a fill of the first gap, or the oldest replaced. */
  lemma InsertIsEnqueue<T>(row: Row<T>, victim: nat, q: seq<Tagged<T>>, tag: Tag, body: T)
    requires Holds(row, victim, q)
    ensures Holds(Insert(row, victim, tag, body), NextVictim(row, victim, tag), Enqueue(q, |row|, tag, body))
  {
    LookupIsFind(row, victim, q, tag);
    var k := FindInQueue(q, tag);
    if k < |q| {
      UpdateHolds(row, victim, q, k, tag, body);
    } else {
      FirstGap(row, victim, q);
      if |q| < |row| { FillHolds(row, q, tag, body); } else { ReplaceHolds(row, victim, q, tag, body); }
    }
    hide Holds;
  }

  lemma FullRow<T>(row: Row<T>, victim: nat, q: seq<Tagged<T>>)
    requires Holds(row, victim, q) && |q| == |row|
    ensures forall x :: 0 <= x < |row| ==> row[x].Some?
  {
    forall x | 0 <= x < |row| ensures row[x].Some? {
      var k := RingSlot(x, victim, |row|);
      assert row[SlotOf(k, |q|, victim, |row|)] == Some(q[k]);
    }
  }

  lemma UpdateHolds<T>(row: Row<T>, victim: nat, q: seq<Tagged<T>>, k: nat, tag: Tag, body: T)
    requires Holds(row, victim, q) && k < |q| && q[k].tag == tag
    ensures Holds(row[SlotOf(k, |q|, victim, |row|) := Some(Tagged(tag, body))], victim, q[k := Tagged(tag, body)])
  {
    var x := SlotOf(k, |q|, victim, |row|);
    SlotInRange(k, |q|, victim, |row|);
    var row', q' := row[x := Some(Tagged(tag, body))], q[k := Tagged(tag, body)];
    forall j | 0 <= j < |q'| ensures row'[SlotOf(j, |q'|, victim, |row'|)] == Some(q'[j]) {
      if j != k { SlotsDiffer(j, k, |q|, victim, |row|); }
    }
  }

  lemma SlotInRange(k: nat, count: nat, victim: nat, size: nat)
    requires victim < size && k < count <= size
    ensures SlotOf(k, count, victim, size) < size
  {
  }

  lemma FillHolds<T>(row: Row<T>, q: seq<Tagged<T>>, tag: Tag, body: T)
    requires Holds(row, 0, q) && |q| < |row| && forall j :: 0 <= j < |q| ==> q[j].tag != tag
    ensures Holds(row[|q| := Some(Tagged(tag, body))], 0, q + [Tagged(tag, body)])
  {
    var row', q' := row[|q| := Some(Tagged(tag, body))], q + [Tagged(tag, body)];
    forall k | 0 <= k < |q'| ensures row'[SlotOf(k, |q'|, 0, |row'|)] == Some(q'[k]) {
      WrapOnce(k, |row|);
      if k < |q| { assert row[SlotOf(k, |q|, 0, |row|)] == Some(q[k]); }
    }
  }

  lemma ReplaceHolds<T>(row: Row<T>, victim: nat, q: seq<Tagged<T>>, tag: Tag, body: T)
    requires Holds(row, victim, q) && |q| == |row| && forall j :: 0 <= j < |q| ==> q[j].tag != tag
    ensures Holds(row[victim := Some(Tagged(tag, body))], (victim + 1) % |row|, q[1..] + [Tagged(tag, body)])
  {
    var n := |row|;
    var victim' := (victim + 1) % n;
    WrapOnce(victim + 1, n);
    var row', q' := row[victim := Some(Tagged(tag, body))], q[1..] + [Tagged(tag, body)];
    forall k | 0 <= k < n ensures row'[SlotOf(k, n, victim', n)] == Some(q'[k]) {
      WrapOnce(victim' + k, n);
      if k < n - 1 {
        assert row[SlotOf(k + 1, n, victim, n)] == Some(q[k + 1]);
        WrapOnce(victim + k + 1, n);
      }
    }
  }
}
