/** The return queue as the object it is, updated in place on every clock edge. */
module ReturnModel {
  import opened ReturnQueue
  import opened Wrappers

  class Model {
    const depth: nat
    var slots: seq<Option<Entry>>
    var order: seq<nat>
    var output: Option<Entry>

    ghost function View(): Queue
      reads this
    {
      Queue(depth, slots, order, output)
    }

    constructor (depth: nat)
      ensures View() == Empty(depth)
    {
      this.depth := depth;
      slots, order, output := seq(SLOTS, _ => None), [], None;
    }

    /** The entry whose brief is read: the one behind the snapshot on display. */
    method NextBrief() returns (e: Option<Entry>)
      requires WellFormed(View())
      ensures e == BriefEntry(View())
    {
      var n := if output.Some? then 1 else 0;
      e := if |order| > n then slots[order[n]] else None;
    }

    /** What the ports show before the edge. */
    method Visible(i: Inputs) returns (ready: bool, brief: bool, deq: bool, e: Option<Entry>)
      requires WellFormed(View())
      ensures ready == Ready(View(), i) && brief == BriefEntry(View()).Some? && deq == DeqValid(View(), i)
              && e == output
    {
      e := output;
      ready := (exists k :: 0 <= k < |slots| && slots[k].None?) && !i.rst && !i.kill;
      var b := NextBrief();
      brief := b.Some?;
      deq := e.Some? && !(i.rst || i.kill || Refresh(i, e));
    }

    method FindFree() returns (k: nat)
      ensures k == Free(View())
    {
      k := 0;
      while k < |slots|
        invariant k <= |slots| && FreeFrom(slots, 0) == FreeFrom(slots, k)
      {
        if slots[k].None? { return; }
        k := k + 1;
      }
      k := 0;
    }

    /** The kill loop, in program order; `ok` is false when its assertion fails. */
    method Kill(i: Inputs) returns (ok: bool)
      requires depth > 0 && Settled(View()) && i.kill
      modifies this`slots, this`order
      ensures ok <==> KillsSuffix(old(View()), i)
      ensures ok ==> View() == AfterKill(old(View()), i)
    {
      hide KillProgress, Settled, KillsSuffix, AfterKill, Age, KilledAt;
      ghost var s := View();
      var kept: seq<nat> := [];
      var suffix := false;
      KillStart(s, i);
      for n := 0 to |order|
        invariant order == s.order && output == s.output
        invariant KillProgress(s, i, n, slots, kept, suffix)
      {
        var x := order[n];
        EntryAhead(s, i, n, slots, kept, suffix);
        var e := slots[x].value;
        var killed := i.killAll || Age(e.id, i.head, depth) > Age(i.killId, i.head, depth)
        || (i.killSelf && i.killSlot == 0 && e.id == i.killId);
        if !killed && suffix { return false; }
        if killed {
          suffix := true;
          slots := slots[x := Mark(e)];
        } else {
          kept := kept + [x];
        }
      }
      KillDone(s, i, slots, kept, suffix);
      order := kept;
      ok := true;
    }

    /** One clock edge. `ok` is false when the model's own assertions reject the inputs. */
    method Tick(i: Inputs) returns (ok: bool)
      requires Consistent(View())
      modifies this
      ensures ok <==> Legal(old(View()), i) && (!i.rst && i.kill ==> KillsSuffix(Filled(old(View()), i), i))
      ensures ok ==> View() == ReturnQueue.Tick(old(View()), i) && Consistent(View())
    {
      ghost var s := View();
      if i.rst {
        slots, order, output := seq(SLOTS, _ => None), [], None;
        return true;
      }
      var ready, _, deq, _ := Visible(i);
      var candidate := NextBrief();
      var next := output;
      if i.kill || Refresh(i, output) {
        next := None;
      } else if (output.None? || (deq && i.deqReady)) && candidate.Some? && candidate.value.data.Some?
                && i.briefDone && i.briefId == candidate.value.id && !Refresh(i, candidate) {
        next := candidate;
      } else if deq && i.deqReady {
        next := None;
      }
      assert next == NextOutput(s, i);
      SettledFrom(s);
      if i.reserve {
        var k := 0;
        if i.reserveIdx.Some? { k := i.reserveIdx.value; } else { k := FindFree(); }
        if !(ready && k < |slots| && slots[k].None?) { return false; }
        slots, order := slots[k := Some(Entry(i.reserveId, i.reservePc, None, false, false, 0))], order + [k];
      }
      assert View() == Reserved(s, i);
      ReserveSettled(s, i);
      if i.response {
        var x := i.responseIdx;
        ok := x < |slots| && slots[x].Some? && slots[x].value.data.None? && slots[x].value.id == i.responseId;
        if !ok { return; }
        var e := slots[x].value;
        slots := slots[x := if e.zombie then None
        else Some(e.(data := Some(i.responseData), excValid := i.responseExc, excCause := i.responseCause))];
      }
      assert View() == Filled(s, i);
      ok := Finish(i, deq && i.deqReady, next, s);
    }

    /** The kill, the dequeue and the snapshot register. */
    method Finish(i: Inputs, delivers: bool, next: Option<Entry>, ghost s: Queue) returns (ok: bool)
      requires Consistent(s) && !i.rst && Legal(s, i) && View() == Filled(s, i)
      requires delivers == Delivers(s, i) && next == NextOutput(s, i)
      modifies this
      ensures ok <==> (i.kill ==> KillsSuffix(Filled(s, i), i))
      ensures ok ==> View() == ReturnQueue.Tick(s, i) && Consistent(View())
    {
      SettledFrom(s);
      FilledSettled(s, i);
      TickConsistent(s, i);
      hide Filled, Consistent, NextOutput, Legal;
      ok := true;
      if i.kill {
        ok := Kill(i);
        if !ok { return; }
      }
      KillSettled(Filled(s, i), i);
      if delivers && order != [] {
        slots, order := slots[order[0] := None], order[1..];
      }
      output := next;
      TickIs(s, i);
    }
  }

  lemma TickIs(s: Queue, i: Inputs)
    requires WellFormed(s) && Legal(s, i) && !i.rst && WellFormed(AfterKill(Filled(s, i), i))
    ensures ReturnQueue.Tick(s, i)
            == AfterDequeue(AfterKill(Filled(s, i), i), Delivers(s, i)).(output := NextOutput(s, i))
  {
  }

  /** The first n entries of program order have been dealt with. */
  ghost predicate KillProgress(s: Queue, i: Inputs, n: nat, slots: seq<Option<Entry>>, kept: seq<nat>, suffix: bool)
    requires s.depth > 0
  {
    && n <= |s.order| && |slots| == |s.slots|
    && kept == Survivors(s, i, s.order[..n])
    && (suffix <==> exists j :: 0 <= j < n && KilledAt(s, i, s.order[j]))
    && (forall j, k :: 0 <= j < k < n && KilledAt(s, i, s.order[j]) ==> KilledAt(s, i, s.order[k]))
    && forall x: nat :: x < |slots| ==>
         slots[x] == if x in s.order[..n] && KilledAt(s, i, x) then Mark(s.slots[x].value) else s.slots[x]
  }

  lemma KillStart(s: Queue, i: Inputs)
    requires s.depth > 0
    ensures KillProgress(s, i, 0, s.slots, [], false)
  {
  }

  /** The next entry is untouched; skipping or marking it makes progress, and sparing it after a kill
      shows that the killed are no suffix. */
  lemma EntryAhead(s: Queue, i: Inputs, n: nat, slots: seq<Option<Entry>>, kept: seq<nat>, suffix: bool)
    requires Settled(s) && KillProgress(s, i, n, slots, kept, suffix) && n < |s.order|
    ensures var x := s.order[n];
            && x < |slots| && slots[x] == s.slots[x] && slots[x].Some?
            && (if Killed(s, i, slots[x].value) then
                  KillProgress(s, i, n + 1, slots[x := Mark(slots[x].value)], kept, true)
                else if suffix then !KillsSuffix(s, i)
                else KillProgress(s, i, n + 1, slots, kept + [x], suffix))
  {
    var x := s.order[n];
    assert Live(s, s.order[n]);
    assert s.order[..n + 1] == s.order[..n] + [x] && s.order[..n + 1][..n] == s.order[..n] && x !in s.order[..n];
    assert KilledAt(s, i, x) <==> Killed(s, i, s.slots[x].value);
    hide Settled, Killed, Mark;
    if KilledAt(s, i, x) { assert KilledAt(s, i, s.order[n]); }
  }

  lemma KillDone(s: Queue, i: Inputs, slots: seq<Option<Entry>>, kept: seq<nat>, suffix: bool)
    requires s.depth > 0 && i.kill && KillProgress(s, i, |s.order|, slots, kept, suffix)
    ensures KillsSuffix(s, i) && AfterKill(s, i) == s.(slots := slots, order := kept)
  {
    assert s.order[..|s.order|] == s.order;
    hide KilledAt, Mark, Survivors;
    assert AfterKill(s, i).slots == slots;
  }
}
