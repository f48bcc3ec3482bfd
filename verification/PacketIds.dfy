/**
 Packet identifiers (section 2.2.1 of MQTT Version 5.0): a wrapping 16-bit counter that skips 0, shared by
 concurrent callers.
 */
module PacketIds {
  import opened Basics

  function Bump(counter: u16): u16 {
    (counter + 1) % U16_SIZE
  }

  // ------------------------------------------------------------- one caller alone

  /** `get_next_packet_id` without interference: the id, and the counter it leaves. */
  function NextId(counter: u16): (r: (u16, u16)) {
    if counter == 0 then (Bump(counter), Bump(Bump(counter))) else (counter, Bump(counter))
  }

  /** The counter of a fresh session after n calls. */
  function CounterAfter(n: nat): u16 {
    if n == 0 then 1 else NextId(CounterAfter(n - 1)).1
  }

  /** The id of send number n, counting from 0. */
  function IdOf(n: nat): (id: u16)
    ensures id > 0
  {
    1 + n % 65535
  }

  lemma {:induction false} CounterFormula(n: nat)
    ensures CounterAfter(n) == if n > 0 && n % 65535 == 0 then 0 else 1 + n % 65535
  {
    if n > 0 { CounterFormula(n - 1); }
  }

  /** The ids run through 1 to 65535 in order and start over; 0 is never used. */
  lemma SequentialIds(n: nat)
    ensures NextId(CounterAfter(n)).0 == IdOf(n)
  {
    CounterFormula(n);
  }

  // ---------------------------------------------- callers interleaved step by step

  /** An id handed out: `at` numbers the increment that produced it, `firstAt` the caller's first increment. */
  datatype Return = Return(caller: nat, id: u16, firstAt: nat, at: nat)

  /** The counter, how often it was incremented, the callers that saw 0 and will try again, and the ids handed out. */
  datatype Allocator = Allocator(counter: u16, increments: nat, retrying: map<nat, nat>, returned: seq<Return>)

  const FRESH := Allocator(1, 0, map[], [])

  /** One atomic `fetch_add` by a caller. */
  function Step(a: Allocator, caller: nat): Allocator {
    var next := a.(counter := Bump(a.counter), increments := a.increments + 1);
    if caller in a.retrying then
      next.(retrying := a.retrying - {caller},
            returned := a.returned + [Return(caller, a.counter, a.retrying[caller], a.increments)])
    else if a.counter == 0 then
      next.(retrying := a.retrying[caller := a.increments])
    else
      next.(returned := a.returned + [Return(caller, a.counter, a.increments, a.increments)])
  }

  /** A run: which caller takes each atomic step. */
  function RunFrom(schedule: seq<nat>): Allocator {
    if schedule == [] then FRESH else Step(RunFrom(schedule[..|schedule| - 1]), schedule[|schedule| - 1])
  }

  ghost predicate Invariant(a: Allocator) {
    && a.counter == (1 + a.increments) % U16_SIZE
    && (forall c :: c in a.retrying ==> a.retrying[c] < a.increments && (1 + a.retrying[c]) % U16_SIZE == 0)
    && (forall i :: 0 <= i < |a.returned| ==> GoodReturn(a.returned[i]) && a.returned[i].at < a.increments)
    && (forall i, j :: 0 <= i < j < |a.returned| ==> a.returned[i].at < a.returned[j].at)
  }

  ghost predicate GoodReturn(r: Return) {
    && r.id == (1 + r.at) % U16_SIZE
    && (r.firstAt == r.at ==> r.id != 0)
    && (r.firstAt != r.at ==> r.firstAt < r.at && (1 + r.firstAt) % U16_SIZE == 0)
  }

  lemma StepKeepsInvariant(a: Allocator, caller: nat)
    requires Invariant(a)
    ensures Invariant(Step(a, caller))
  {
    BumpCounts(a.increments);
  }

  lemma BumpCounts(n: nat)
    ensures ((1 + n) % U16_SIZE + 1) % U16_SIZE == (1 + (n + 1)) % U16_SIZE
  {
  }

  lemma {:induction false} RunInvariant(schedule: seq<nat>)
    ensures Invariant(RunFrom(schedule))
    ensures RunFrom(schedule).increments == |schedule|
  {
    if schedule != [] {
      RunInvariant(schedule[..|schedule| - 1]);
      StepKeepsInvariant(RunFrom(schedule[..|schedule| - 1]), schedule[|schedule| - 1]);
    }
  }

  /**
   A caller is handed 0 exactly when, between its two steps, others incremented a multiple of 65536 minus one times:
   never with fewer than 65535 such increments.
   */
  lemma ZeroExactlyAfterFullTurn(schedule: seq<nat>, i: nat)
    requires i < |RunFrom(schedule).returned|
    ensures var r := RunFrom(schedule).returned[i];
            && (r.id == 0 <==> r.firstAt < r.at && (r.at - r.firstAt) % U16_SIZE == 0)
            && (r.at - r.firstAt - 1 < 65535 ==> r.id != 0)
  {
    RunInvariant(schedule);
    var r := RunFrom(schedule).returned[i];
    assert GoodReturn(r);
    if r.firstAt < r.at { ZeroAgain(r.firstAt, r.at); }
  }

  lemma ZeroAgain(first: nat, at: nat)
    requires first < at && (1 + first) % U16_SIZE == 0
    ensures (1 + at) % U16_SIZE == 0 <==> (at - first) % U16_SIZE == 0
  {
    assert 1 + at == (1 + first) + (at - first);
  }

  /** Ids handed out within 65536 consecutive increments are pairwise distinct. */
  lemma IdsDistinctInWindow(schedule: seq<nat>, i: nat, j: nat)
    requires i < j < |RunFrom(schedule).returned|
    requires RunFrom(schedule).returned[j].at - RunFrom(schedule).returned[i].at < U16_SIZE
    ensures RunFrom(schedule).returned[i].id != RunFrom(schedule).returned[j].id
  {
    RunInvariant(schedule);
    assert GoodReturn(RunFrom(schedule).returned[i]) && GoodReturn(RunFrom(schedule).returned[j]);
  }
}
