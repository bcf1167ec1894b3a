/**
 * The debug port as the loaders' write handler and the command layer see
 * it: every device call is recorded together with whether it succeeded,
 * and any call may fail. A `Plan` is the ordered list of calls an
 * operation means to make, each with the error it reports when that call
 * fails, and the result it returns when all of them succeed; `Executed`
 * says that a run stopped at the first failure, as every caller in the
 * source does.
 */
module Device {
  import opened Wrappers
  import opened Bytes

  /** The device operations the command layer and the loaders issue. */
  datatype Call =
    | Connect
    | EnterDebug
    | ExitDebug
    | WriteBlock(address: u32, data: seq<byte>)
    | EraseFlash
    | EraseSector(sector: u8)
    | ProgramSector(sector: u8)
    | ProgramFlash(address: u32)

  /** One issued call and whether the device accepted it. */
  datatype Attempt = Attempt(call: Call, ok: bool)

  /** A connection to the target, seen through the calls made on it. */
  class Port {
    var log: seq<Attempt>

    constructor ()
      ensures log == []
    {
      log := [];
    }

    /** Issues `call`; whether the device accepts it is not under the caller's control. */
    method Perform(call: Call) returns (ok: bool)
      modifies this
      ensures log == old(log) + [Attempt(call, ok)]
    {
      ok :| true;
      log := log + [Attempt(call, ok)];
    }
  }

  /** A call, and the error its caller returns when the call fails. */
  datatype Step<E> = Step(call: Call, onFail: E)

  /** The calls an operation makes, in order, and its result when all of them succeed. */
  datatype Plan<E> = Plan(steps: seq<Step<E>>, end: Result<(), E>)

  /** The record of `steps` all accepted by the device. */
  function Oks<E>(steps: seq<Step<E>>): (attempts: seq<Attempt>)
    ensures |attempts| == |steps|
  {
    seq(|steps|, i requires 0 <= i < |steps| => Attempt(steps[i].call, true))
  }

  /**
   * `attempts` is what running `plan` up to its first failure leaves in the
   * record, and `r` is what the run returns: either every step was accepted
   * and the result is the plan's own, or step `k` was the first refused,
   * nothing after it was issued and the result is that step's error.
   */
  ghost predicate Executed<E>(plan: Plan<E>, attempts: seq<Attempt>, r: Result<(), E>) {
    if |attempts| > 0 && !attempts[|attempts| - 1].ok then
      var k := |attempts| - 1;
      k < |plan.steps|
      && attempts == Oks(plan.steps[..k]) + [Attempt(plan.steps[k].call, false)]
      && r == Err(plan.steps[k].onFail)
    else
      attempts == Oks(plan.steps) && r == plan.end
  }

  /** The record grew from `log0` to `log1` by running `plan`, which returned `r`. */
  ghost predicate Ran<E>(log0: seq<Attempt>, log1: seq<Attempt>, plan: Plan<E>, r: Result<(), E>) {
    log0 <= log1 && Executed(plan, log1[|log0|..], r)
  }

  /** `steps` followed by `plan`. */
  function Then<E>(steps: seq<Step<E>>, plan: Plan<E>): (p: Plan<E>)
    ensures p.end == plan.end && |p.steps| == |steps| + |plan.steps|
  {
    Plan(steps + plan.steps, plan.end)
  }

  /** The calls of `steps`, in order. */
  function Calls<E>(steps: seq<Step<E>>): (calls: seq<Call>)
    ensures |calls| == |steps|
  {
    seq(|steps|, i requires 0 <= i < |steps| => steps[i].call)
  }

  /** The calls issued in `attempts`, in order. */
  function Issued(attempts: seq<Attempt>): (calls: seq<Call>)
    ensures |calls| == |attempts|
  {
    seq(|attempts|, i requires 0 <= i < |attempts| => attempts[i].call)
  }

  // ---------------------------------------------------------------------
  // Running a plan step by step

  lemma OksAppend<E>(a: seq<Step<E>>, b: seq<Step<E>>)
    ensures Oks(a + b) == Oks(a) + Oks(b)
  {
    var l, r := Oks(a + b), Oks(a) + Oks(b);
    assert |l| == |r|;
    forall i | 0 <= i < |l|
      ensures l[i] == r[i]
    {
      if i < |a| {
        assert (a + b)[i] == a[i];
      } else {
        assert (a + b)[i] == b[i - |a|];
      }
    }
  }

  /** One more accepted step extends the record by one accepted attempt. */
  lemma OksNext<E>(steps: seq<Step<E>>, k: nat)
    requires k < |steps|
    ensures Oks(steps[..k + 1]) == Oks(steps[..k]) + [Attempt(steps[k].call, true)]
  {
    assert steps[..k + 1] == steps[..k] + [steps[k]];
    OksAppend(steps[..k], [steps[k]]);
  }

  /** Refusing step `k` after accepting the ones before it ends the run with that step's error. */
  lemma ExecutedFailAt<E>(plan: Plan<E>, k: nat)
    requires k < |plan.steps|
    ensures Executed(plan, Oks(plan.steps[..k]) + [Attempt(plan.steps[k].call, false)], Err(plan.steps[k].onFail))
  {
  }

  /** Accepting every step ends the run with the plan's own result. */
  lemma ExecutedAll<E>(plan: Plan<E>)
    ensures Executed(plan, Oks(plan.steps), plan.end)
  {
    var a := Oks(plan.steps);
    if |a| > 0 {
      assert a[|a| - 1].ok;
    }
  }

  /** The record grew by the plan's first `k` steps accepted and step `k` refused. */
  lemma RanStopped<E>(log0: seq<Attempt>, log1: seq<Attempt>, plan: Plan<E>, k: nat, r: Result<(), E>)
    requires k < |plan.steps| && r == Err(plan.steps[k].onFail)
    requires log1 == log0 + Oks(plan.steps[..k]) + [Attempt(plan.steps[k].call, false)]
    ensures Ran(log0, log1, plan, r)
  {
    assert log1[|log0|..] == Oks(plan.steps[..k]) + [Attempt(plan.steps[k].call, false)];
  }

  /** The record grew by every step of the plan, all accepted. */
  lemma RanCompleted<E>(log0: seq<Attempt>, log1: seq<Attempt>, plan: Plan<E>, r: Result<(), E>)
    requires r == plan.end && log1 == log0 + Oks(plan.steps)
    ensures Ran(log0, log1, plan, r)
  {
    assert log1[|log0|..] == Oks(plan.steps);
    ExecutedAll(plan);
  }

  /** A run of `plan` after the accepted `steps` is a run of `Then(steps, plan)`. */
  lemma ExecutedThen<E>(steps: seq<Step<E>>, plan: Plan<E>, attempts: seq<Attempt>, r: Result<(), E>)
    requires Executed(plan, attempts, r)
    ensures Executed(Then(steps, plan), Oks(steps) + attempts, r)
  {
    var whole := Then(steps, plan);
    var all := Oks(steps) + attempts;
    if |attempts| > 0 && !attempts[|attempts| - 1].ok {
      var k := |attempts| - 1;
      assert whole.steps[..|steps| + k] == steps + plan.steps[..k];
      OksAppend(steps, plan.steps[..k]);
      assert whole.steps[|steps| + k] == plan.steps[k];
      assert all[|all| - 1] == attempts[k];
    } else {
      OksAppend(steps, plan.steps);
      if |attempts| == 0 && |steps| > 0 {
        assert all[|all| - 1] == Attempt(steps[|steps| - 1].call, true);
      } else if |attempts| > 0 {
        assert all[|all| - 1] == attempts[|attempts| - 1];
      }
    }
  }

  /** The record shows a run of exactly the plan's calls, up to where it stopped. */
  lemma ExecutedIssuesPrefix<E>(plan: Plan<E>, attempts: seq<Attempt>, r: Result<(), E>)
    requires Executed(plan, attempts, r)
    ensures Issued(attempts) <= Calls(plan.steps)
    ensures forall i :: 0 <= i < |attempts| - 1 ==> attempts[i].ok
  {
    if |attempts| > 0 && !attempts[|attempts| - 1].ok {
      var k := |attempts| - 1;
      assert forall i :: 0 <= i < k ==> attempts[i] == Oks(plan.steps[..k])[i];
    }
  }

  /** The result of a run is determined by its record. */
  lemma ExecutedDeterminesResult<E>(plan: Plan<E>, attempts: seq<Attempt>, r1: Result<(), E>, r2: Result<(), E>)
    requires Executed(plan, attempts, r1) && Executed(plan, attempts, r2)
    ensures r1 == r2
  {
  }

  /** A run succeeds exactly when the plan does and the device accepted every call. */
  lemma ExecutedOk<E>(plan: Plan<E>, attempts: seq<Attempt>, r: Result<(), E>)
    requires Executed(plan, attempts, r)
    ensures r.Ok? <==> (plan.end.Ok? && attempts == Oks(plan.steps))
  {
  }

  // ---------------------------------------------------------------------
  // Composing plans

  /** `first`, and then `next` when `first` ends successfully. */
  function AndThen<E>(first: Plan<E>, next: Plan<E>): (p: Plan<E>)
    ensures first.end.Err? ==> p == first
    ensures first.end.Ok? ==> p == Then(first.steps, next)
  {
    if first.end.Err? then first else Then(first.steps, next)
  }

  /** A run of `first` that failed is a run of `AndThen(first, next)` that failed the same way. */
  lemma ExecutedAndThenStop<E>(first: Plan<E>, next: Plan<E>, attempts: seq<Attempt>, r: Result<(), E>)
    requires Executed(first, attempts, r) && r.Err?
    ensures Executed(AndThen(first, next), attempts, r)
  {
    if first.end.Ok? {
      var k := |attempts| - 1;
      var whole := AndThen(first, next);
      assert whole.steps[..k] == first.steps[..k];
      assert whole.steps[k] == first.steps[k];
    }
  }

  /** A successful run of `first` followed by a run of `next` is a run of `AndThen(first, next)`. */
  lemma ExecutedAndThenGo<E>(first: Plan<E>, next: Plan<E>, a1: seq<Attempt>, r1: Result<(), E>,
                              a2: seq<Attempt>, r: Result<(), E>)
    requires Executed(first, a1, r1) && r1.Ok? && Executed(next, a2, r)
    ensures Executed(AndThen(first, next), a1 + a2, r)
  {
    ExecutedOk(first, a1, r1);
    ExecutedThen(first.steps, next, a2, r);
  }

  /** Steps in sequence: `Ran` composes along a growing record. */
  lemma RanAndThen<E>(log0: seq<Attempt>, log1: seq<Attempt>, log2: seq<Attempt>,
                       first: Plan<E>, next: Plan<E>, r1: Result<(), E>, r2: Result<(), E>)
    requires Ran(log0, log1, first, r1)
    requires r1.Ok? ==> Ran(log1, log2, next, r2)
    requires r1.Err? ==> log2 == log1 && r2 == r1
    ensures Ran(log0, log2, AndThen(first, next), r2)
  {
    if r1.Err? {
      ExecutedAndThenStop(first, next, log1[|log0|..], r1);
    } else {
      assert log2[|log0|..] == log1[|log0|..] + log2[|log1|..];
      ExecutedAndThenGo(first, next, log1[|log0|..], r1, log2[|log1|..], r2);
    }
  }

  /** A run of `plan` after the accepted `done` is a run of `Then(done, plan)`. */
  lemma RanAfter<E>(log0: seq<Attempt>, log1: seq<Attempt>, log2: seq<Attempt>,
                    done: seq<Step<E>>, plan: Plan<E>, r: Result<(), E>)
    requires log1 == log0 + Oks(done) && Ran(log1, log2, plan, r)
    ensures Ran(log0, log2, Then(done, plan), r)
  {
    assert log2[|log0|..] == Oks(done) + log2[|log1|..];
    ExecutedThen(done, plan, log2[|log1|..], r);
  }

  /** A run that ends, with nothing more issued, after the accepted `done`. */
  lemma RanFinished<E>(log0: seq<Attempt>, log1: seq<Attempt>, done: seq<Step<E>>, plan: Plan<E>, r: Result<(), E>)
    requires log1 == log0 + Oks(done) && plan.steps == [] && plan.end == r
    ensures Ran(log0, log1, Then(done, plan), r)
  {
    assert done + [] == done;
    RanCompleted(log0, log1, Then(done, plan), r);
  }

  /** A run whose next step, after the accepted `done`, was refused. */
  lemma RanRefused<E>(log0: seq<Attempt>, log1: seq<Attempt>, done: seq<Step<E>>, step: Step<E>, rest: Plan<E>, r: Result<(), E>)
    requires log1 == log0 + Oks(done) + [Attempt(step.call, false)] && r == Err(step.onFail)
    ensures Ran(log0, log1, Then(done, Then([step], rest)), r)
  {
    var whole := Then(done, Then([step], rest));
    assert whole.steps[..|done|] == done && whole.steps[|done|] == step;
    RanStopped(log0, log1, whole, |done|, r);
  }

  /** An accepted step joins the accepted prefix. */
  lemma Accepted<E>(done: seq<Step<E>>, step: Step<E>, rest: Plan<E>)
    ensures Then(done, Then([step], rest)) == Then(done + [step], rest)
    ensures Oks(done + [step]) == Oks(done) + [Attempt(step.call, true)]
  {
    assert done + ([step] + rest.steps) == (done + [step]) + rest.steps;
    OksAppend(done, [step]);
  }

  /**
   * A run of `first` after the accepted `done`: one that failed is a failed
   * run of `AndThen(first, rest)` after `done`; one that succeeded joins
   * `first`'s steps to the accepted prefix.
   */
  lemma RanFirst<E>(log0: seq<Attempt>, log1: seq<Attempt>, log2: seq<Attempt>,
                    done: seq<Step<E>>, first: Plan<E>, rest: Plan<E>, r: Result<(), E>)
    requires log1 == log0 + Oks(done) && Ran(log1, log2, first, r)
    ensures r.Err? ==> Ran(log0, log2, Then(done, AndThen(first, rest)), r)
    ensures r.Ok? ==>
      log2 == log0 + Oks(done + first.steps) && Then(done, AndThen(first, rest)) == Then(done + first.steps, rest)
  {
    if r.Err? {
      RanAndThen(log1, log2, log2, first, rest, r, r);
      RanAfter(log0, log1, log2, done, AndThen(first, rest), r);
    } else {
      ExecutedOk(first, log2[|log1|..], r);
      assert log2 == log1 + log2[|log1|..];
      OksAppend(done, first.steps);
      assert done + (first.steps + rest.steps) == (done + first.steps) + rest.steps;
    }
  }

  /** The record is unchanged and the plan issues nothing. */
  lemma RanNothing<E>(log: seq<Attempt>, r: Result<(), E>)
    ensures Ran(log, log, Plan([], r), r)
  {
    assert log[|log|..] == [];
  }

  /** The same calls, reporting `f` of each error. */
  function MapErrors<E, F>(plan: Plan<E>, f: E -> F): (p: Plan<F>)
    ensures |p.steps| == |plan.steps| && p.end.Ok? == plan.end.Ok?
    ensures forall i :: 0 <= i < |plan.steps| ==> p.steps[i] == Step(plan.steps[i].call, f(plan.steps[i].onFail))
  {
    Plan(seq(|plan.steps|, i requires 0 <= i < |plan.steps| => Step(plan.steps[i].call, f(plan.steps[i].onFail))),
         MapResult(plan.end, f))
  }

  function MapResult<E, F>(r: Result<(), E>, f: E -> F): (m: Result<(), F>)
    ensures m.Ok? == r.Ok? && (r.Err? ==> m.error == f(r.error))
  {
    if r.Ok? then Ok(()) else Err(f(r.error))
  }

  /** Renaming the errors changes nothing about which calls a run makes. */
  lemma ExecutedMapErrors<E, F>(plan: Plan<E>, f: E -> F, attempts: seq<Attempt>, r: Result<(), E>)
    requires Executed(plan, attempts, r)
    ensures Executed(MapErrors(plan, f), attempts, MapResult(r, f))
  {
    var m := MapErrors(plan, f);
    assert Oks(m.steps) == Oks(plan.steps);
    if |attempts| > 0 && !attempts[|attempts| - 1].ok {
      var k := |attempts| - 1;
      assert Oks(m.steps[..k]) == Oks(plan.steps[..k]);
    }
  }

  lemma RanMapErrors<E, F>(log0: seq<Attempt>, log1: seq<Attempt>, plan: Plan<E>, f: E -> F, r: Result<(), E>)
    requires Ran(log0, log1, plan, r)
    ensures Ran(log0, log1, MapErrors(plan, f), MapResult(r, f))
  {
    ExecutedMapErrors(plan, f, log1[|log0|..], r);
  }

  // ---------------------------------------------------------------------
  // Chunked writes

  /**
   * The writes of `data[offset..]` in pieces of `size` bytes (the last one
   * shorter), each at `start + offset` with 32-bit wrap-around, and each
   * reporting `fail` of its offset when refused.
   */
  function Chunks<E>(start: u32, data: seq<byte>, size: nat, offset: nat, fail: nat -> E): seq<Step<E>>
    requires size > 0
    decreases |data| - offset
  {
    if offset >= |data| then []
    else
      var end := if offset + size > |data| then |data| else offset + size;
      [Step(WriteBlock(Wrap32(start + offset), data[offset..end]), fail(offset))] + Chunks(start, data, size, end, fail)
  }

  /** The piece of `n` bytes at `offset` (the chunk size, or what is left if that is less), and the rest after it. */
  lemma ChunksHead<E>(start: u32, data: seq<byte>, size: nat, offset: nat, n: nat, fail: nat -> E)
    requires size > 0 && offset < |data|
    requires n == if |data| - offset < size then |data| - offset else size
    ensures Plan(Chunks(start, data, size, offset, fail), Ok(()))
      == Then([Step(WriteBlock(Wrap32(start + offset), data[offset..offset + n]), fail(offset))], Plan(Chunks(start, data, size, offset + n, fail), Ok(())))
  {
  }

  /** The bytes carried by the writes among `steps`, in order. */
  function Payload<E>(steps: seq<Step<E>>): seq<byte> {
    if |steps| == 0 then []
    else (if steps[0].call.WriteBlock? then steps[0].call.data else []) + Payload(steps[1..])
  }

  lemma {:induction false} PayloadAppend<E>(a: seq<Step<E>>, b: seq<Step<E>>)
    ensures Payload(a + b) == Payload(a) + Payload(b)
  {
    if |a| > 0 {
      assert (a + b)[1..] == a[1..] + b;
      PayloadAppend(a[1..], b);
    } else {
      assert a + b == b;
    }
  }

  /** The pieces put back together are the data. */
  lemma {:induction false} ChunksPayload<E>(start: u32, data: seq<byte>, size: nat, offset: nat, fail: nat -> E)
    requires size > 0 && offset <= |data|
    ensures Payload(Chunks(start, data, size, offset, fail)) == data[offset..]
    decreases |data| - offset
  {
    if offset < |data| {
      var end := if offset + size > |data| then |data| else offset + size;
      ChunksPayload(start, data, size, end, fail);
      assert data[offset..] == data[offset..end] + data[end..];
    }
  }

  /**
   * Piece `i` starts `i * size` bytes after `offset`, holds at most `size`
   * bytes and is written at that offset from `start`.
   */
  lemma {:induction false} ChunkAt<E>(start: u32, data: seq<byte>, size: nat, offset: nat, fail: nat -> E, i: nat)
    requires size > 0 && i < |Chunks(start, data, size, offset, fail)|
    ensures offset + i * size < |data|
    ensures var o := offset + i * size;
      var end := if o + size > |data| then |data| else o + size;
      Chunks(start, data, size, offset, fail)[i] == Step(WriteBlock(Wrap32(start + o), data[o..end]), fail(o))
    decreases i
  {
    var end := if offset + size > |data| then |data| else offset + size;
    if i > 0 {
      ChunkAt(start, data, size, end, fail, i - 1);
      assert end == offset + size;
      assert end + (i - 1) * size == offset + i * size;
    }
  }

  /** Every piece is a non-empty write of at most `size` bytes. */
  lemma ChunksBounded<E>(start: u32, data: seq<byte>, size: nat, offset: nat, fail: nat -> E)
    requires size > 0
    ensures forall s | s in Chunks(start, data, size, offset, fail) ::
      s.call.WriteBlock? && 0 < |s.call.data| <= size
  {
    var cs := Chunks(start, data, size, offset, fail);
    forall s | s in cs
      ensures s.call.WriteBlock? && 0 < |s.call.data| <= size
    {
      var i :| 0 <= i < |cs| && cs[i] == s;
      ChunkAt(start, data, size, offset, fail, i);
    }
  }
}
