/**
 * The shared download budget, in limited mode, one atomic operation at a time.
 *
 * Any number of threads run Reserve, Refund and RefillBudget; a step is one load, store,
 * compare-and-swap or fetch-and-add of one of them. The counters at the end of `State` only record history.
 */
module BandwidthThrottler {

  datatype Thread =
    | Idle
    | Reserving(want: nat, current: int)    // in Reserve's loop, after a load that gave `current` > 0
    | Refilling(budget: nat, current: int)  // in RefillBudget, between its load and its store

  datatype State = State(
    balance: int,
    threads: map<nat, Thread>,
    granted: nat,     // bytes handed out by Reserve
    refunded: nat,    // bytes returned by Refund
    budgets: nat,     // the budgets of completed refills
    exposed: nat)     // bytes handed out while some refill was between its load and its store
  {
    function Of(t: nat): Thread { if t in threads then threads[t] else Idle }

    ghost predicate RefillPending() { exists t :: t in threads && threads[t].Refilling? }

    /** Bytes handed out and not given back. */
    function Net(): int { granted - refunded }
  }

  datatype Step =
    | ReserveLoad(thread: nat, want: nat)
    | ReserveSwap(thread: nat, spurious: bool)
    | Refund(bytes: nat)
    | RefillLoad(thread: nat, kbps: nat, tickMs: nat)
    | RefillStore(thread: nat)

  /** One tick's budget, in truncating integer arithmetic. */
  function Budget(kbps: nat, tickMs: nat): nat { kbps * 1024 * tickMs / 1000 }

  function Least(a: int, b: int): int { if a < b then a else b }

  /** Go back to the loop test of Reserve with a fresh value: it leaves the loop, granting 0, unless that is positive. */
  function Reloaded(s: State, t: nat, want: nat): State {
    s.(threads := s.threads[t := if s.balance > 0 then Reserving(want, s.balance) else Idle])
  }

  ghost function Apply(s: State, step: Step): State {
    match step
    case ReserveLoad(t, want) =>
      if s.Of(t).Idle? then Reloaded(s, t, want) else s
    case ReserveSwap(t, spurious) =>
      if !s.Of(t).Reserving? then s
      else
        var r := s.Of(t);
        if s.balance == r.current && !spurious then
          var n: nat := if 0 < r.current < r.want then r.current else r.want;
          s.(balance := s.balance - n, threads := s.threads[t := Idle], granted := s.granted + n,
             exposed := if s.RefillPending() then s.exposed + n else s.exposed)
        else Reloaded(s, t, r.want)
    case Refund(bytes) =>
      s.(balance := s.balance + bytes, refunded := s.refunded + bytes)
    case RefillLoad(t, kbps, tickMs) =>
      if s.Of(t).Idle? then s.(threads := s.threads[t := Refilling(Budget(kbps, tickMs), s.balance)]) else s
    case RefillStore(t) =>
      if !s.Of(t).Refilling? then s
      else
        var r := s.Of(t);
        var current := if r.current < 0 then 0 else r.current;
        s.(balance := Least(current + r.budget, r.budget * 2), threads := s.threads[t := Idle], budgets := s.budgets + r.budget)
  }

  ghost function Run(s: State, steps: seq<Step>): State
    decreases |steps|
  {
    if steps == [] then s else Run(Apply(s, steps[0]), steps[1..])
  }

  /** With `line` what may have been handed out so far: neither the balance nor any pending refill's stale value exceeds what is left of it. */
  ghost predicate Inv(s: State, start: int) {
    && s.balance >= 0
    && s.balance + s.Net() <= start + s.budgets + s.exposed
    && (forall t :: t in s.threads && s.threads[t].Refilling? ==>
          0 <= s.threads[t].current && s.threads[t].current + s.Net() <= start + s.budgets + s.exposed)
    && (forall t :: t in s.threads && s.threads[t].Reserving? ==> s.threads[t].current > 0)
  }

  lemma StepKeepsInv(s: State, start: int, step: Step)
    requires Inv(s, start)
    ensures Inv(Apply(s, step), start)
  {
    if step.ReserveSwap? && s.Of(step.thread).Reserving? {
      var s', r := Apply(s, step), s.Of(step.thread);
      if s.balance == r.current && !step.spurious && !s.RefillPending() {
        assert !s'.RefillPending();
      }
    }
  }

  /**
   * Whatever the interleaving: the balance is never negative, and the bytes handed out, less those given
   * back, are at most the starting balance, plus every budget added, plus what was handed out inside a
   * refill's window between load and store (the store overwrites those grants).
   */
  lemma {:induction false} GrantsBounded(s: State, start: int, steps: seq<Step>)
    requires Inv(s, start)
    ensures var end := Run(s, steps);
            && Inv(end, start)
            && end.balance >= 0
            && end.Net() <= start + end.budgets + end.exposed
    decreases |steps|
  {
    if steps != [] {
      StepKeepsInv(s, start, steps[0]);
      GrantsBounded(Apply(s, steps[0]), start, steps[1..]);
    }
  }

  /** The window term cannot be dropped: 100 bytes and one budget of 102, and yet 302 bytes are handed out. */
  lemma WindowExample()
    ensures var start := State(100, map[], 0, 0, 0, 0);
            var end := Run(start, [RefillLoad(0, 100, 1), ReserveLoad(1, 100), ReserveSwap(1, false),
                                   RefillStore(0), ReserveLoad(1, 300), ReserveSwap(1, false)]);
            Budget(100, 1) == 102 && Inv(start, 100) && end.budgets == 102 && end.Net() == 302 > 100 + 102
  {
    var s0 := State(100, map[], 0, 0, 0, 0);
    var s1 := Apply(s0, RefillLoad(0, 100, 1));
    assert s1.threads[0].Refilling? && s1.RefillPending();
    var steps := [RefillLoad(0, 100, 1), ReserveLoad(1, 100), ReserveSwap(1, false),
                  RefillStore(0), ReserveLoad(1, 300), ReserveSwap(1, false)];
    var s2 := Apply(s1, steps[1]);
    var s4 := Apply(Apply(s2, steps[2]), steps[3]);
    RunTwo(s0, steps);
    RunTwo(s2, steps[2..]);
    assert steps[2..][2..] == steps[4..];
    RunTwo(s4, steps[4..]);
    assert steps[4..][2..] == [];
  }

  lemma RunTwo(s: State, steps: seq<Step>)
    requires |steps| >= 2
    ensures Run(s, steps) == Run(Apply(Apply(s, steps[0]), steps[1]), steps[2..])
  {
    assert steps[1..][1..] == steps[2..];
  }

  /** Every refill is one uninterrupted load and store, with budget `b`. */
  ghost predicate AtomicRefills(steps: seq<Step>, b: nat)
    decreases |steps|
  {
    if steps == [] then true
    else if steps[0].RefillLoad? then
      && |steps| >= 2 && steps[1] == RefillStore(steps[0].thread)
      && Budget(steps[0].kbps, steps[0].tickMs) == b
      && AtomicRefills(steps[2..], b)
    else !steps[0].RefillStore? && AtomicRefills(steps[1..], b)
  }

  function Ticks(steps: seq<Step>): nat {
    if steps == [] then 0 else (if steps[0].RefillLoad? then 1 else 0) + Ticks(steps[1..])
  }

  lemma OneMore(k: nat, b: nat)
    ensures (k + 1) * b == k * b + b
  {
  }

  lemma TicksSkip(steps: seq<Step>)
    requires |steps| >= 2 && steps[0].RefillLoad? && !steps[1].RefillLoad?
    ensures Ticks(steps) == Ticks(steps[2..]) + 1
  {
    assert steps[1..][1..] == steps[2..];
  }

  /** An uninterrupted refill of an idle thread: the leftover and the budget, at most two budgets in all. */
  lemma RefillAtOnce(s: State, t: nat, kbps: nat, tickMs: nat)
    requires !s.RefillPending()
    ensures var b := Budget(kbps, tickMs);
            var s2 := Apply(Apply(s, RefillLoad(t, kbps, tickMs)), RefillStore(t));
            && !s2.RefillPending()
            && s2.exposed == s.exposed && s2.Net() == s.Net()
            && (forall u :: u in s2.threads && s2.threads[u].Reserving? ==> u in s.threads && s2.threads[u] == s.threads[u])
            && (if s.Of(t).Idle? then
                  s2.budgets == s.budgets + b && s2.balance == Least((if s.balance < 0 then 0 else s.balance) + b, 2 * b)
                else s2 == s)
  {
    var s1 := Apply(s, RefillLoad(t, kbps, tickMs));
    assert s.Of(t).Idle? ==> s1.threads[t] == Refilling(Budget(kbps, tickMs), s.balance);
    assert s.Of(t).Idle? ==> Apply(s1, RefillStore(t)).threads == s.threads[t := Idle];
  }

  /** Without interrupted refills nothing is handed out inside a window, and each tick adds at most `b`. */
  lemma {:induction false} NothingExposed(s: State, steps: seq<Step>, b: nat)
    requires !s.RefillPending() && AtomicRefills(steps, b)
    ensures var end := Run(s, steps);
            !end.RefillPending() && end.exposed == s.exposed && end.budgets <= s.budgets + Ticks(steps) * b
    decreases |steps|
  {
    if steps == [] {
    } else if steps[0].RefillLoad? {
      var s2 := Apply(Apply(s, steps[0]), steps[1]);
      RunTwo(s, steps);
      RefillAtOnce(s, steps[0].thread, steps[0].kbps, steps[0].tickMs);
      NothingExposed(s2, steps[2..], b);
      TicksSkip(steps);
      OneMore(Ticks(steps[2..]), b);
    } else {
      var s1 := Apply(s, steps[0]);
      assert !s1.RefillPending();
      NothingExposed(s1, steps[1..], b);
    }
  }

  /** What the header promises, the leftover discarded, holds exactly if there was none, or no budget. */
  lemma LeftoverDiscarded(s: State, t: nat, kbps: nat, tickMs: nat)
    requires !s.RefillPending() && s.Of(t).Idle?
    ensures var b := Budget(kbps, tickMs);
            Apply(Apply(s, RefillLoad(t, kbps, tickMs)), RefillStore(t)).balance == b <==> s.balance <= 0 || b == 0
  {
    RefillAtOnce(s, t, kbps, tickMs);
  }

  /**
   * A refill brings back bytes that were handed out exactly if the balance it overwrites is below both the
   * value it loaded and its budget; by the difference, what may still be handed out grows.
   */
  lemma StoreRaises(s: State, t: nat)
    requires s.Of(t).Refilling?
    ensures var r, s2 := s.Of(t), Apply(s, RefillStore(t));
            var kept := Least(if r.current < 0 then 0 else r.current, r.budget);
            && (s2.balance + s2.Net() - s2.budgets) - (s.balance + s.Net() - s.budgets) == kept - s.balance
            && (s2.balance + s2.Net() - s2.budgets > s.balance + s.Net() - s.budgets <==> s.balance < kept)
  {
  }

  /** A swap that succeeds hands out what was wanted or all there is, whichever is less, and ends the call; one that fails hands out nothing. */
  lemma SwapGrants(s: State, t: nat, spurious: bool)
    requires s.Of(t).Reserving? && s.Of(t).current > 0
    ensures var r, s2 := s.Of(t), Apply(s, ReserveSwap(t, spurious));
            var n := if s.balance != r.current || spurious then 0 else if r.want < s.balance then r.want else s.balance;
            && s2.Net() == s.Net() + n && s2.balance == s.balance - n
            && (s.balance == r.current && !spurious ==> s2.Of(t).Idle?)
            && (s2.Of(t).Reserving? ==> s2.Of(t).want == r.want)
  {
  }

  /** The budget is the rate times the time, in whole bytes, a kilobyte being 1024 of them. */
  lemma BudgetExact(kbps: nat, tickMs: nat)
    ensures 1000 * Budget(kbps, tickMs) <= kbps * 1024 * tickMs < 1000 * (Budget(kbps, tickMs) + 1)
  {
  }

  lemma AfterTick(s: State, b: nat, steps: seq<Step>, n: nat)
    requires s.balance >= 0 && !s.RefillPending()
    requires forall t :: t in s.threads && s.threads[t].Reserving? ==> s.threads[t].current > 0
    requires AtomicRefills(steps, b) && n == 1 + Ticks(steps)
    ensures Run(s, steps).Net() - s.Net() <= s.balance + n * b - b
  {
    GrantsBounded(s, s.balance + s.Net() - s.budgets - s.exposed, steps);
    NothingExposed(s, steps, b);
    OneMore(Ticks(steps), b);
  }

  /**
   * The rate the cap promises: from the first of n consecutive ticks of budget b to the end, at most n * b
   * bytes net are handed out beyond what was banked before them, and of that no more than b counts.
   */
  lemma RateCap(s: State, tick: nat, kbps: nat, tickMs: nat, steps: seq<Step>, n: nat)
    requires s.balance >= 0 && !s.RefillPending() && s.Of(tick).Idle?
    requires forall t :: t in s.threads && s.threads[t].Reserving? ==> s.threads[t].current > 0
    requires AtomicRefills(steps, Budget(kbps, tickMs)) && n == 1 + Ticks(steps)
    ensures var b := Budget(kbps, tickMs);
            var net := Run(s, [RefillLoad(tick, kbps, tickMs), RefillStore(tick)] + steps).Net() - s.Net();
            net <= n * b + Least(s.balance, b) <= (n + 1) * b
  {
    var all := [RefillLoad(tick, kbps, tickMs), RefillStore(tick)] + steps;
    RunTwo(s, all);
    assert all[2..] == steps;
    RefillAtOnce(s, tick, kbps, tickMs);
    AfterTick(Apply(Apply(s, all[0]), all[1]), Budget(kbps, tickMs), steps, n);
    OneMore(n, Budget(kbps, tickMs));
  }

  // ---- The cap is reached ----

  /** Two threads at rest, and no refill under way. */
  ghost predicate Quiet(s: State, tick: nat, reader: nat) {
    tick != reader && !s.RefillPending() && s.Of(tick).Idle? && s.Of(reader).Idle? && s.balance >= 0
  }

  /** One reader takes all that there is. */
  function TakeAll(reader: nat, want: nat): seq<Step> { [ReserveLoad(reader, want), ReserveSwap(reader, false)] }

  /** `n` ticks, the reader taking the budget after each. */
  function Drained(n: nat, tick: nat, reader: nat, kbps: nat, tickMs: nat): seq<Step> {
    if n == 0 then []
    else [RefillLoad(tick, kbps, tickMs), RefillStore(tick)] + (TakeAll(reader, Budget(kbps, tickMs)) + Drained(n - 1, tick, reader, kbps, tickMs))
  }

  lemma TakenAll(s: State, tick: nat, reader: nat, want: nat)
    requires Quiet(s, tick, reader) && want == s.balance > 0
    ensures var s2 := Apply(Apply(s, ReserveLoad(reader, want)), ReserveSwap(reader, false));
            Quiet(s2, tick, reader) && s2.balance == 0 && s2.Net() == s.Net() + want
  {
    var s1 := Apply(s, ReserveLoad(reader, want));
    assert s1.threads[reader] == Reserving(want, want);
  }

  lemma RefilledQuiet(s: State, tick: nat, reader: nat, kbps: nat, tickMs: nat)
    requires Quiet(s, tick, reader)
    ensures var b := Budget(kbps, tickMs);
            var s2 := Apply(Apply(s, RefillLoad(tick, kbps, tickMs)), RefillStore(tick));
            Quiet(s2, tick, reader) && s2.balance == b + Least(s.balance, b) && s2.Net() == s.Net()
  {
    RefillAtOnce(s, tick, kbps, tickMs);
    var s1 := Apply(s, RefillLoad(tick, kbps, tickMs));
    assert Apply(s1, RefillStore(tick)).threads == s.threads[tick := Idle];
  }

  lemma {:induction false} DrainedGrants(s: State, n: nat, tick: nat, reader: nat, kbps: nat, tickMs: nat)
    requires Quiet(s, tick, reader) && s.balance == 0 && Budget(kbps, tickMs) > 0
    ensures Run(s, Drained(n, tick, reader, kbps, tickMs)).Net() == s.Net() + n * Budget(kbps, tickMs)
    ensures AtomicRefills(Drained(n, tick, reader, kbps, tickMs), Budget(kbps, tickMs))
    ensures Ticks(Drained(n, tick, reader, kbps, tickMs)) == n
    decreases n
  {
    if n > 0 {
      var b, rest := Budget(kbps, tickMs), Drained(n - 1, tick, reader, kbps, tickMs);
      var taken := TakeAll(reader, b) + rest;
      var all := Drained(n, tick, reader, kbps, tickMs);
      assert all[2..] == taken && taken[2..] == rest && taken[1..][1..] == rest;
      hide Budget, Apply, Quiet;
      RunTwo(s, all);
      RefilledQuiet(s, tick, reader, kbps, tickMs);
      var s2 := Apply(Apply(s, all[0]), all[1]);
      RunTwo(s2, taken);
      TakenAll(s2, tick, reader, b);
      DrainedGrants(Apply(Apply(s2, taken[0]), taken[1]), n - 1, tick, reader, kbps, tickMs);
      OneMore(n - 1, b);
      TicksSkip(all);
      assert Ticks(taken) == Ticks(taken[1..]) == Ticks(rest);
      assert AtomicRefills(taken, b) && AtomicRefills(taken[1..], b);
    }
  }

  /** For every number of ticks and whatever was banked, some run hands out exactly what `RateCap` allows: n + 1 budgets if one was banked. */
  lemma RateCapReached(s: State, n: nat, tick: nat, reader: nat, kbps: nat, tickMs: nat)
    requires Quiet(s, tick, reader) && Budget(kbps, tickMs) > 0
    ensures var b := Budget(kbps, tickMs);
            var steps := TakeAll(reader, b + Least(s.balance, b)) + Drained(n, tick, reader, kbps, tickMs);
            && AtomicRefills(steps, b) && Ticks(steps) == n
            && Run(s, [RefillLoad(tick, kbps, tickMs), RefillStore(tick)] + steps).Net() - s.Net() == (n + 1) * b + Least(s.balance, b)
  {
    var b, rest := Budget(kbps, tickMs), Drained(n, tick, reader, kbps, tickMs);
    var steps := TakeAll(reader, b + Least(s.balance, b)) + rest;
    var all := [RefillLoad(tick, kbps, tickMs), RefillStore(tick)] + steps;
    assert all[2..] == steps && steps[2..] == rest && steps[1..][1..] == rest;
    hide Budget, Apply, Quiet;
    RunTwo(s, all);
    RefilledQuiet(s, tick, reader, kbps, tickMs);
    var s2 := Apply(Apply(s, all[0]), all[1]);
    RunTwo(s2, steps);
    TakenAll(s2, tick, reader, b + Least(s.balance, b));
    DrainedGrants(Apply(Apply(s2, steps[0]), steps[1]), n, tick, reader, kbps, tickMs);
    OneMore(n, b);
    assert AtomicRefills(steps[1..], b) && Ticks(steps) == Ticks(steps[1..]) == Ticks(rest);
  }
}
