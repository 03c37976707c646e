/** Trailing-edge debounce: a closure that owns one timer slot. Every call
    clears the timer the slot names and arms a new one, `delay` milliseconds
    ahead, carrying the call's arguments; when that timer comes due the host
    runs the wrapped function with them.

    The host's timers are modelled on a discrete clock counting milliseconds:
    `queue` is the host's table of armed timers created by this closure, keyed
    by timer id, and a `Tick` advances the clock by one millisecond and then
    runs the timer that has come due, so a timer due at time t runs before any
    call made at time t. Invocations of the wrapped function are recorded in
    `invoked`, with the time they happen and the arguments they receive. */
module Debounce {
  import opened Options

  datatype Timer<A> = Timer(fireAt: int, args: A)

  datatype Invocation<A> = Invocation(at: int, args: A)

  datatype DebounceState<A> = DebounceState(
    now: int,                      // the host clock, in milliseconds
    timer: Option<nat>,            // the closure's slot: the id of the last timer it armed
    nextId: nat,                   // the id the host hands out next
    queue: map<nat, Timer<A>>,     // timers armed and not yet run or cleared
    invoked: seq<Invocation<A>>)   // every run of the wrapped function so far

  datatype Input<A> = Call(args: A) | Tick

  /** The state of a freshly created closure at time `now`: the slot is unset. */
  function Initial<A>(now: int): (s: DebounceState<A>)
    ensures s.now == now && s.timer.None? && s.queue == map[] && s.invoked == []
    ensures SingleSlot(s) && !SlotDue(s, now + 1)
  {
    DebounceState(now, None, 1, map[], [])
  }

  /** The host holds no timer of this closure other than the one its slot names. */
  ghost predicate SingleSlot<A>(s: DebounceState<A>)
  {
    forall id :: id in s.queue ==> s.timer == Some(id)
  }

  /** `clearTimeout(timer)`; clearing an unset or already run timer does nothing. */
  function ClearSlot<A>(s: DebounceState<A>): (q: map<nat, Timer<A>>)
    ensures s.timer.Some? ==> s.timer.value !in q
    ensures forall id :: id in q <==> id in s.queue && s.timer != Some(id)
    ensures forall id :: id in q ==> q[id] == s.queue[id]
  {
    match s.timer
    case None => s.queue
    case Some(id) => s.queue - {id}
  }

  /** One call of the debounced function at the current time. */
  function CallStep<A>(delay: nat, s: DebounceState<A>, args: A): (r: DebounceState<A>)
    ensures r.invoked == s.invoked && r.now == s.now
  {
    var id := s.nextId;
    s.(timer := Some(id), nextId := id + 1,
       queue := ClearSlot(s)[id := Timer(s.now + delay, args)])
  }

  /** The slot's timer, when it is armed and due at `t`. */
  predicate SlotDue<A>(s: DebounceState<A>, t: int)
  {
    s.timer.Some? && s.timer.value in s.queue && s.queue[s.timer.value].fireAt <= t
  }

  /** One millisecond passes, and a timer that has come due runs. */
  function TickStep<A>(s: DebounceState<A>): (r: DebounceState<A>)
    ensures r.now == s.now + 1
  {
    var t := s.now + 1;
    if SlotDue(s, t) then
      var id := s.timer.value;
      s.(now := t, queue := s.queue - {id},
         invoked := s.invoked + [Invocation(t, s.queue[id].args)])
    else
      s.(now := t)
  }

  function Step<A>(delay: nat, s: DebounceState<A>, e: Input<A>): DebounceState<A>
  {
    match e
    case Call(args) => CallStep(delay, s, args)
    case Tick => TickStep(s)
  }

  /** The state after a sequence of inputs, the first one first. */
  function Run<A>(delay: nat, s: DebounceState<A>, es: seq<Input<A>>): DebounceState<A>
    decreases |es|
  {
    if es == [] then s else Run(delay, Step(delay, s, es[0]), es[1..])
  }

  /** `n` milliseconds of silence. */
  function Ticks<A>(n: nat): (r: seq<Input<A>>)
    ensures |r| == n && forall i :: 0 <= i < n ==> r[i] == Tick
  {
    if n == 0 then [] else Ticks(n - 1) + [Tick]
  }

  /** A burst: call with `args[i]`, then wait `gaps[i]` milliseconds, for each i. */
  function Burst<A>(args: seq<A>, gaps: seq<nat>): seq<Input<A>>
    requires |gaps| == |args|
  {
    if args == [] then [] else [Call(args[0])] + Ticks(gaps[0]) + Burst(args[1..], gaps[1..])
  }

  function Sum(xs: seq<nat>): nat
  {
    if xs == [] then 0 else xs[0] + Sum(xs[1..])
  }

  lemma {:induction false} RunAppend<A>(delay: nat, s: DebounceState<A>, a: seq<Input<A>>, b: seq<Input<A>>)
    ensures Run(delay, s, a + b) == Run(delay, Run(delay, s, a), b)
    decreases |a|
  {
    if a == [] {
      assert a + b == b;
    } else {
      assert a + b != [];
      assert (a + b)[0] == a[0];
      assert (a + b)[1..] == a[1..] + b;
      RunAppend(delay, Step(delay, s, a[0]), a[1..], b);
    }
  }

  /** Calls and ticks keep the host from holding any timer of this closure other
      than the one its slot names. */
  lemma CallStepValid<A>(delay: nat, s: DebounceState<A>, args: A)
    requires SingleSlot(s)
    ensures SingleSlot(CallStep(delay, s, args))
  {
  }

  lemma TickStepValid<A>(s: DebounceState<A>)
    requires SingleSlot(s)
    ensures SingleSlot(TickStep(s))
  {
  }

  lemma {:induction false} RunValid<A>(delay: nat, s: DebounceState<A>, es: seq<Input<A>>)
    requires SingleSlot(s)
    ensures SingleSlot(Run(delay, s, es))
    decreases |es|
  {
    if es != [] {
      match es[0] {
        case Call(args) => CallStepValid(delay, s, args);
        case Tick => TickStepValid(s);
      }
      RunValid(delay, Step(delay, s, es[0]), es[1..]);
    }
  }

  /** At most one invocation is ever pending. */
  lemma AtMostOnePending<A>(s: DebounceState<A>)
    requires SingleSlot(s)
    ensures |s.queue| <= 1
    ensures s.queue != map[] ==> s.timer.Some? && s.queue.Keys == {s.timer.value}
  {
    if s.queue != map[] {
      var id :| id in s.queue;
      assert s.queue.Keys == {id};
    }
  }

  /** So the host runs a timer of this closure at time `t` exactly when the slot's
      timer is due: a tick that looks only at the slot misses nothing. */
  lemma DueTimerIsSlot<A>(s: DebounceState<A>, t: int)
    requires SingleSlot(s)
    ensures (exists id :: id in s.queue && s.queue[id].fireAt <= t) <==> SlotDue(s, t)
  {
  }

  /** After any history, a call followed by `n` quiet milliseconds runs `func`
      exactly once if `n >= delay`, `delay` after the call and with that call's
      arguments, and not at all before then; the pending timer of any earlier
      call never runs. */
  lemma {:induction false} CallThenWait<A>(delay: nat, s: DebounceState<A>, a: A, n: nat)
    requires SingleSlot(s) && delay >= 1
    ensures var r := Run(delay, s, [Call(a)] + Ticks(n));
            && SingleSlot(r)
            && r.now == s.now + n
            && r.timer == Some(s.nextId) && r.nextId == s.nextId + 1
            && r.invoked == s.invoked + (if n >= delay then [Invocation(s.now + delay, a)] else [])
            && r.queue == (if n >= delay then map[] else map[s.nextId := Timer(s.now + delay, a)])
  {
    var c := CallStep(delay, s, a);
    assert ClearSlot(s) == map[] by {
      AtMostOnePending(s);
    }
    assert c.queue == map[s.nextId := Timer(s.now + delay, a)];
    if n == 0 {
      assert [Call(a)] + Ticks<A>(0) == [Call(a)];
      assert Run(delay, c, []) == c;
    } else {
      CallThenWait(delay, s, a, n - 1);
      var p := Run(delay, s, [Call(a)] + Ticks(n - 1));
      assert [Call(a)] + Ticks<A>(n) == ([Call(a)] + Ticks(n - 1)) + [Tick];
      RunAppend(delay, s, [Call(a)] + Ticks(n - 1), [Tick]);
      assert Run(delay, p, [Tick]) == TickStep(p);
      if n - 1 >= delay {
        assert !SlotDue(p, p.now + 1);
      } else if n == delay {
        assert SlotDue(p, p.now + 1);
      } else {
        assert !SlotDue(p, p.now + 1);
      }
    }
  }

  /** A burst whose gaps are all shorter than `delay`, followed by at least
      `delay` milliseconds of quiet, runs `func` exactly once, `delay` after the
      last call and with the last call's arguments. */
  lemma {:induction false} BurstRunsOnce<A>(delay: nat, s: DebounceState<A>, args: seq<A>, gaps: seq<nat>)
    requires SingleSlot(s) && delay >= 1
    requires |args| >= 1 && |gaps| == |args|
    requires forall i :: 0 <= i < |gaps| - 1 ==> gaps[i] < delay
    requires gaps[|gaps| - 1] >= delay
    ensures Run(delay, s, Burst(args, gaps)).invoked ==
            s.invoked + [Invocation(s.now + Sum(gaps[..|gaps| - 1]) + delay, args[|args| - 1])]
    decreases |args|
  {
    var first := [Call(args[0])] + Ticks(gaps[0]);
    assert Burst(args, gaps) == first + Burst(args[1..], gaps[1..]);
    RunAppend(delay, s, first, Burst(args[1..], gaps[1..]));
    CallThenWait(delay, s, args[0], gaps[0]);
    var r := Run(delay, s, first);
    if |args| == 1 {
      assert Burst(args[1..], gaps[1..]) == [];
      assert gaps[..0] == [];
    } else {
      BurstRunsOnce(delay, r, args[1..], gaps[1..]);
      var k := |gaps| - 1;
      assert gaps[..k] == [gaps[0]] + gaps[1..][..k - 1];
      assert Sum(gaps[..k]) == gaps[0] + Sum(gaps[1..][..k - 1]);
    }
  }

  /** Two calls separated by at least `delay` milliseconds, each followed by at
      least `delay` quiet milliseconds, run `func` twice, once per call. */
  lemma SeparatedCallsRunTwice<A>(delay: nat, s: DebounceState<A>, a: A, b: A, n: nat, m: nat)
    requires SingleSlot(s) && delay >= 1 && n >= delay && m >= delay
    ensures Run(delay, s, [Call(a)] + Ticks(n) + [Call(b)] + Ticks(m)).invoked ==
            s.invoked + [Invocation(s.now + delay, a), Invocation(s.now + n + delay, b)]
  {
    var first := [Call(a)] + Ticks(n);
    assert [Call(a)] + Ticks(n) + [Call(b)] + Ticks(m) == first + ([Call(b)] + Ticks(m));
    RunAppend(delay, s, first, [Call(b)] + Ticks(m));
    CallThenWait(delay, s, a, n);
    CallThenWait(delay, Run(delay, s, first), b, m);
  }

  /** The closure's state as an object: the slot, plus the host's clock, timer
      table and the record of invocations. */
  class Debouncer<A> {
    const delay: nat
    var now: int
    var timer: Option<nat>
    var nextId: nat
    var queue: map<nat, Timer<A>>
    var invoked: seq<Invocation<A>>

    function State(): DebounceState<A>
      reads this
    {
      DebounceState(now, timer, nextId, queue, invoked)
    }

    ghost predicate Valid()
      reads this
    {
      SingleSlot(State())
    }

    /** `debounce(func, delay)` at time `now`. */
    constructor (delay: nat, now: int)
      ensures Valid() && this.delay == delay && State() == Initial(now)
    {
      this.delay := delay;
      this.now := now;
      timer := None;
      nextId := 1;
      queue := map[];
      invoked := [];
    }

    /** A call of the debounced function: clear the slot's timer, arm a new one. */
    method Call(args: A)
      requires Valid()
      modifies this
      ensures Valid() && State() == CallStep(delay, old(State()), args)
      ensures queue == map[old(nextId) := Timer(now + delay, args)]
      ensures invoked == old(invoked)
    {
      AtMostOnePending(State());
      if timer.Some? {
        queue := queue - {timer.value};
      }
      var id := nextId;
      nextId := nextId + 1;
      queue := queue[id := Timer(now + delay, args)];
      timer := Some(id);
    }

    /** One millisecond of the host's clock; returns the arguments `func` runs
      with if the pending timer comes due. */
    method Tick() returns (fired: Option<A>)
      requires Valid()
      modifies this
      ensures Valid() && State() == TickStep(old(State()))
      ensures fired.Some? <==> |invoked| == |old(invoked)| + 1
      ensures fired.Some? ==> invoked == old(invoked) + [Invocation(now, fired.value)]
      ensures fired.None? ==> invoked == old(invoked)
    {
      now := now + 1;
      fired := None;
      if timer.Some? && timer.value in queue && queue[timer.value].fireAt <= now {
        var id := timer.value;
        fired := Some(queue[id].args);
        invoked := invoked + [Invocation(now, queue[id].args)];
        queue := queue - {id};
      }
    }
  }
}
