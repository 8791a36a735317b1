/**
 * `Command::execute` (src/command.rs): the attempt loop driven by `repeat`,
 * `until` and `max_repeat`, followed by the children phase.
 *
 * Spawning a process is replaced by an oracle: a sequence of process
 * outcomes, consumed one per attempt, in execution order across the whole
 * tree. A run that needs more outcomes than supplied ends as
 * `OutOfOutcomes`; with an unbounded supply the source would go on spawning.
 */
module Execution {
  import opened Values
  import opened Commands

  /** What the operating system reports for one spawned process. */
  datatype ProcessExit =
    | Exited(code: int)   // ran and exited with this status code
    | SpawnFailed         // `spawn()` failed: `.expect("failed to spawn")` panics
    | WaitFailed          // `wait_with_output()` failed: `?` returns the error
    | Killed              // ended by a signal: `status.code().unwrap()` panics

  /** The repetition policy of a node. */
  datatype Policy = Policy(repeat: Option<int>, maxRepeat: Option<int>, until: Option<int>)

  function PolicyOf(c: Command): Policy
  {
    Policy(c.repeat, c.maxRepeat, c.until)
  }

  /** How the attempt loop of one node ends. */
  datatype LoopEnd =
    | Finished(attempts: nat, code: int)
    | IoFailure(attempts: nat)
    | Panicked(attempts: nat)
    | Exhausted

  /**
   * The loop's decision after its `n`-th attempt exited with `code`, when
   * `successes` attempts so far exited with `until`: true to stop.
   * The tests are the source's, in the source's order.
   */
  predicate Stop(p: Policy, n: int, code: int, successes: int)
  {
    if p.maxRepeat.Some? && n >= p.maxRepeat.value then true
    else if p.repeat.Some? && p.until.None? && n < p.repeat.value then false
    else if p.until.Some? then code == p.until.value && (p.repeat.None? || successes >= p.repeat.value)
    else true
  }

  /**
   * The attempt loop from its `n`-th attempt on, `successes` counting the
   * attempts that exited with `until` so far.
   */
  function AttemptLoop(p: Policy, outs: seq<ProcessExit>, n: nat, successes: nat): (r: LoopEnd)
    requires n <= |outs|
    ensures r.Finished? ==> n < r.attempts <= |outs| && outs[r.attempts - 1] == Exited(r.code)
    ensures r.IoFailure? ==> n < r.attempts <= |outs| && outs[r.attempts - 1] == WaitFailed
    ensures r.Panicked? ==> n < r.attempts <= |outs| && outs[r.attempts - 1] in {SpawnFailed, Killed}
    decreases |outs| - n
  {
    if n == |outs| then Exhausted
    else
      match outs[n]
      case SpawnFailed => Panicked(n + 1)
      case Killed => Panicked(n + 1)
      case WaitFailed => IoFailure(n + 1)
      case Exited(code) =>
        var s := if p.until.Some? && code == p.until.value then successes + 1 else successes;
        if Stop(p, n + 1, code, s) then Finished(n + 1, code)
        else AttemptLoop(p, outs, n + 1, s)
  }

  /** The body of a node: nothing is spawned for an empty command, which counts as exit code 0. */
  function Body(c: Command, outs: seq<ProcessExit>): LoopEnd
  {
    if |c.command| == 0 then Finished(0, 0) else AttemptLoop(PolicyOf(c), outs, 0, 0)
  }

  /** One process launch: program, argument vector, environment and directory. */
  datatype Spawn = Spawn(program: string, args: seq<string>, env: map<string, string>, dir: string)

  /**
   * The launch of a node's body: `command[0]` with `command[1..]` and the
   * pass-through arguments, the node's environment, and its directory or "."
   * when none is set.
   */
  function SpawnOf(c: Command, pass: seq<string>): Spawn
    requires |c.command| > 0
  {
    Spawn(c.command[0], c.command[1..] + pass, c.env, if c.workingDir != "" then c.workingDir else ".")
  }

  /** `k` launches of the same body. */
  function Launches(s: Spawn, k: nat): (r: seq<Spawn>)
    ensures |r| == k && forall i :: 0 <= i < k ==> r[i] == s
  {
    if k == 0 then [] else Launches(s, k - 1) + [s]
  }

  /** The result of executing a node. */
  datatype Status = Code(code: int) | IoError | Panic | OutOfOutcomes

  /** How the children phase ends. */
  datatype ChildrenEnd = AllReturned | ChildPanicked | ChildrenStarved

  /** A run: its result, the number of outcomes it consumed, and the launches it made in order. */
  datatype Run = Run(status: Status, used: nat, spawns: seq<Spawn>)
  datatype ChildrenRun = ChildrenRun(end: ChildrenEnd, used: nat, spawns: seq<Spawn>)

  /** Number of attempts a loop end stands for. */
  function AttemptsOf(e: LoopEnd, outs: seq<ProcessExit>): nat
  {
    match e
    case Finished(k, _) => k
    case IoFailure(k) => k
    case Panicked(k) => k
    case Exhausted => |outs|
  }

  /** The launches the body of `c` makes when its loop ends as `e`. */
  function BodySpawns(c: Command, pass: seq<string>, e: LoopEnd, outs: seq<ProcessExit>): seq<Spawn>
  {
    if |c.command| == 0 then [] else Launches(SpawnOf(c, pass), AttemptsOf(e, outs))
  }

  /**
   * `execute`: the attempt loop, then, when the loop finished, the children
   * in declared order. The node reports its body's last exit code; a
   * failed wait returns the error before the children run; a panic aborts.
   */
  function Exec(c: Command, pass: seq<string>, outs: seq<ProcessExit>): (r: Run)
    ensures r.used <= |outs|
    decreases c, 1
  {
    var body := Body(c, outs);
    var launched := BodySpawns(c, pass, body, outs);
    match body
    case Exhausted => Run(OutOfOutcomes, |outs|, launched)
    case Panicked(k) => Run(Panic, k, launched)
    case IoFailure(k) => Run(IoError, k, launched)
    case Finished(k, code) =>
      Finish(ExecChildren(c, 0, pass, outs[k..]), k, code, launched)
  }

  /**
   * The children of `c` from the `i`-th on. Their results are discarded;
   * a panic in a sequential child unwinds into the parent, while a parallel
   * child's panic ends only its own thread and is dropped by `join`.
   */
  function ExecChildren(c: Command, i: nat, pass: seq<string>, outs: seq<ProcessExit>): (r: ChildrenRun)
    requires i <= |c.children|
    ensures r.used <= |outs|
    decreases c, 0, |c.children| - i
  {
    if i == |c.children| then ChildrenRun(AllReturned, 0, [])
    else
      var r := Exec(c.children[i], pass, outs);
      if r.status == OutOfOutcomes then ChildrenRun(ChildrenStarved, r.used, r.spawns)
      else if r.status == Panic && !c.parallel then ChildrenRun(ChildPanicked, r.used, r.spawns)
      else
        var rest := ExecChildren(c, i + 1, pass, outs[r.used..]);
        ChildrenRun(rest.end, r.used + rest.used, r.spawns + rest.spawns)
  }

  /**
   * The attempt loop of `execute`, as the source writes it: counters
   * `repetitions` and `successes`, the checks of `max_repeat`, `repeat` and
   * `until` after each attempt.
   */
  method RunAttempts(c: Command, outs: seq<ProcessExit>) returns (e: LoopEnd)
    ensures e == Body(c, outs)
  {
    if |c.command| == 0 {
      return Finished(0, 0);
    }
    ghost var p := PolicyOf(c);
    var repetitions: nat := 0;
    var successes: nat := 0;
    var exitStatus: int;
    while true
      invariant repetitions <= |outs|
      invariant AttemptLoop(p, outs, repetitions, successes) == AttemptLoop(p, outs, 0, 0)
      decreases |outs| - repetitions
    {
      if repetitions == |outs| {
        return Exhausted;
      }
      ghost var before := (repetitions, successes);
      var outcome := outs[repetitions];
      repetitions := repetitions + 1;
      match outcome {
        case SpawnFailed => return Panicked(repetitions);
        case Killed => return Panicked(repetitions);
        case WaitFailed => return IoFailure(repetitions);
        case Exited(code) => exitStatus := code;
      }
      assert outs[before.0] == Exited(exitStatus);
      // handle max_repeat
      if c.maxRepeat.Some? && repetitions >= c.maxRepeat.value {
        break;
      }
      // handle repeat
      if c.repeat.Some? && c.until.None? && repetitions < c.repeat.value {
        continue;
      }
      // handle until
      if c.until.Some? {
        if exitStatus != c.until.value {
          continue;
        }
        successes := successes + 1;
        if c.repeat.Some? && successes < c.repeat.value {
          continue;
        }
        break;
      }
      // nothing set
      break;
    }
    e := Finished(repetitions, exitStatus);
  }

  /**
   * `execute` on the whole tree: the attempt loop, then the children phase
   * with the outcomes the body left.
   */
  method Execute(c: Command, pass: seq<string>, outs: seq<ProcessExit>) returns (r: Run)
    ensures r == Exec(c, pass, outs)
    decreases c, 1
  {
    var body := RunAttempts(c, outs);
    var launched := BodySpawns(c, pass, body, outs);
    match body {
      case Exhausted => r := Run(OutOfOutcomes, |outs|, launched);
      case Panicked(k) => r := Run(Panic, k, launched);
      case IoFailure(k) => r := Run(IoError, k, launched);
      case Finished(k, code) =>
        var ch := RunChildren(c, pass, outs[k..]);
        r := Finish(ch, k, code, launched);
    }
  }

  /**
   * The children phase: each child in declared order (`for child in
   * self.children`), its result dropped.
   */
  method RunChildren(c: Command, pass: seq<string>, outs: seq<ProcessExit>) returns (ch: ChildrenRun)
    ensures ch == ExecChildren(c, 0, pass, outs)
    decreases c, 0, |c.children| + 1
  {
    var used: nat := 0;
    var spawns := [];
    var rest := outs;
    var i := 0;
    ghost var total := ExecChildren(c, 0, pass, outs);
    while i < |c.children|
      invariant i <= |c.children|
      invariant total == Attach(used, spawns, ExecChildren(c, i, pass, rest))
      decreases |c.children| - i
    {
      var stop;
      stop, used, spawns, rest := RunChild(c, i, pass, rest, used, spawns, total);
      if stop.Some? {
        return stop.value;
      }
      i := i + 1;
    }
    ch := ChildrenRun(AllReturned, used, spawns);
  }

  /**
   * One turn of the children loop: the `i`-th child runs on what its
   * elder siblings left; the phase stops when it starves, or when it
   * panics and the children are not parallel.
   */
  method RunChild(c: Command, i: nat, pass: seq<string>, rest: seq<ProcessExit>, used: nat, spawns: seq<Spawn>, ghost total: ChildrenRun)
    returns (stop: Option<ChildrenRun>, used': nat, spawns': seq<Spawn>, rest': seq<ProcessExit>)
    requires i < |c.children|
    requires total == Attach(used, spawns, ExecChildren(c, i, pass, rest))
    ensures stop.Some? ==> stop.value == total
    ensures stop.None? ==> total == Attach(used', spawns', ExecChildren(c, i + 1, pass, rest'))
    decreases c, 0, |c.children| - i
  {
    var child := Execute(c.children[i], pass, rest);
    used', spawns' := used + child.used, spawns + child.spawns;
    rest' := rest[child.used..];
    if child.status == OutOfOutcomes || (child.status == Panic && !c.parallel) {
      ChildrenStop(c, i, pass, rest);
      var end := if child.status == OutOfOutcomes then ChildrenStarved else ChildPanicked;
      return Some(ChildrenRun(end, used', spawns')), used', spawns', rest';
    }
    ChildrenAdvance(c, i, pass, rest, used, spawns, total);
    stop := None;
  }

  /** One child that neither starves nor unwinds into the parent hands the rest on to its siblings. */
  lemma ChildrenStep(c: Command, i: nat, pass: seq<string>, outs: seq<ProcessExit>)
    requires i < |c.children|
    requires Exec(c.children[i], pass, outs).status != OutOfOutcomes
    requires Exec(c.children[i], pass, outs).status == Panic ==> c.parallel
    ensures var r := Exec(c.children[i], pass, outs);
      ExecChildren(c, i, pass, outs) == Attach(r.used, r.spawns, ExecChildren(c, i + 1, pass, outs[r.used..]))
  {
  }

  /** A child that starves, or that panics in a sequential phase, ends the phase. */
  lemma ChildrenStop(c: Command, i: nat, pass: seq<string>, outs: seq<ProcessExit>)
    requires i < |c.children|
    requires var r := Exec(c.children[i], pass, outs);
      r.status == OutOfOutcomes || (r.status == Panic && !c.parallel)
    ensures var r := Exec(c.children[i], pass, outs);
      ExecChildren(c, i, pass, outs)
        == ChildrenRun(if r.status == OutOfOutcomes then ChildrenStarved else ChildPanicked, r.used, r.spawns)
  {
  }

  /** The children loop's invariant carries over one child that hands on to its siblings. */
  lemma ChildrenAdvance(c: Command, i: nat, pass: seq<string>, rest: seq<ProcessExit>, used: nat, spawns: seq<Spawn>, total: ChildrenRun)
    requires i < |c.children|
    requires total == Attach(used, spawns, ExecChildren(c, i, pass, rest))
    requires var r := Exec(c.children[i], pass, rest);
      r.status != OutOfOutcomes && (r.status == Panic ==> c.parallel)
    ensures var r := Exec(c.children[i], pass, rest);
      total == Attach(used + r.used, spawns + r.spawns, ExecChildren(c, i + 1, pass, rest[r.used..]))
  {
    var r := Exec(c.children[i], pass, rest);
    ChildrenStep(c, i, pass, rest);
    AttachChain(total, used, spawns, ExecChildren(c, i, pass, rest), r.used, r.spawns,
                ExecChildren(c, i + 1, pass, rest[r.used..]));
  }

  /** Two attachments in a row are one attachment of the sums. */
  lemma AttachChain(total: ChildrenRun, u1: nat, s1: seq<Spawn>, here: ChildrenRun, u2: nat, s2: seq<Spawn>, next: ChildrenRun)
    requires total == Attach(u1, s1, here) && here == Attach(u2, s2, next)
    ensures total == Attach(u1 + u2, s1 + s2, next)
  {
    AttachTwice(u1, s1, u2, s2, next);
  }

  lemma AttachTwice(u1: nat, s1: seq<Spawn>, u2: nat, s2: seq<Spawn>, ch: ChildrenRun)
    ensures Attach(u1, s1, Attach(u2, s2, ch)) == Attach(u1 + u2, s1 + s2, ch)
  {
    assert s1 + (s2 + ch.spawns) == (s1 + s2) + ch.spawns;
  }

  /** Puts a children run after the outcomes and launches already accounted for. */
  function Attach(used: nat, spawns: seq<Spawn>, ch: ChildrenRun): ChildrenRun
  {
    ChildrenRun(ch.end, used + ch.used, spawns + ch.spawns)
  }

  /** The node's run once its children phase has ended as `ch`, after a body of `k` attempts. */
  function Finish(ch: ChildrenRun, k: nat, code: int, launched: seq<Spawn>): Run
  {
    var status := match ch.end
      case AllReturned => Code(code)
      case ChildPanicked => Panic
      case ChildrenStarved => OutOfOutcomes;
    Run(status, k + ch.used, launched + ch.spawns)
  }

  // ---------------------------------------------------------------------------
  // What the attempt loop does, stated without the loop

  /** Every outcome is an exit with a status code (no spawn, wait or signal failure). */
  predicate AllExited(outs: seq<ProcessExit>)
  {
    forall i :: 0 <= i < |outs| ==> outs[i].Exited?
  }

  /** How many of the first `n` attempts exited with `u`. */
  function CountExits(outs: seq<ProcessExit>, n: nat, u: int): nat
    requires n <= |outs|
  {
    if n == 0 then 0 else CountExits(outs, n - 1, u) + (if outs[n - 1] == Exited(u) then 1 else 0)
  }

  /** The `successes` counter after `n` attempts. */
  function SuccessesAfter(p: Policy, outs: seq<ProcessExit>, n: nat): nat
    requires n <= |outs|
  {
    if p.until.Some? then CountExits(outs, n, p.until.value) else 0
  }

  /** The loop, having made `n` attempts that all exited, stops after the `n`-th. */
  predicate StopsAt(p: Policy, outs: seq<ProcessExit>, n: nat)
    requires AllExited(outs) && 1 <= n <= |outs|
  {
    Stop(p, n, outs[n - 1].code, SuccessesAfter(p, outs, n))
  }

  /** From attempt `m`, the loop ends at the first later attempt that stops it. */
  lemma {:induction false} LoopFrom(p: Policy, outs: seq<ProcessExit>, m: nat, n: nat)
    requires AllExited(outs) && m < n <= |outs|
    requires StopsAt(p, outs, n)
    requires forall k :: m < k < n ==> !StopsAt(p, outs, k)
    ensures AttemptLoop(p, outs, m, SuccessesAfter(p, outs, m)) == Finished(n, outs[n - 1].code)
    decreases n - m
  {
    assert SuccessesAfter(p, outs, m + 1) ==
      if p.until.Some? && outs[m].code == p.until.value then SuccessesAfter(p, outs, m) + 1
      else SuccessesAfter(p, outs, m);
    if m + 1 < n {
      assert !StopsAt(p, outs, m + 1);
      LoopFrom(p, outs, m + 1, n);
    }
  }

  /** From attempt `m`, a loop that ends at attempt `n` was stopped by `n` and by nothing before. */
  lemma {:induction false} LoopEndsFrom(p: Policy, outs: seq<ProcessExit>, m: nat, n: nat, code: int)
    requires AllExited(outs) && m <= |outs|
    requires AttemptLoop(p, outs, m, SuccessesAfter(p, outs, m)) == Finished(n, code)
    ensures m < n <= |outs| && StopsAt(p, outs, n) && code == outs[n - 1].code
    ensures forall k :: m < k < n ==> !StopsAt(p, outs, k)
    decreases |outs| - m
  {
    assert m < |outs|;
    assert SuccessesAfter(p, outs, m + 1) ==
      if p.until.Some? && outs[m].code == p.until.value then SuccessesAfter(p, outs, m) + 1
      else SuccessesAfter(p, outs, m);
    if !StopsAt(p, outs, m + 1) {
      LoopEndsFrom(p, outs, m + 1, n, code);
    }
  }

  /** From attempt `m`, a loop that nothing stops uses up every outcome. */
  lemma {:induction false} LoopExhaustsFrom(p: Policy, outs: seq<ProcessExit>, m: nat)
    requires AllExited(outs) && m <= |outs|
    requires forall k :: m < k <= |outs| ==> !StopsAt(p, outs, k)
    ensures AttemptLoop(p, outs, m, SuccessesAfter(p, outs, m)) == Exhausted
    decreases |outs| - m
  {
    if m < |outs| {
      assert SuccessesAfter(p, outs, m + 1) ==
        if p.until.Some? && outs[m].code == p.until.value then SuccessesAfter(p, outs, m) + 1
        else SuccessesAfter(p, outs, m);
      assert !StopsAt(p, outs, m + 1);
      LoopExhaustsFrom(p, outs, m + 1);
    }
  }

  /**
   * The attempt loop makes exactly `n` attempts and reports the `n`-th exit
   * code if and only if the `n`-th attempt is the first one after which the
   * policy says stop.
   */
  lemma LoopStopsAtFirst(p: Policy, outs: seq<ProcessExit>, n: nat)
    requires AllExited(outs) && 1 <= n <= |outs|
    ensures AttemptLoop(p, outs, 0, 0) == Finished(n, outs[n - 1].code)
        <==> StopsAt(p, outs, n) && forall k :: 1 <= k < n ==> !StopsAt(p, outs, k)
  {
    assert SuccessesAfter(p, outs, 0) == 0;
    if AttemptLoop(p, outs, 0, 0) == Finished(n, outs[n - 1].code) {
      LoopEndsFrom(p, outs, 0, n, outs[n - 1].code);
    }
    if StopsAt(p, outs, n) && forall k :: 1 <= k < n ==> !StopsAt(p, outs, k) {
      LoopFrom(p, outs, 0, n);
    }
  }

  /** The attempt loop needs more outcomes than supplied if and only if none of them stops it. */
  lemma LoopExhausts(p: Policy, outs: seq<ProcessExit>)
    requires AllExited(outs)
    ensures AttemptLoop(p, outs, 0, 0) == Exhausted <==> forall k :: 1 <= k <= |outs| ==> !StopsAt(p, outs, k)
  {
    assert SuccessesAfter(p, outs, 0) == 0;
    if forall k :: 1 <= k <= |outs| ==> !StopsAt(p, outs, k) {
      LoopExhaustsFrom(p, outs, 0);
    } else {
      var k :| 1 <= k <= |outs| && StopsAt(p, outs, k);
      FirstStop(p, outs, k);
    }
  }

  /** If some attempt stops the loop, the loop finishes (at the first such attempt). */
  lemma {:induction false} FirstStop(p: Policy, outs: seq<ProcessExit>, k: nat)
    requires AllExited(outs) && 1 <= k <= |outs| && StopsAt(p, outs, k)
    ensures AttemptLoop(p, outs, 0, 0).Finished?
    decreases k
  {
    if forall j :: 1 <= j < k ==> !StopsAt(p, outs, j) {
      assert SuccessesAfter(p, outs, 0) == 0;
      LoopFrom(p, outs, 0, k);
    } else {
      var j :| 1 <= j < k && StopsAt(p, outs, j);
      FirstStop(p, outs, j);
    }
  }

  /** With neither `repeat` nor `until`, exactly one attempt is made and its code reported. */
  lemma RunsOnceWithoutPolicy(p: Policy, outs: seq<ProcessExit>)
    requires p.repeat.None? && p.until.None?
    requires |outs| > 0 && outs[0].Exited?
    ensures AttemptLoop(p, outs, 0, 0) == Finished(1, outs[0].code)
  {
  }

  /** The attempt count `repeat` alone asks for: `max(1, R)`, or `max(1, min(R, M))` with `max_repeat = M`. */
  function RepeatTarget(p: Policy): nat
    requires p.repeat.Some?
  {
    var r := if p.maxRepeat.Some? && p.maxRepeat.value < p.repeat.value then p.maxRepeat.value else p.repeat.value;
    if r < 1 then 1 else r
  }

  /**
   * With `repeat = R` and no `until`, exactly `max(1, R)` attempts are made,
   * capped at `max(1, M)` when `max_repeat = M`; the last one's code is reported.
   */
  lemma RepeatCount(p: Policy, outs: seq<ProcessExit>)
    requires p.repeat.Some? && p.until.None?
    requires AllExited(outs) && RepeatTarget(p) <= |outs|
    ensures AttemptLoop(p, outs, 0, 0) == Finished(RepeatTarget(p), outs[RepeatTarget(p) - 1].code)
  {
    var n := RepeatTarget(p);
    forall k | 1 <= k <= |outs| ensures StopsAt(p, outs, k) <==> k >= n {
    }
    LoopStopsAtFirst(p, outs, n);
  }

  /** The largest number of attempts `max_repeat = M` allows: `max(1, M)`. */
  function MaxAttempts(p: Policy): nat
    requires p.maxRepeat.Some?
  {
    if p.maxRepeat.value < 1 then 1 else p.maxRepeat.value
  }

  /** From attempt `m` below the cap, the loop never goes past `max(1, M)` attempts. */
  lemma {:induction false} CappedFrom(p: Policy, outs: seq<ProcessExit>, m: nat, s: nat)
    requires p.maxRepeat.Some? && m < MaxAttempts(p) && m <= |outs|
    ensures var e := AttemptLoop(p, outs, m, s);
      (e.Exhausted? ==> |outs| < MaxAttempts(p)) && (!e.Exhausted? ==> AttemptsOf(e, outs) <= MaxAttempts(p))
    decreases |outs| - m
  {
    if m < |outs| && outs[m].Exited? && m + 1 < MaxAttempts(p) {
      var code := outs[m].code;
      var s' := if p.until.Some? && code == p.until.value then s + 1 else s;
      if !Stop(p, m + 1, code, s') {
        CappedFrom(p, outs, m + 1, s');
      }
    }
  }

  /**
   * With `max_repeat = M`, whatever the processes do, the loop makes at most
   * `max(1, M)` attempts, and it never needs more outcomes than that.
   */
  lemma MaxRepeatCaps(p: Policy, outs: seq<ProcessExit>)
    requires p.maxRepeat.Some?
    ensures var e := AttemptLoop(p, outs, 0, 0);
      (|outs| >= MaxAttempts(p) ==> !e.Exhausted?) && (!e.Exhausted? ==> AttemptsOf(e, outs) <= MaxAttempts(p))
  {
    CappedFrom(p, outs, 0, 0);
  }

  /** Index of the first outcome `Exited(u)`, or `|outs|` when there is none. */
  function FirstExit(outs: seq<ProcessExit>, u: int): (i: nat)
    ensures i <= |outs|
    ensures i < |outs| ==> outs[i] == Exited(u)
    ensures forall j :: 0 <= j < i ==> outs[j] != Exited(u)
  {
    if outs == [] then 0
    else if outs[0] == Exited(u) then 0
    else 1 + FirstExit(outs[1..], u)
  }

  /**
   * With `until = U` and neither `repeat` nor `max_repeat`, the loop stops at
   * the first attempt exiting with `U`, and reports `U`; if no attempt does, it
   * keeps spawning.
   */
  lemma UntilStopsAtFirstMatch(p: Policy, outs: seq<ProcessExit>)
    requires p.until.Some? && p.repeat.None? && p.maxRepeat.None?
    requires AllExited(outs)
    ensures var i := FirstExit(outs, p.until.value);
      AttemptLoop(p, outs, 0, 0) == if i < |outs| then Finished(i + 1, p.until.value) else Exhausted
  {
    var i := FirstExit(outs, p.until.value);
    forall k | 1 <= k <= |outs| ensures StopsAt(p, outs, k) <==> outs[k - 1] == Exited(p.until.value) {
    }
    if i < |outs| {
      LoopStopsAtFirst(p, outs, i + 1);
    } else {
      LoopExhausts(p, outs);
    }
  }

  /** The count of exits with `u` grows by at most one per attempt and never shrinks. */
  lemma {:induction false} CountExitsMonotone(outs: seq<ProcessExit>, j: nat, k: nat, u: int)
    requires j <= k <= |outs|
    ensures CountExits(outs, j, u) <= CountExits(outs, k, u) <= CountExits(outs, j, u) + (k - j)
    decreases k - j
  {
    if j < k {
      CountExitsMonotone(outs, j, k - 1, u);
    }
  }

  /**
   * With `until = U`, `repeat = R` and no `max_repeat`, the loop makes `n`
   * attempts exactly when the `n`-th exits with `U` and is the `max(1, R)`-th
   * to do so: matches need not be consecutive.
   */
  lemma UntilRepeatCountsMatches(p: Policy, outs: seq<ProcessExit>, n: nat)
    requires p.until.Some? && p.repeat.Some? && p.maxRepeat.None?
    requires AllExited(outs) && 1 <= n <= |outs|
    ensures var u := p.until.value;
      var target := if p.repeat.value < 1 then 1 else p.repeat.value;
      (AttemptLoop(p, outs, 0, 0) == Finished(n, outs[n - 1].code) <==>
       outs[n - 1] == Exited(u) && CountExits(outs, n, u) == target)
  {
    var u := p.until.value;
    var target := if p.repeat.value < 1 then 1 else p.repeat.value;
    forall k | 1 <= k <= |outs| ensures StopsAt(p, outs, k) <==> outs[k - 1] == Exited(u) && CountExits(outs, k, u) >= target {
    }
    if outs[n - 1] == Exited(u) && CountExits(outs, n, u) == target {
      forall k | 1 <= k < n ensures !StopsAt(p, outs, k) {
        CountExitsMonotone(outs, k, n - 1, u);
      }
    }
    if AttemptLoop(p, outs, 0, 0) == Finished(n, outs[n - 1].code) {
      LoopStopsAtFirst(p, outs, n);
      if n > 1 {
        CountExitsMonotone(outs, n - 1, n, u);
        assert !StopsAt(p, outs, n - 1);
        if CountExits(outs, n - 1, u) >= target {
          // the count reached the target at an earlier matching attempt
          var j := FirstReach(outs, n - 1, u, target);
          assert StopsAt(p, outs, j);
        }
      }
    }
    LoopStopsAtFirst(p, outs, n);
  }

  /** The first attempt at which the count of exits with `u` reaches `target`: it is itself such an exit. */
  lemma {:induction false} FirstReach(outs: seq<ProcessExit>, n: nat, u: int, target: nat) returns (j: nat)
    requires 1 <= target && n <= |outs| && CountExits(outs, n, u) >= target
    ensures 1 <= j <= n && outs[j - 1] == Exited(u) && CountExits(outs, j, u) == target
    decreases n
  {
    if CountExits(outs, n - 1, u) >= target {
      j := FirstReach(outs, n - 1, u, target);
    } else {
      j := n;
    }
  }

  /**
   * With `until` and `max_repeat` set, when none of the first `max(1, M) - 1`
   * attempts exits with `until`, the loop gives up after exactly `max(1, M)`
   * attempts and reports the last one's code, whatever `repeat` is.
   */
  lemma UntilGivesUpAtMax(p: Policy, outs: seq<ProcessExit>)
    requires p.until.Some? && p.maxRepeat.Some?
    requires MaxAttempts(p) <= |outs| && AllExited(outs[..MaxAttempts(p)])
    requires forall k :: 0 <= k < MaxAttempts(p) - 1 ==> outs[k] != Exited(p.until.value)
    ensures AttemptLoop(p, outs, 0, 0) == Finished(MaxAttempts(p), outs[MaxAttempts(p) - 1].code)
  {
    var m := MaxAttempts(p);
    var first := outs[..m];
    forall k | 1 <= k < m ensures !StopsAt(p, first, k) {
      assert first[k - 1] == outs[k - 1];
    }
    LoopStopsAtFirst(p, first, m);
    assert first[..m] == outs[..m];
    LoopReadsPrefix(p, first, outs, 0, 0);
  }

  /** `repeat = 3`, `until = 0`, a command that always exits 0: three attempts, reported code 0. */
  lemma RepeatUntilCountsSuccesses()
    ensures var outs := [Exited(0), Exited(0), Exited(0), Exited(0)];
      AttemptLoop(Policy(Some(3), None, Some(0)), outs, 0, 0) == Finished(3, 0)
  {
  }

  // ---------------------------------------------------------------------------
  // The node as a whole

  /**
   * A node without a command spawns nothing of its own, still runs its
   * children, and reports exit code 0 when they all return.
   */
  lemma EmptyBodyRunsChildren(c: Command, pass: seq<string>, outs: seq<ProcessExit>)
    requires |c.command| == 0
    ensures var ch := ExecChildren(c, 0, pass, outs);
      Exec(c, pass, outs).spawns == ch.spawns && Exec(c, pass, outs).used == ch.used
    ensures ExecChildren(c, 0, pass, outs).end == AllReturned ==> Exec(c, pass, outs).status == Code(0)
  {
    assert outs[0..] == outs;
  }

  /** The attempt loop's end depends only on the outcomes it consumed. */
  lemma {:induction false} LoopReadsPrefix(p: Policy, outs1: seq<ProcessExit>, outs2: seq<ProcessExit>, m: nat, s: nat)
    requires m <= |outs1| && m <= |outs2|
    requires !AttemptLoop(p, outs1, m, s).Exhausted?
    requires var k := AttemptsOf(AttemptLoop(p, outs1, m, s), outs1); k <= |outs2| && outs1[..k] == outs2[..k]
    ensures AttemptLoop(p, outs2, m, s) == AttemptLoop(p, outs1, m, s)
    decreases |outs1| - m
  {
    var k := AttemptsOf(AttemptLoop(p, outs1, m, s), outs1);
    assert outs1[m] == outs1[..k][m] == outs2[..k][m] == outs2[m];
    match outs1[m]
    case Exited(code) =>
      var s' := if p.until.Some? && code == p.until.value then s + 1 else s;
      if !Stop(p, m + 1, code, s') {
        LoopReadsPrefix(p, outs1, outs2, m + 1, s');
      }
    case _ =>
  }

  /**
   * The node reports its own body's last exit code: whatever its children
   * do (so long as the phase completes), two runs whose body attempts saw
   * the same outcomes report the same code.
   */
  lemma CodeIsTheBodys(c: Command, pass: seq<string>, outs1: seq<ProcessExit>, outs2: seq<ProcessExit>, k: nat, code: int)
    requires Body(c, outs1) == Finished(k, code)
    requires k <= |outs2| && outs1[..k] == outs2[..k]
    requires k <= |outs1| && ExecChildren(c, 0, pass, outs1[k..]).end == AllReturned
    requires ExecChildren(c, 0, pass, outs2[k..]).end == AllReturned
    ensures Exec(c, pass, outs1).status == Code(code)
    ensures Exec(c, pass, outs2).status == Code(code)
  {
    if |c.command| > 0 {
      LoopReadsPrefix(PolicyOf(c), outs1, outs2, 0, 0);
    }
  }

  /**
   * Children run only after the body finished, whatever its exit code: the
   * body's launches come first, then the first child's.
   */
  lemma ChildrenFollowBody(c: Command, pass: seq<string>, outs: seq<ProcessExit>, k: nat, code: int)
    requires Body(c, outs) == Finished(k, code)
    requires |c.children| > 0
    ensures var rest := outs[k..];
      var first := Exec(c.children[0], pass, rest).spawns;
      var launched := BodySpawns(c, pass, Body(c, outs), outs);
      |launched| == (if |c.command| == 0 then 0 else k) &&
      launched <= Exec(c, pass, outs).spawns &&
      first <= Exec(c, pass, outs).spawns[|launched|..]
  {
    var rest := outs[k..];
    var ch := ExecChildren(c, 0, pass, rest);
    var launched := BodySpawns(c, pass, Body(c, outs), outs);
    var first := Exec(c.children[0], pass, rest);
    assert Exec(c, pass, outs).spawns == launched + ch.spawns;
    assert (launched + ch.spawns)[|launched|..] == ch.spawns;
  }

  /**
   * In a parallel phase a child's panic ends only its own thread: the
   * phase never unwinds into the parent.
   */
  lemma {:induction false} ParallelNeverUnwinds(c: Command, i: nat, pass: seq<string>, outs: seq<ProcessExit>)
    requires c.parallel && i <= |c.children|
    ensures ExecChildren(c, i, pass, outs).end != ChildPanicked
    decreases |c.children| - i
  {
    if i < |c.children| {
      var r := Exec(c.children[i], pass, outs);
      if r.status != OutOfOutcomes {
        ParallelNeverUnwinds(c, i + 1, pass, outs[r.used..]);
      }
    }
  }

  /** In a sequential phase a child's panic stops its later siblings from running. */
  lemma SequentialPanicStops(c: Command, i: nat, pass: seq<string>, outs: seq<ProcessExit>)
    requires !c.parallel && i < |c.children|
    requires Exec(c.children[i], pass, outs).status == Panic
    ensures ExecChildren(c, i, pass, outs) == ChildrenRun(ChildPanicked, Exec(c.children[i], pass, outs).used, Exec(c.children[i], pass, outs).spawns)
  {
  }
}
