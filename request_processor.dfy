/** The horn command sequencer: each command becomes a plan of await points
    (signal sends and sleeps); a newer command abandons the plan in flight. */
module RequestProcessor {
  import opened Common
  import opened HornProto
  import opened Channel

  /** One await point of a playback: a send on the signal channel, or a sleep of `ms` milliseconds. */
  datatype Step = Emit(signal: bool) | Wait(ms: nat)

  /** What travels on the command channel: `Some` activates, `None` deactivates. */
  type Command = Option<ActivateHornRequest>

  // ---------------------------------------------------------------------------
  // Plans: what applying a command does when nothing interrupts it
  // ---------------------------------------------------------------------------

  /** One cycle: horn on, sleep, horn off, sleep. */
  function CyclePlan(c: HornCycle): seq<Step>
  {
    [Emit(true), Wait(c.onTime), Emit(false), Wait(c.offTime)]
  }

  /** The cycles of one sequence, in order. */
  function CyclesPlan(cs: seq<HornCycle>): seq<Step>
  {
    if cs == [] then [] else CyclesPlan(cs[..|cs| - 1]) + CyclePlan(cs[|cs| - 1])
  }

  /** Every cycle of every sequence, flattened in order. */
  function SequencePlan(ss: seq<HornSequence>): seq<Step>
  {
    if ss == [] then [] else SequencePlan(ss[..|ss| - 1]) + CyclesPlan(ss[|ss| - 1].hornCycles)
  }

  /** Dispatch on the request's mode; modes that only log have an empty plan. */
  function HornRequestPlan(req: ActivateHornRequest): seq<Step>
  {
    match req.mode
    case Known(HmSequenced) => SequencePlan(req.command)
    case Known(HmContinuous) => [Emit(true)]
    case Known(HmUnknown) => []
    case Known(HmUnspecified) => []
    case Unrecognized(_) => []
  }

  /** The plan of a command; a deactivation sends `false`. */
  function RequestPlan(cmd: Command): seq<Step>
  {
    match cmd
    case Some(req) => HornRequestPlan(req)
    case None => [Emit(false)]
  }

  /** The signal one step sends, if any. */
  function Signal(s: Step): seq<bool>
  {
    if s.Emit? then [s.signal] else []
  }

  /** The signals a run of steps sends, in order. */
  function Emits(p: seq<Step>): seq<bool>
  {
    if p == [] then [] else Signal(p[0]) + Emits(p[1..])
  }

  /** Milliseconds a run of steps sleeps in total. */
  function WaitTime(p: seq<Step>): nat
  {
    if p == [] then 0 else (if p[0].Wait? then p[0].ms else 0) + WaitTime(p[1..])
  }

  /** `true, false` repeated n times. */
  function Alternating(n: nat): seq<bool>
  {
    if n == 0 then [] else Alternating(n - 1) + [true, false]
  }

  function TotalCycles(ss: seq<HornSequence>): nat
  {
    if ss == [] then 0 else TotalCycles(ss[..|ss| - 1]) + |ss[|ss| - 1].hornCycles|
  }

  predicate IsSequenced(cmd: Command)
  {
    cmd.Some? && cmd.value.mode == Known(HmSequenced)
  }

  predicate IsContinuous(cmd: Command)
  {
    cmd.Some? && cmd.value.mode == Known(HmContinuous)
  }

  // ---------------------------------------------------------------------------
  // Traces: with preemption, each command contributes a prefix of its plan
  // ---------------------------------------------------------------------------

  /** The signals of a command that got to run its first k await points. */
  function Played(cmd: Command, k: nat): seq<bool>
  {
    var p := RequestPlan(cmd);
    Emits(p[..Min(k, |p|)])
  }

  /** The signal trace of the commands taken in order, command i running `runs[i]` steps
      before the next receive won the race (or the channel closed). */
  function Trace(cmds: seq<Command>, runs: seq<nat>): seq<bool>
    requires |runs| == |cmds|
  {
    if cmds == [] then []
    else Trace(cmds[..|cmds| - 1], runs[..|runs| - 1]) + Played(cmds[|cmds| - 1], runs[|runs| - 1])
  }

  // ---------------------------------------------------------------------------
  // Lemmas about plans
  // ---------------------------------------------------------------------------

  lemma {:induction false} EmitsAppend(a: seq<Step>, b: seq<Step>)
    ensures Emits(a + b) == Emits(a) + Emits(b)
  {
    if a == [] {
      assert a + b == b;
    } else {
      assert (a + b)[1..] == a[1..] + b;
      EmitsAppend(a[1..], b);
    }
  }

  lemma {:induction false} WaitTimeAppend(a: seq<Step>, b: seq<Step>)
    ensures WaitTime(a + b) == WaitTime(a) + WaitTime(b)
  {
    if a == [] {
      assert a + b == b;
    } else {
      assert (a + b)[1..] == a[1..] + b;
      WaitTimeAppend(a[1..], b);
    }
  }

  lemma {:induction false} EmitsSnoc(p: seq<Step>, i: nat, j: nat)
    requires i <= j < |p|
    ensures Emits(p[i..j + 1]) == Emits(p[i..j]) + Signal(p[j])
  {
    assert p[i..j + 1] == p[i..j] + [p[j]];
    EmitsAppend(p[i..j], [p[j]]);
    assert Emits([p[j]]) == Signal(p[j]) + Emits([]);
  }

  /** A plan cut after k steps sends a prefix of what the whole plan sends. */
  lemma {:induction false} EmitsPrefix(p: seq<Step>, k: nat)
    requires k <= |p|
    ensures Emits(p) == Emits(p[..k]) + Emits(p[k..])
    ensures Emits(p[..k]) <= Emits(p)
  {
    assert p == p[..k] + p[k..];
    EmitsAppend(p[..k], p[k..]);
  }

  lemma {:induction false} AlternatingAdd(m: nat, n: nat)
    ensures Alternating(m) + Alternating(n) == Alternating(m + n)
    decreases n
  {
    if n > 0 {
      AlternatingAdd(m, n - 1);
    }
  }

  /** `Alternating(n)` has 2n signals, `true` at even positions and `false` at odd ones. */
  lemma {:induction false} AlternatingAt(n: nat)
    ensures |Alternating(n)| == 2 * n
    ensures forall i :: 0 <= i < 2 * n ==> Alternating(n)[i] == (i % 2 == 0)
  {
    if n > 0 {
      AlternatingAt(n - 1);
      var a := Alternating(n - 1);
      assert Alternating(n) == a + [true, false];
      forall i | 0 <= i < 2 * n
        ensures Alternating(n)[i] == (i % 2 == 0)
      {
        if i < 2 * (n - 1) {
          assert Alternating(n)[i] == a[i];
        }
      }
    }
  }

  lemma {:induction false} CycleSignals(c: HornCycle)
    ensures Emits(CyclePlan(c)) == [true, false]
  {
    var p := CyclePlan(c);
    assert Emits(p[3..]) == [];
    assert Emits(p[2..]) == [false] + Emits(p[3..]);
    assert Emits(p[1..]) == Emits(p[2..]);
  }

  lemma {:induction false} CycleWaitTime(c: HornCycle)
    ensures WaitTime(CyclePlan(c)) == c.onTime + c.offTime
  {
    var p := CyclePlan(c);
    assert WaitTime(p[3..]) == c.offTime + WaitTime(p[4..]);
    assert WaitTime(p[2..]) == WaitTime(p[3..]);
    assert WaitTime(p[1..]) == c.onTime + WaitTime(p[2..]);
  }

  /** A run of cycles sends `true, false` once per cycle and takes four steps per cycle. */
  lemma {:induction false} CyclesPlanShape(cs: seq<HornCycle>)
    ensures Emits(CyclesPlan(cs)) == Alternating(|cs|)
    ensures |CyclesPlan(cs)| == 4 * |cs|
  {
    if cs != [] {
      var init := cs[..|cs| - 1];
      CyclesPlanShape(init);
      EmitsAppend(CyclesPlan(init), CyclePlan(cs[|cs| - 1]));
      CycleSignals(cs[|cs| - 1]);
    }
  }

  /** A sequenced command run to completion sends `true, false` once per cycle,
      over all sequences flattened in order, and has no other step than those of the cycles. */
  lemma {:induction false} SequencePlanShape(ss: seq<HornSequence>)
    ensures Emits(SequencePlan(ss)) == Alternating(TotalCycles(ss))
    ensures |SequencePlan(ss)| == 4 * TotalCycles(ss)
  {
    if ss != [] {
      var init := ss[..|ss| - 1];
      var cs := ss[|ss| - 1].hornCycles;
      SequencePlanShape(init);
      CyclesPlanShape(cs);
      EmitsAppend(SequencePlan(init), CyclesPlan(cs));
      AlternatingAdd(TotalCycles(init), |cs|);
    }
  }

  /** A sequenced command with no sequence, or only empty sequences, has nothing to do. */
  lemma {:induction false} SequencePlanEmpty(ss: seq<HornSequence>)
    ensures SequencePlan(ss) == [] <==> TotalCycles(ss) == 0
    ensures (forall i :: 0 <= i < |ss| ==> ss[i].hornCycles == []) ==> SequencePlan(ss) == []
  {
    SequencePlanShape(ss);
    if forall i :: 0 <= i < |ss| ==> ss[i].hornCycles == [] {
      NoCycles(ss);
    }
  }

  lemma {:induction false} NoCycles(ss: seq<HornSequence>)
    requires forall i :: 0 <= i < |ss| ==> ss[i].hornCycles == []
    ensures TotalCycles(ss) == 0
  {
    if ss != [] {
      NoCycles(ss[..|ss| - 1]);
    }
  }

  /** What each kind of command sends when it runs to completion. */
  lemma {:induction false} CommandSignals(cmd: Command)
    ensures cmd.None? ==> Emits(RequestPlan(cmd)) == [false] && |RequestPlan(cmd)| == 1
    ensures IsContinuous(cmd) ==> Emits(RequestPlan(cmd)) == [true] && WaitTime(RequestPlan(cmd)) == 0
    ensures IsSequenced(cmd) ==> Emits(RequestPlan(cmd)) == Alternating(TotalCycles(cmd.value.command))
    ensures cmd.Some? && !IsSequenced(cmd) && !IsContinuous(cmd) ==> RequestPlan(cmd) == []
  {
    if IsSequenced(cmd) {
      SequencePlanShape(cmd.value.command);
    }
  }

  /** The first signal a command sends is its own directive: `false` for a deactivation,
      `true` for any activation; it sends nothing exactly when its plan sends nothing. */
  lemma {:induction false} DirectiveMatch(cmd: Command)
    ensures Emits(RequestPlan(cmd)) != [] ==> Emits(RequestPlan(cmd))[0] == cmd.Some?
    ensures Emits(RequestPlan(cmd)) == [] <==>
              cmd.Some? && !IsContinuous(cmd) && (IsSequenced(cmd) ==> TotalCycles(cmd.value.command) == 0)
  {
    CommandSignals(cmd);
    if IsSequenced(cmd) {
      var n := TotalCycles(cmd.value.command);
      AlternatingAt(n);
    }
  }

  // ---------------------------------------------------------------------------
  // Lemmas about traces
  // ---------------------------------------------------------------------------

  /** Whatever part of it ran, a command's contribution is a prefix of its full signals. */
  lemma {:induction false} PlayedIsPrefix(cmd: Command, k: nat)
    ensures Played(cmd, k) <= Emits(RequestPlan(cmd))
    ensures k >= |RequestPlan(cmd)| ==> Played(cmd, k) == Emits(RequestPlan(cmd))
  {
    var p := RequestPlan(cmd);
    EmitsPrefix(p, Min(k, |p|));
    assert k >= |p| ==> p[..Min(k, |p|)] == p;
  }

  /** Taking one more command adds what that command played. */
  lemma {:induction false} TraceSnoc(cmds: seq<Command>, runs: seq<nat>, cmd: Command, k: nat)
    requires |runs| == |cmds|
    ensures Trace(cmds + [cmd], runs + [k]) == Trace(cmds, runs) + Played(cmd, k)
  {
    var c, r := cmds + [cmd], runs + [k];
    assert c[..|c| - 1] == cmds && r[..|r| - 1] == runs;
    assert c[|c| - 1] == cmd && r[|r| - 1] == k;
  }

  /** Two commands taken one after the other: the first one's signals, then the second's. */
  lemma {:induction false} TraceTwo(a: Command, b: Command, ka: nat, kb: nat)
    ensures Trace([a, b], [ka, kb]) == Played(a, ka) + Played(b, kb)
  {
    assert [a, b][..1] == [a] && [ka, kb][..1] == [ka];
    assert [a][..0] == [] && [ka][..0] == [];
    assert Trace([a], [ka]) == Played(a, ka);
  }

  /** The trace of two batches of commands is the first batch's trace followed by the second's:
      no signal of a later command comes before a signal of an earlier one. */
  lemma {:induction false} TraceAppend(c1: seq<Command>, r1: seq<nat>, c2: seq<Command>, r2: seq<nat>)
    requires |c1| == |r1| && |c2| == |r2|
    ensures Trace(c1 + c2, r1 + r2) == Trace(c1, r1) + Trace(c2, r2)
    decreases |c2|
  {
    if c2 == [] {
      assert c1 + c2 == c1 && r1 + r2 == r1;
    } else {
      var n := |c2|;
      var c2', r2' := c2[..n - 1], r2[..n - 1];
      assert c2 == c2' + [c2[n - 1]] && r2 == r2' + [r2[n - 1]];
      assert c1 + c2 == (c1 + c2') + [c2[n - 1]];
      assert r1 + r2 == (r1 + r2') + [r2[n - 1]];
      TraceSnoc(c1 + c2', r1 + r2', c2[n - 1], r2[n - 1]);
      TraceAppend(c1, r1, c2', r2');
      TraceSnoc(c2', r2', c2[n - 1], r2[n - 1]);
      AppendAssoc(Trace(c1, r1), Trace(c2', r2'), Played(c2[n - 1], r2[n - 1]));
    }
  }

  /** Preemption: the trace is, command by command in FIFO order, a prefix of each command's
      own signals; command i's contribution sits between those of commands before and after it. */
  lemma {:induction false} TraceAt(cmds: seq<Command>, runs: seq<nat>, i: nat)
    requires |runs| == |cmds| && i < |cmds|
    ensures Trace(cmds, runs) ==
              Trace(cmds[..i], runs[..i]) + Played(cmds[i], runs[i]) + Trace(cmds[i + 1..], runs[i + 1..])
    ensures Played(cmds[i], runs[i]) <= Emits(RequestPlan(cmds[i]))
  {
    assert cmds == cmds[..i + 1] + cmds[i + 1..];
    assert runs == runs[..i + 1] + runs[i + 1..];
    TraceAppend(cmds[..i + 1], runs[..i + 1], cmds[i + 1..], runs[i + 1..]);
    assert cmds[..i + 1][..i] == cmds[..i];
    assert runs[..i + 1][..i] == runs[..i];
    assert Trace(cmds[..i + 1], runs[..i + 1]) == Trace(cmds[..i], runs[..i]) + Played(cmds[i], runs[i]);
    PlayedIsPrefix(cmds[i], runs[i]);
  }

  /** Only the number of steps that could actually run matters. */
  lemma {:induction false} TraceCapped(cmds: seq<Command>, runs: seq<nat>, capped: seq<nat>)
    requires |runs| == |cmds| == |capped|
    requires forall i :: 0 <= i < |cmds| ==>
               Min(runs[i], |RequestPlan(cmds[i])|) == Min(capped[i], |RequestPlan(cmds[i])|)
    ensures Trace(cmds, runs) == Trace(cmds, capped)
  {
    if cmds != [] {
      var n := |cmds|;
      TraceCapped(cmds[..n - 1], runs[..n - 1], capped[..n - 1]);
    }
  }

  // ---------------------------------------------------------------------------
  // horn_sequence_apply: the nested loops that walk the sequences
  // ---------------------------------------------------------------------------

  /** The await points `horn_sequence_apply` goes through, in order. This is the loop
      counterpart of `SequencePlan`, proved equal to it; the sequencer itself installs the
      plan through `RequestPlan`, so this method serves only to tie the loops to that function. */
  method HornSequenceApply(sequences: seq<HornSequence>) returns (steps: seq<Step>)
    ensures steps == SequencePlan(sequences)
  {
    steps := [];
    for i := 0 to |sequences|
      invariant steps == SequencePlan(sequences[..i])
    {
      var cycles := sequences[i].hornCycles;
      for j := 0 to |cycles|
        invariant steps == SequencePlan(sequences[..i]) + CyclesPlan(cycles[..j])
      {
        var cycle := cycles[j];
        steps := steps + [Emit(true), Wait(cycle.onTime), Emit(false), Wait(cycle.offTime)];
        assert cycles[..j + 1][..j] == cycles[..j];
      }
      assert cycles[..|cycles|] == cycles;
      assert sequences[..i + 1][..i] == sequences[..i];
    }
    assert sequences[..|sequences|] == sequences;
  }

  // ---------------------------------------------------------------------------
  // receive_requests: the single consumer of the command channel
  // ---------------------------------------------------------------------------

  /** The state of `receive_requests`: the one plan in flight (held by the single `request`
      variable of the source), how far it got, and every signal sent so far. */
  class Sequencer {
    var plan: seq<Step>
    var pc: nat
    var output: seq<bool>
    var closed: bool

    ghost predicate Valid()
      reads this
    {
      pc <= |plan|
    }

    /** A plan is in flight and has await points left. */
    predicate Playing()
      reads this
    {
      !closed && pc < |plan|
    }

    /** Waiting on the channel, nothing sent yet. */
    constructor ()
      ensures Valid() && !closed && !Playing() && output == []
    {
      plan, pc, output, closed := [], 0, [], false;
    }

    /** The channel yields a command: the plan in flight is dropped where it stands, none of
        its remaining steps ever runs, and the new command's plan starts from its first step. */
    method Deliver(cmd: Command)
      requires Valid() && !closed
      modifies this
      ensures Valid() && !closed
      ensures plan == RequestPlan(cmd) && pc == 0
      ensures output == old(output)
    {
      plan := RequestPlan(cmd);
      pc := 0;
    }

    /** The plan in flight completes its next await point. */
    method Advance()
      requires Valid() && Playing()
      modifies this
      ensures Valid() && !closed
      ensures plan == old(plan) && pc == old(pc) + 1
      ensures output == old(output) + Signal(old(plan[pc]))
    {
      var step := plan[pc];
      if step.Emit? {
        output := output + [step.signal];
      }
      pc := pc + 1;
    }

    /** The inner loop of `receive_requests`: the plan in flight runs until it completes or
        until `budget` await points have passed, whichever comes first (after that the next
        receive wins the race). */
    method Play(budget: nat)
      requires Valid() && !closed
      modifies this
      ensures Valid() && !closed
      ensures plan == old(plan)
      ensures pc == old(pc) + Min(budget, |plan| - old(pc))
      ensures output == old(output) + Emits(plan[old(pc)..pc])
    {
      ghost var start, before := pc, output;
      var k := 0;
      while k < budget && pc < |plan|
        invariant Valid() && !closed
        invariant plan == old(plan)
        invariant pc == start + k && k <= budget
        invariant output == before + Emits(plan[start..pc])
      {
        EmitsSnoc(plan, start, pc);
        AppendAssoc(before, Emits(plan[start..pc]), Signal(plan[pc]));
        Advance();
        k := k + 1;
      }
    }

    /** One turn of the outer loop: the received command replaces the plan in flight and
        runs `budget` await points, or to completion. */
    method Serve(cmd: Command, budget: nat)
      requires Valid() && !closed
      modifies this
      ensures Valid() && !closed
      ensures plan == RequestPlan(cmd) && pc == Min(budget, |RequestPlan(cmd)|)
      ensures output == old(output) + Played(cmd, budget)
    {
      Deliver(cmd);
      Play(budget);
      assert plan[0..pc] == RequestPlan(cmd)[..Min(budget, |RequestPlan(cmd)|)];
    }

    /** One receive of the outer loop: a queued command is taken and served for `budget`
        await points; an empty channel reports pending or closed and nothing is played. */
    method ReceiveNext(rx: Channel<Command>, budget: nat) returns (r: RecvStatus<Command>)
      requires Valid() && !closed && rx.Valid() && rx.receiverOpen
      modifies this, rx
      ensures Valid() && !closed && rx.Valid()
      ensures rx.sent == old(rx.sent) && rx.receiverOpen && rx.sendersOpen == old(rx.sendersOpen)
      ensures old(rx.buffer) != [] ==>
                r == Received(old(rx.buffer)[0]) && rx.buffer == old(rx.buffer)[1..] &&
                rx.received == old(rx.received) + [old(rx.buffer)[0]] &&
                plan == RequestPlan(old(rx.buffer)[0]) &&
                pc == Min(budget, |RequestPlan(old(rx.buffer)[0])|) &&
                output == old(output) + Played(old(rx.buffer)[0], budget)
      ensures old(rx.buffer) == [] ==>
                !r.Received? && rx.buffer == [] && rx.received == old(rx.received) &&
                plan == old(plan) && pc == old(pc) && output == old(output)
    {
      r := rx.Recv();
      if r.Received? {
        Serve(r.value, budget);
      }
    }

    /** The channel reports closed: the playback is dropped and the loop ends. */
    method Close()
      requires Valid()
      modifies this
      ensures Valid() && closed && !Playing()
      ensures output == old(output)
    {
      closed := true;
    }
  }

  /** `receive_requests`, run until the channel has nothing more to give. Commands are taken
      from the channel in FIFO order. The race between the next receive and the plan in flight
      is resolved by `runs`: the i-th command taken completes `runs[i]` await points (capped
      by its plan) before the next command, or the channel's closing, wins. If the channel
      reports closed, the playback is dropped and the receiver goes away; otherwise the loop
      is left waiting for the next command. */
  method ReceiveRequests(rx: Channel<Command>, runs: seq<nat>) returns (trace: seq<bool>)
    requires rx.Valid() && rx.receiverOpen
    requires |runs| == |rx.buffer|
    modifies rx
    ensures rx.Valid() && rx.buffer == [] && rx.sent == old(rx.sent)
    ensures rx.received == old(rx.received) + old(rx.buffer)
    ensures rx.receiverOpen == rx.sendersOpen == old(rx.sendersOpen)
    ensures trace == Trace(old(rx.buffer), runs)
  {
    ghost var cmds, received := rx.buffer, rx.received;
    var s := new Sequencer();
    var i := 0;
    var waiting := true;
    while waiting
      invariant rx.Valid() && rx.receiverOpen && rx.sendersOpen == old(rx.sendersOpen)
      invariant rx.sent == old(rx.sent)
      invariant 0 <= i <= |cmds|
      invariant rx.buffer == cmds[i..] && rx.received == received + cmds[..i]
      invariant s.Valid() && !s.closed
      invariant s.output == Trace(cmds[..i], runs[..i])
      invariant !waiting ==> i == |cmds|
      decreases |cmds| - i, waiting
    {
      var budget := if i < |runs| then runs[i] else 0;
      var r := s.ReceiveNext(rx, budget);
      if r.Received? {
        assert cmds[i..][0] == cmds[i] && cmds[i..][1..] == cmds[i + 1..];
        TakeOneMore(cmds, i);
        TakeOneMore(runs, i);
        AppendAssoc(received, cmds[..i], [cmds[i]]);
        TraceSnoc(cmds[..i], runs[..i], cmds[i], runs[i]);
        i := i + 1;
      } else {
        waiting := false;
      }
    }
    if !rx.sendersOpen {
      s.Close();
      rx.DropReceiver();
    }
    assert cmds[..|cmds|] == cmds && runs[..|runs|] == runs;
    trace := s.output;
  }

  // ---------------------------------------------------------------------------
  // Scenarios
  // ---------------------------------------------------------------------------

  /** The request the horn client sends first. */
  function ClientSequence(): ActivateHornRequest
  {
    ActivateHornRequest(Known(HmSequenced), [HornSequence([
      HornCycle(100, 100), HornCycle(200, 300), HornCycle(100, 200), HornCycle(10000, 500)])])
  }

  lemma {:induction false} FourCycles(c0: HornCycle, c1: HornCycle, c2: HornCycle, c3: HornCycle)
    ensures SequencePlan([HornSequence([c0, c1, c2, c3])]) ==
              CyclePlan(c0) + CyclePlan(c1) + CyclePlan(c2) + CyclePlan(c3)
  {
    var cs := [c0, c1, c2, c3];
    assert cs[..3] == [c0, c1, c2] && [c0, c1, c2][..2] == [c0, c1] && [c0, c1][..1] == [c0] && [c0][..0] == [];
    assert CyclesPlan([c0]) == CyclePlan(c0);
    assert CyclesPlan([c0, c1]) == CyclePlan(c0) + CyclePlan(c1);
    assert CyclesPlan([c0, c1, c2]) == CyclePlan(c0) + CyclePlan(c1) + CyclePlan(c2);
    assert [HornSequence(cs)][..0] == [];
  }

  /** Three cycles and the fourth cycle's `true`: what runs before the fourth cycle's sleep. */
  function ThreeCyclesThenOn(c0: HornCycle, c1: HornCycle, c2: HornCycle): seq<Step>
  {
    CyclePlan(c0) + CyclePlan(c1) + CyclePlan(c2) + [Emit(true)]
  }

  lemma {:induction false} ThreeCyclesThenOnSignals(c0: HornCycle, c1: HornCycle, c2: HornCycle)
    ensures Emits(ThreeCyclesThenOn(c0, c1, c2)) == [true, false, true, false, true, false, true]
  {
    var two := CyclePlan(c0) + CyclePlan(c1);
    assert Emits(two) == [true, false, true, false] by {
      EmitsAppend(CyclePlan(c0), CyclePlan(c1));
      CycleSignals(c0);
      CycleSignals(c1);
    }
    assert Emits(two + CyclePlan(c2)) == [true, false, true, false, true, false] by {
      EmitsAppend(two, CyclePlan(c2));
      CycleSignals(c2);
    }
    assert Emits([Emit(true)]) == [true];
    EmitsAppend(two + CyclePlan(c2), [Emit(true)]);
  }

  lemma {:induction false} ThreeCyclesThenOnWaitTime(c0: HornCycle, c1: HornCycle, c2: HornCycle)
    ensures WaitTime(ThreeCyclesThenOn(c0, c1, c2)) ==
              c0.onTime + c0.offTime + c1.onTime + c1.offTime + c2.onTime + c2.offTime
  {
    var two := CyclePlan(c0) + CyclePlan(c1);
    assert WaitTime(two) == c0.onTime + c0.offTime + c1.onTime + c1.offTime by {
      WaitTimeAppend(CyclePlan(c0), CyclePlan(c1));
      CycleWaitTime(c0);
      CycleWaitTime(c1);
    }
    assert WaitTime(two + CyclePlan(c2)) == WaitTime(two) + c2.onTime + c2.offTime by {
      WaitTimeAppend(two, CyclePlan(c2));
      CycleWaitTime(c2);
    }
    assert WaitTime([Emit(true)]) == 0;
    WaitTimeAppend(two + CyclePlan(c2), [Emit(true)]);
  }

  /** The client's scenario: the four-cycle sequence, then a deactivation 1500 ms later.
      After 13 await points the sequence has slept 1000 ms and is inside the 10000 ms sleep
      that ends at 11000 ms, so the deactivation wins the race there; the horn then saw
      `true, false` three times, `true`, and the deactivation's `false`. */
  lemma {:induction false} ClientScenario(cmd: Command)
    requires cmd == Some(ClientSequence())
    ensures |RequestPlan(cmd)| == 16
    ensures WaitTime(RequestPlan(cmd)[..13]) == 1000
    ensures RequestPlan(cmd)[13] == Wait(10000)
    ensures Trace([cmd, None], [13, 1]) == [true, false, true, false, true, false, true, false]
  {
    var c0, c1, c2, c3 := HornCycle(100, 100), HornCycle(200, 300), HornCycle(100, 200), HornCycle(10000, 500);
    FourCycles(c0, c1, c2, c3);
    var p := RequestPlan(cmd);
    assert p[..13] == ThreeCyclesThenOn(c0, c1, c2);
    ThreeCyclesThenOnSignals(c0, c1, c2);
    ThreeCyclesThenOnWaitTime(c0, c1, c2);
    assert Played(cmd, 13) == [true, false, true, false, true, false, true];
    CancelPlayed();
    TraceTwo(cmd, None, 13, 1);
  }

  lemma CancelPlayed()
    ensures Played(None, 1) == [false]
  {
    assert [Emit(false)][..1] == [Emit(false)];
    assert Emits([Emit(false)]) == [false];
  }

  lemma {:induction false} OneCyclePlan(cmd: Command, c: HornCycle)
    requires cmd == Some(ActivateHornRequest(Known(HmSequenced), [HornSequence([c])]))
    ensures RequestPlan(cmd) == CyclePlan(c)
  {
    assert [c][..0] == [];
    assert CyclesPlan([c]) == CyclePlan(c);
    assert [HornSequence([c])][..0] == [];
    assert SequencePlan([HornSequence([c])]) == CyclesPlan([c]);
  }

  /** The signals of a cycle cut after m of its four steps. */
  lemma {:induction false} CyclePrefixSignals(c: HornCycle, m: nat)
    requires m <= 4
    ensures Emits(CyclePlan(c)[..m]) == if m == 0 then [] else if m <= 2 then [true] else [true, false]
  {
    var p := CyclePlan(c);
    if m == 0 {
      assert p[..m] == [];
    } else if m == 1 {
      assert p[..m] == [Emit(true)];
    } else if m == 2 {
      assert p[..m] == [Emit(true), Wait(c.onTime)];
    } else if m == 3 {
      assert p[..m] == [Emit(true), Wait(c.onTime), Emit(false)];
      assert Emits(p[..m][2..]) == [false];
    } else {
      assert p[..m] == p;
      CycleSignals(c);
    }
  }

  /** A one-cycle sequence followed by a deactivation: depending on where the deactivation
      wins the race, the horn sees `false` alone, `true, false`, or `true, false, false`; it
      never sees a `true` after the deactivation was taken. The last outcome, where the
      deactivation arrives after the cycle's own `false`, sends `false` twice in a row. */
  lemma {:induction false} SequenceThenCancel(cmd: Command, c: HornCycle, k: nat)
    requires cmd == Some(ActivateHornRequest(Known(HmSequenced), [HornSequence([c])]))
    ensures Trace([cmd, None], [k, 1]) ==
              if k == 0 then [false] else if k <= 2 then [true, false] else [true, false, false]
  {
    OneCyclePlan(cmd, c);
    CyclePrefixSignals(c, Min(k, 4));
    CancelPlayed();
    TraceTwo(cmd, None, k, 1);
  }

  /** A continuous activation interrupted by a one-cycle sequence: the sequence's own `true`
      is sent although the horn is already on, then its `false`. */
  lemma {:induction false} ContinuousThenSequence(cont: Command, cmd: Command, c: HornCycle)
    requires cont == Some(ActivateHornRequest(Known(HmContinuous), []))
    requires cmd == Some(ActivateHornRequest(Known(HmSequenced), [HornSequence([c])]))
    ensures Trace([cont, cmd], [1, 4]) == [true, true, false]
  {
    assert Played(cont, 1) == [true] by {
      assert RequestPlan(cont)[..1] == [Emit(true)];
      assert Emits([Emit(true)]) == [true];
    }
    assert Played(cmd, 4) == [true, false] by {
      OneCyclePlan(cmd, c);
      CycleSignals(c);
      assert CyclePlan(c)[..4] == CyclePlan(c);
    }
    TraceTwo(cont, cmd, 1, 4);
  }

  /** A request whose mode is unknown, unspecified or not a mode at all sends nothing, yet it
      still preempts: a one-cycle sequence cut after its `true` leaves the horn on. */
  lemma {:induction false} SilentCommandPreempts(cmd: Command, c: HornCycle, silent: Command, k: nat)
    requires cmd == Some(ActivateHornRequest(Known(HmSequenced), [HornSequence([c])]))
    requires silent.Some? && !IsSequenced(silent) && !IsContinuous(silent)
    ensures Trace([cmd, silent], [2, k]) == [true]
  {
    OneCyclePlan(cmd, c);
    CyclePrefixSignals(c, 2);
    assert Played(silent, k) == [] by {
      CommandSignals(silent);
      assert RequestPlan(silent)[..0] == [];
    }
    TraceTwo(cmd, silent, 2, k);
  }
}
