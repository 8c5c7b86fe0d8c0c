/**
 * The two counter tasks of the concurrency-counters application, run one
 * after the other: the count-up task builds "0 1 ... 20", records its
 * progress and opens a one-shot gate; the count-down task, once the gate is
 * open, builds "20 19 ... 0". Each task that completes adds one to a shared
 * execution counter.
 *
 * Threads, the executor and its shutdown, logging and timing are not part of
 * the model; where a task can be cut short (an exception inside the count-up
 * task, an interrupt while the count-down task waits), that is a parameter.
 */
module ConcurrencyCounters {
  import opened Results
  import Text

  const MAX_COUNT: nat := 20
  const STRING_BUILDER_CAPACITY: nat := 128

  /** A `CountDownLatch`: its count only goes down and stays at zero. */
  class Latch {
    var count: nat

    constructor(initial: nat)
      ensures count == initial
    {
      count := initial;
    }

    predicate IsOpen()
      reads this
    {
      count == 0
    }

    method CountDown()
      modifies this
      ensures count == if old(count) == 0 then 0 else old(count) - 1
    {
      if count > 0 {
        count := count - 1;
      }
    }
  }

  /** An `AtomicInteger`, with the values it has been set to, oldest first. */
  class AtomicCounter {
    var value: int
    var history: seq<int>

    constructor(initial: int)
      ensures value == initial && history == []
    {
      value := initial;
      history := [];
    }

    method Set(v: int)
      modifies this
      ensures value == v && history == old(history) + [v]
    {
      value := v;
      history := history + [v];
    }

    method IncrementAndGet() returns (r: int)
      modifies this
      ensures value == old(value) + 1 && history == old(history) && r == value
    {
      value := value + 1;
      r := value;
    }
  }

  /** The tokens `Integer.toString(i)` for i = 0, 1, ..., n. */
  function UpTokens(n: nat): (r: seq<string>)
    ensures |r| == n + 1 && forall k :: 0 <= k <= n ==> r[k] == Text.Decimal(k)
  {
    seq(n + 1, k => Text.Decimal(k))
  }

  /** The tokens for i = n, n - 1, ..., 0. */
  function DownTokens(n: nat): (r: seq<string>)
    ensures |r| == n + 1 && forall k :: 0 <= k <= n ==> r[k] == Text.Decimal(n - k)
  {
    seq(n + 1, k requires 0 <= k <= n => Text.Decimal(n - k))
  }

  /** The counts down are the counts up in reverse order. */
  lemma DownIsReversedUp(n: nat)
    ensures DownTokens(n) == Text.Reverse(UpTokens(n))
  {
    Text.MirrorIsReverse(UpTokens(n), DownTokens(n));
  }

  /** Where an exception cuts the count-up task short: nowhere, while
      appending count `at`, or after the gate was released. */
  datatype UpFault = NoFault | FaultInLoop(at: nat) | FaultAfterRelease

  /** The count-up task runs to its end: no fault, or one at a count the
      loop never reaches. */
  predicate Completes(fault: UpFault)
  {
    fault.NoFault? || (fault.FaultInLoop? && fault.at > MAX_COUNT)
  }

  /** The count-up task. The buffer holds the counts joined by single
      spaces; the progress state is set to 0, 1, ... in order; the gate is
      released on the normal path and again on the catch path; the
      execution counter goes up only when the task completes. */
  method CountUpTask(gate: Latch, state: AtomicCounter, executions: AtomicCounter, fault: UpFault)
      returns (printed: Option<string>)
    requires gate != state as object && gate != executions as object && state != executions
    modifies gate, state, executions
    ensures Completes(fault) ==> printed == Some(Text.Join(UpTokens(MAX_COUNT), ' '))
    ensures !Completes(fault) ==> printed == None
    ensures var done := if fault.FaultInLoop? && fault.at <= MAX_COUNT then fault.at else MAX_COUNT + 1;
            state.history == old(state.history) + seq(done, k => k)
    ensures gate.count == if old(gate.count) <= 1 then 0 else old(gate.count) - (if fault.FaultAfterRelease? then 2 else 1)
    ensures executions.value == old(executions.value) + (if Completes(fault) then 1 else 0)
  {
    var buffer := "";
    var i := 0;
    while i <= MAX_COUNT
      invariant 0 <= i <= MAX_COUNT + 1
      invariant fault.FaultInLoop? ==> fault.at >= i
      invariant i <= MAX_COUNT ==> buffer == Text.Terminated(UpTokens(MAX_COUNT)[..i], ' ')
      invariant i == MAX_COUNT + 1 ==> buffer == Text.Join(UpTokens(MAX_COUNT), ' ')
      invariant state.history == old(state.history) + seq(i, k => k)
      invariant gate.count == old(gate.count) && executions.value == old(executions.value)
    {
      if fault.FaultInLoop? && fault.at == i {
        gate.CountDown();
        return None;
      }
      buffer := buffer + Text.Decimal(i);
      if i < MAX_COUNT {
        buffer := buffer + " ";
        assert UpTokens(MAX_COUNT)[..i + 1] == UpTokens(MAX_COUNT)[..i] + [Text.Decimal(i)];
      } else {
        assert UpTokens(MAX_COUNT) == UpTokens(MAX_COUNT)[..i] + [Text.Decimal(i)];
        Text.TerminatedThenLast(UpTokens(MAX_COUNT)[..i], Text.Decimal(i), ' ');
      }
      state.Set(i);
      assert seq(i + 1, k => k) == seq(i, k => k) + [i];
      i := i + 1;
    }
    gate.CountDown();
    if fault.FaultAfterRelease? {
      gate.CountDown();
      return None;
    }
    var _ := executions.IncrementAndGet();
    return Some(buffer);
  }

  /** How the count-down task ends: it prints its buffer, it is interrupted
      while waiting, or the gate is still shut and it goes on waiting. */
  datatype DownOutcome = Printed(line: string) | Interrupted | Waiting

  /** The count-down task. Nothing is built or printed unless the gate is
      open; an interrupt ends it with no output and no count. */
  method CountDownTask(gate: Latch, executions: AtomicCounter, interrupted: bool)
      returns (outcome: DownOutcome)
    modifies executions
    ensures interrupted ==> outcome == Interrupted
    ensures !interrupted && !gate.IsOpen() ==> outcome == Waiting
    ensures !interrupted && gate.IsOpen() ==> outcome == Printed(Text.Join(DownTokens(MAX_COUNT), ' '))
    ensures executions.value == old(executions.value) + (if outcome.Printed? then 1 else 0)
    ensures executions.history == old(executions.history)
  {
    if interrupted {
      return Interrupted;
    }
    if !gate.IsOpen() {
      return Waiting;
    }
    var buffer := "";
    var i := MAX_COUNT;
    while i >= 0
      invariant -1 <= i <= MAX_COUNT
      invariant i >= 0 ==> buffer == Text.Terminated(DownTokens(MAX_COUNT)[..MAX_COUNT - i], ' ')
      invariant i == -1 ==> buffer == Text.Join(DownTokens(MAX_COUNT), ' ')
      invariant executions.value == old(executions.value) && executions.history == old(executions.history)
    {
      var j := MAX_COUNT - i;
      buffer := buffer + Text.Decimal(i);
      if i > 0 {
        buffer := buffer + " ";
        assert DownTokens(MAX_COUNT)[..j + 1] == DownTokens(MAX_COUNT)[..j] + [Text.Decimal(i)];
      } else {
        assert DownTokens(MAX_COUNT) == DownTokens(MAX_COUNT)[..j] + [Text.Decimal(i)];
        Text.TerminatedThenLast(DownTokens(MAX_COUNT)[..j], Text.Decimal(i), ' ');
      }
      i := i - 1;
    }
    var _ := executions.IncrementAndGet();
    return Printed(buffer);
  }

  /** The two tasks one after the other on a gate of count one, a progress
      state and an execution counter that start at zero: the gate is open
      whatever the count-up task met, so the count-down task prints unless
      it is interrupted, and the execution counter ends at the number of
      tasks that completed, which is at most two. */
  method RunSequentially(fault: UpFault, interrupted: bool)
      returns (up: Option<string>, down: DownOutcome, progress: seq<int>, executed: int)
    ensures up.Some? <==> Completes(fault)
    ensures down.Printed? <==> !interrupted
    ensures !interrupted ==> down == Printed(Text.Join(DownTokens(MAX_COUNT), ' '))
    ensures Completes(fault) ==> progress == seq(MAX_COUNT + 1, k => k)
    ensures executed == (if up.Some? then 1 else 0) + (if down.Printed? then 1 else 0) && executed <= 2
  {
    var gate := new Latch(1);
    var state := new AtomicCounter(0);
    var executions := new AtomicCounter(0);
    up := CountUpTask(gate, state, executions, fault);
    down := CountDownTask(gate, executions, interrupted);
    progress := state.history;
    executed := executions.value;
  }

  /** A count has no space in it. */
  lemma DecimalHasNoSpace(n: nat)
    ensures Text.NoneIn(Text.Decimal(n), {' '})
  {
    Text.DecimalDigitsOnly(n);
  }

  /** Splitting the printed counts at spaces gives the counts back: up in
      ascending order, down in descending order. */
  lemma BuffersSplitIntoCounts(n: nat)
    ensures Text.Split(Text.Join(UpTokens(n), ' '), {' '}) == UpTokens(n)
    ensures Text.Split(Text.Join(DownTokens(n), ' '), {' '}) == DownTokens(n)
  {
    forall k | 0 <= k <= n ensures Text.NoneIn(UpTokens(n)[k], {' '}) && Text.NoneIn(DownTokens(n)[k], {' '}) {
      DecimalHasNoSpace(k);
      DecimalHasNoSpace(n - k);
    }
    Text.SplitJoin(UpTokens(n), ' ');
    Text.SplitJoin(DownTokens(n), ' ');
  }

  /** Counts below ten take one char, counts below a hundred two. */
  lemma DecimalWidth(n: nat)
    requires n < 100
    ensures |Text.Decimal(n)| == if n < 10 then 1 else 2
  {
    if n >= 10 {
      assert Text.Numeral(n, 10, false) == Text.Numeral(n / 10, 10, false) + [Text.DigitChar(n % 10, false)];
    }
  }

  lemma {:induction false} TerminatedUpLength(i: nat)
    requires i <= MAX_COUNT
    ensures |Text.Terminated(UpTokens(MAX_COUNT)[..i], ' ')| == if i <= 10 then 2 * i else 20 + 3 * (i - 10)
  {
    if i > 0 {
      var ts := UpTokens(MAX_COUNT)[..i];
      assert ts[..i - 1] == UpTokens(MAX_COUNT)[..i - 1];
      TerminatedUpLength(i - 1);
      DecimalWidth(i - 1);
    }
  }

  /** The count-up text for twenty is 52 chars long, within the 128 chars
      the buffer is created with; the count-down text has the same length. */
  lemma BufferFitsCapacity()
    ensures |Text.Join(UpTokens(MAX_COUNT), ' ')| == 52 <= STRING_BUILDER_CAPACITY
    ensures |Text.Join(DownTokens(MAX_COUNT), ' ')| == 52
  {
    var ts := UpTokens(MAX_COUNT);
    assert ts == ts[..MAX_COUNT] + [Text.Decimal(MAX_COUNT)];
    Text.TerminatedThenLast(ts[..MAX_COUNT], Text.Decimal(MAX_COUNT), ' ');
    TerminatedUpLength(MAX_COUNT);
    DecimalWidth(MAX_COUNT);
    DownIsReversedUp(MAX_COUNT);
    JoinReversedLength(ts);
  }

  /** Joining in reverse order gives a text as long. */
  lemma {:induction false} JoinReversedLength(ts: seq<string>)
    ensures |Text.Join(Text.Reverse(ts), ' ')| == |Text.Join(ts, ' ')|
  {
    if |ts| > 1 {
      var rest := ts[1..];
      JoinReversedLength(rest);
      assert ts == [ts[0]] + rest;
      Text.ReverseAppend([ts[0]], rest);
      assert Text.Reverse([ts[0]]) == [ts[0]];
      Text.JoinSnoc(Text.Reverse(rest), ts[0], ' ');
    }
  }
}
