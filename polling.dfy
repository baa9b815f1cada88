/** The two waits of an assistant run. The client sleeps, retrieves the run,
    and looks at its status and required action, until the run is done or
    asks for a tool. Retrieved run states come from a finite trace: a wait
    that exhausts it stops there (the client itself would keep polling). */
module Polling {
  import opened Remote

  /** Sleep before each retrieval of the first wait (1000 * 3 ms). */
  const FirstWaitMillis: nat := 3000
  /** Sleep before each retrieval of the wait after the tool output (1000 * 10 ms). */
  const SecondWaitMillis: nat := 10000

  function AsciiLower(c: char): char {
    if 'A' <= c <= 'Z' then (c as int + 32) as char else c
  }

  /** Equal lengths, and equal characters once ASCII letters are lower-cased. */
  predicate EqualsIgnoringCase(a: string, b: string) {
    |a| == |b| && (|a| == 0 || (AsciiLower(a[0]) == AsciiLower(b[0]) && EqualsIgnoringCase(a[1..], b[1..])))
  }

  /** The status test `status.equalsIgnoreCase("completed")`. */
  predicate IsCompleted(status: string) {
    EqualsIgnoringCase(status, "completed")
  }

  /** Case-insensitive equality, character by character. */
  lemma {:induction false} EqualsIgnoringCaseAt(a: string, b: string)
    ensures EqualsIgnoringCase(a, b) <==>
      |a| == |b| && forall i :: 0 <= i < |a| ==> AsciiLower(a[i]) == AsciiLower(b[i])
  {
    if |a| == |b| && |a| > 0 {
      EqualsIgnoringCaseAt(a[1..], b[1..]);
      if forall i :: 0 <= i < |a| ==> AsciiLower(a[i]) == AsciiLower(b[i]) {
        forall i | 0 <= i < |a| - 1 ensures AsciiLower(a[1..][i]) == AsciiLower(b[1..][i]) {
          assert a[1..][i] == a[i + 1] && b[1..][i] == b[i + 1];
        }
      }
      if EqualsIgnoringCase(a, b) {
        forall i | 0 <= i < |a| ensures AsciiLower(a[i]) == AsciiLower(b[i]) {
          if i > 0 {
            assert a[1..][i - 1] == a[i] && b[1..][i - 1] == b[i];
          }
        }
      }
    }
  }

  /** A status is completed exactly when it spells "completed" with each letter
      in either case. */
  lemma IsCompletedMeans(status: string)
    ensures IsCompleted(status) <==>
      |status| == 9 && forall i :: 0 <= i < 9 ==> AsciiLower(status[i]) == "completed"[i]
  {
    EqualsIgnoringCaseAt(status, "completed");
    assert forall i :: 0 <= i < 9 ==> AsciiLower("completed"[i]) == "completed"[i];
  }

  predicate IsCompletedRun(run: RunState) {
    IsCompleted(run.status)
  }

  /** What ends the first wait: the run is completed or requires an action. */
  predicate StopsFirstWait(run: RunState) {
    IsCompleted(run.status) || run.requiredAction.Some?
  }

  /** The position of the first poll that ends a wait on `stop`, or |polls| if none does. */
  function WaitIndex(polls: seq<RunState>, stop: RunState -> bool): (k: nat)
    ensures k <= |polls|
    ensures forall j :: 0 <= j < k ==> !stop(polls[j])
    ensures k < |polls| ==> stop(polls[k])
  {
    if |polls| == 0 then 0
    else if stop(polls[0]) then 0
    else 1 + WaitIndex(polls[1..], stop)
  }

  /** The effects of `n` rounds of a wait: a sleep, then a retrieval of the run. */
  function PollTrace(threadId: string, runId: string, millis: nat, n: nat): seq<Effect> {
    if n == 0 then [] else PollTrace(threadId, runId, millis, n - 1) + [Sleep(millis), RetrieveRun(threadId, runId)]
  }

  /** A wait makes no call but sleeping and retrieving the run. */
  lemma {:induction false} PollTraceOnlyPolls(threadId: string, runId: string, millis: nat, n: nat)
    ensures forall e :: e in PollTrace(threadId, runId, millis, n) ==>
      e == Sleep(millis) || e == RetrieveRun(threadId, runId)
  {
    if n > 0 {
      PollTraceOnlyPolls(threadId, runId, millis, n - 1);
    }
  }

  lemma PollTraceKeepsNothing(threadId: string, runId: string, millis: nat, n: nat, keep: Effect -> bool)
    requires !keep(Sleep(millis)) && !keep(RetrieveRun(threadId, runId))
    ensures Kept(PollTrace(threadId, runId, millis, n), keep) == []
  {
    PollTraceOnlyPolls(threadId, runId, millis, n);
    var es := PollTrace(threadId, runId, millis, n);
    assert forall i :: 0 <= i < |es| ==> es[i] in es;
    KeptNone(es, keep);
  }

  lemma RoundKept(threadId: string, runId: string, millis: nat)
    ensures Kept([Sleep(millis), RetrieveRun(threadId, runId)], IsRetrieval) == [RetrieveRun(threadId, runId)]
    ensures Kept([Sleep(millis), RetrieveRun(threadId, runId)], IsSleep) == [Sleep(millis)]
  {
    var round := [Sleep(millis), RetrieveRun(threadId, runId)];
    assert round[1..] == [RetrieveRun(threadId, runId)];
    assert round[1..][1..] == [];
  }

  /** A wait retrieves the run once per round. */
  lemma {:induction false} PollTraceRetrievals(threadId: string, runId: string, millis: nat, n: nat)
    ensures |Kept(PollTrace(threadId, runId, millis, n), IsRetrieval)| == n
  {
    if n > 0 {
      PollTraceRetrievals(threadId, runId, millis, n - 1);
      RoundKept(threadId, runId, millis);
      KeptConcat(PollTrace(threadId, runId, millis, n - 1), [Sleep(millis), RetrieveRun(threadId, runId)], IsRetrieval);
    }
  }

  /** A wait sleeps `millis` once per round. */
  lemma {:induction false} PollTraceSleeps(threadId: string, runId: string, millis: nat, n: nat)
    ensures Kept(PollTrace(threadId, runId, millis, n), IsSleep) == seq(n, _ => Sleep(millis))
  {
    if n > 0 {
      PollTraceSleeps(threadId, runId, millis, n - 1);
      RoundKept(threadId, runId, millis);
      KeptConcat(PollTrace(threadId, runId, millis, n - 1), [Sleep(millis), RetrieveRun(threadId, runId)], IsSleep);
      assert seq(n, _ => Sleep(millis)) == seq(n - 1, _ => Sleep(millis)) + [Sleep(millis)];
    }
  }

  /** The first wait: poll until the run is completed or requires an action.
      `used` is how many polls it consumed. */
  method AwaitActionOrCompletion(threadId: string, runId: string, polls: seq<RunState>)
    returns (completed: bool, actionRequired: bool, used: nat, effects: seq<Effect>)
    ensures var k := WaitIndex(polls, StopsFirstWait);
      if k < |polls| then
        used == k + 1 && completed == IsCompleted(polls[k].status) &&
        actionRequired == polls[k].requiredAction.Some?
      else
        used == |polls| && !completed && !actionRequired
    ensures effects == PollTrace(threadId, runId, FirstWaitMillis, used)
  {
    completed, actionRequired, used, effects := false, false, 0, [];
    while !completed && !actionRequired && used < |polls|
      invariant used <= |polls|
      invariant forall j :: 0 <= j < used - 1 ==> !StopsFirstWait(polls[j])
      invariant used == 0 ==> !completed && !actionRequired
      invariant used > 0 ==> completed == IsCompleted(polls[used - 1].status) &&
                              actionRequired == polls[used - 1].requiredAction.Some?
      invariant effects == PollTrace(threadId, runId, FirstWaitMillis, used)
    {
      effects := effects + [Sleep(FirstWaitMillis), RetrieveRun(threadId, runId)];
      var run := polls[used];
      used := used + 1;
      completed := IsCompleted(run.status);
      actionRequired := run.requiredAction.Some?;
    }
  }

  /** The wait after the tool output: poll until the run is completed; no poll
      at all when the run was already completed. */
  method AwaitCompletion(threadId: string, runId: string, completed: bool, polls: seq<RunState>)
    returns (done: bool, used: nat, effects: seq<Effect>)
    ensures completed ==> done && used == 0
    ensures !completed ==>
      var k := WaitIndex(polls, IsCompletedRun);
      done == (k < |polls|) && used == (if k < |polls| then k + 1 else |polls|)
    ensures effects == PollTrace(threadId, runId, SecondWaitMillis, used)
  {
    done, used, effects := completed, 0, [];
    while !done && used < |polls|
      invariant used <= |polls|
      invariant forall j :: 0 <= j < used - 1 ==> !IsCompletedRun(polls[j])
      invariant used == 0 ==> done == completed
      invariant used > 0 ==> !completed && done == IsCompleted(polls[used - 1].status)
      invariant effects == PollTrace(threadId, runId, SecondWaitMillis, used)
    {
      effects := effects + [Sleep(SecondWaitMillis), RetrieveRun(threadId, runId)];
      var run := polls[used];
      used := used + 1;
      done := IsCompleted(run.status);
    }
  }
}
