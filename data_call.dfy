/** The supervision loop that `_call` and `_stage_out` both run around a
    rucio process. Every outer round checks the graceful-stop flag (ten
    times, 100 ms apart, collapsed here into "the flag was seen in this
    round") and then polls the process. A seen flag terminates and then kills
    the process and abandons the wait; an exit code ends the wait. */
module DataCall {
  import opened Outcomes

  /** One outer round as observed: was the stop flag seen, and what did
      `poll()` return afterwards (it is not reached when the flag was seen). */
  datatype Round = Round(stopSeen: bool, poll: Option<int>)

  /** How a supervised process ends. `Running` means the observations ran
      out while the source would still be waiting. */
  datatype Ending = Exited(code: int) | Cancelled | Running

  datatype Signal = Terminate | Kill

  /** A spawn attempt and the rounds observed after it. */
  datatype Run = Run(spawned: bool, rounds: seq<Round>)

  /** The outcome of the wait loop over `rounds`. */
  function Watch(rounds: seq<Round>): (w: Ending)
    ensures w.Exited? ==> exists i :: 0 <= i < |rounds| && rounds[i].poll == Some(w.code)
    ensures w.Cancelled? ==> exists i :: 0 <= i < |rounds| && rounds[i].stopSeen
    decreases |rounds|
  {
    if rounds == [] then Running
    else if rounds[0].stopSeen then Cancelled
    else if rounds[0].poll.Some? then Exited(rounds[0].poll.value)
    else
      var w := Watch(rounds[1..]);
      assert w.Exited? ==> exists i :: 1 <= i < |rounds| && rounds[i].poll == Some(w.code) by {
        if w.Exited? {
          var i :| 0 <= i < |rounds[1..]| && rounds[1..][i].poll == Some(w.code);
          assert rounds[i + 1] == rounds[1..][i];
        }
      }
      assert w.Cancelled? ==> exists i :: 1 <= i < |rounds| && rounds[i].stopSeen by {
        if w.Cancelled? {
          var i :| 0 <= i < |rounds[1..]| && rounds[1..][i].stopSeen;
          assert rounds[i + 1] == rounds[1..][i];
        }
      }
      w
  }

  /** The source waits until the process exits or the flag is set; a run
      that is modelled must reach one of the two within its rounds. */
  predicate Settles(run: Run)
  {
    run.spawned ==> !Watch(run.rounds).Running?
  }

  /** What `_call` returns. */
  predicate CallOk(run: Run)
  {
    run.spawned && Watch(run.rounds) == Exited(0)
  }

  /** The wait loop: it stops at the first round that sees the flag (after
      sending SIGTERM then SIGKILL, with no exit code) or the first poll that
      returns an exit code. */
  method Supervise(rounds: seq<Round>) returns (exitCode: Option<int>, signals: seq<Signal>)
    requires !Watch(rounds).Running?
    ensures Watch(rounds) == Cancelled ==> exitCode == None && signals == [Terminate, Kill]
    ensures Watch(rounds).Exited? ==> exitCode == Some(Watch(rounds).code) && signals == []
  {
    var i := 0;
    exitCode := None;
    signals := [];
    while true
      invariant 0 <= i <= |rounds|
      invariant Watch(rounds[i..]) == Watch(rounds)
      invariant exitCode == None && signals == []
      decreases |rounds| - i
    {
      assert rounds[i..] != [];
      if rounds[i].stopSeen {
        signals := [Terminate, Kill];
        break;
      }
      exitCode := rounds[i].poll;
      if exitCode.Some? {
        break;
      }
      assert rounds[i..][1..] == rounds[i + 1..];
      i := i + 1;
    }
  }

  /** `_call`: False when spawning raises; otherwise True exactly when the
      process was seen to exit with 0 before the stop flag was seen. */
  method Call(run: Run) returns (ok: bool, signals: seq<Signal>)
    requires Settles(run)
    ensures ok <==> CallOk(run)
    ensures signals == [Terminate, Kill] <==> run.spawned && Watch(run.rounds) == Cancelled
  {
    if !run.spawned {
      return false, [];
    }
    var exitCode;
    exitCode, signals := Supervise(run.rounds);
    ok := exitCode == Some(0);
  }

  /** Round `i` ends the wait with exit code `c`: it polls `c` without the
      flag, and every earlier round saw neither the flag nor an exit code. */
  predicate ExitsAt(rounds: seq<Round>, i: int, c: int)
  {
    0 <= i < |rounds| && !rounds[i].stopSeen && rounds[i].poll == Some(c)
    && forall j :: 0 <= j < i ==> !rounds[j].stopSeen && rounds[j].poll.None?
  }

  /** `_call` succeeds exactly when some round polls exit code 0 and every
      earlier round neither saw the flag nor saw an exit code. */
  lemma {:induction false} CallOkIff(run: Run)
    ensures CallOk(run) <==> run.spawned && exists i :: ExitsAt(run.rounds, i, 0)
  {
    WatchExitedAt(run.rounds, 0);
  }

  /** Dropping a quiet first round shifts the ending round by one. */
  lemma ExitsAtShift(rounds: seq<Round>, i: int, c: int)
    requires rounds != [] && !rounds[0].stopSeen && rounds[0].poll.None?
    ensures ExitsAt(rounds[1..], i, c) <==> ExitsAt(rounds, i + 1, c)
  {
    var rest := rounds[1..];
    if ExitsAt(rest, i, c) {
      forall j | 0 <= j < i + 1 ensures !rounds[j].stopSeen && rounds[j].poll.None? {
        if j > 0 { assert rounds[j] == rest[j - 1]; }
      }
    }
    if ExitsAt(rounds, i + 1, c) {
      forall j | 0 <= j < i ensures !rest[j].stopSeen && rest[j].poll.None? {
        assert rest[j] == rounds[j + 1];
      }
    }
  }

  /** The characterisation of `Watch(rounds) == Exited(c)` by the round that
      ends the wait. */
  lemma {:induction false} WatchExitedAt(rounds: seq<Round>, c: int)
    ensures Watch(rounds) == Exited(c) <==> exists i :: ExitsAt(rounds, i, c)
    decreases |rounds|
  {
    if rounds != [] && !rounds[0].stopSeen && rounds[0].poll.None? {
      var rest := rounds[1..];
      WatchExitedAt(rest, c);
      if Watch(rounds) == Exited(c) {
        var i :| ExitsAt(rest, i, c);
        ExitsAtShift(rounds, i, c);
      }
      if exists i :: ExitsAt(rounds, i, c) {
        var i :| ExitsAt(rounds, i, c);
        assert i > 0;
        ExitsAtShift(rounds, i - 1, c);
      }
    } else {
      forall i | ExitsAt(rounds, i, c) ensures i == 0 {
        assert 0 <= i < |rounds|;
      }
      if Watch(rounds) == Exited(c) {
        assert ExitsAt(rounds, 0, c);
      }
    }
  }

  /** A cancelled wait never yields success, whatever the process did. */
  lemma CancelledFails(run: Run)
    requires run.spawned
    requires exists i :: (0 <= i < |run.rounds| && run.rounds[i].stopSeen
                          && forall j :: 0 <= j < i ==> run.rounds[j].poll.None?)
    ensures !CallOk(run)
  {
    WatchExitedAt(run.rounds, 0);
  }
}
