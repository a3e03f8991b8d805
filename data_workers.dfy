/** The two copytool workers. Each takes jobs off its input queue until the
    graceful-stop flag is set, reports every job as 'transferring', stages
    it, and puts it on the finished or the failed queue by the result. The
    workers run in their own threads in the source; here each runs alone
    over the queues it owns. */
module DataWorkers {
  import opened Outcomes
  import opened DataCall
  import opened DataStageOut

  /** What one stage-out of a job observes: the working directory's listing,
      the tarball size and one upload per entry of the outputs dict. */
  datatype OutAttempt = OutAttempt(listing: set<string>, logSize: nat, uploads: seq<Upload>)

  const TRANSFERRING := "transferring"

  predicate Fits(job: Job, a: OutAttempt)
  {
    |a.uploads| == |Outputs(job, a.logSize)| && forall i :: 0 <= i < |a.uploads| ==> Settles(a.uploads[i].run)
  }

  /** What `_stage_out_all` ends with for one job. */
  function OutResult(job: Job, a: OutAttempt): Result<bool, Crash>
    requires Fits(job, a)
  {
    StageOutAllResult(job, a.logSize, a.uploads)
  }

  /** The index of the first loop test that finds the flag set. */
  function FirstStop(stops: seq<bool>): (k: nat)
    requires true in stops
    ensures k < |stops| && stops[k]
    ensures forall j :: 0 <= j < k ==> !stops[j]
  {
    if stops[0] then 0
    else
      assert true in stops[1..];
      var k := FirstStop(stops[1..]) + 1;
      assert forall j :: 1 <= j < k ==> stops[j] == stops[1..][j - 1];
      k
  }

  /** The jobs whose outcome is `which`, in the order they were taken. */
  function Routed(jobs: seq<Job>, oks: seq<bool>, which: bool): (r: seq<Job>)
    requires |jobs| <= |oks|
    ensures |r| <= |jobs|
    decreases |jobs|
  {
    if jobs == [] then []
    else
      var n := |jobs| - 1;
      Routed(jobs[..n], oks, which) + (if oks[n] == which then [jobs[n]] else [])
  }

  /** Every job taken lands on exactly one of the two queues. */
  lemma {:induction false} RoutedPartition(jobs: seq<Job>, oks: seq<bool>)
    requires |jobs| <= |oks|
    ensures multiset(Routed(jobs, oks, true)) + multiset(Routed(jobs, oks, false)) == multiset(jobs)
    decreases |jobs|
  {
    if jobs != [] {
      var n := |jobs| - 1;
      var front := jobs[..n];
      RoutedPartition(front, oks);
      PartitionStep(Routed(front, oks, true), Routed(front, oks, false), front, jobs[n], oks[n]);
      assert jobs == front + [jobs[n]];
    }
  }

  lemma PartitionStep<T>(yes: seq<T>, no: seq<T>, front: seq<T>, x: T, ok: bool)
    requires multiset(yes) + multiset(no) == multiset(front)
    ensures multiset(yes + (if ok then [x] else [])) + multiset(no + (if ok then [] else [x])) == multiset(front + [x])
  {
  }

  /** The jobs routed as `which` are exactly those with that outcome. */
  lemma {:induction false} RoutedMembers(jobs: seq<Job>, oks: seq<bool>, which: bool, i: nat)
    requires |jobs| <= |oks| && i < |jobs|
    requires forall j :: 0 <= j < |jobs| && j != i ==> jobs[j] != jobs[i]
    ensures jobs[i] in Routed(jobs, oks, which) <==> oks[i] == which
    decreases |jobs|
  {
    var n := |jobs| - 1;
    if i < n {
      forall j | 0 <= j < n && j != i ensures jobs[..n][j] != jobs[..n][i] {
        assert jobs[..n][j] == jobs[j];
      }
      RoutedMembers(jobs[..n], oks, which, i);
      assert jobs[..n][i] == jobs[i];
      assert jobs[n] != jobs[i];
    } else {
      if jobs[i] in Routed(jobs[..n], oks, which) {
        RoutedFrom(jobs[..n], oks, which, jobs[i]);
        assert false;
      }
    }
  }

  lemma {:induction false} RoutedFrom(jobs: seq<Job>, oks: seq<bool>, which: bool, job: Job)
    requires |jobs| <= |oks|
    requires job in Routed(jobs, oks, which)
    ensures exists j :: 0 <= j < |jobs| && jobs[j] == job
    decreases |jobs|
  {
    var n := |jobs| - 1;
    if job in Routed(jobs[..n], oks, which) {
      RoutedFrom(jobs[..n], oks, which, job);
      var j :| 0 <= j < n && jobs[..n][j] == job;
      assert jobs[j] == job;
    } else {
      assert jobs[n] == job;
    }
  }

  /** The `_stage_in` result of each job, by position. */
  function InOks(calls: seq<Run>): seq<bool>
  {
    seq(|calls|, i requires 0 <= i < |calls| => CallOk(calls[i]))
  }

  /** Every attempt fits the job at its position. */
  predicate AllFit(jobs: seq<Job>, attempts: seq<OutAttempt>)
    decreases |jobs|
  {
    && |jobs| <= |attempts|
    && (jobs == [] || (AllFit(jobs[..|jobs| - 1], attempts) && Fits(jobs[|jobs| - 1], attempts[|jobs| - 1])))
  }

  lemma {:induction false} AllFitAt(jobs: seq<Job>, attempts: seq<OutAttempt>, i: nat)
    requires AllFit(jobs, attempts) && i < |jobs|
    ensures Fits(jobs[i], attempts[i])
    decreases |jobs|
  {
    var n := |jobs| - 1;
    if i < n {
      AllFitAt(jobs[..n], attempts, i);
      assert jobs[..n][i] == jobs[i];
    }
  }

  /** `AllFit` is the position-wise condition. */
  lemma {:induction false} AllFitIff(jobs: seq<Job>, attempts: seq<OutAttempt>)
    ensures AllFit(jobs, attempts) <==>
              |jobs| <= |attempts| && forall i :: 0 <= i < |jobs| ==> Fits(jobs[i], attempts[i])
    decreases |jobs|
  {
    if jobs != [] {
      var n := |jobs| - 1;
      AllFitIff(jobs[..n], attempts);
      assert forall i :: 0 <= i < n ==> jobs[..n][i] == jobs[i];
      if AllFit(jobs, attempts) {
        forall i | 0 <= i < |jobs| ensures Fits(jobs[i], attempts[i]) {
          AllFitAt(jobs, attempts, i);
        }
      }
    }
  }

  /** What `_stage_out_all` ends with for each job, by position. */
  function Results(jobs: seq<Job>, attempts: seq<OutAttempt>): (rs: seq<Result<bool, Crash>>)
    requires AllFit(jobs, attempts)
    ensures |rs| == |jobs|
    decreases |jobs|
  {
    if jobs == [] then []
    else
      var n := |jobs| - 1;
      Results(jobs[..n], attempts) + [OutResult(jobs[n], attempts[n])]
  }

  lemma {:induction false} ResultsAt(jobs: seq<Job>, attempts: seq<OutAttempt>, i: nat)
    requires AllFit(jobs, attempts) && i < |jobs|
    ensures Fits(jobs[i], attempts[i]) && Results(jobs, attempts)[i] == OutResult(jobs[i], attempts[i])
    decreases |jobs|
  {
    var n := |jobs| - 1;
    if i < n {
      ResultsAt(jobs[..n], attempts, i);
      assert jobs[..n][i] == jobs[i];
    }
  }

  /** `results` holds what `_stage_out_all` ends with for each job. */
  predicate Planned(jobs: seq<Job>, attempts: seq<OutAttempt>, results: seq<Result<bool, Crash>>)
  {
    && |jobs| == |results| <= |attempts|
    && forall i {:trigger Fits(jobs[i], attempts[i])} :: 0 <= i < |jobs| ==>
         Fits(jobs[i], attempts[i]) && results[i] == OutResult(jobs[i], attempts[i])
  }

  /** Which results put the job on the finished queue. */
  function Oks(rs: seq<Result<bool, Crash>>): seq<bool>
  {
    seq(|rs|, i requires 0 <= i < |rs| => rs[i] == Ok(true))
  }

  /** The `send_state` calls for jobs staged in. */
  function InLog(jobs: seq<Job>): seq<(Job, string)>
  {
    seq(|jobs|, i requires 0 <= i < |jobs| => (jobs[i], TRANSFERRING))
  }

  /** The states sent for jobs staged out: 'transferring', then 'finished'
      or 'failed' by the outcome. */
  function OutLog(jobs: seq<Job>, oks: seq<bool>): (log: seq<(Job, string)>)
    requires |jobs| <= |oks|
    ensures |log| == 2 * |jobs|
    decreases |jobs|
  {
    if jobs == [] then []
    else
      var n := |jobs| - 1;
      OutLog(jobs[..n], oks) + [(jobs[n], TRANSFERRING), (jobs[n], StateName(oks[n]))]
  }

  function StateName(ok: bool): string
  {
    if ok then "finished" else "failed"
  }

  class Pipeline {
    var dataIn: seq<Job>
    var finishedIn: seq<Job>
    var failedIn: seq<Job>
    var dataOut: seq<Job>
    var finishedOut: seq<Job>
    var failedOut: seq<Job>
    /** The states sent through `send_state`, in order. */
    ghost var states: seq<(Job, string)>

    constructor(dataIn: seq<Job>, dataOut: seq<Job>)
      ensures this.dataIn == dataIn && this.dataOut == dataOut
      ensures finishedIn == [] && failedIn == [] && finishedOut == [] && failedOut == []
      ensures states == []
    {
      this.dataIn := dataIn;
      this.dataOut := dataOut;
      finishedIn := [];
      failedIn := [];
      finishedOut := [];
      failedOut := [];
      states := [];
    }

    /** `copytool_in`, given the successive readings of the stop flag and
        the observed `_stage_in` run of each job it takes. An empty queue
        only costs one reading of the flag. */
    method CopytoolIn(stops: seq<bool>, calls: seq<Run>) returns (n: nat)
      requires true in stops
      requires |dataIn| <= |calls|
      requires forall i :: 0 <= i < |calls| ==> Settles(calls[i])
      modifies this
      ensures n == Min(|old(dataIn)|, FirstStop(stops))
      ensures dataIn == old(dataIn)[n..]
      ensures finishedIn == old(finishedIn) + Routed(old(dataIn)[..n], InOks(calls), true)
      ensures failedIn == old(failedIn) + Routed(old(dataIn)[..n], InOks(calls), false)
      ensures states == old(states) + InLog(old(dataIn)[..n])
      ensures dataOut == old(dataOut) && finishedOut == old(finishedOut) && failedOut == old(failedOut)
    {
      var k := 0;
      n := 0;
      ghost var jobs := dataIn;
      ghost var oks := InOks(calls);
      while !stops[k]
        invariant 0 <= k <= FirstStop(stops)
        invariant n == Min(|jobs|, k) && dataIn == jobs[n..]
        invariant finishedIn == old(finishedIn) + Routed(jobs[..n], oks, true)
        invariant failedIn == old(failedIn) + Routed(jobs[..n], oks, false)
        invariant states == old(states) + InLog(jobs[..n])
        invariant dataOut == old(dataOut) && finishedOut == old(finishedOut) && failedOut == old(failedOut)
        decreases FirstStop(stops) - k
      {
        if dataIn != [] {
          StepIn(calls[n], jobs, oks, n, old(finishedIn), old(failedIn), old(states));
          n := n + 1;
        }
        k := k + 1;
      }
    }

    /** One pass of `copytool_in` over the `n`-th job, continuing the
        queues and the log the earlier passes built. */
    method StepIn(call: Run, ghost jobs: seq<Job>, ghost oks: seq<bool>, n: nat,
                  ghost finished0: seq<Job>, ghost failed0: seq<Job>, ghost states0: seq<(Job, string)>)
      requires n < |jobs| <= |oks| && dataIn == jobs[n..]
      requires Settles(call) && (oks[n] <==> CallOk(call))
      requires finishedIn == finished0 + Routed(jobs[..n], oks, true)
      requires failedIn == failed0 + Routed(jobs[..n], oks, false)
      requires states == states0 + InLog(jobs[..n])
      modifies this
      ensures dataIn == jobs[n + 1..]
      ensures finishedIn == finished0 + Routed(jobs[..n + 1], oks, true)
      ensures failedIn == failed0 + Routed(jobs[..n + 1], oks, false)
      ensures states == states0 + InLog(jobs[..n + 1])
      ensures dataOut == old(dataOut) && finishedOut == old(finishedOut) && failedOut == old(failedOut)
    {
      InStep(jobs, oks, n);
      assert jobs[n + 1..] == dataIn[1..];
      var job, ok := TakeIn(call);
      AppendAssoc(finished0, Routed(jobs[..n], oks, true), if ok then [job] else []);
      AppendAssoc(failed0, Routed(jobs[..n], oks, false), if ok then [] else [job]);
      AppendAssoc(states0, InLog(jobs[..n]), [(job, TRANSFERRING)]);
    }

    /** One pass of `copytool_in` that finds a job: the job is reported as
        transferring, staged in, and queued by the result of `_stage_in`. */
    method TakeIn(call: Run) returns (job: Job, ok: bool)
      requires dataIn != [] && Settles(call)
      modifies this
      ensures job == old(dataIn)[0] && dataIn == old(dataIn)[1..]
      ensures ok <==> CallOk(call)
      ensures finishedIn == old(finishedIn) + (if ok then [job] else [])
      ensures failedIn == old(failedIn) + (if ok then [] else [job])
      ensures states == old(states) + [(job, TRANSFERRING)]
      ensures dataOut == old(dataOut) && finishedOut == old(finishedOut) && failedOut == old(failedOut)
    {
      job := dataIn[0];
      dataIn := dataIn[1..];
      states := states + [(job, TRANSFERRING)];
      var signals;
      ok, signals := Call(call);
      if ok {
        finishedIn := finishedIn + [job];
      } else {
        failedIn := failedIn + [job];
      }
    }

    /** `copytool_out`, given the successive readings of the stop flag and
        what each job's stage-out observes. `n` jobs are staged out and
        queued. A crash of `_stage_out_all` escapes the loop and ends the
        worker, with one more job taken but on neither queue. */
    method CopytoolOut(stops: seq<bool>, queue: string, attempts: seq<OutAttempt>)
      returns (n: nat, crash: Option<Crash>)
      requires true in stops
      requires AllFit(dataOut, attempts)
      modifies this
      ensures crash.None? ==> n == Min(|old(dataOut)|, FirstStop(stops)) && dataOut == old(dataOut)[n..]
      ensures crash.Some? ==>
                && n < |old(dataOut)| && dataOut == old(dataOut)[n + 1..]
                && Results(old(dataOut), attempts)[n] == Err(crash.value)
      ensures crash.Some? ==> n < FirstStop(stops)
      ensures n <= |old(dataOut)| && forall i :: 0 <= i < n ==> Results(old(dataOut), attempts)[i].Ok?
      ensures finishedOut == old(finishedOut) + Routed(old(dataOut)[..n], Oks(Results(old(dataOut), attempts)), true)
      ensures failedOut == old(failedOut) + Routed(old(dataOut)[..n], Oks(Results(old(dataOut), attempts)), false)
      ensures states == old(states) + OutLog(old(dataOut)[..n], Oks(Results(old(dataOut), attempts)))
                        + (if crash.Some? then [(old(dataOut)[n], TRANSFERRING)] else [])
      ensures dataIn == old(dataIn) && finishedIn == old(finishedIn) && failedIn == old(failedIn)
    {
      ghost var jobs := dataOut;
      ghost var results := Results(jobs, attempts);
      forall i | 0 <= i < |jobs|
        ensures Fits(jobs[i], attempts[i]) && results[i] == OutResult(jobs[i], attempts[i])
      {
        ResultsAt(jobs, attempts, i);
      }
      assert Planned(jobs, attempts, results);
      n, crash := DrainOut(stops, queue, attempts, jobs, results, Oks(results));
    }

    /** The loop of `copytool_out`, over the jobs queued when it starts and
        what `_stage_out_all` ends with for each. */
    method DrainOut(stops: seq<bool>, queue: string, attempts: seq<OutAttempt>, ghost jobs: seq<Job>,
                    ghost results: seq<Result<bool, Crash>>, ghost oks: seq<bool>)
      returns (n: nat, crash: Option<Crash>)
      requires true in stops
      requires dataOut == jobs && Planned(jobs, attempts, results) && oks == Oks(results)
      modifies this
      ensures crash.None? ==> n == Min(|jobs|, FirstStop(stops)) && dataOut == jobs[n..]
      ensures crash.Some? ==> n < |jobs| && dataOut == jobs[n + 1..] && results[n] == Err(crash.value)
      ensures crash.Some? ==> n < FirstStop(stops)
      ensures n <= |jobs| && forall i :: 0 <= i < n ==> results[i].Ok?
      ensures finishedOut == old(finishedOut) + Routed(jobs[..n], oks, true)
      ensures failedOut == old(failedOut) + Routed(jobs[..n], oks, false)
      ensures states == old(states) + OutLog(jobs[..n], oks) + (if crash.Some? then [(jobs[n], TRANSFERRING)] else [])
      ensures dataIn == old(dataIn) && finishedIn == old(finishedIn) && failedIn == old(failedIn)
    {
      var k := 0;
      n := 0;
      crash := None;
      while !stops[k]
        invariant 0 <= k <= FirstStop(stops)
        invariant n == Min(|jobs|, k) && dataOut == jobs[n..] && crash.None?
        invariant forall i :: 0 <= i < n ==> results[i].Ok?
        invariant finishedOut == old(finishedOut) + Routed(jobs[..n], oks, true)
        invariant failedOut == old(failedOut) + Routed(jobs[..n], oks, false)
        invariant states == old(states) + OutLog(jobs[..n], oks)
        invariant dataIn == old(dataIn) && finishedIn == old(finishedIn) && failedIn == old(failedIn)
        decreases FirstStop(stops) - k
      {
        if dataOut != [] {
          assert n < |jobs|;
          crash := StepOut(queue, attempts, jobs, results, oks, n, old(finishedOut), old(failedOut), old(states));
          if crash.Some? {
            return;
          }
          n := n + 1;
        }
        k := k + 1;
      }
    }

    /** One pass of `copytool_out` over the `n`-th job, continuing the
        queues and the log the earlier passes built. */
    method StepOut(queue: string, attempts: seq<OutAttempt>, ghost jobs: seq<Job>,
                   ghost results: seq<Result<bool, Crash>>, ghost oks: seq<bool>, n: nat,
                   ghost finished0: seq<Job>, ghost failed0: seq<Job>, ghost states0: seq<(Job, string)>)
      returns (crash: Option<Crash>)
      requires Planned(jobs, attempts, results) && oks == Oks(results)
      requires n < |jobs| && dataOut == jobs[n..]
      requires finishedOut == finished0 + Routed(jobs[..n], oks, true)
      requires failedOut == failed0 + Routed(jobs[..n], oks, false)
      requires states == states0 + OutLog(jobs[..n], oks)
      modifies this
      ensures dataOut == jobs[n + 1..]
      ensures crash.Some? ==>
                && results[n] == Err(crash.value)
                && finishedOut == old(finishedOut) && failedOut == old(failedOut)
                && states == old(states) + [(jobs[n], TRANSFERRING)]
      ensures crash.None? ==>
                && results[n].Ok?
                && finishedOut == finished0 + Routed(jobs[..n + 1], oks, true)
                && failedOut == failed0 + Routed(jobs[..n + 1], oks, false)
                && states == states0 + OutLog(jobs[..n + 1], oks)
      ensures dataIn == old(dataIn) && finishedIn == old(finishedIn) && failedIn == old(failedIn)
    {
      assert jobs[n + 1..] == dataOut[1..];
      assert Fits(jobs[n], attempts[n]);
      var job, r := TakeOut(queue, attempts[n]);
      if r.Err? {
        return Some(r.error);
      }
      assert r.value == oks[n];
      InStep(jobs, oks, n);
      LogStep(jobs, oks, n);
      AppendAssoc(finished0, Routed(jobs[..n], oks, true), if r.value then [job] else []);
      AppendAssoc(failed0, Routed(jobs[..n], oks, false), if r.value then [] else [job]);
      AppendAssoc(states0, OutLog(jobs[..n], oks), [(job, TRANSFERRING), (job, StateName(oks[n]))]);
      crash := None;
    }

    /** One pass of `copytool_out` that finds a job: the job is reported as
        transferring and staged out; unless that crashes, the final report
        is sent and the job queued by the result. */
    method TakeOut(queue: string, a: OutAttempt) returns (job: Job, r: Result<bool, Crash>)
      requires dataOut != [] && Fits(dataOut[0], a)
      modifies this
      ensures job == old(dataOut)[0] && dataOut == old(dataOut)[1..]
      ensures r == OutResult(job, a)
      ensures states == old(states) + [(job, TRANSFERRING)] + (if r.Ok? then [(job, StateName(r.value))] else [])
      ensures finishedOut == old(finishedOut) + (if r == Ok(true) then [job] else [])
      ensures failedOut == old(failedOut) + (if r == Ok(false) then [job] else [])
      ensures dataIn == old(dataIn) && finishedIn == old(finishedIn) && failedIn == old(failedIn)
    {
      job := dataOut[0];
      dataOut := dataOut[1..];
      states := states + [(job, TRANSFERRING)];
      var state;
      r, state := StageOutJob(job, queue, a);
      if r.Err? {
        return;
      }
      states := states + [(job, state)];
      if r.value {
        finishedOut := finishedOut + [job];
      } else {
        failedOut := failedOut + [job];
      }
    }
  }

  /** `_stage_out_all` for one job, keeping the outcome and the state it
      reports. */
  method StageOutJob(job: Job, queue: string, a: OutAttempt) returns (r: Result<bool, Crash>, state: string)
    requires Fits(job, a)
    ensures r == OutResult(job, a)
    ensures r.Ok? ==> state == StateName(r.value)
  {
    var report, members, attempted;
    r, report, members, attempted := StageOutAll(job, queue, a.listing, a.logSize, a.uploads);
    state := report.state;
  }

  /** Taking one more job extends the routing and the log by that job. */
  lemma InStep(jobs: seq<Job>, oks: seq<bool>, n: nat)
    requires n < |jobs| <= |oks|
    ensures Routed(jobs[..n + 1], oks, true) == Routed(jobs[..n], oks, true) + (if oks[n] then [jobs[n]] else [])
    ensures Routed(jobs[..n + 1], oks, false) == Routed(jobs[..n], oks, false) + (if oks[n] then [] else [jobs[n]])
    ensures InLog(jobs[..n + 1]) == InLog(jobs[..n]) + [(jobs[n], TRANSFERRING)]
  {
    assert jobs[..n + 1][..n] == jobs[..n] && jobs[..n + 1][n] == jobs[n];
    InLogSnoc(jobs[..n + 1]);
  }

  lemma InLogSnoc(jobs: seq<Job>)
    requires jobs != []
    ensures InLog(jobs) == InLog(jobs[..|jobs| - 1]) + [(jobs[|jobs| - 1], TRANSFERRING)]
  {
    var n := |jobs| - 1;
    var a, b := InLog(jobs), InLog(jobs[..n]) + [(jobs[n], TRANSFERRING)];
    assert |a| == |b|;
    forall i | 0 <= i < |a| ensures a[i] == b[i] {
      if i < n {
        assert jobs[..n][i] == jobs[i];
      }
    }
  }

  /** Taking one more job that does not crash extends the log by its two
      reports. */
  lemma LogStep(jobs: seq<Job>, oks: seq<bool>, n: nat)
    requires n < |jobs| <= |oks|
    ensures OutLog(jobs[..n + 1], oks) == OutLog(jobs[..n], oks) + [(jobs[n], TRANSFERRING), (jobs[n], StateName(oks[n]))]
  {
    assert jobs[..n + 1][..n] == jobs[..n];
  }

  /** Routing only looks at the outcomes of the jobs it routes. */
  lemma {:induction false} RoutedSameOks(jobs: seq<Job>, oks1: seq<bool>, oks2: seq<bool>, which: bool)
    requires |jobs| <= |oks1| && |jobs| <= |oks2|
    requires forall i :: 0 <= i < |jobs| ==> oks1[i] == oks2[i]
    ensures Routed(jobs, oks1, which) == Routed(jobs, oks2, which)
    decreases |jobs|
  {
    if jobs != [] {
      RoutedSameOks(jobs[..|jobs| - 1], oks1, oks2, which);
    }
  }
}
