/** The pool that runs test files in separate processes, at most `jobs` at a time. */
module TestPool {
  import opened Collections

  /** What one process reports of its file. */
  datatype Result = Result(passed: nat, failed: nat, pending: nat) {
    function Plus(r: Result): Result {
      Result(passed + r.passed, failed + r.failed, pending + r.pending)
    }
  }

  datatype Suite = Suite(file: string, result: Result)

  const NO_RESULT := Result(0, 0, 0)

  function Names(suites: seq<Suite>): seq<string> {
    seq(|suites|, i requires 0 <= i < |suites| => suites[i].file)
  }

  function Sum(suites: seq<Suite>): Result {
    if |suites| == 0 then NO_RESULT else Sum(suites[..|suites| - 1]).Plus(suites[|suites| - 1].result)
  }

  /** The suites with a failed test, in the order in which they ended. */
  function Failures(suites: seq<Suite>): seq<Suite> {
    if |suites| == 0 then []
    else
      var last := suites[|suites| - 1];
      Failures(suites[..|suites| - 1]) + if last.result.failed > 0 then [last] else []
  }

  /** The files that wait and those that run. */
  datatype Queue = Queue(pending: seq<string>, running: set<string>)

  /** The inner loop starts files in order while there are workers left. */
  function Launched(q: Queue, jobs: int): Queue
    decreases |q.pending|
  {
    if |q.pending| == 0 || |q.running| >= jobs then q
    else Launched(Queue(q.pending[1..], q.running + {q.pending[0]}), jobs)
  }

  /** Each file is waiting, running or done, exactly one of the three, and the first ones were started. */
  ghost predicate Accounted(files: seq<string>, q: Queue, suites: seq<Suite>) {
    && |q.pending| <= |files| && q.pending == files[|files| - |q.pending|..]
    && Distinct(Names(suites))
    && (forall f :: f in files[..|files| - |q.pending|] <==> f in q.running || f in Names(suites))
    && (forall f :: !(f in q.running && f in Names(suites)))
  }

  lemma LaunchAccounted(files: seq<string>, q: Queue, suites: seq<Suite>)
    requires Distinct(files) && Accounted(files, q, suites) && |q.pending| > 0
    ensures q.pending[0] !in q.running
    ensures Accounted(files, Queue(q.pending[1..], q.running + {q.pending[0]}), suites)
  {
    var n := |files| - |q.pending|;
    assert files[..n + 1] == files[..n] + [files[n]];
    assert q.pending[0] == files[n] && files[n] !in files[..n];
  }

  lemma EndAccounted(files: seq<string>, q: Queue, suites: seq<Suite>, s: Suite)
    requires Accounted(files, q, suites) && s.file in q.running
    ensures Accounted(files, Queue(q.pending, q.running - {s.file}), suites + [s])
  {
    assert Names(suites + [s]) == Names(suites) + [s.file];
    DistinctSnoc(Names(suites), s.file);
  }

  lemma AllDone(files: seq<string>, q: Queue, suites: seq<Suite>)
    requires Distinct(files) && Accounted(files, q, suites) && q == Queue([], {})
    ensures multiset(Names(suites)) == multiset(files)
  {
    assert files[..|files|] == files;
    forall f: string
      ensures multiset(Names(suites))[f] == multiset(files)[f]
    {
      CountsOnce(Names(suites), f);
      CountsOnce(files, f);
    }
  }

  lemma {:induction false} CountsOnce(s: seq<string>, x: string)
    requires Distinct(s)
    ensures multiset(s)[x] == if x in s then 1 else 0
  {
    if |s| > 0 {
      var init, last := s[..|s| - 1], s[|s| - 1];
      ConcatSnoc([], s);
      DistinctSnoc(init, last);
      CountsOnce(init, x);
      assert s == init + [last];
    }
  }

  ghost predicate AtMost(running: set<string>, jobs: int) {
    running == {} || |running| <= jobs
  }

  lemma OneLess(running: set<string>, jobs: int, file: string)
    requires AtMost(running, jobs)
    ensures AtMost(running - {file}, jobs)
  {
    CardinalitySubset(running - {file}, running);
  }

  lemma OneSuiteMore(suites: seq<Suite>, s: Suite)
    ensures Sum(suites + [s]) == Sum(suites).Plus(s.result)
    ensures Failures(suites + [s]) == if s.result.failed > 0 then Failures(suites) + [s] else Failures(suites)
  {
    assert (suites + [s])[..|suites|] == suites;
  }

  ghost predicate Sound(files: seq<string>, jobs: int, q: Queue, suites: seq<Suite>, failures: seq<Suite>,
                        totals: Result)
  {
    && Distinct(files) && Accounted(files, q, suites) && AtMost(q.running, jobs)
    && totals == Sum(suites) && failures == Failures(suites)
  }

  lemma EndSound(files: seq<string>, jobs: int, q: Queue, suites: seq<Suite>, failures: seq<Suite>, totals: Result,
                 s: Suite)
    requires Sound(files, jobs, q, suites, failures, totals) && s.file in q.running
    ensures Sound(files, jobs, Queue(q.pending, q.running - {s.file}), suites + [s],
                  if s.result.failed > 0 then failures + [s] else failures, totals.Plus(s.result))
  {
    EndAccounted(files, q, suites, s);
    OneSuiteMore(suites, s);
    OneLess(q.running, jobs, s.file);
  }

  lemma LaunchSound(files: seq<string>, jobs: int, q: Queue, suites: seq<Suite>, failures: seq<Suite>, totals: Result)
    requires Sound(files, jobs, q, suites, failures, totals) && |q.pending| > 0 && |q.running| < jobs
    ensures Sound(files, jobs, Queue(q.pending[1..], q.running + {q.pending[0]}), suites, failures, totals)
  {
    LaunchAccounted(files, q, suites);
  }

  /** The inner loop. */
  method LaunchAll(files: seq<string>, jobs: int, q0: Queue, ghost suites: seq<Suite>, ghost failures: seq<Suite>,
                   ghost totals: Result) returns (q: Queue)
    requires Sound(files, jobs, q0, suites, failures, totals)
    ensures Sound(files, jobs, q, suites, failures, totals) && q == Launched(q0, jobs)
    ensures q.pending == [] || |q.running| >= jobs
    ensures q == q0 || |q.pending| < |q0.pending|
  {
    q := q0;
    while |q.pending| > 0 && |q.running| < jobs
      invariant Sound(files, jobs, q, suites, failures, totals) && Launched(q, jobs) == Launched(q0, jobs)
      invariant q == q0 || |q.pending| < |q0.pending|
      decreases |q.pending|
    {
      LaunchSound(files, jobs, q, suites, failures, totals);
      q := Queue(q.pending[1..], q.running + {q.pending[0]});
    }
  }

  /** What `report` says of a file is what its suite holds. */
  ghost predicate Reported(report: string -> Result, suites: seq<Suite>) {
    forall s | s in suites :: s.result == report(s.file)
  }

  /** One process ends, with what it reports of its file; which one is up to the environment. */
  method AwaitOne(files: seq<string>, jobs: int, report: string -> Result, q: Queue, suites: seq<Suite>,
                  failures: seq<Suite>, totals: Result)
      returns (q': Queue, suites': seq<Suite>, failures': seq<Suite>, totals': Result)
    requires Sound(files, jobs, q, suites, failures, totals) && q.running != {} && Reported(report, suites)
    ensures Sound(files, jobs, q', suites', failures', totals') && Reported(report, suites')
    ensures q'.pending == q.pending && |q'.running| < |q.running|
  {
    var file :| file in q.running;
    var result := report(file);
    var suite := Suite(file, result);
    EndSound(files, jobs, q, suites, failures, totals, suite);
    q' := Queue(q.pending, q.running - {file});
    suites' := suites + [suite];
    failures' := if result.failed > 0 then failures + [suite] else failures;
    totals' := totals.Plus(result);
  }

  lemma StartSound(files: seq<string>, jobs: int)
    requires Distinct(files)
    ensures Sound(files, jobs, Queue(files, {}), [], [], NO_RESULT)
  {
  }

  /** From nothing running, the inner loop starts as many files as there are, up to the number of workers. */
  lemma {:induction false} LaunchedCount(q: Queue, jobs: int)
    requires Distinct(q.pending) && |q.running| <= jobs && forall f | f in q.pending :: f !in q.running
    ensures |Launched(q, jobs).running| == Least(jobs, |q.running| + |q.pending|)
    decreases |q.pending|
  {
    if |q.pending| > 0 && |q.running| < jobs {
      assert q.pending == [q.pending[0]] + q.pending[1..];
      LaunchedCount(Queue(q.pending[1..], q.running + {q.pending[0]}), jobs);
    }
  }

  /**
   The main loop: each file is run once, each suite holds what its file's process reports, and totals and
   failures are theirs. `most` is history: the largest number of processes at a time uses all workers there are.
   */
  method RunAll(files: seq<string>, jobs: int, report: string -> Result)
      returns (suites: seq<Suite>, failures: seq<Suite>, totals: Result, ghost most: nat)
    requires Distinct(files) && (jobs > 0 || files == [])
    ensures multiset(Names(suites)) == multiset(files) && Reported(report, suites)
    ensures totals == Sum(suites) && failures == Failures(suites)
    ensures most == if files == [] then 0 else Least(jobs, |files|)
  {
    var q := Queue(files, {});
    suites, failures, totals, most := [], [], NO_RESULT, 0;
    StartSound(files, jobs);
    if files != [] {
      LaunchedCount(q, jobs);
    }
    while |q.pending| > 0 || |q.running| > 0
      invariant Sound(files, jobs, q, suites, failures, totals) && Reported(report, suites)
      invariant (q == Queue(files, {}) && most == 0) || (jobs > 0 && most == Least(jobs, |files|))
      decreases |q.pending|, |q.running|
    {
      ghost var before := q;
      q := LaunchAll(files, jobs, q, suites, failures, totals);
      RunningAreFiles(files, q, suites);
      most := Most(most, |q.running|);
      assert q == before ==> q.running != {};
      if |q.running| > 0 {
        q, suites, failures, totals := AwaitOne(files, jobs, report, q, suites, failures, totals);
      }
    }
    AllDone(files, q, suites);
  }

  lemma RunningAreFiles(files: seq<string>, q: Queue, suites: seq<Suite>)
    requires Accounted(files, q, suites)
    ensures |q.running| <= |files|
  {
    forall f | f in q.running
      ensures f in files
    {
      assert f in files[..|files| - |q.pending|];
    }
    ElementsAreFew(files, q.running);
  }

  lemma {:induction false} ElementsAreFew(s: seq<string>, elements: set<string>)
    requires forall x | x in elements :: x in s
    ensures |elements| <= |s|
    decreases |s|
  {
    if |s| > 0 {
      var x := s[0];
      assert s == [x] + s[1..];
      ElementsAreFew(s[1..], elements - {x});
      assert |elements| <= |elements - {x}| + 1 by {
        CardinalitySubset(elements, (elements - {x}) + {x});
      }
    } else {
      assert elements == {};
    }
  }

  /** Without a positive number of workers the loop goes round and starts nothing. */
  lemma SpinsIff(files: seq<string>, jobs: int)
    requires files != []
    ensures Launched(Queue(files, {}), jobs) == Queue(files, {}) <==> jobs <= 0
  {
    if jobs > 0 {
      StillStarted(Queue(files[1..], {} + {files[0]}), jobs);
    }
  }

  lemma {:induction false} StillStarted(q: Queue, jobs: int)
    ensures q.running <= Launched(q, jobs).running
    decreases |q.pending|
  {
    if |q.pending| > 0 && |q.running| < jobs {
      StillStarted(Queue(q.pending[1..], q.running + {q.pending[0]}), jobs);
    }
  }
}
