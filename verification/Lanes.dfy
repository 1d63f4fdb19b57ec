/** A fixed number of lanes that work through a list, whatever the order in which their work completes. */
module Lanes {
  import opened Collections

  /** Between claims, waiting for the worker's result, past the end of the list, or left by an exception. */
  datatype Lane = Ready | Busy(index: nat) | Finished | Broken(at: nat)

  /**
   The shared state of `runWithConcurrency`. `calls` and `returned` are history: the indices handed to the
   worker, in order, and what the worker returned for each.
   */
  datatype Pool<R> = Pool(
    nextIndex: nat, lanes: seq<Lane>, results: seq<Option<R>>, calls: seq<nat>, returned: map<nat, R>)

  /** Lanes interleave at their awaits; which lane goes next and what its worker yields is up to the environment. */
  datatype Event<R> = Claim(lane: nat) | Return(lane: nat, value: R) | Throw(lane: nat)

  function Min(a: int, b: int): int { if a < b then a else b }
  function Max(a: int, b: int): int { if a < b then b else a }

  function LaneCount(n: nat, concurrency: int): nat {
    Max(1, Min(concurrency, n))
  }

  function Initial<R>(n: nat, concurrency: int): Pool<R> {
    Pool(0, seq(LaneCount(n, concurrency), _ => Ready), seq(n, _ => None), [], map[])
  }

  function Step<R>(p: Pool<R>, e: Event<R>): Pool<R> {
    if e.lane >= |p.lanes| then p
    else
      match e
      case Claim(k) =>
        if p.lanes[k] != Ready then p
        else if p.nextIndex >= |p.results| then p.(nextIndex := p.nextIndex + 1, lanes := p.lanes[k := Finished])
        else
          p.(nextIndex := p.nextIndex + 1, lanes := p.lanes[k := Busy(p.nextIndex)], calls := p.calls + [p.nextIndex])
      case Return(k, value) =>
        if !p.lanes[k].Busy? || p.lanes[k].index >= |p.results| then p
        else
          var i := p.lanes[k].index;
          p.(lanes := p.lanes[k := Ready], results := p.results[i := Some(value)], returned := p.returned[i := value])
      case Throw(k) =>
        if !p.lanes[k].Busy? then p else p.(lanes := p.lanes[k := Broken(p.lanes[k].index)])
  }

  function Run<R>(p: Pool<R>, events: seq<Event<R>>): Pool<R> {
    if |events| == 0 then p else Step(Run(p, events[..|events| - 1]), events[|events| - 1])
  }

  /** All lanes came back: `Promise.all` resolves and the results are handed out. */
  ghost predicate Resolved<R>(p: Pool<R>) {
    forall k :: 0 <= k < |p.lanes| ==> p.lanes[k] == Finished
  }

  function Claimed<R>(p: Pool<R>): nat {
    Min(p.nextIndex, |p.results|)
  }

  /** The index a lane holds and has not returned, or -1. */
  function Holds(l: Lane): int {
    match l case Busy(i) => i case Broken(i) => i case _ => -1
  }

  ghost predicate SomeLaneHolds(lanes: seq<Lane>, i: int) {
    exists k :: 0 <= k < |lanes| && Holds(lanes[k]) == i
  }

  ghost predicate LanesSound<R>(p: Pool<R>) {
    && (forall k :: 0 <= k < |p.lanes| ==> Holds(p.lanes[k]) < Claimed(p) && Holds(p.lanes[k]) !in p.returned)
    && (forall i :: 0 <= i < Claimed(p) && i !in p.returned ==> SomeLaneHolds(p.lanes, i))
    && (forall j, k :: 0 <= j < k < |p.lanes| && Holds(p.lanes[j]) != -1 ==> Holds(p.lanes[j]) != Holds(p.lanes[k]))
    && (forall k :: 0 <= k < |p.lanes| && p.lanes[k] == Finished ==> p.nextIndex >= |p.results|)
  }

  ghost predicate HistorySound<R>(p: Pool<R>) {
    && |p.calls| == Claimed(p) && (forall i :: 0 <= i < |p.calls| ==> p.calls[i] == i)
    && (forall i :: 0 <= i < |p.results| ==> p.results[i] == if i in p.returned then Some(p.returned[i]) else None)
    && (forall i | i in p.returned :: i < Claimed(p))
  }

  ghost predicate Inv<R>(p: Pool<R>) {
    HistorySound(p) && LanesSound(p)
  }

  /** Changing what a lane holds changes nothing for the other indices. */
  lemma HoldsElsewhere(lanes: seq<Lane>, k: nat, l: Lane, i: int)
    requires k < |lanes| && SomeLaneHolds(lanes, i) && Holds(lanes[k]) != i
    ensures SomeLaneHolds(lanes[k := l], i)
  {
    var j :| 0 <= j < |lanes| && Holds(lanes[j]) == i;
    assert Holds(lanes[k := l][j]) == i;
  }

  lemma ClaimKeepsInv<R>(p: Pool<R>, k: nat)
    requires Inv(p) && k < |p.lanes| && p.lanes[k] == Ready
    ensures Inv(Step(p, Claim(k)))
  {
    var q := Step(p, Claim(k));
    forall i | 0 <= i < Claimed(q) && i !in q.returned
      ensures SomeLaneHolds(q.lanes, i)
    {
      if i < Claimed(p) {
        HoldsElsewhere(p.lanes, k, q.lanes[k], i);
      } else {
        assert Holds(q.lanes[k]) == i;
      }
    }
  }

  lemma ReturnKeepsInv<R>(p: Pool<R>, k: nat, value: R)
    requires Inv(p) && k < |p.lanes| && p.lanes[k].Busy? && p.lanes[k].index < |p.results|
    ensures Inv(Step(p, Return(k, value)))
  {
    var q := Step(p, Return(k, value));
    forall i | 0 <= i < Claimed(q) && i !in q.returned
      ensures SomeLaneHolds(q.lanes, i)
    {
      HoldsElsewhere(p.lanes, k, Ready, i);
    }
  }

  lemma ThrowKeepsInv<R>(p: Pool<R>, k: nat)
    requires Inv(p) && k < |p.lanes| && p.lanes[k].Busy?
    ensures Inv(Step(p, Throw(k)))
  {
    var q := Step(p, Throw(k));
    forall i | 0 <= i < Claimed(q) && i !in q.returned
      ensures SomeLaneHolds(q.lanes, i)
    {
      var j :| 0 <= j < |p.lanes| && Holds(p.lanes[j]) == i;
      assert Holds(q.lanes[j]) == i;
    }
  }

  lemma {:induction false} RunKeepsInv<R>(p: Pool<R>, events: seq<Event<R>>)
    requires Inv(p)
    ensures Inv(Run(p, events)) && |Run(p, events).lanes| == |p.lanes| && |Run(p, events).results| == |p.results|
  {
    if |events| > 0 {
      RunKeepsInv(p, events[..|events| - 1]);
      var q, e := Run(p, events[..|events| - 1]), events[|events| - 1];
      if Step(q, e) != q {
        match e
        case Claim(k) => ClaimKeepsInv(q, k);
        case Return(k, value) => ReturnKeepsInv(q, k, value);
        case Throw(k) => ThrowKeepsInv(q, k);
      }
    }
  }

  // ---- What a run guarantees ----

  /** The calls that have neither returned nor thrown. */
  ghost function InFlight<R>(p: Pool<R>): set<nat> {
    set k | 0 <= k < |p.lanes| && p.lanes[k].Busy? :: p.lanes[k].index
  }

  lemma {:induction false} FewBusy(lanes: seq<Lane>)
    ensures |set k | 0 <= k < |lanes| && lanes[k].Busy? :: lanes[k].index| <= |lanes|
  {
    if |lanes| > 0 {
      var init := lanes[..|lanes| - 1];
      FewBusy(init);
      var all := set k | 0 <= k < |lanes| && lanes[k].Busy? :: lanes[k].index;
      var some := set k | 0 <= k < |init| && init[k].Busy? :: init[k].index;
      var last := lanes[|lanes| - 1];
      assert all == if last.Busy? then some + {last.index} else some;
    }
  }

  /**
   In every state of every run: the worker was called for the first indices in order, each once; at most
   as many calls as there are lanes are in flight; and what a call returned is in its own slot.
   */
  lemma EveryRun<R>(n: nat, concurrency: int, events: seq<Event<R>>)
    ensures var p := Run(Initial(n, concurrency), events);
            && |p.calls| <= n && (forall i :: 0 <= i < |p.calls| ==> p.calls[i] == i)
            && |InFlight(p)| <= Max(1, Min(concurrency, n))
            && |p.results| == n
            && (forall i :: 0 <= i < n ==> p.results[i] == if i in p.returned then Some(p.returned[i]) else None)
  {
    RunKeepsInv(Initial(n, concurrency), events);
    FewBusy(Run(Initial(n, concurrency), events).lanes);
  }

  /** When the run resolves, every item was worked on exactly once and has its own result. */
  lemma ResolvedHasAllResults<R>(n: nat, concurrency: int, events: seq<Event<R>>)
    requires Resolved(Run(Initial<R>(n, concurrency), events))
    ensures var p := Run(Initial<R>(n, concurrency), events);
            && p.calls == seq(n, i => i) && |p.results| == n
            && forall i :: 0 <= i < n ==> i in p.returned && p.results[i] == Some(p.returned[i])
  {
    RunKeepsInv(Initial<R>(n, concurrency), events);
    var p := Run(Initial<R>(n, concurrency), events);
    assert p.lanes[0] == Finished;
    forall i | 0 <= i < n
      ensures !SomeLaneHolds(p.lanes, i)
    {
    }
  }

  // ---- Termination ----

  function Weight(l: Lane): nat {
    match l case Ready => 1 case Busy(_) => 2 case _ => 0
  }

  function Weights(lanes: seq<Lane>): nat {
    if |lanes| == 0 then 0 else Weights(lanes[..|lanes| - 1]) + Weight(lanes[|lanes| - 1])
  }

  lemma {:induction false} WeightsUpdate(lanes: seq<Lane>, k: nat, l: Lane)
    requires k < |lanes|
    ensures Weights(lanes[k := l]) == Weights(lanes) - Weight(lanes[k]) + Weight(l)
  {
    var n := |lanes| - 1;
    if k == n {
      assert lanes[k := l][..n] == lanes[..n];
    } else {
      assert lanes[k := l][..n] == lanes[..n][k := l];
      WeightsUpdate(lanes[..n], k, l);
    }
  }

  function Rank<R>(p: Pool<R>): nat {
    2 * (|p.results| - Claimed(p)) + Weights(p.lanes)
  }

  /** Every event that does something brings the run closer to its end. */
  lemma StepDecreasesRank<R>(p: Pool<R>, e: Event<R>)
    requires Inv(p) && Step(p, e) != p
    ensures Rank(Step(p, e)) < Rank(p)
  {
    match e
    case Claim(k) =>
      WeightsUpdate(p.lanes, k, Finished);
      WeightsUpdate(p.lanes, k, Busy(p.nextIndex));
    case Return(k, _) => WeightsUpdate(p.lanes, k, Ready);
    case Throw(k) => WeightsUpdate(p.lanes, k, Broken(p.lanes[k].index));
  }

  /** A run that is not over can go on: no lane waits for another. */
  lemma NeverStuck<R>(p: Pool<R>, k: nat, value: R)
    requires Inv(p) && k < |p.lanes| && (p.lanes[k].Ready? || p.lanes[k].Busy?)
    ensures Step(p, Claim(k)) != p || Step(p, Return(k, value)) != p
  {
    assert Holds(p.lanes[k]) < Claimed(p);
    assert p.lanes[k].Ready? ==> Step(p, Claim(k)).lanes[k] != Ready;
    assert p.lanes[k].Busy? ==> Step(p, Return(k, value)).lanes[k] == Ready;
  }

  /** Each of the first `m` lanes claims once. */
  function Claims<R>(m: nat): seq<Event<R>> {
    seq(m, k requires 0 <= k < m => Claim(k))
  }

  /** All lanes are put to work: as many calls run at once as were asked for, each on its own index. */
  lemma {:induction false} AllLanesWork<R>(n: nat, concurrency: nat, m: nat)
    requires 1 <= concurrency <= n && m <= concurrency
    ensures var p := Run<R>(Initial(n, concurrency), Claims(m));
            && |p.lanes| == concurrency && |p.results| == n && p.nextIndex == m
            && forall k :: 0 <= k < concurrency ==> p.lanes[k] == if k < m then Busy(k) else Ready
  {
    if m > 0 {
      AllLanesWork<R>(n, concurrency, m - 1);
      assert Claims<R>(m)[..m - 1] == Claims<R>(m - 1);
    }
  }

  // ---- Retries ----

  const FIRST_DELAY := 500
  const MAX_DELAY := 10_000

  function Power2(k: nat): nat {
    if k == 0 then 1 else 2 * Power2(k - 1)
  }

  /** The waiting time after the failure of attempt `k`: exponential, with a cap. */
  function Delay(k: nat): nat {
    Min(FIRST_DELAY * Power2(k), MAX_DELAY)
  }

  function Delays(n: nat): seq<nat> {
    seq(n, k requires 0 <= k < n => Delay(k))
  }

  /** Doubling with a cap never leaves the capped doubling. */
  lemma NextDelay(k: nat)
    ensures Min(Delay(k) * 2, MAX_DELAY) == Delay(k + 1)
  {
    assert Power2(k + 1) == 2 * Power2(k);
  }

  /** `attempts` tells what the call would do each time: `None` is an exception. */
  method WithRetry<R>(maxRetries: nat, attempts: nat -> Option<R>) returns (result: Option<R>, delays: seq<nat>)
    ensures |delays| <= maxRetries && delays == Delays(|delays|)
    ensures forall j :: 0 <= j < |delays| ==> attempts(j) == None
    ensures result == attempts(|delays|)
    ensures result == None ==> |delays| == maxRetries
  {
    delays := [];
    var delay := FIRST_DELAY;
    assert Power2(0) == 1;
    while true
      invariant |delays| <= maxRetries && delay == Delay(|delays|) && delays == Delays(|delays|)
      invariant forall j :: 0 <= j < |delays| ==> attempts(j) == None
      decreases maxRetries - |delays|
    {
      result := attempts(|delays|);
      if result.Some? || |delays| + 1 > maxRetries {
        return;
      }
      NextDelay(|delays|);
      assert Delays(|delays| + 1) == Delays(|delays|) + [delay];
      delays := delays + [delay];
      delay := Min(delay * 2, MAX_DELAY);
    }
  }
}
