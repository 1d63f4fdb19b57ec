/**
 The predecessor-linked timelock chain and the timelock that executes it. The timelock contract is
 OpenZeppelin's TimelockController; its source is not in the repository, so its rules here are an
 assumption: an operation runs once, when its delay has passed and its predecessor has run.
 */
module Timelock {
  import opened Collections
  import opened Diamond
  import opened CutPlanner

  /** A FacetCut as it is encoded: the action is any `uint8`. */
  datatype RawCut = RawCut(facet: Address, action: nat, selectors: seq<Selector>)

  /** Calldata addressed to the diamond, by what it decodes to. */
  datatype Calldata = CutCall(cuts: seq<RawCut>, init: Address, initData: seq<nat>) | OtherCall(bytes: seq<nat>)

  /** A 32-byte word. Keccak is taken to be injective, so a hash is what was hashed. */
  datatype Word =
    | ZeroWord
    | SaltHash(chainId: int, diamond: Address, index: nat)
    | OpHash(target: Address, value: nat, data: Calldata, predecessor: Word, salt: Word)
    | OtherWord(bits: nat)

  function ActionCode(a: Action): nat {
    match a
    case Add => 0
    case Replace => 1
    case Remove => 2
  }

  function EncodeCut(c: FacetCut): RawCut {
    RawCut(c.facet, ActionCode(c.action), c.selectors)
  }

  function EncodeCuts(cuts: seq<FacetCut>): seq<RawCut> {
    seq(|cuts|, i requires 0 <= i < |cuts| => EncodeCut(cuts[i]))
  }

  /** The calldata of one chunk: a `diamondCut` call with no initializer. */
  function ChunkCalldata(cuts: seq<FacetCut>): Calldata {
    CutCall(EncodeCuts(cuts), ZERO_ADDRESS, [])
  }

  // ---- The chain ----

  /** Chunk `i`'s operation id: its own salt, and the previous chunk's operation as predecessor. */
  function ChainId(chainId: int, diamond: Address, data: seq<Calldata>, i: nat): Word
    requires i < |data|
    decreases i, 1
  {
    OpHash(diamond, 0, data[i], Predecessor(chainId, diamond, data, i), SaltHash(chainId, diamond, i))
  }

  function Predecessor(chainId: int, diamond: Address, data: seq<Calldata>, i: nat): Word
    requires i <= |data|
    decreases i, 0
  {
    if i == 0 then ZeroWord else ChainId(chainId, diamond, data, i - 1)
  }

  // ---- The timelock ----

  datatype Config = Config(env: Env, chainId: int, minDelay: nat, chunks: seq<seq<FacetCut>>) {
    function Data(): seq<Calldata> {
      seq(|chunks|, i requires 0 <= i < |chunks| => ChunkCalldata(chunks[i]))
    }

    /** The operation of chunk `i`. */
    function Op(i: nat): Word
      requires i < |chunks|
    {
      ChainId(chainId, env.self, Data(), i)
    }

    ghost predicate InChain(op: Word) {
      exists i :: 0 <= i < |chunks| && Op(i) == op
    }
  }

  datatype State = State(ready: map<Word, nat>, done: set<Word>, now: nat, table: Table)

  datatype Event = Tick(seconds: nat) | Schedule(op: Word, delay: nat) | Execute(op: Word) | Cancel(op: Word)

  function DecodeCuts(cuts: seq<RawCut>): seq<FacetCut> {
    seq(|cuts|, i requires 0 <= i < |cuts| =>
      FacetCut(cuts[i].facet, DecodeAction(cuts[i].action), cuts[i].selectors))
  }

  function DecodeAction(code: nat): Action {
    if code == 0 then Add else if code == 1 then Replace else Remove
  }

  lemma DecodeEncode(cuts: seq<FacetCut>)
    ensures DecodeCuts(EncodeCuts(cuts)) == cuts
    ensures forall i :: 0 <= i < |cuts| ==> EncodeCuts(cuts)[i].action <= 2
  {
    forall i | 0 <= i < |cuts|
      ensures DecodeCuts(EncodeCuts(cuts))[i] == cuts[i]
    {
      assert EncodeCuts(cuts)[i] == EncodeCut(cuts[i]);
    }
  }

  /** What the diamond does with a call: a cut without initializer runs, anything else is taken to revert. */
  function CallDiamond(cfg: Config, t: Table, data: Calldata): Option<Table> {
    if data.CutCall? && data.init == ZERO_ADDRESS && data.initData == []
       && forall i :: 0 <= i < |data.cuts| ==> data.cuts[i].action <= 2
    then ApplyCuts(cfg.env, t, DecodeCuts(data.cuts))
    else None
  }

  ghost predicate PredecessorDone(s: State, op: Word)
    requires op.OpHash?
  {
    op.predecessor == ZeroWord || op.predecessor in s.done
  }

  /**
   One transaction to the timelock, or time passing. A transaction that is not allowed reverts and
   changes nothing. Operations on any target may be scheduled.
   */
  ghost function Step(cfg: Config, s: State, e: Event): State {
    match e
    case Tick(d) => s.(now := s.now + d)
    case Schedule(op, delay) =>
      if op.OpHash? && op !in s.ready && op !in s.done && cfg.minDelay <= delay
      then s.(ready := s.ready[op := s.now + delay]) else s
    case Cancel(op) => if op in s.ready then s.(ready := s.ready - {op}) else s
    case Execute(op) =>
      if op.OpHash? && op in s.ready && s.ready[op] <= s.now && PredecessorDone(s, op) then
        if op.target != cfg.env.self then s.(ready := s.ready - {op}, done := s.done + {op})
        else
          match CallDiamond(cfg, s.table, op.data)
          case None => s
          case Some(t) => s.(ready := s.ready - {op}, done := s.done + {op}, table := t)
      else s
  }

  ghost function Run(cfg: Config, s: State, events: seq<Event>): State {
    if |events| == 0 then s else Step(cfg, Run(cfg, s, events[..|events| - 1]), events[|events| - 1])
  }

  function Initial(t: Table): State {
    State(map[], {}, 0, t)
  }

  /** The executed chunks are the first `k`. */
  ghost predicate DonePrefix(cfg: Config, s: State, k: nat) {
    && k <= |cfg.chunks|
    && (forall i :: 0 <= i < |cfg.chunks| ==> (cfg.Op(i) in s.done <==> i < k))
    && s.ready.Keys !! s.done
  }

  /** On the diamond, an event proposes nothing but the generated operations: an assumption about the signers. */
  ghost predicate Generated(cfg: Config, e: Event) {
    e.Schedule? && e.op.OpHash? && e.op.target == cfg.env.self ==> cfg.InChain(e.op)
  }

  ghost predicate OnlyGenerated(cfg: Config, events: seq<Event>) {
    forall e | e in events :: Generated(cfg, e)
  }

  /** Besides, the diamond is what those chunks made of it, and only chunks are waiting for it. */
  ghost predicate PrefixExecuted(cfg: Config, t0: Table, s: State, k: nat) {
    && DonePrefix(cfg, s, k)
    && ApplyChunks(cfg.env, t0, cfg.chunks[..k]) == Some(s.table)
    && (forall op :: op in s.ready && op.OpHash? && op.target == cfg.env.self ==> cfg.InChain(op))
  }

  /** The order needs no assumption: the predecessor links alone enforce it, whatever else is proposed. */
  lemma StepKeepsOrder(cfg: Config, s: State, e: Event, k: nat) returns (k': nat)
    requires DonePrefix(cfg, s, k)
    ensures k' == if e.Execute? && cfg.InChain(e.op) && Step(cfg, s, e) != s then k + 1 else k
    ensures DonePrefix(cfg, Step(cfg, s, e), k')
  {
    k' := k;
    var s' := Step(cfg, s, e);
    if e.Execute? && s' != s {
      if cfg.InChain(e.op) {
        var i :| 0 <= i < |cfg.chunks| && cfg.Op(i) == e.op;
        k' := ChunkDone(cfg, s, i, k);
      } else {
        forall j | 0 <= j < |cfg.chunks|
          ensures cfg.Op(j) in s'.done <==> j < k
        {
          assert cfg.InChain(cfg.Op(j));
        }
      }
    }
  }

  lemma StepKeepsPrefix(cfg: Config, t0: Table, s: State, e: Event, k: nat) returns (k': nat)
    requires PrefixExecuted(cfg, t0, s, k) && Generated(cfg, e)
    ensures k <= k' <= k + 1
    ensures PrefixExecuted(cfg, t0, Step(cfg, s, e), k')
  {
    if e.Execute? && cfg.InChain(e.op) && Step(cfg, s, e) != s {
      var i :| 0 <= i < |cfg.chunks| && cfg.Op(i) == e.op;
      NextToExecute(cfg, s, i, k);
      OneMoreChunk(cfg.env, t0, cfg.chunks, k);
      k' := ChunkDone(cfg, s, i, k);
    } else {
      k' := StepKeepsOrder(cfg, s, e, k);
    }
  }

  /** Every chunk has its own operation, since its salt hashes its index. */
  lemma OpsDistinct(cfg: Config, i: nat)
    requires i < |cfg.chunks|
    ensures forall j :: 0 <= j < |cfg.chunks| && cfg.Op(j) == cfg.Op(i) ==> j == i
  {
    assert forall j :: 0 <= j < |cfg.chunks| ==> cfg.Op(j).salt == SaltHash(cfg.chainId, cfg.env.self, j);
  }

  /** Calling the diamond with a chunk's operation applies that chunk. */
  lemma CallAppliesChunk(cfg: Config, t: Table, i: nat)
    requires i < |cfg.chunks|
    ensures CallDiamond(cfg, t, cfg.Op(i).data) == ApplyCuts(cfg.env, t, cfg.chunks[i])
  {
    DecodeEncode(cfg.chunks[i]);
    assert cfg.Op(i).data == ChunkCalldata(cfg.chunks[i]);
  }

  lemma OneMoreChunk(env: Env, t: Table, chunks: seq<seq<FacetCut>>, k: nat)
    requires k < |chunks|
    ensures ApplyChunks(env, t, chunks[..k + 1]) ==
            match ApplyChunks(env, t, chunks[..k])
            case None => None
            case Some(t') => ApplyCuts(env, t', chunks[k])
  {
    assert chunks[..k + 1] == chunks[..k] + [chunks[k]];
    ApplyChunksSnoc(env, t, chunks[..k], chunks[k]);
  }

  lemma PredecessorIsPrevious(cfg: Config, i: nat)
    requires 0 < i < |cfg.chunks|
    ensures cfg.Op(i).predecessor == cfg.Op(i - 1) != ZeroWord
  {
    var data := cfg.Data();
    assert cfg.Op(i).predecessor == Predecessor(cfg.chainId, cfg.env.self, data, i);
    assert cfg.Op(i - 1) == ChainId(cfg.chainId, cfg.env.self, data, i - 1);
  }

  /** Only the next chunk of the chain can execute, and it applies its cuts. */
  lemma NextToExecute(cfg: Config, s: State, i: nat, k: nat)
    requires DonePrefix(cfg, s, k) && i < |cfg.chunks|
    requires Step(cfg, s, Execute(cfg.Op(i))) != s
    ensures i == k
    ensures var t := ApplyCuts(cfg.env, s.table, cfg.chunks[i]);
            && t.Some?
            && Step(cfg, s, Execute(cfg.Op(i))) ==
               s.(ready := s.ready - {cfg.Op(i)}, done := s.done + {cfg.Op(i)}, table := t.value)
  {
    if i > 0 {
      PredecessorIsPrevious(cfg, i);
    }
    CallAppliesChunk(cfg, s.table, i);
  }

  lemma ChunkDone(cfg: Config, s: State, i: nat, k: nat) returns (k': nat)
    requires DonePrefix(cfg, s, k) && i < |cfg.chunks|
    requires Step(cfg, s, Execute(cfg.Op(i))) != s
    ensures k' == k + 1
    ensures DonePrefix(cfg, Step(cfg, s, Execute(cfg.Op(i))), k')
  {
    NextToExecute(cfg, s, i, k);
    k' := k + 1;
    OpsDistinct(cfg, i);
    var s' := Step(cfg, s, Execute(cfg.Op(i)));
    forall j | 0 <= j < |cfg.chunks|
      ensures cfg.Op(j) in s'.done <==> j < k'
    {
    }
  }

  /** Order over every run: whatever is proposed for whatever target, the executed chunks are a prefix of the chain. */
  lemma {:induction false} ChunksExecuteInOrder(cfg: Config, t0: Table, events: seq<Event>) returns (k: nat)
    ensures DonePrefix(cfg, Run(cfg, Initial(t0), events), k)
    decreases |events|
  {
    if |events| == 0 {
      k := 0;
    } else {
      k := ChunksExecuteInOrder(cfg, t0, events[..|events| - 1]);
      k := StepKeepsOrder(cfg, Run(cfg, Initial(t0), events[..|events| - 1]), events[|events| - 1], k);
    }
  }

  /**
   Safety over every run that proposes nothing else for the diamond: the diamond is always exactly the
   executed chunks applied, whatever is scheduled, cancelled or executed in whatever order.
   */
  lemma {:induction false} ExecutedChunksArePrefix(cfg: Config, t0: Table, events: seq<Event>) returns (k: nat)
    requires OnlyGenerated(cfg, events)
    ensures PrefixExecuted(cfg, t0, Run(cfg, Initial(t0), events), k)
    decreases |events|
  {
    if |events| == 0 {
      k := 0;
    } else {
      k := ExecutedChunksArePrefix(cfg, t0, events[..|events| - 1]);
      k := StepKeepsPrefix(cfg, t0, Run(cfg, Initial(t0), events[..|events| - 1]), events[|events| - 1], k);
    }
  }

  /** The table does need the assumption: any other proposal that changes the diamond breaks it, the order aside. */
  lemma OtherProposalBreaksTable(cfg: Config, t0: Table, op: Word, k: nat)
    requires op.OpHash? && op.target == cfg.env.self && op.predecessor == ZeroWord && !cfg.InChain(op)
    requires CallDiamond(cfg, t0, op.data).Some? && CallDiamond(cfg, t0, op.data).value != t0
    ensures var s := Run(cfg, Initial(t0), [Schedule(op, cfg.minDelay), Tick(cfg.minDelay), Execute(op)]);
            !PrefixExecuted(cfg, t0, s, k)
  {
    var events := [Schedule(op, cfg.minDelay), Tick(cfg.minDelay), Execute(op)];
    var s1 := Step(cfg, Initial(t0), events[0]);
    var s2 := Step(cfg, s1, events[1]);
    assert events[..2][..1] == events[..1] && events[..1][..0] == events[..0] == [];
    assert Run(cfg, Initial(t0), events[..1]) == s1;
    assert Run(cfg, Initial(t0), events[..2]) == s2;
    assert Run(cfg, Initial(t0), events) == Step(cfg, s2, events[2]);
    assert s2.ready == map[op := cfg.minDelay] && s2.now == cfg.minDelay;
    assert cfg.chunks[..0] == [];
    assert |cfg.chunks| > 0 ==> cfg.InChain(cfg.Op(0));
  }

  /** A run that executes the last operation of a planned upgrade has reached the planned table. */
  lemma CompletedRunReachesPlan(cfg: Config, t0: Table, next: Table, cuts: seq<FacetCut>, size: nat, events: seq<Event>)
    requires IsPlan(cuts, t0, next) && |t0| <= MAX_SELECTORS && size > 0 && cuts != []
    requires cfg.chunks == Chunks(cuts, size) && OnlyGenerated(cfg, events)
    ensures |cfg.chunks| > 0
    ensures cfg.Op(|cfg.chunks| - 1) in Run(cfg, Initial(t0), events).done ==>
              Upgradable(cfg.env, t0, next) && Run(cfg, Initial(t0), events).table == Expected(t0, next)
    ensures DIAMOND_CUT in t0 ==> DIAMOND_CUT in Run(cfg, Initial(t0), events).table
  {
    var k := ExecutedChunksArePrefix(cfg, t0, events);
    ChunkedPlanOutcome(cfg.env, cuts, t0, next, size);
    IntermediateState(cfg.env, cuts, t0, next, size, k);
    if k == |cfg.chunks| {
      assert cfg.chunks[..k] == cfg.chunks;
    }
  }

  // ---- Nothing executes early ----

  ghost function StateAt(cfg: Config, t0: Table, events: seq<Event>, k: nat): State
    requires k <= |events|
  {
    Run(cfg, Initial(t0), events[..k])
  }

  lemma StatesBefore(cfg: Config, t0: Table, events: seq<Event>)
    requires |events| > 0
    ensures var init := events[..|events| - 1];
            forall k | 0 <= k <= |init| :: StateAt(cfg, t0, init, k) == StateAt(cfg, t0, events, k)
  {
    var init := events[..|events| - 1];
    forall k | 0 <= k <= |init|
      ensures init[..k] == events[..k]
    {
    }
  }

  /** Event `j` proposes the operation, with at least the minimal delay, and nobody cancels it before event `k`. */
  ghost predicate ProposedAt(cfg: Config, events: seq<Event>, op: Word, j: nat, k: nat)
    requires j < k <= |events|
  {
    && events[j].Schedule? && events[j].op == op && cfg.minDelay <= events[j].delay
    && forall i | j < i < k :: events[i] != Cancel(op)
  }

  /** What waits was proposed, and becomes ready its delay after that. */
  lemma {:induction false} WaitingWasProposed(cfg: Config, t0: Table, events: seq<Event>, op: Word) returns (j: nat)
    requires op in Run(cfg, Initial(t0), events).ready
    ensures j < |events| && ProposedAt(cfg, events, op, j, |events|)
    ensures Run(cfg, Initial(t0), events).ready[op] == StateAt(cfg, t0, events, j).now + events[j].delay
    decreases |events|
  {
    var n := |events| - 1;
    StatesBefore(cfg, t0, events);
    var before := Run(cfg, Initial(t0), events[..n]);
    if op in before.ready {
      j := WaitingWasProposed(cfg, t0, events[..n], op);
    } else {
      j := n;
    }
  }

  /** Over every run: what is done was proposed, waited out its delay uncancelled and came after its predecessor. */
  lemma {:induction false} ExecutedAfterDelay(cfg: Config, t0: Table, events: seq<Event>, op: Word)
      returns (j: nat, k: nat)
    requires op in Run(cfg, Initial(t0), events).done
    ensures j < k < |events| && events[k] == Execute(op) && ProposedAt(cfg, events, op, j, k)
    ensures StateAt(cfg, t0, events, k).now >= StateAt(cfg, t0, events, j).now + events[j].delay
    ensures op.OpHash? && PredecessorDone(StateAt(cfg, t0, events, k), op)
    decreases |events|
  {
    var n := |events| - 1;
    StatesBefore(cfg, t0, events);
    if op in Run(cfg, Initial(t0), events[..n]).done {
      j, k := ExecutedAfterDelay(cfg, t0, events[..n], op);
    } else {
      k := n;
      j := WaitingWasProposed(cfg, t0, events[..n], op);
    }
  }

  // ---- The chain can be executed ----

  function ScheduleAll(cfg: Config, n: nat): seq<Event>
    requires n <= |cfg.chunks|
  {
    if n == 0 then [] else ScheduleAll(cfg, n - 1) + [Schedule(cfg.Op(n - 1), cfg.minDelay)]
  }

  function ExecuteAll(cfg: Config, n: nat): seq<Event>
    requires n <= |cfg.chunks|
  {
    if n == 0 then [] else ExecuteAll(cfg, n - 1) + [Execute(cfg.Op(n - 1))]
  }

  lemma {:induction false} ScheduledRun(cfg: Config, t0: Table, n: nat)
    requires n <= |cfg.chunks|
    ensures var s := Run(cfg, Initial(t0), ScheduleAll(cfg, n));
            && s.done == {} && s.now == 0 && s.table == t0
            && (forall i :: 0 <= i < n ==> cfg.Op(i) in s.ready && s.ready[cfg.Op(i)] == cfg.minDelay)
            && (forall i :: n <= i < |cfg.chunks| ==> cfg.Op(i) !in s.ready)
    decreases n
  {
    if n > 0 {
      ScheduledRun(cfg, t0, n - 1);
      var es := ScheduleAll(cfg, n);
      assert es[..|es| - 1] == ScheduleAll(cfg, n - 1);
      OpsDistinct(cfg, n - 1);
    }
  }

  lemma {:induction false} RunConcat(cfg: Config, s: State, a: seq<Event>, b: seq<Event>)
    ensures Run(cfg, s, a + b) == Run(cfg, Run(cfg, s, a), b)
    decreases |b|
  {
    if |b| == 0 {
      assert a + b == a;
    } else {
      assert (a + b)[..|a + b| - 1] == a + b[..|b| - 1];
      RunConcat(cfg, s, a, b[..|b| - 1]);
    }
  }

  /** All operations scheduled, and the delay over. */
  ghost function Scheduled(cfg: Config, t0: Table): State {
    Run(cfg, Initial(t0), ScheduleAll(cfg, |cfg.chunks|) + [Tick(cfg.minDelay)])
  }

  ghost predicate ReadyFrom(cfg: Config, s: State, n: nat) {
    && s.now == cfg.minDelay
    && (forall i :: 0 <= i < |cfg.chunks| ==> (cfg.Op(i) in s.done <==> i < n))
    && (forall i :: n <= i < |cfg.chunks| ==> cfg.Op(i) in s.ready && s.ready[cfg.Op(i)] == cfg.minDelay)
  }

  lemma ExecuteNext(cfg: Config, s: State, n: nat)
    requires n < |cfg.chunks| && ReadyFrom(cfg, s, n)
    requires ApplyCuts(cfg.env, s.table, cfg.chunks[n]).Some?
    ensures ReadyFrom(cfg, Step(cfg, s, Execute(cfg.Op(n))), n + 1)
    ensures Some(Step(cfg, s, Execute(cfg.Op(n))).table) == ApplyCuts(cfg.env, s.table, cfg.chunks[n])
  {
    CallAppliesChunk(cfg, s.table, n);
    OpsDistinct(cfg, n);
    if n > 0 {
      PredecessorIsPrevious(cfg, n);
    }
  }

  lemma {:induction false} ExecutedRun(cfg: Config, t0: Table, n: nat)
    requires n <= |cfg.chunks|
    requires forall m :: 0 <= m <= n ==> ApplyChunks(cfg.env, t0, cfg.chunks[..m]).Some?
    ensures ReadyFrom(cfg, Run(cfg, Scheduled(cfg, t0), ExecuteAll(cfg, n)), n)
    ensures Some(Run(cfg, Scheduled(cfg, t0), ExecuteAll(cfg, n)).table) == ApplyChunks(cfg.env, t0, cfg.chunks[..n])
    decreases n
  {
    if n == 0 {
      var es := ScheduleAll(cfg, |cfg.chunks|) + [Tick(cfg.minDelay)];
      assert es[..|es| - 1] == ScheduleAll(cfg, |cfg.chunks|);
      ScheduledRun(cfg, t0, |cfg.chunks|);
    } else {
      ExecutedRun(cfg, t0, n - 1);
      ExecutedOneMore(cfg, Scheduled(cfg, t0), n);
      OneMoreChunk(cfg.env, t0, cfg.chunks, n - 1);
      ExecuteNext(cfg, Run(cfg, Scheduled(cfg, t0), ExecuteAll(cfg, n - 1)), n - 1);
    }
  }

  lemma ExecutedOneMore(cfg: Config, s: State, n: nat)
    requires 0 < n <= |cfg.chunks|
    ensures Run(cfg, s, ExecuteAll(cfg, n)) == Step(cfg, Run(cfg, s, ExecuteAll(cfg, n - 1)), Execute(cfg.Op(n - 1)))
  {
    var es := ExecuteAll(cfg, n);
    assert es[..|es| - 1] == ExecuteAll(cfg, n - 1);
  }

  lemma {:induction false} PrefixOfSuccess(env: Env, t: Table, chunks: seq<seq<FacetCut>>, m: nat)
    requires ApplyChunks(env, t, chunks).Some? && m <= |chunks|
    ensures ApplyChunks(env, t, chunks[..m]).Some?
    decreases |chunks| - m
  {
    if m < |chunks| {
      PrefixOfSuccess(env, t, chunks, m + 1);
      assert chunks[..m + 1] == chunks[..m] + [chunks[m]];
      ApplyChunksSnoc(env, t, chunks[..m], chunks[m]);
    } else {
      assert chunks[..m] == chunks;
    }
  }

  /** The documented workflow - schedule all, wait, execute in order - completes every possible upgrade. */
  lemma WorkflowCompletes(cfg: Config, t0: Table, next: Table, cuts: seq<FacetCut>, size: nat)
    requires IsPlan(cuts, t0, next) && |t0| <= MAX_SELECTORS && size > 0
    requires cfg.chunks == Chunks(cuts, size) && Upgradable(cfg.env, t0, next)
    ensures Run(cfg, Initial(t0),
                ScheduleAll(cfg, |cfg.chunks|) + [Tick(cfg.minDelay)] + ExecuteAll(cfg, |cfg.chunks|)).table
            == Expected(t0, next)
  {
    ChunkedPlanOutcome(cfg.env, cuts, t0, next, size);
    forall m | 0 <= m <= |cfg.chunks|
      ensures ApplyChunks(cfg.env, t0, cfg.chunks[..m]).Some?
    {
      PrefixOfSuccess(cfg.env, t0, cfg.chunks, m);
    }
    ExecutedRun(cfg, t0, |cfg.chunks|);
    assert cfg.chunks[..|cfg.chunks|] == cfg.chunks;
    RunConcat(cfg, Initial(t0), ScheduleAll(cfg, |cfg.chunks|) + [Tick(cfg.minDelay)], ExecuteAll(cfg, |cfg.chunks|));
  }
}
