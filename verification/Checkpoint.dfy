/** Checkpointed deployment steps: what crashes and restarts can and cannot repeat. */
module Checkpoint {
  import opened Collections

  /** Keys and items are only ever compared, so numbers stand for them. */
  type Name = nat

  /** A progress entry: a finished step, or the finished items of a batch. */
  datatype Entry = True | Items(items: seq<Name>)

  type Progress = map<Name, Entry>

  /** The smallest unit of work: a step, or one item of a batch. */
  datatype Act = StepAct(key: Name) | ItemAct(key: Name, item: Name)

  datatype Op = Single(key: Name) | Batch(key: Name, items: seq<Name>)

  function ActsOf(op: Op): seq<Act> {
    match op
    case Single(key) => [StepAct(key)]
    case Batch(key, items) => ItemActs(key, items)
  }

  function Acts(script: seq<Op>): seq<Act> {
    if |script| == 0 then [] else Acts(script[..|script| - 1]) + ActsOf(script[|script| - 1])
  }

  /** `isCompleted` and `isInProgressArray`. */
  predicate Recorded(p: Progress, a: Act) {
    match a
    case StepAct(key) => key in p && p[key] == True
    case ItemAct(key, item) => key in p && p[key].Items? && item in p[key].items
  }

  /** `markCompleted` and `addToProgressArray`. */
  function Record(p: Progress, a: Act): Progress {
    match a
    case StepAct(key) => p[key := True]
    case ItemAct(key, item) => p[key := Items((if key in p && p[key].Items? then p[key].items else []) + [item])]
  }

  /** Not a step and a batch under one key: recording one of those changes what is recorded of the other. */
  predicate SameKind(a: Act, b: Act) {
    a.key == b.key ==> a.StepAct? == b.StepAct?
  }

  /** Every key belongs to a step or to a batch. */
  ghost predicate KindsSplit(acts: seq<Act>) {
    forall a, b | a in acts && b in acts :: SameKind(a, b)
  }

  /** Recording one act changes nothing for the others, unless a step and a batch share a key. */
  lemma RecordOne(p: Progress, a: Act, b: Act)
    requires SameKind(a, b)
    ensures Recorded(Record(p, a), b) <==> b == a || Recorded(p, b)
  {
  }

  // ---- What one process does ----

  /** The acts that are still to do, in order. */
  function Pending(p: Progress, acts: seq<Act>): seq<Act> {
    if |acts| == 0 then []
    else
      var last := acts[|acts| - 1];
      Pending(p, acts[..|acts| - 1]) + if Recorded(p, last) then [] else [last]
  }

  function RecordAll(p: Progress, acts: seq<Act>): Progress {
    if |acts| == 0 then p else Record(RecordAll(p, acts[..|acts| - 1]), acts[|acts| - 1])
  }

  /** What a process that starts from `p` executes of a script, if nothing stops it. */
  function Todo(p: Progress, script: seq<Op>): seq<Act> {
    if |script| == 0 then []
    else
      var before := Todo(p, script[..|script| - 1]);
      before + Pending(RecordAll(p, before), ActsOf(script[|script| - 1]))
  }

  /** The progress when it has finished. */
  function Finish(p: Progress, script: seq<Op>): Progress {
    RecordAll(p, Todo(p, script))
  }

  /** A process's work: the acts it executed, and how many of these it recorded. */
  datatype Work = Work(executed: seq<Act>, saved: nat)

  /**
   What a process may have done of what was pending when it started: it executed the first of these in
   order, recorded all it executed but perhaps the last, and ended early or had no more to do.
   */
  ghost predicate Worked(p: Progress, pending: seq<Act>, w: Work, p': Progress, finished: bool) {
    && w.executed <= pending && w.saved <= |w.executed| <= w.saved + 1
    && p' == RecordAll(p, w.executed[..w.saved])
    && (finished ==> w.executed == pending && w.saved == |w.executed|)
  }

  const NO_WORK := Work([], 0)

  lemma PendingSnoc(p: Progress, acts: seq<Act>, a: Act)
    ensures Pending(p, acts + [a]) == Pending(p, acts) + if Recorded(p, a) then [] else [a]
  {
    assert (acts + [a])[..|acts|] == acts;
  }

  lemma RecordSnoc(p: Progress, acts: seq<Act>, a: Act)
    ensures RecordAll(p, acts + [a]) == Record(RecordAll(p, acts), a)
  {
    assert (acts + [a])[..|acts|] == acts;
  }

  lemma {:induction false} PendingConcat(p: Progress, a: seq<Act>, b: seq<Act>)
    ensures Pending(p, a + b) == Pending(p, a) + Pending(p, b)
  {
    if |b| == 0 {
      assert a + b == a;
    } else {
      var init := b[..|b| - 1];
      PendingConcat(p, a, init);
      PendingSnoc(p, a + init, b[|b| - 1]);
      assert a + b == a + init + [b[|b| - 1]];
    }
  }

  lemma {:induction false} RecordConcat(p: Progress, a: seq<Act>, b: seq<Act>)
    ensures RecordAll(p, a + b) == RecordAll(RecordAll(p, a), b)
  {
    if |b| == 0 {
      assert a + b == a;
    } else {
      var init := b[..|b| - 1];
      RecordConcat(p, a, init);
      RecordSnoc(p, a + init, b[|b| - 1]);
      assert a + b == a + init + [b[|b| - 1]];
    }
  }

  lemma {:induction false} PendingMembers(p: Progress, acts: seq<Act>)
    ensures forall a :: a in Pending(p, acts) <==> a in acts && !Recorded(p, a)
    ensures Distinct(acts) ==> Distinct(Pending(p, acts))
  {
    if |acts| > 0 {
      var init, last := acts[..|acts| - 1], acts[|acts| - 1];
      PendingMembers(p, init);
      assert acts == init + [last];
      if Distinct(acts) {
        assert last !in init && Distinct(init);
      }
    }
  }

  /** What is recorded after recording some of a script's acts. */
  lemma {:induction false} RecordedAfter(p: Progress, done: seq<Act>, b: Act)
    requires forall a | a in done :: SameKind(a, b)
    ensures Recorded(RecordAll(p, done), b) <==> b in done || Recorded(p, b)
  {
    if |done| > 0 {
      var init, last := done[..|done| - 1], done[|done| - 1];
      assert done == init + [last] && last in done;
      RecordedAfter(p, init, b);
      RecordOne(RecordAll(p, init), last, b);
    }
  }

  // ---- The deployment ----

  /** What an act meets: it is done and saved, or throws with or without effect, or the process dies unsaved. */
  datatype Fate = Fine | Throws(effect: bool) | Dies

  /** The fates of all acts, in the order of execution over all processes. */
  type Fates = nat -> Fate

  /** What an act with this fate adds to the log. */
  function Effect(f: Fate, a: Act): seq<Act> {
    if f == Throws(false) then [] else [a]
  }

  /**
   What `w` is by the fates from number `at` on: a process does what is pending up to the first fate that is
   not fine, which ends it; without one it does all and finishes.
   */
  ghost predicate Fated(fates: Fates, at: nat, pending: seq<Act>, w: Work, at': nat, finished: bool) {
    && w.saved <= |pending| && AllFine(fates, at, at + w.saved)
    && (finished <==> w.saved == |pending|)
    && (finished ==> at' == at + |pending| && w.executed == pending)
    && (!finished ==>
          && at' == at + w.saved + 1 && fates(at + w.saved) != Fine
          && w.executed == pending[..w.saved] + Effect(fates(at + w.saved), pending[w.saved]))
  }

  ghost predicate AllFine(fates: Fates, first: nat, end: nat) {
    forall i | first <= i < end :: fates(i) == Fine
  }

  /** How many of the fates from number `first` up to number `end` are not fine. */
  ghost function Mishaps(fates: Fates, first: nat, end: nat): nat
    decreases end
  {
    if end <= first then 0 else Mishaps(fates, first, end - 1) + if fates(end - 1) == Fine then 0 else 1
  }

  lemma {:induction false} NoMishaps(fates: Fates, first: nat, end: nat)
    requires first <= end && AllFine(fates, first, end)
    ensures Mishaps(fates, first, end) == 0
    decreases end
  {
    if first < end {
      NoMishaps(fates, first, end - 1);
    }
  }

  lemma {:induction false} MishapsAdd(fates: Fates, a: nat, b: nat, c: nat)
    requires a <= b <= c
    ensures Mishaps(fates, a, c) == Mishaps(fates, a, b) + Mishaps(fates, b, c)
    decreases c
  {
    if b < c {
      MishapsAdd(fates, a, b, c - 1);
    }
  }

  /** A process meets one mishap when it ends early, and none when it finishes. */
  lemma FatedMishaps(fates: Fates, at: nat, pending: seq<Act>, w: Work, at': nat, finished: bool)
    requires Fated(fates, at, pending, w, at', finished)
    ensures at <= at' && Mishaps(fates, at, at') == if finished then 0 else 1
  {
    NoMishaps(fates, at, at + w.saved);
  }

  lemma OneMoreFine(fates: Fates, first: nat, end: nat)
    requires AllFine(fates, first, end) && first <= end
    ensures fates(end) == Fine ==> AllFine(fates, first, end + 1)
  {
  }

  lemma DiesAt(fates: Fates, at: nat, p: Progress, pending: seq<Act>, i: nat) returns (w: Work)
    requires i < |pending| && AllFine(fates, at, at + i) && fates(at + i) != Fine
    ensures w.executed == pending[..i] + Effect(fates(at + i), pending[i])
    ensures Worked(p, pending, w, RecordAll(p, pending[..i]), false)
    ensures Fated(fates, at, pending, w, at + i + 1, false)
  {
    var executed := pending[..i] + Effect(fates(at + i), pending[i]);
    assert executed == pending[..i] || executed == pending[..i + 1];
    assert executed[..i] == pending[..i];
    w := Work(executed, i);
  }

  lemma Completes(fates: Fates, at: nat, p: Progress, pending: seq<Act>) returns (w: Work)
    requires AllFine(fates, at, at + |pending|)
    ensures w.executed == pending == pending[..|pending|]
    ensures Worked(p, pending, w, RecordAll(p, pending), true)
    ensures Fated(fates, at, pending, w, at + |pending|, true)
  {
    assert pending[..|pending|] == pending;
    w := Work(pending, |pending|);
  }

  /** Nothing but fine fates, and then what the next operation meets. */
  lemma FatedMore(fates: Fates, at: nat, done: seq<Act>, mid: nat, next: seq<Act>, pending: seq<Act>, more: Work,
                  at': nat, alive: bool)
    requires AllFine(fates, at, mid) && mid == at + |done|
    requires done + next <= pending && Fated(fates, mid, next, more, at', alive)
    ensures alive ==> at' == at + |done + next| && AllFine(fates, at, at + |done + next|)
    ensures !alive ==> Fated(fates, at, pending, Work(done + more.executed, |done| + more.saved), at', false)
  {
    var saved := |done| + more.saved;
    if !alive {
      assert pending[saved] == next[more.saved];
      TakeOfConcat(done, next, more.saved);
      assert pending[..saved] == (done + next)[..saved];
    }
  }

  /** How far a step came: skipped, done and saved, or ended by an exception or a crash. */
  datatype Outcome = Skipped | Executed | Died

  /**
   A running process and its checkpoint file, which is written with every change of the progress.
   `log` is history: every act that took effect, over all processes.
   */
  class Deployment {
    const fates: Fates
    var attempts: nat // how many acts have met their fate
    var progress: Progress
    ghost var log: seq<Act>

    constructor (progress: Progress, fates: Fates)
      ensures this.progress == progress && log == [] && this.fates == fates && attempts == 0
    {
      this.progress := progress;
      this.fates := fates;
      attempts := 0;
      log := [];
    }

    /** An action may throw, with or without effect, and the process may die before it saves. */
    method Execute(a: Act) returns (saved: bool)
      modifies this
      ensures attempts == old(attempts) + 1
      ensures log == old(log) + Effect(fates(old(attempts)), a)
      ensures saved <==> fates(old(attempts)) == Fine
      ensures progress == if saved then Record(old(progress), a) else old(progress)
    {
      var fate := fates(attempts);
      attempts := attempts + 1;
      log := log + Effect(fate, a);
      if fate != Fine {
        return false;
      }
      progress := Record(progress, a);
      return true;
    }

    method CheckpointedStep(key: Name) returns (r: Outcome, ghost w: Work)
      modifies this
      ensures log == old(log) + w.executed
      ensures Worked(old(progress), Pending(old(progress), [StepAct(key)]), w, progress, r != Died)
      ensures Fated(fates, old(attempts), Pending(old(progress), [StepAct(key)]), w, attempts, r != Died)
      ensures r == Skipped <==> Recorded(old(progress), StepAct(key))
    {
      OnePending(progress, StepAct(key));
      if key in progress && progress[key] == True {
        return Skipped, NO_WORK;
      }
      var saved := Execute(StepAct(key));
      w := Work(Effect(fates(old(attempts)), StepAct(key)), if saved then 1 else 0);
      r := if saved then Executed else Died;
    }

    /** The items of a batch that are not recorded yet. */
    method RemainingItems(key: Name, items: seq<Name>) returns (remaining: seq<Name>)
      ensures ItemActs(key, remaining) == Pending(progress, ItemActs(key, items))
    {
      remaining := [];
      for i := 0 to |items|
        invariant ItemActs(key, remaining) == Pending(progress, ItemActs(key, items[..i]))
      {
        assert ItemActs(key, items[..i + 1]) == ItemActs(key, items[..i]) + [ItemAct(key, items[i])];
        PendingSnoc(progress, ItemActs(key, items[..i]), ItemAct(key, items[i]));
        if !(key in progress && progress[key].Items? && items[i] in progress[key].items) {
          assert ItemActs(key, remaining + [items[i]]) == ItemActs(key, remaining) + [ItemAct(key, items[i])];
          remaining := remaining + [items[i]];
        }
      }
      assert items[..|items|] == items;
    }

    method CheckpointedBatch(key: Name, items: seq<Name>) returns (r: Outcome, count: nat, ghost w: Work)
      modifies this
      ensures log == old(log) + w.executed
      ensures Worked(old(progress), Pending(old(progress), ItemActs(key, items)), w, progress, r != Died)
      ensures Fated(fates, old(attempts), Pending(old(progress), ItemActs(key, items)), w, attempts, r != Died)
      ensures r != Died ==> count == |w.executed|
    {
      var remaining := RemainingItems(key, items);
      if |remaining| == 0 {
        return Skipped, 0, NO_WORK;
      }
      var alive;
      alive, w := RunItems(key, remaining);
      return if alive then Executed else Died, |remaining|, w;
    }

    /** The batch's loop: each item is saved before the next one starts. */
    method RunItems(key: Name, remaining: seq<Name>) returns (alive: bool, ghost w: Work)
      modifies this
      ensures log == old(log) + w.executed
      ensures Worked(old(progress), ItemActs(key, remaining), w, progress, alive)
      ensures Fated(fates, old(attempts), ItemActs(key, remaining), w, attempts, alive)
    {
      ghost var p, pending, start, at := progress, ItemActs(key, remaining), log, attempts;
      ghost var done: seq<Act> := [];
      for i := 0 to |remaining|
        invariant Grown(start, done, log) && progress == RecordAll(p, done)
        invariant done == pending[..i] && attempts == at + i && AllFine(fates, at, at + i)
      {
        ghost var fate, before, a := fates(attempts), log, ItemAct(key, remaining[i]);
        OneMoreFine(fates, at, at + i);
        RecordSnoc(p, done, a);
        var saved := Execute(ItemAct(key, remaining[i]));
        GrowsOn(start, done, before, Effect(fate, a), log);
        if !saved {
          w := DiesAt(fates, at, p, pending, i);
          return false, w;
        }
        done := done + [a];
      }
      w := Completes(fates, at, p, pending);
      return true, w;
    }

    method RunOp(op: Op) returns (alive: bool, ghost w: Work)
      modifies this
      ensures log == old(log) + w.executed
      ensures Worked(old(progress), Pending(old(progress), ActsOf(op)), w, progress, alive)
      ensures Fated(fates, old(attempts), Pending(old(progress), ActsOf(op)), w, attempts, alive)
    {
      var r;
      if op.Single? {
        r, w := CheckpointedStep(op.key);
      } else {
        var count;
        r, count, w := CheckpointedBatch(op.key, op.items);
      }
      alive := r != Died;
    }

    /** Any script from any progress: what is to do is done up to the first mishap, and all of it without one. */
    method RunScript(script: seq<Op>) returns (finished: bool, ghost w: Work)
      modifies this
      ensures log == old(log) + w.executed
      ensures Worked(old(progress), Todo(old(progress), script), w, progress, finished)
      ensures Fated(fates, old(attempts), Todo(old(progress), script), w, attempts, finished)
    {
      ghost var p, done, todo, start := progress, [], Todo(progress, script), log;
      for i := 0 to |script|
        invariant Grown(start, done, log) && progress == RecordAll(p, done)
        invariant done == Todo(p, script[..i])
        invariant attempts == old(attempts) + |done| && AllFine(fates, old(attempts), attempts)
      {
        ghost var before, q, at := log, progress, attempts;
        ghost var next := NextOp(p, script, i);
        var alive;
        alive, w := RunOp(script[i]);
        GrowsOn(start, done, before, w.executed, log);
        MoreWork(p, done, q, next, todo, w, progress, alive);
        FatedMore(fates, old(attempts), done, at, next, todo, w, attempts, alive);
        if !alive {
          return false, Work(done + w.executed, |done| + w.saved);
        }
        done := done + next;
      }
      assert script[..|script|] == script && done[..|done|] == done;
      return true, Work(done, |done|);
    }

    /**
     The operator's loop: the deployment is started again until it finishes, at most `restarts` times, each
     of them ended by one mishap; so with fewer mishaps than that it finishes.
     Finishing means that everything was executed. From a checkpoint without any of the script, first
     executions keep the script's order. With every key a step's or a batch's, they do so from any checkpoint,
     and a process that ends early costs at most one repetition; and only then everything ends up recorded.
     */
    method Deploy(script: seq<Op>, restarts: nat) returns (finished: bool, ghost worked: seq<Act>)
      modifies this
      ensures log == old(log) + worked && old(attempts) <= attempts
      ensures Mishaps(fates, old(attempts), attempts) <= restarts
      ensures finished <==> Mishaps(fates, old(attempts), attempts) < restarts
      ensures finished ==> forall a | a in Acts(script) :: a in worked || Recorded(old(progress), a)
      ensures NoneRecorded(old(progress), Acts(script)) ==>
                && Firsts(worked) <= Firsts(Acts(script))
                && (finished ==> Firsts(worked) == Firsts(Acts(script)))
      ensures KindsSplit(Acts(script)) ==>
                && Firsts(worked) <= Pending(old(progress), Firsts(Acts(script)))
                && (finished ==> Firsts(worked) == Pending(old(progress), Firsts(Acts(script))))
                && |worked| <= |Todo(old(progress), script)| + restarts
      ensures finished ==> (KindsSplit(Acts(script)) <==> forall a :: a in Acts(script) ==> Recorded(progress, a))
    {
      ghost var p, start, saved := progress, log, [];
      worked := [];
      NothingSoFar(p, script);
      for n := 0 to restarts
        invariant Grown(start, worked, log) && SoFar(p, script, worked, saved, progress, n)
        invariant old(attempts) <= attempts && Mishaps(fates, old(attempts), attempts) == n
      {
        ghost var before, q, w, at := log, progress, NO_WORK, attempts;
        finished, w := RunScript(script);
        FatedMishaps(fates, at, Todo(q, script), w, attempts, finished);
        MishapsAdd(fates, old(attempts), at, attempts);
        GrowsOn(start, worked, before, w.executed, log);
        ProcessEnds(p, script, worked, saved, q, n, w, progress, finished);
        worked, saved := worked + w.executed, saved + w.executed[..w.saved];
        if finished {
          assert w.executed[..w.saved] == Todo(q, script);
          RecordedIff(q, script);
          FirstsTodo(p, script);
          return;
        }
      }
      FirstsTodo(p, script);
      return false, worked;
    }
  }

  lemma OnePending(p: Progress, a: Act)
    ensures Pending(p, [a]) == if Recorded(p, a) then [] else [a]
    ensures RecordAll(p, [a]) == Record(p, a) && RecordAll(p, [a][..0]) == p
  {
    PendingSnoc(p, [], a);
    RecordSnoc(p, [], a);
    assert [] + [a] == [a];
  }

  function ItemActs(key: Name, items: seq<Name>): seq<Act> {
    seq(|items|, i requires 0 <= i < |items| => ItemAct(key, items[i]))
  }

  /** The log is what it was at the start, and then what was done. */
  ghost predicate Grown(start: seq<Act>, done: seq<Act>, log: seq<Act>) {
    log == start + done
  }

  lemma GrowsOn(start: seq<Act>, done: seq<Act>, before: seq<Act>, more: seq<Act>, log: seq<Act>)
    requires Grown(start, done, before) && log == before + more
    ensures Grown(start, done + more, log)
  {
  }

  /** What the next operation finds pending, and how it continues what is done. */
  lemma NextOp(p: Progress, script: seq<Op>, i: nat) returns (next: seq<Act>)
    requires i < |script|
    ensures var done := Todo(p, script[..i]);
            && next == Pending(RecordAll(p, done), ActsOf(script[i]))
            && done + next == Todo(p, script[..i + 1]) && done + next <= Todo(p, script)
  {
    assert script[..i + 1][..i] == script[..i];
    next := Pending(RecordAll(p, Todo(p, script[..i])), ActsOf(script[i]));
    TodoPrefix(p, script, i + 1);
  }

  lemma {:induction false} TodoPrefix(p: Progress, script: seq<Op>, i: nat)
    requires i <= |script|
    ensures Todo(p, script[..i]) <= Todo(p, script)
  {
    if i == |script| {
      assert script[..i] == script;
    } else {
      TodoPrefix(p, script[..|script| - 1], i);
      assert script[..|script| - 1][..i] == script[..i];
    }
  }

  lemma TakeOfConcat<T>(a: seq<T>, b: seq<T>, n: nat)
    requires n <= |b|
    ensures (a + b)[..|a| + n] == a + b[..n]
  {
  }

  lemma PrefixOfConcat<T>(a: seq<T>, b: seq<T>, c: seq<T>, all: seq<T>)
    requires b <= c && a + c <= all
    ensures a + b <= all
  {
    assert b == c[..|b|];
  }

  /** The work of a script's first operations and of its next one are the script's work. */
  lemma MoreWork(p: Progress, done: seq<Act>, q: Progress, next: seq<Act>, pending: seq<Act>, more: Work, p': Progress,
                 alive: bool)
    requires q == RecordAll(p, done) && done + next <= pending && Worked(q, next, more, p', alive)
    ensures Worked(p, pending, Work(done + more.executed, |done| + more.saved), p', false)
    ensures alive ==> p' == RecordAll(p, done + next)
  {
    RecordConcat(p, done, more.executed[..more.saved]);
    TakeOfConcat(done, more.executed, more.saved);
    PrefixOfConcat(done, more.executed, next, pending);
    assert alive ==> more.executed[..more.saved] == next;
  }

  // ---- First executions ----

  /** The acts of `s` that are not in `done`. */
  function Except(s: seq<Act>, done: seq<Act>): seq<Act> {
    if |s| == 0 then []
    else Except(s[..|s| - 1], done) + if s[|s| - 1] in done then [] else [s[|s| - 1]]
  }

  lemma ExceptSnoc(s: seq<Act>, a: Act, done: seq<Act>)
    ensures Except(s + [a], done) == Except(s, done) + if a in done then [] else [a]
  {
    assert (s + [a])[..|s|] == s;
  }

  lemma {:induction false} ExceptMembers(s: seq<Act>, done: seq<Act>)
    ensures forall a :: a in Except(s, done) <==> a in s && a !in done
  {
    if |s| > 0 {
      ExceptMembers(s[..|s| - 1], done);
      ConcatSnoc([], s);
    }
  }

  /** What is first executed in two logs, one after the other. */
  lemma {:induction false} FirstsConcat(a: seq<Act>, b: seq<Act>)
    ensures Firsts(a + b) == Firsts(a) + Except(Firsts(b), a)
  {
    if |b| == 0 {
      assert a + b == a;
    } else {
      var init, last := b[..|b| - 1], b[|b| - 1];
      FirstsConcat(a, init);
      ConcatSnoc(a, b);
      FirstsSnoc(a + init, last);
      ExceptSnoc(Firsts(init), last, a);
      if last in init {
        assert Firsts(b) == Firsts(init);
      } else {
        assert Firsts(b) == Firsts(init) + [last];
      }
    }
  }

  lemma {:induction false} FirstsExcept(s: seq<Act>, done: seq<Act>)
    ensures Firsts(Except(s, done)) == Except(Firsts(s), done)
  {
    if |s| > 0 {
      var init, last := s[..|s| - 1], s[|s| - 1];
      FirstsExcept(init, done);
      ExceptMembers(init, done);
      FirstsSnoc(Except(init, done), last);
      ExceptSnoc(Firsts(init), last, done);
      if last in done {
        assert Except(s, done) == Except(init, done);
      } else {
        assert Except(s, done) == Except(init, done) + [last];
      }
      assert last in init ==> Firsts(s) == Firsts(init);
    }
  }

  lemma FirstsPrefix(part: seq<Act>, all: seq<Act>)
    requires part <= all
    ensures Firsts(part) <= Firsts(all)
  {
    FirstsConcat(part, all[|part|..]);
    assert all == part + all[|part|..];
  }

  /** Taking the first `m` away from a piece of a sequence without repetitions. */
  lemma {:induction false} ExceptFirst(s: seq<Act>, i: nat, n: nat, m: nat, done: seq<Act>)
    requires Distinct(s) && i <= n <= |s| && m <= |s|
    requires forall a :: a in done <==> a in s[..m]
    ensures Except(s[i..n], done) == if n <= Most(i, m) then [] else s[Most(i, m)..n]
    decreases n
  {
    if i < n {
      ExceptFirst(s, i, n - 1, m, done);
      SliceSnoc(s, i, n);
      ExceptSnoc(s[i..n - 1], s[n - 1], done);
      InTake(s, m, n - 1);
      if Most(i, m) < n {
        SliceSnoc(s, Most(i, m), n);
        assert Except(s[i..n - 1], done) == s[Most(i, m)..n - 1];
      }
    } else {
      assert s[i..n] == [];
    }
  }

  lemma SliceSnoc<T>(s: seq<T>, i: nat, n: nat)
    requires i < n <= |s|
    ensures s[i..n] == s[i..n - 1] + [s[n - 1]]
  {
  }

  lemma InTake<T(!new)>(s: seq<T>, m: nat, k: nat)
    requires Distinct(s) && m <= |s| && k < |s|
    ensures s[k] in s[..m] <==> k < m
  {
    assert k < m ==> s[..m][k] == s[k];
  }

  lemma {:induction false} ExceptTwice(s: seq<Act>, a: seq<Act>, b: seq<Act>)
    ensures Except(s, a + b) == Except(Except(s, a), b)
  {
    if |s| > 0 {
      var init, last := s[..|s| - 1], s[|s| - 1];
      ExceptTwice(init, a, b);
      ExceptSnoc(Except(init, a), last, b);
      if last in a {
        assert Except(s, a) == Except(init, a);
      }
    }
  }

  lemma {:induction false} ExceptShorter(s: seq<Act>, n: nat, done: seq<Act>)
    requires n <= |s| && forall a | a in s[..n] :: a in done
    ensures |Except(s, done)| <= |s| - n
  {
    if n < |s| {
      assert s[..|s| - 1][..n] == s[..n];
      ExceptShorter(s[..|s| - 1], n, done);
    } else if n > 0 {
      assert s[n - 1] in s[..n];
      assert s[..|s| - 1][..n - 1] == s[..n - 1] && forall a | a in s[..n - 1] :: a in s[..n];
      ExceptShorter(s[..|s| - 1], n - 1, done);
    }
  }

  lemma {:induction false} StillPending(p: Progress, acts: seq<Act>, done: seq<Act>)
    requires forall a, b | a in done && b in acts :: SameKind(a, b)
    ensures Pending(RecordAll(p, done), acts) == Except(Pending(p, acts), done)
  {
    if |acts| > 0 {
      var init, last := acts[..|acts| - 1], acts[|acts| - 1];
      assert last in acts && forall b | b in init :: b in acts;
      StillPending(p, init, done);
      RecordedAfter(p, done, last);
      ExceptSnoc(Pending(p, init), last, done);
      assert Recorded(p, last) ==> Pending(p, acts) == Pending(p, init);
    }
  }

  // ---- What is to do, by the script alone ----

  /** The acts of a script in order, each operation without those that an earlier one lists. */
  function FirstListings(script: seq<Op>): seq<Act> {
    if |script| == 0 then []
    else
      var init := script[..|script| - 1];
      FirstListings(init) + Except(ActsOf(script[|script| - 1]), Acts(init))
  }

  lemma {:induction false} FirstListingsMembers(script: seq<Op>)
    ensures forall a :: a in FirstListings(script) <==> a in Acts(script)
  {
    if |script| > 0 {
      FirstListingsMembers(script[..|script| - 1]);
      ExceptMembers(ActsOf(script[|script| - 1]), Acts(script[..|script| - 1]));
    }
  }

  lemma {:induction false} PendingExcept(p: Progress, acts: seq<Act>, done: seq<Act>, listed: seq<Act>)
    requires forall a :: a in done <==> a in listed && !Recorded(p, a)
    ensures Except(Pending(p, acts), done) == Pending(p, Except(acts, listed))
  {
    if |acts| > 0 {
      var init, last := acts[..|acts| - 1], acts[|acts| - 1];
      PendingExcept(p, init, done, listed);
      ExceptSnoc(Pending(p, init), last, done);
      PendingSnoc(p, Except(init, listed), last);
      if Recorded(p, last) {
        assert Pending(p, acts) == Pending(p, init);
        assert Pending(p, Except(init, listed) + [last]) == Pending(p, Except(init, listed));
        assert last in listed ==> Except(acts, listed) == Except(init, listed);
      } else if last in listed {
        assert Except(acts, listed) == Except(init, listed);
      } else {
        assert Except(acts, listed) == Except(init, listed) + [last];
        assert Pending(p, acts) == Pending(p, init) + [last];
      }
    }
  }

  /** With every key a step's or a batch's, a process has to do what the progress it starts from does not record. */
  lemma {:induction false} TodoIsPending(p: Progress, script: seq<Op>)
    requires KindsSplit(Acts(script))
    ensures Todo(p, script) == Pending(p, FirstListings(script))
  {
    if |script| > 0 {
      var init, op := script[..|script| - 1], ActsOf(script[|script| - 1]);
      assert forall a | a in Acts(init) || a in op :: a in Acts(script);
      TodoIsPending(p, init);
      PendingMembers(p, FirstListings(init));
      FirstListingsMembers(init);
      StillPending(p, op, Todo(p, init));
      PendingExcept(p, op, Todo(p, init), Acts(init));
      PendingConcat(p, FirstListings(init), Except(op, Acts(init)));
    }
  }

  lemma TodoMembers(p: Progress, script: seq<Op>)
    requires KindsSplit(Acts(script))
    ensures forall a :: a in Todo(p, script) <==> a in Acts(script) && !Recorded(p, a)
  {
    TodoIsPending(p, script);
    FirstListingsMembers(script);
    PendingMembers(p, FirstListings(script));
  }

  /** What is still to do when some of the script is recorded. */
  lemma TodoAfter(p: Progress, script: seq<Op>, done: seq<Act>)
    requires KindsSplit(Acts(script)) && forall a | a in done :: a in Acts(script)
    ensures Todo(RecordAll(p, done), script) == Except(Todo(p, script), done)
  {
    TodoIsPending(p, script);
    TodoIsPending(RecordAll(p, done), script);
    FirstListingsMembers(script);
    StillPending(p, FirstListings(script), done);
  }

  // ---- Over all processes ----

  ghost predicate AllIn(part: seq<Act>, all: seq<Act>) {
    forall a | a in part :: a in all
  }

  ghost predicate NoneRecorded(p: Progress, acts: seq<Act>) {
    forall a | a in acts :: !Recorded(p, a)
  }

  /** What `n` processes leave: what they saved they executed; the order; and when no key is shared, the count. */
  ghost predicate SoFar(p: Progress, script: seq<Op>, worked: seq<Act>, saved: seq<Act>, p': Progress, n: nat) {
    && p' == RecordAll(p, saved) && AllIn(saved, worked)
    && (NoneRecorded(p, Acts(script)) ==> Firsts(worked) <= Firsts(Acts(script)))
    && (KindsSplit(Acts(script)) ==> SplitSoFar(p, script, worked, saved, n))
  }

  ghost predicate SplitSoFar(p: Progress, script: seq<Op>, worked: seq<Act>, saved: seq<Act>, n: nat) {
    && Firsts(saved) <= Firsts(worked) <= Firsts(Todo(p, script))
    && |worked| + |Except(Todo(p, script), saved)| <= |Todo(p, script)| + n
  }

  lemma NothingSoFar(p: Progress, script: seq<Op>)
    ensures SoFar(p, script, [], [], p, 0)
  {
    ExceptShorter(Todo(p, script), 0, []);
  }

  lemma SavedIsListed(p: Progress, script: seq<Op>, saved: seq<Act>)
    requires KindsSplit(Acts(script)) && Firsts(saved) <= Firsts(Todo(p, script))
    ensures forall a | a in saved :: a in Todo(p, script) && a in Acts(script)
  {
    FirstsMembers(saved);
    FirstsMembers(Todo(p, script));
    TodoMembers(p, script);
    assert Firsts(saved) == Firsts(Todo(p, script))[..|Firsts(saved)|];
  }

  /** What is first executed of the unsaved rest. */
  lemma RestFirsts(todo: seq<Act>, saved: seq<Act>)
    requires Firsts(saved) <= Firsts(todo)
    ensures Firsts(Except(todo, saved)) == Firsts(todo)[|Firsts(saved)|..]
  {
    var firsts, r := Firsts(todo), |Firsts(saved)|;
    FirstsMembers(todo);
    FirstsMembers(saved);
    FirstsExcept(todo, saved);
    assert firsts[..r] == Firsts(saved) && firsts[0..|firsts|] == firsts;
    ExceptFirst(firsts, 0, |firsts|, r, saved);
  }

  lemma PrefixOfDrop<T>(part: seq<T>, all: seq<T>, r: nat)
    requires r <= |all| && part <= all[r..]
    ensures part == all[r..r + |part|]
  {
  }

  lemma PrefixIsTake<T>(part: seq<T>, all: seq<T>)
    requires part <= all
    ensures part == all[..|part|]
  {
  }

  lemma ExceptLogged(firsts: seq<Act>, r: nat, n: nat, logged: seq<Act>, log: seq<Act>)
    requires Distinct(firsts) && r <= |logged| && logged <= firsts && r <= n <= |firsts|
    requires forall a :: a in logged <==> a in log
    ensures Except(firsts[r..n], log) == if n <= |logged| then [] else firsts[|logged|..n]
  {
    PrefixIsTake(logged, firsts);
    ExceptFirst(firsts, r, n, |logged|, log);
  }

  /** Adding a piece, from `r` on, of a sequence to what is logged of it. */
  lemma AddPiece(firsts: seq<Act>, r: nat, logged: seq<Act>, more: seq<Act>, log: seq<Act>)
    requires Distinct(firsts) && r <= |logged| && logged <= firsts && more <= firsts[r..]
    requires forall a :: a in logged <==> a in log
    ensures logged + Except(more, log) <= firsts
    ensures |logged + Except(more, log)| == Most(|logged|, r + |more|)
  {
    PrefixOfDrop(more, firsts, r);
    ExceptLogged(firsts, r, r + |more|, logged, log);
    TakeOn(firsts, logged, r + |more|, Except(more, log));
  }

  lemma TakeOn<T>(s: seq<T>, part: seq<T>, n: nat, rest: seq<T>)
    requires part <= s && n <= |s|
    requires rest == if n <= |part| then [] else s[|part|..n]
    ensures part + rest <= s && |part + rest| == Most(|part|, n)
  {
  }

  /** Adding a piece to the logged and its beginning to the saved. */
  lemma AddBoth(firsts: seq<Act>, saved: seq<Act>, logged: seq<Act>, part: seq<Act>, more: seq<Act>, savedLog: seq<Act>,
                log: seq<Act>)
    requires Distinct(firsts) && saved <= logged <= firsts && part <= more <= firsts[|saved|..]
    requires forall a :: a in saved <==> a in savedLog
    requires forall a :: a in logged <==> a in log
    ensures saved + Except(part, savedLog) <= logged + Except(more, log) <= firsts
    ensures more == firsts[|saved|..] ==> logged + Except(more, log) == firsts
  {
    AddPiece(firsts, |saved|, saved, part, savedLog);
    AddPiece(firsts, |saved|, logged, more, log);
    ShorterPrefix(saved + Except(part, savedLog), logged + Except(more, log), firsts);
  }

  lemma ShorterPrefix<T>(a: seq<T>, b: seq<T>, all: seq<T>)
    requires a <= all && b <= all && |a| <= |b|
    ensures a <= b
  {
  }

  lemma SplitProcessEnds(p: Progress, script: seq<Op>, worked: seq<Act>, saved: seq<Act>, n: nat, w: Work, p': Progress,
                         finished: bool)
    requires KindsSplit(Acts(script)) && SplitSoFar(p, script, worked, saved, n)
    requires Worked(RecordAll(p, saved), Todo(RecordAll(p, saved), script), w, p', finished)
    ensures SplitSoFar(p, script, worked + w.executed, saved + w.executed[..w.saved], n + 1)
    ensures finished ==> Firsts(worked + w.executed) == Firsts(Todo(p, script))
  {
    SavedIsListed(p, script, saved);
    TodoAfter(p, script, saved);
    TakeIsPrefix(w.executed, w.saved);
    OrderKept(Todo(p, script), saved, worked, w.executed[..w.saved], w.executed);
    CountKept(Todo(p, script), saved, w);
  }

  lemma TakeIsPrefix<T>(s: seq<T>, n: nat)
    requires n <= |s|
    ensures s[..n] <= s && (n == |s| ==> s[..n] == s)
  {
  }

  lemma CountKept(todo: seq<Act>, saved: seq<Act>, w: Work)
    requires w.executed <= Except(todo, saved) && w.saved <= |w.executed|
    ensures |Except(todo, saved + w.executed[..w.saved])| <= |Except(todo, saved)| - w.saved
  {
    ExceptTwice(todo, saved, w.executed[..w.saved]);
    ExceptShorter(Except(todo, saved), w.saved, w.executed[..w.saved]);
  }

  lemma ProcessEnds(p: Progress, script: seq<Op>, worked: seq<Act>, saved: seq<Act>, q: Progress, n: nat, w: Work,
                    p': Progress, finished: bool)
    requires SoFar(p, script, worked, saved, q, n) && Worked(q, Todo(q, script), w, p', finished)
    ensures SoFar(p, script, worked + w.executed, saved + w.executed[..w.saved], p', n + 1)
    ensures finished ==> forall a | a in Acts(script) :: a in worked + w.executed || Recorded(p, a)
    ensures finished && NoneRecorded(p, Acts(script)) ==> Firsts(worked + w.executed) == Firsts(Acts(script))
    ensures finished && KindsSplit(Acts(script)) ==> Firsts(worked + w.executed) == Firsts(Todo(p, script))
  {
    RecordConcat(p, saved, w.executed[..w.saved]);
    SavedIsExecuted(worked, saved, w);
    if NoneRecorded(p, Acts(script)) {
      ProcessInOrder(p, script, worked, saved, w.executed);
    }
    if KindsSplit(Acts(script)) {
      SplitProcessEnds(p, script, worked, saved, n, w, p', finished);
    }
    if finished {
      EverythingExecuted(p, script, worked, saved);
      if NoneRecorded(p, Acts(script)) {
        AllOfThem(worked + w.executed, Acts(script));
      }
    }
  }

  lemma SavedIsExecuted(worked: seq<Act>, saved: seq<Act>, w: Work)
    requires AllIn(saved, worked) && w.saved <= |w.executed|
    ensures AllIn(saved + w.executed[..w.saved], worked + w.executed)
  {
  }

  /** Whatever the keys: what a process finds recorded was recorded before or executed since. */
  lemma EverythingExecuted(p: Progress, script: seq<Op>, worked: seq<Act>, saved: seq<Act>)
    requires AllIn(saved, worked)
    ensures forall a | a in Acts(script) :: a in worked + Todo(RecordAll(p, saved), script) || Recorded(p, a)
  {
    ListedIsDone(RecordAll(p, saved), script);
    forall a | a in Acts(script) && a !in worked && a !in Todo(RecordAll(p, saved), script)
      ensures Recorded(p, a)
    {
      RecordedOnlyByItself(p, saved, a);
    }
  }

  lemma {:induction false} ListedIsDone(p: Progress, script: seq<Op>)
    ensures forall a | a in Acts(script) :: a in Todo(p, script) || Recorded(p, a)
  {
    if |script| > 0 {
      var init, op := script[..|script| - 1], ActsOf(script[|script| - 1]);
      ListedIsDone(p, init);
      PendingMembers(RecordAll(p, Todo(p, init)), op);
      forall a | a in op && a !in Todo(p, script)
        ensures Recorded(p, a)
      {
        RecordedOnlyByItself(p, Todo(p, init), a);
      }
    }
  }

  lemma {:induction false} RecordedOnlyByItself(p: Progress, done: seq<Act>, b: Act)
    requires Recorded(RecordAll(p, done), b) && b !in done
    ensures Recorded(p, b)
  {
    if |done| > 0 {
      RecordedOnlyByItself(p, done[..|done| - 1], b);
    }
  }

  /** A log of first executions in the script's order that has them all. */
  lemma AllOfThem(log: seq<Act>, acts: seq<Act>)
    requires Firsts(log) <= Firsts(acts) && AllIn(acts, log)
    ensures Firsts(log) == Firsts(acts)
  {
    FirstsMembers(log);
    FirstsMembers(acts);
    FirstsMembers(acts);
    if |Firsts(log)| < |Firsts(acts)| {
      ExtraElement(Firsts(acts), Firsts(acts), Firsts(log));
    }
  }

  // ---- The order of first executions, from a checkpoint without the script ----

  lemma ExtraElement(firsts: seq<Act>, x: seq<Act>, y: seq<Act>)
    requires Distinct(firsts) && x <= firsts && y <= firsts && |y| < |x|
    ensures x[|y|] in x && x[|y|] !in y && x[|y|] == firsts[|y|]
  {
    assert forall k :: 0 <= k < |y| ==> y[k] == firsts[k];
  }

  lemma SamePrefix(firsts: seq<Act>, x: seq<Act>, y: seq<Act>, a: Act)
    requires Distinct(firsts) && x + [a] <= firsts && y <= firsts && AllIn(x, y) && a !in y
    ensures x == y
  {
    assert x == (x + [a])[..|x|] && (x + [a])[|x|] == a;
    if |y| < |x| {
      ExtraElement(firsts, x, y);
    } else if |x| < |y| {
      ExtraElement(firsts, y, x);
    }
  }

  /** Executing the next listed act when all before it have been executed. */
  lemma NextInOrder(before: seq<Act>, a: Act, listed: seq<Act>, log: seq<Act>)
    requires before + [a] <= listed && AllIn(before, log) && Firsts(log) <= Firsts(listed)
    ensures Firsts(log + [a]) <= Firsts(listed)
  {
    FirstsSnoc(log, a);
    if a !in log {
      FirstsSnoc(before, a);
      FirstsPrefix(before + [a], listed);
      FirstsMembers(before);
      FirstsMembers(log);
      FirstsMembers(listed);
      SamePrefix(Firsts(listed), Firsts(before), Firsts(log), a);
    }
  }

  lemma {:induction false} OpInOrder(q: Progress, before: seq<Act>, op: seq<Act>, listed: seq<Act>, log: seq<Act>)
    requires before + op <= listed && AllIn(before, log) && Firsts(log) <= Firsts(listed)
    requires forall a | a in op :: Recorded(q, a) ==> a in log
    ensures Firsts(log + Pending(q, op)) <= Firsts(listed) && AllIn(before + op, log + Pending(q, op))
    decreases |op|
  {
    if |op| == 0 {
      assert before + op == before && log + Pending(q, op) == log;
    } else {
      var init, last := op[..|op| - 1], op[|op| - 1];
      var sofar := log + Pending(q, init);
      ConcatSnoc(before, op);
      ConcatSnoc([], op);
      InConcat(init, [last], last);
      OpInOrder(q, before, init, listed, log);
      if Recorded(q, last) {
        assert Pending(q, op) == Pending(q, init);
      } else {
        assert log + Pending(q, op) == sofar + [last];
        NextInOrder(before + init, last, listed, sofar);
      }
    }
  }

  lemma {:induction false} OpsInOrder(p: Progress, script: seq<Op>, worked: seq<Act>, saved: seq<Act>, i: nat)
    requires i <= |script| && NoneRecorded(p, Acts(script)) && AllIn(saved, worked)
    requires Firsts(worked) <= Firsts(Acts(script))
    ensures var done := Todo(RecordAll(p, saved), script[..i]);
            Firsts(worked + done) <= Firsts(Acts(script)) && AllIn(Acts(script[..i]), worked + done)
  {
    var q := RecordAll(p, saved);
    if i == 0 {
      assert worked + Todo(q, script[..0]) == worked;
    } else {
      OpsInOrder(p, script, worked, saved, i - 1);
      OneOpInOrder(p, script, worked, saved, i - 1);
    }
  }

  lemma OneOpInOrder(p: Progress, script: seq<Op>, worked: seq<Act>, saved: seq<Act>, i: nat)
    requires i < |script| && NoneRecorded(p, Acts(script)) && AllIn(saved, worked)
    requires var done := Todo(RecordAll(p, saved), script[..i]);
             Firsts(worked + done) <= Firsts(Acts(script)) && AllIn(Acts(script[..i]), worked + done)
    ensures var done := Todo(RecordAll(p, saved), script[..i + 1]);
            Firsts(worked + done) <= Firsts(Acts(script)) && AllIn(Acts(script[..i + 1]), worked + done)
  {
    var q := RecordAll(p, saved);
    var done, op := Todo(q, script[..i]), ActsOf(script[i]);
    var next := NextOp(q, script, i);
    ActsUpTo(script, i);
    forall a | a in op && Recorded(RecordAll(q, done), a)
      ensures a in worked + done
    {
      RecordedSince(p, saved, done, worked, a);
    }
    OpInOrder(RecordAll(q, done), Acts(script[..i]), op, Acts(script), worked + done);
    Associate(worked, done, next);
  }

  lemma RecordedSince(p: Progress, saved: seq<Act>, done: seq<Act>, worked: seq<Act>, a: Act)
    requires AllIn(saved, worked) && !Recorded(p, a) && Recorded(RecordAll(RecordAll(p, saved), done), a)
    ensures a in worked + done
  {
    if a !in done && a !in worked {
      RecordedOnlyByItself(RecordAll(p, saved), done, a);
      RecordedOnlyByItself(p, saved, a);
    }
  }

  lemma ActsUpTo(script: seq<Op>, i: nat)
    requires i < |script|
    ensures Acts(script[..i]) + ActsOf(script[i]) == Acts(script[..i + 1]) <= Acts(script)
    ensures forall a | a in ActsOf(script[i]) :: a in Acts(script)
  {
    assert script[..i + 1][..i] == script[..i];
    ActsPrefix(script, i + 1);
    forall a | a in ActsOf(script[i])
      ensures a in Acts(script)
    {
      InConcat(Acts(script[..i]), ActsOf(script[i]), a);
      InPrefix(Acts(script[..i + 1]), Acts(script), a);
    }
  }

  lemma {:induction false} ActsPrefix(script: seq<Op>, i: nat)
    requires i <= |script|
    ensures Acts(script[..i]) <= Acts(script)
  {
    if i == |script| {
      assert script[..i] == script;
    } else {
      ActsPrefix(script[..|script| - 1], i);
      assert script[..|script| - 1][..i] == script[..i];
    }
  }

  /** One more process, however far it comes. */
  lemma ProcessInOrder(p: Progress, script: seq<Op>, worked: seq<Act>, saved: seq<Act>, executed: seq<Act>)
    requires NoneRecorded(p, Acts(script)) && AllIn(saved, worked) && Firsts(worked) <= Firsts(Acts(script))
    requires executed <= Todo(RecordAll(p, saved), script)
    ensures Firsts(worked + executed) <= Firsts(Acts(script))
  {
    OpsInOrder(p, script, worked, saved, |script|);
    assert script[..|script|] == script;
    PrefixAfter(worked, executed, Todo(RecordAll(p, saved), script));
    FirstsPrefix(worked + executed, worked + Todo(RecordAll(p, saved), script));
  }

  lemma PrefixAfter<T>(a: seq<T>, part: seq<T>, all: seq<T>)
    requires part <= all
    ensures a + part <= a + all
  {
  }

  // ---- The order from any checkpoint, when no key is shared ----

  lemma OrderKept(todo: seq<Act>, saved: seq<Act>, log: seq<Act>, part: seq<Act>, more: seq<Act>)
    requires Firsts(saved) <= Firsts(log) <= Firsts(todo)
    requires part <= more <= Except(todo, saved)
    ensures Firsts(saved + part) <= Firsts(log + more) <= Firsts(todo)
    ensures more == Except(todo, saved) ==> Firsts(log + more) == Firsts(todo)
  {
    RestFirsts(todo, saved);
    FirstsPrefix(part, more);
    FirstsPrefix(more, Except(todo, saved));
    FirstsConcat(saved, part);
    FirstsConcat(log, more);
    FirstsMembers(todo);
    FirstsMembers(saved);
    FirstsMembers(log);
    AddBoth(Firsts(todo), Firsts(saved), Firsts(log), Firsts(part), Firsts(more), saved, log);
  }

  // ---- What finishing records, and what is done again ----

  /** No progress records a step and a batch item under one key. */
  lemma NotBothRecorded(p: Progress, a: Act, b: Act)
    requires Recorded(p, a) && Recorded(p, b)
    ensures SameKind(a, b)
  {
  }

  /** From any progress: everything is recorded by the end exactly when every key is a step's or a batch's. */
  lemma RecordedIff(p: Progress, script: seq<Op>)
    ensures KindsSplit(Acts(script)) <==> forall a :: a in Acts(script) ==> Recorded(Finish(p, script), a)
  {
    if KindsSplit(Acts(script)) {
      TodoMembers(p, script);
      forall a | a in Acts(script)
        ensures Recorded(Finish(p, script), a)
      {
        RecordedAfter(p, Todo(p, script), a);
      }
    }
    if forall a :: a in Acts(script) ==> Recorded(Finish(p, script), a) {
      forall a, b | a in Acts(script) && b in Acts(script)
        ensures SameKind(a, b)
      {
        NotBothRecorded(Finish(p, script), a, b);
      }
    }
  }

  /** A finished deployment that is started again has nothing to do exactly when every key is a step's or a batch's. */
  lemma RestartIff(p: Progress, script: seq<Op>)
    ensures Todo(Finish(p, script), script) == [] <==> KindsSplit(Acts(script))
  {
    RecordedIff(p, script);
    ListedIsDone(Finish(p, script), script);
    if KindsSplit(Acts(script)) {
      TodoMembers(Finish(p, script), script);
      NoMembers(Todo(Finish(p, script), script));
    }
  }

  /** With no shared keys, the first executions of a process are what is pending of the script's first listings. */
  lemma FirstsTodo(p: Progress, script: seq<Op>)
    ensures KindsSplit(Acts(script)) ==> Firsts(Todo(p, script)) == Pending(p, Firsts(Acts(script)))
  {
    if KindsSplit(Acts(script)) {
      TodoIsPending(p, script);
      FirstTimesPending(p, FirstListings(script));
      FirstTimesListings(script);
    }
  }

  lemma {:induction false} FirstTimesPending(p: Progress, acts: seq<Act>)
    ensures Firsts(Pending(p, acts)) == Pending(p, Firsts(acts))
  {
    if |acts| > 0 {
      var init, last := acts[..|acts| - 1], acts[|acts| - 1];
      FirstTimesPending(p, init);
      PendingMembers(p, init);
      FirstsSnoc(Pending(p, init), last);
      PendingSnoc(p, Firsts(init), last);
      if Recorded(p, last) {
        assert Pending(p, acts) == Pending(p, init);
      } else {
        assert Pending(p, acts) == Pending(p, init) + [last];
      }
      assert last in init ==> Firsts(acts) == Firsts(init);
    }
  }

  lemma {:induction false} FirstTimesListings(script: seq<Op>)
    ensures Firsts(FirstListings(script)) == Firsts(Acts(script))
  {
    if |script| > 0 {
      var init, op := script[..|script| - 1], ActsOf(script[|script| - 1]);
      FirstTimesListings(init);
      FirstListingsMembers(init);
      FirstsConcat(Acts(init), op);
      FirstsConcat(FirstListings(init), Except(op, Acts(init)));
      FirstsExcept(op, Acts(init));
      ExceptAgain(Firsts(op), Acts(init), FirstListings(init));
    }
  }

  lemma {:induction false} ExceptAgain(s: seq<Act>, a: seq<Act>, b: seq<Act>)
    requires forall x :: x in a <==> x in b
    ensures Except(Except(s, a), b) == Except(s, a)
  {
    if |s| > 0 {
      var init, last := s[..|s| - 1], s[|s| - 1];
      ExceptAgain(init, a, b);
      ExceptSnoc(Except(init, a), last, b);
      if last in a {
        assert Except(s, a) == Except(init, a);
      }
    }
  }

  /** Two processes that both finish execute what was pending at first, in the script's order. */
  ghost predicate InOrderTwice(p: Progress, script: seq<Op>) {
    Firsts(Todo(p, script) + Todo(Finish(p, script), script)) <= Pending(p, Firsts(Acts(script)))
  }

  lemma {:induction false} ErasedInTheEnd(p: Progress, done: seq<Act>, a: Act, b: Act)
    requires b in done && a !in done && !SameKind(a, b)
    ensures !Recorded(RecordAll(p, done), a)
  {
    var init, last := done[..|done| - 1], done[|done| - 1];
    assert last in done && forall x | x in init :: x in done;
    if last == b {
      NotBothRecorded(Record(RecordAll(p, init), b), b, b);
    } else {
      assert done == init + [last];
      ErasedInTheEnd(p, init, a, b);
    }
  }

  /** A checkpoint that records a step, but not the batch under its key, or the other way round. */
  lemma ErasedIsRepeated(script: seq<Op>, a: Act, b: Act) returns (p: Progress)
    requires a in Acts(script) && b in Acts(script) && !SameKind(a, b)
    ensures !InOrderTwice(p, script)
  {
    p := Record(map[], a);
    RecordIsRecorded(a);
    var log := Todo(p, script) + Todo(Finish(p, script), script);
    ListedIsDone(p, script);
    assert !Recorded(p, b);
    ListedIsDone(Finish(p, script), script);
    if a !in Todo(p, script) {
      ErasedInTheEnd(p, Todo(p, script), a, b);
    }
    assert a in log;
    FirstsMembers(log);
    PendingMembers(p, Firsts(Acts(script)));
    if Firsts(log) <= Pending(p, Firsts(Acts(script))) {
      InPrefix(Firsts(log), Pending(p, Firsts(Acts(script))), a);
    }
  }

  /**
   The exact condition for the order from any checkpoint: when a key is shared, some checkpoint and two
   processes that both finish execute an act that the checkpoint records.
   */
  lemma OrderIff(script: seq<Op>)
    ensures KindsSplit(Acts(script)) <==>
            forall p :: InOrderTwice(p, script)
  {
    if KindsSplit(Acts(script)) {
      forall p
        ensures InOrderTwice(p, script)
      {
        RestartIff(p, script);
        FirstsTodo(p, script);
        assert Todo(p, script) + [] == Todo(p, script);
      }
    } else {
      var a, b :| a in Acts(script) && b in Acts(script) && !SameKind(a, b);
      var p := ErasedIsRepeated(script, a, b);
    }
  }

  lemma NoMembers<T>(s: seq<T>)
    ensures s == [] <==> forall x :: x !in s
  {
    assert |s| > 0 ==> s[0] in s;
  }

  ghost predicate RepeatsOnly(acts: seq<Act>, listed: seq<Act>) {
    forall i, j :: 0 <= i < j < |acts| && acts[i] == acts[j] ==> acts[i] in listed
  }

  /** A batch lists an item twice only when an earlier operation lists it already. */
  ghost predicate RepeatsAreOld(script: seq<Op>) {
    forall i :: 0 <= i < |script| ==> OpRepeatsOnly(script, i)
  }

  ghost predicate OpRepeatsOnly(script: seq<Op>, i: nat)
    requires i < |script|
  {
    RepeatsOnly(ActsOf(script[i]), Acts(script[..i]))
  }

  lemma {:induction false} DistinctExcept(acts: seq<Act>, listed: seq<Act>)
    ensures Distinct(Except(acts, listed)) <==> RepeatsOnly(acts, listed)
  {
    if |acts| > 0 {
      var init, last := acts[..|acts| - 1], acts[|acts| - 1];
      DistinctExcept(init, listed);
      ExceptMembers(init, listed);
      DistinctSnoc(Except(init, listed), last);
      RepeatsSnoc(init, last, listed);
      assert acts == init + [last];
      assert last in listed ==> Except(acts, listed) == Except(init, listed);
    }
  }

  lemma RepeatsSnoc(s: seq<Act>, a: Act, listed: seq<Act>)
    ensures RepeatsOnly(s + [a], listed) <==> RepeatsOnly(s, listed) && (a in s ==> a in listed)
  {
    var t := s + [a];
    assert t[|s|] == a && forall i :: 0 <= i < |s| ==> t[i] == s[i];
  }

  lemma {:induction false} FirstListingsDistinct(script: seq<Op>)
    ensures Distinct(FirstListings(script)) <==> RepeatsAreOld(script)
  {
    if |script| > 0 {
      var n := |script| - 1;
      var init, op := script[..n], ActsOf(script[n]);
      FirstListingsDistinct(init);
      FirstListingsMembers(init);
      ExceptMembers(op, Acts(init));
      DistinctExcept(op, Acts(init));
      BothDistinct(FirstListings(init), Except(op, Acts(init)), script);
      RepeatsLast(script);
    }
  }

  lemma BothDistinct(a: seq<Act>, b: seq<Act>, script: seq<Op>)
    requires |script| > 0 && FirstListings(script) == a + b
    requires forall x :: !(x in a && x in b)
    ensures Distinct(FirstListings(script)) <==> Distinct(a) && Distinct(b)
  {
    DistinctConcat(a, b);
  }

  lemma RepeatsLast(script: seq<Op>)
    requires |script| > 0
    ensures RepeatsAreOld(script) <==> RepeatsAreOld(script[..|script| - 1]) && OpRepeatsOnly(script, |script| - 1)
  {
    var init := script[..|script| - 1];
    forall i | 0 <= i < |init|
      ensures OpRepeatsOnly(init, i) <==> OpRepeatsOnly(script, i)
    {
      assert init[..i] == script[..i];
    }
    if RepeatsAreOld(script) {
      forall i | 0 <= i < |init|
        ensures OpRepeatsOnly(init, i)
      {
        assert OpRepeatsOnly(script, i);
      }
    }
    if RepeatsAreOld(init) && OpRepeatsOnly(script, |init|) {
      forall i | 0 <= i < |script|
        ensures OpRepeatsOnly(script, i)
      {
        assert i < |init| ==> OpRepeatsOnly(init, i);
      }
    }
  }

  lemma DistinctConcat(a: seq<Act>, b: seq<Act>)
    requires forall x :: !(x in a && x in b)
    ensures Distinct(a + b) <==> Distinct(a) && Distinct(b)
  {
    var s := a + b;
    assert forall i :: 0 <= i < |a| ==> s[i] == a[i] && a[i] in a;
    assert forall i :: 0 <= i < |b| ==> s[|a| + i] == b[i] && b[i] in b;
    if Distinct(a) && Distinct(b) {
      forall i, j | 0 <= i < j < |s|
        ensures s[i] != s[j]
      {
        assert s[i] in a || s[i] == b[i - |a|];
        assert s[j] == if j < |a| then a[j] else b[j - |a|];
      }
    }
  }

  /** A process that does nothing twice and nothing that is recorded when it starts. */
  ghost predicate NothingAgain(p: Progress, script: seq<Op>) {
    Distinct(Todo(p, script)) && forall a :: a in Todo(p, script) ==> !Recorded(p, a)
  }

  lemma OneKind(op: Op)
    ensures KindsSplit(ActsOf(op))
  {
  }

  /** Right after an operation all its acts are recorded. */
  lemma OpRecorded(p: Progress, script: seq<Op>, i: nat, a: Act)
    requires i < |script| && a in ActsOf(script[i])
    ensures Recorded(Finish(p, script[..i + 1]), a)
  {
    var next := NextOp(p, script, i);
    var done := Todo(p, script[..i]);
    RecordConcat(p, done, next);
    OneKind(script[i]);
    PendingMembers(RecordAll(p, done), ActsOf(script[i]));
    RecordedAfter(RecordAll(p, done), next, a);
  }

  /** After a step and a batch item under one key, only the later is recorded. */
  lemma RecordErased(p: Progress, done: seq<Act>, a: Act, more: seq<Act>, b: Act)
    requires Recorded(RecordAll(p, done), a) && !SameKind(a, b)
    ensures b in done + more || !Recorded(RecordAll(p, done + more), b)
  {
    InConcat(done, more, b);
    RecordConcat(p, done, more);
    if Recorded(RecordAll(p, done + more), b) && b !in more {
      RecordedOnlyByItself(RecordAll(p, done), more, b);
      NotBothRecorded(RecordAll(p, done), a, b);
    }
  }

  /** Of a step and a batch under one key, the later is done although it is recorded: the earlier erases the record. */
  lemma ErasedAndRedone(p: Progress, script: seq<Op>, i: nat, a: Act, j: nat, b: Act)
    requires i < j < |script| && a in ActsOf(script[i]) && b in ActsOf(script[j]) && !SameKind(a, b)
    ensures b in Todo(p, script)
  {
    OpRecorded(p, script, i, a);
    ErasedBefore(p, script, i + 1, a, j, b);
    DoneByThen(p, script, j, b);
  }

  lemma ErasedBefore(p: Progress, script: seq<Op>, i: nat, a: Act, j: nat, b: Act)
    requires i <= j <= |script| && Recorded(Finish(p, script[..i]), a) && !SameKind(a, b)
    ensures b in Todo(p, script[..j]) || !Recorded(Finish(p, script[..j]), b)
  {
    var more := TodoBetween(p, script, i, j);
    RecordErased(p, Todo(p, script[..i]), a, more, b);
  }

  lemma {:induction false} TodoBetween(p: Progress, script: seq<Op>, i: nat, j: nat) returns (more: seq<Act>)
    requires i <= j <= |script|
    ensures Todo(p, script[..j]) == Todo(p, script[..i]) + more
    decreases j
  {
    if i == j {
      more := [];
    } else {
      more := TodoBetween(p, script, i, j - 1);
      var next := NextOp(p, script, j - 1);
      Associate(Todo(p, script[..i]), more, next);
      more := more + next;
    }
  }

  lemma Associate<T>(a: seq<T>, b: seq<T>, c: seq<T>)
    ensures a + b + c == a + (b + c)
  {
  }

  lemma DoneByThen(p: Progress, script: seq<Op>, j: nat, b: Act)
    requires j < |script| && b in ActsOf(script[j])
    requires b in Todo(p, script[..j]) || !Recorded(Finish(p, script[..j]), b)
    ensures b in Todo(p, script)
  {
    var next := NextOp(p, script, j);
    PendingMembers(Finish(p, script[..j]), ActsOf(script[j]));
    InConcat(Todo(p, script[..j]), next, b);
    InPrefix(Todo(p, script[..j]) + next, Todo(p, script), b);
  }

  lemma InConcat<T>(a: seq<T>, b: seq<T>, x: T)
    ensures x in a + b <==> x in a || x in b
  {
  }

  lemma InPrefix<T>(part: seq<T>, all: seq<T>, x: T)
    requires part <= all && x in part
    ensures x in all
  {
    assert part == all[..|part|];
  }

  lemma {:induction false} WhichOp(script: seq<Op>, a: Act) returns (i: nat)
    requires a in Acts(script)
    ensures i < |script| && a in ActsOf(script[i])
  {
    var n := |script| - 1;
    if a in ActsOf(script[n]) {
      i := n;
    } else {
      i := WhichOp(script[..n], a);
    }
  }

  lemma RecordIsRecorded(a: Act)
    ensures Recorded(Record(map[], a), a)
  {
  }

  lemma ClashRedone(script: seq<Op>, a: Act, b: Act) returns (p: Progress)
    requires a in Acts(script) && b in Acts(script) && !SameKind(a, b)
    ensures !NothingAgain(p, script)
  {
    var i := WhichOp(script, a);
    var j := WhichOp(script, b);
    OneKind(script[i]);
    if i < j {
      p := Record(map[], b);
      RecordIsRecorded(b);
      ErasedAndRedone(p, script, i, a, j, b);
    } else {
      p := Record(map[], a);
      RecordIsRecorded(a);
      ErasedAndRedone(p, script, j, b, i, a);
    }
  }

  lemma NothingAgainSplits(script: seq<Op>)
    requires forall p :: NothingAgain(p, script)
    ensures KindsSplit(Acts(script))
  {
    forall a, b | a in Acts(script) && b in Acts(script)
      ensures SameKind(a, b)
    {
      if !SameKind(a, b) {
        var p := ClashRedone(script, a, b);
        assert false;
      }
    }
  }

  lemma {:induction false} AllPending(acts: seq<Act>)
    ensures Pending(map[], acts) == acts
  {
    if |acts| > 0 {
      AllPending(acts[..|acts| - 1]);
      ConcatSnoc([], acts);
    }
  }

  /**
   Saved work is never done again, from no progress whatever, exactly when every key is a step's or a batch's and
   no batch lists twice what no earlier one lists.
   */
  lemma NeverRedoneIff(script: seq<Op>)
    ensures (forall p :: NothingAgain(p, script)) <==> KindsSplit(Acts(script)) && RepeatsAreOld(script)
  {
    FirstListingsDistinct(script);
    if forall p :: NothingAgain(p, script) {
      NothingAgainSplits(script);
      TodoIsPending(map[], script);
      AllPending(FirstListings(script));
      assert NothingAgain(map[], script);
    }
    if KindsSplit(Acts(script)) && RepeatsAreOld(script) {
      forall p
        ensures NothingAgain(p, script)
      {
        TodoMembers(p, script);
        TodoIsPending(p, script);
        PendingMembers(p, FirstListings(script));
      }
    }
  }

  lemma TodoOne(p: Progress, op: Op)
    ensures Todo(p, [op]) == Pending(p, ActsOf(op))
  {
    assert [op][..0] == [];
    assert Todo(p, []) == [] && RecordAll(p, []) == p;
  }

  lemma PendingTwice(p: Progress, a: Act)
    ensures Pending(p, [a, a]) == if Recorded(p, a) then [] else [a, a]
  {
    OnePending(p, a);
    PendingSnoc(p, [a], a);
    assert [a] + [a] == [a, a];
  }

  /** A batch with an item listed twice executes it again after its first completion was saved. */
  lemma ListedTwiceDoneTwice(key: Name, item: Name)
    ensures var script, a := [Batch(key, [item, item])], ItemAct(key, item);
            && Todo(map[], script) == [a, a]
            && Recorded(RecordAll(map[], [a]), a)
            && Todo(RecordAll(map[], [a]), script) == []
  {
    var op, a := Batch(key, [item, item]), ItemAct(key, item);
    assert ActsOf(op) == [a, a];
    TodoOne(map[], op);
    PendingTwice(map[], a);
    OnePending(map[], a);
    RecordIsRecorded(a);
    TodoOne(RecordAll(map[], [a]), op);
    PendingTwice(RecordAll(map[], [a]), a);
  }

  /** A step and a batch with the same key erase each other's record, so that finished work is done again. */
  lemma SharedKeyForgets(p: Progress, key: Name, item: Name)
    ensures !Recorded(Record(Record(p, StepAct(key)), ItemAct(key, item)), StepAct(key))
    ensures !Recorded(Record(Record(p, ItemAct(key, item)), StepAct(key)), ItemAct(key, item))
    ensures Pending(Record(Record(p, StepAct(key)), ItemAct(key, item)), [StepAct(key)]) == [StepAct(key)]
  {
    OnePending(Record(Record(p, StepAct(key)), ItemAct(key, item)), StepAct(key));
  }
}
