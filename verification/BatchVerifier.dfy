/** The timelock batch generator, and the checkers that re-read what was generated before it is signed. */
module BatchVerifier {
  import opened Collections
  import opened Diamond
  import opened CutPlanner
  import opened UpgradeScripts
  import opened FileNames
  import opened Timelock

  // ---- Generated files ----

  /** Calldata addressed to the timelock, by what it decodes to. */
  datatype Call =
    | ScheduleCall(target: Address, value: nat, data: Calldata, predecessor: Word, salt: Word, delay: nat)
    | ExecuteCall(target: Address, value: nat, data: Calldata, predecessor: Word, salt: Word)
    | Undecodable

  datatype Tx = Tx(to: Address, value: nat, call: Call)
  datatype SafeBatch = SafeBatch(chainId: Option<int>, transactions: seq<Tx>)
  datatype Kind = ScheduleKind | ExecuteKind

  /** The call that the batch of chunk `i` makes. */
  function GeneratedCall(kind: Kind, chainId: int, diamond: Address, data: seq<Calldata>, delay: nat, i: nat): Call
    requires i < |data|
  {
    var predecessor, salt := Predecessor(chainId, diamond, data, i), SaltHash(chainId, diamond, i);
    if kind == ScheduleKind then ScheduleCall(diamond, 0, data[i], predecessor, salt, delay)
    else ExecuteCall(diamond, 0, data[i], predecessor, salt)
  }

  function GeneratedFiles(kind: Kind, chainId: int, diamond: Address, timelock: Address, data: seq<Calldata>,
                          delay: nat)
      : (files: seq<SafeBatch>)
  {
    seq(|data|, i requires 0 <= i < |data| =>
      SafeBatch(Some(chainId), [Tx(timelock, 0, GeneratedCall(kind, chainId, diamond, data, delay, i))]))
  }

  /** The generator's loop, carrying the previous operation id along as predecessor. */
  method GenerateTimelockBatches(chainId: int, diamond: Address, timelock: Address, data: seq<Calldata>, minDelay: nat)
      returns (scheduleFiles: seq<SafeBatch>, executeFiles: seq<SafeBatch>)
    ensures scheduleFiles == GeneratedFiles(ScheduleKind, chainId, diamond, timelock, data, minDelay)
    ensures executeFiles == GeneratedFiles(ExecuteKind, chainId, diamond, timelock, data, minDelay)
  {
    scheduleFiles, executeFiles := [], [];
    var predecessor := ZeroWord;
    for i := 0 to |data|
      invariant predecessor == Predecessor(chainId, diamond, data, i)
      invariant scheduleFiles == GeneratedFiles(ScheduleKind, chainId, diamond, timelock, data, minDelay)[..i]
      invariant executeFiles == GeneratedFiles(ExecuteKind, chainId, diamond, timelock, data, minDelay)[..i]
    {
      var salt := SaltHash(chainId, diamond, i);
      var operationId := OpHash(diamond, 0, data[i], predecessor, salt);
      scheduleFiles := scheduleFiles
        + [SafeBatch(Some(chainId), [Tx(timelock, 0, ScheduleCall(diamond, 0, data[i], predecessor, salt, minDelay))])];
      executeFiles := executeFiles
        + [SafeBatch(Some(chainId), [Tx(timelock, 0, ExecuteCall(diamond, 0, data[i], predecessor, salt))])];
      predecessor := operationId;
    }
  }

  // ---- verifyTimelockBatches ----

  datatype Issue =
    | TimelockNotConfigured | CalldataMissing | CountMismatch | ChainIdMissing
    | ChainIdDiffers(file: nat) | TxCount(file: nat) | WrongTo(file: nat) | DecodeFailed(file: nat)
    | WrongTarget(file: nat) | WrongValue(file: nat) | WrongData(file: nat)
    | WrongPredecessor(file: nat) | WrongSalt(file: nat) | WrongDelay(file: nat)

  datatype FileCheck = Skipped | Checked(issues: seq<Issue>)

  predicate IsKind(call: Call, kind: Kind) {
    if kind == ScheduleKind then call.ScheduleCall? else call.ExecuteCall?
  }

  function OperationId(call: Call): Word
    requires !call.Undecodable?
  {
    OpHash(call.target, call.value, call.data, call.predecessor, call.salt)
  }

  /** What makes file `i` pass, given the predecessor that the files before it lead to. */
  predicate FilePasses(kind: Kind, chainId: int, diamond: Address, timelock: Address, minDelay: Option<nat>,
                       file: SafeBatch, data: Calldata, i: nat, predecessor: Word)
  {
    && file.chainId == Some(chainId)
    && |file.transactions| == 1
    && var tx := file.transactions[0];
       && tx.to == timelock
       && IsKind(tx.call, kind)
       && tx.call.target == diamond && tx.call.value == 0
       && tx.call.data == data && tx.call.predecessor == predecessor
       && (chainId > 0 ==> tx.call.salt == SaltHash(chainId, diamond, i))
       && (kind == ScheduleKind && minDelay.Some? ==> tx.call.delay == minDelay.value)
  }

  predicate FilesPass(kind: Kind, chainId: int, diamond: Address, timelock: Address, minDelay: Option<nat>,
                      files: seq<SafeBatch>, data: seq<Calldata>, i: nat, predecessor: Word)
    requires i <= |files| && i <= |data|
    decreases |files| - i
  {
    i == |files| || i == |data|
    || (FilePasses(kind, chainId, diamond, timelock, minDelay, files[i], data[i], i, predecessor)
        && FilesPass(kind, chainId, diamond, timelock, minDelay, files, data, i + 1,
                     OperationId(files[i].transactions[0].call)))
  }

  /** The checks on one decoded call; no issue means the call is as `FilePasses` wants it. */
  method CheckCall(kind: Kind, chainId: int, diamond: Address, minDelay: Option<nat>,
                   call: Call, data: Calldata, i: nat, predecessor: Word) returns (issues: seq<Issue>)
    requires IsKind(call, kind)
    ensures issues == [] <==>
            && call.target == diamond && call.value == 0 && call.data == data && call.predecessor == predecessor
            && (chainId > 0 ==> call.salt == SaltHash(chainId, diamond, i))
            && (kind == ScheduleKind && minDelay.Some? ==> call.delay == minDelay.value)
  {
    issues := [];
    if call.target != diamond {
      issues := issues + [WrongTarget(i)];
    }
    if call.value != 0 {
      issues := issues + [WrongValue(i)];
    }
    if call.data != data {
      issues := issues + [WrongData(i)];
    }
    if call.predecessor != predecessor {
      issues := issues + [WrongPredecessor(i)];
    }
    if chainId > 0 && call.salt != SaltHash(chainId, diamond, i) {
      issues := issues + [WrongSalt(i)];
    }
    if kind == ScheduleKind && minDelay.Some? && call.delay != minDelay.value {
      issues := issues + [WrongDelay(i)];
    }
  }

  /** The whole checker: it is silent exactly on a complete, correctly linked set of files. */
  method VerifyTimelockBatches(kind: Kind, diamond: Address, timelock: Option<Address>, minDelay: Option<nat>,
                               files: seq<SafeBatch>, calldata: Option<seq<Calldata>>) returns (check: FileCheck)
    ensures check.Skipped? <==> files == []
    ensures check == Checked([]) <==>
            && files != [] && timelock.Some? && calldata.Some? && |files| == |calldata.value|
            && files[0].chainId.Some?
            && FilesPass(kind, files[0].chainId.value, diamond, timelock.value, minDelay, files, calldata.value, 0,
                         ZeroWord)
  {
    if |files| == 0 {
      return Skipped;
    }
    if timelock.None? {
      return Checked([TimelockNotConfigured]);
    }
    if calldata.None? {
      return Checked([CalldataMissing]);
    }
    var data := calldata.value;
    var issues: seq<Issue> := [];
    if |files| != |data| {
      issues := issues + [CountMismatch];
    }
    if files[0].chainId.None? {
      issues := issues + [ChainIdMissing];
    }
    var chainId := if files[0].chainId.Some? then files[0].chainId.value else 0;
    var predecessor := ZeroWord;
    ghost var headerOk := issues == [];
    var n := if |files| < |data| then |files| else |data|;
    for i := 0 to n
      invariant headerOk ==> files[0].chainId == Some(chainId)
      invariant (headerOk && FilesPass(kind, chainId, diamond, timelock.value, minDelay, files, data, 0, ZeroWord))
                <==> (issues == []
                      && FilesPass(kind, chainId, diamond, timelock.value, minDelay, files, data, i, predecessor))
    {
      var file := files[i];
      if file.chainId != Some(chainId) {
        issues := issues + [ChainIdDiffers(i)];
      }
      if |file.transactions| != 1 {
        issues := issues + [TxCount(i)];
        continue;
      }
      var tx := file.transactions[0];
      if tx.to != timelock.value {
        issues := issues + [WrongTo(i)];
      }
      if !IsKind(tx.call, kind) {
        issues := issues + [DecodeFailed(i)];
        continue;
      }
      var callIssues := CheckCall(kind, chainId, diamond, minDelay, tx.call, data[i], i, predecessor);
      issues := issues + callIssues;
      predecessor := OperationId(tx.call);
    }
    return Checked(issues);
  }

  function DelayOf(call: Call): nat {
    if call.ScheduleCall? then call.delay else 0
  }

  /** A known minimal delay is demanded of schedule calls; execute calls carry none. */
  predicate DelayPasses(kind: Kind, minDelay: Option<nat>, delay: nat) {
    kind == ScheduleKind && minDelay.Some? ==> delay == minDelay.value
  }

  /** File `i` makes exactly the generated call for some delay, whatever ether value its transaction carries. */
  ghost predicate CarriesChunk(kind: Kind, chainId: int, diamond: Address, timelock: Address,
                               file: SafeBatch, data: seq<Calldata>, i: nat)
    requires i < |data|
  {
    && file.chainId == Some(chainId) && |file.transactions| == 1 && file.transactions[0].to == timelock
    && var call := file.transactions[0].call;
       call == GeneratedCall(kind, chainId, diamond, data, DelayOf(call), i)
  }

  /** File `i` makes the generated call, with a delay that passes. */
  ghost predicate ChunkAccepted(kind: Kind, chainId: int, diamond: Address, timelock: Address, minDelay: Option<nat>,
                                file: SafeBatch, data: seq<Calldata>, i: nat)
    requires i < |data|
  {
    && CarriesChunk(kind, chainId, diamond, timelock, file, data, i)
    && DelayPasses(kind, minDelay, DelayOf(file.transactions[0].call))
  }

  /**
   On a positive chain id the checker accepts exactly the files that carry, one chunk each, the generated
   calldata, salt and predecessor - and, when a minimal delay is given, that delay.
   */
  lemma {:induction false} AcceptedIffChain(kind: Kind, chainId: int, diamond: Address, timelock: Address,
                                            minDelay: Option<nat>, files: seq<SafeBatch>, data: seq<Calldata>, i: nat)
    requires chainId > 0 && |files| == |data| && i <= |data|
    ensures FilesPass(kind, chainId, diamond, timelock, minDelay, files, data, i,
                      Predecessor(chainId, diamond, data, i))
            <==> forall j :: i <= j < |data| ==>
                               ChunkAccepted(kind, chainId, diamond, timelock, minDelay, files[j], data, j)
    decreases |data| - i
  {
    if i < |data| {
      AcceptedIffChain(kind, chainId, diamond, timelock, minDelay, files, data, i + 1);
      var predecessor := Predecessor(chainId, diamond, data, i);
      assert FilePasses(kind, chainId, diamond, timelock, minDelay, files[i], data[i], i, predecessor)
        <==> ChunkAccepted(kind, chainId, diamond, timelock, minDelay, files[i], data, i);
      if CarriesChunk(kind, chainId, diamond, timelock, files[i], data, i) {
        assert OperationId(files[i].transactions[0].call) == Predecessor(chainId, diamond, data, i + 1);
      }
    }
  }

  /** Generated files pass on every chain id, unless a minimal delay is given that is not theirs. */
  lemma {:induction false} GeneratedFilesPass(kind: Kind, chainId: int, diamond: Address, timelock: Address,
                                              minDelay: Option<nat>, data: seq<Calldata>, delay: nat, i: nat)
    requires i <= |data|
    ensures FilesPass(kind, chainId, diamond, timelock, minDelay,
                      GeneratedFiles(kind, chainId, diamond, timelock, data, delay), data, i,
                      Predecessor(chainId, diamond, data, i))
            <==> i == |data| || DelayPasses(kind, minDelay, delay)
    decreases |data| - i
  {
    if i < |data| {
      GeneratedFilesPass(kind, chainId, diamond, timelock, minDelay, data, delay, i + 1);
      var files := GeneratedFiles(kind, chainId, diamond, timelock, data, delay);
      assert OperationId(files[i].transactions[0].call) == Predecessor(chainId, diamond, data, i + 1);
    }
  }

  // ---- When acceptance means the generated chain ----

  /** No transaction carries ether. */
  predicate NoValue(files: seq<SafeBatch>) {
    forall j :: 0 <= j < |files| ==> forall t | t in files[j].transactions :: t.value == 0
  }

  /** Nothing but the generated chain for the due delay is accepted, up to the ether that the transactions carry. */
  ghost predicate AcceptsOnlyTheChain(kind: Kind, chainId: int, diamond: Address, timelock: Address,
                                      minDelay: Option<nat>, due: nat, data: seq<Calldata>)
  {
    forall files | |files| == |data| && NoValue(files)
                   && FilesPass(kind, chainId, diamond, timelock, minDelay, files, data, 0, ZeroWord) ::
      files == GeneratedFiles(kind, chainId, diamond, timelock, data, due)
  }

  lemma CarriesTheDueDelay(kind: Kind, chainId: int, diamond: Address, timelock: Address, due: nat, file: SafeBatch,
                           data: seq<Calldata>, i: nat)
    requires i < |data|
    ensures file == GeneratedFiles(kind, chainId, diamond, timelock, data, due)[i] <==>
            && CarriesChunk(kind, chainId, diamond, timelock, file, data, i)
            && file.transactions[0].value == 0
            && (kind == ScheduleKind ==> DelayOf(file.transactions[0].call) == due)
  {
    if |file.transactions| == 1 {
      assert file.transactions == [file.transactions[0]];
    }
  }

  const FOREIGN_SALT := OtherWord(7)

  /** A chain of operations that is linked like the generated one but has a foreign salt throughout. */
  function ForgedOp(diamond: Address, data: seq<Calldata>, i: nat): Word
    requires i < |data|
    decreases i, 1
  {
    OpHash(diamond, 0, data[i], ForgedPredecessor(diamond, data, i), FOREIGN_SALT)
  }

  function ForgedPredecessor(diamond: Address, data: seq<Calldata>, i: nat): Word
    requires i <= |data|
    decreases i, 0
  {
    if i == 0 then ZeroWord else ForgedOp(diamond, data, i - 1)
  }

  function ForgedCall(kind: Kind, diamond: Address, data: seq<Calldata>, delay: nat, i: nat): Call
    requires i < |data|
  {
    var predecessor := ForgedPredecessor(diamond, data, i);
    if kind == ScheduleKind then ScheduleCall(diamond, 0, data[i], predecessor, FOREIGN_SALT, delay)
    else ExecuteCall(diamond, 0, data[i], predecessor, FOREIGN_SALT)
  }

  function ForgedFiles(kind: Kind, chainId: int, diamond: Address, timelock: Address, data: seq<Calldata>, delay: nat)
      : seq<SafeBatch>
  {
    seq(|data|, i requires 0 <= i < |data| =>
      SafeBatch(Some(chainId), [Tx(timelock, 0, ForgedCall(kind, diamond, data, delay, i))]))
  }

  /** Without a positive chain id no salt is checked: a whole chain of foreign salts is accepted, of either kind. */
  lemma {:induction false} SaltUncheckedWithoutChainId(kind: Kind, chainId: int, diamond: Address, timelock: Address,
                                                       minDelay: Option<nat>, data: seq<Calldata>, delay: nat, i: nat)
    requires chainId <= 0 && i <= |data| && DelayPasses(kind, minDelay, delay)
    ensures var files := ForgedFiles(kind, chainId, diamond, timelock, data, delay);
            && FilesPass(kind, chainId, diamond, timelock, minDelay, files, data, i,
                         ForgedPredecessor(diamond, data, i))
            && forall j :: 0 <= j < |data| ==> !CarriesChunk(kind, chainId, diamond, timelock, files[j], data, j)
    decreases |data| - i
  {
    var files := ForgedFiles(kind, chainId, diamond, timelock, data, delay);
    if i < |data| {
      SaltUncheckedWithoutChainId(kind, chainId, diamond, timelock, minDelay, data, delay, i + 1);
      assert OperationId(files[i].transactions[0].call) == ForgedPredecessor(diamond, data, i + 1);
    }
    forall j | 0 <= j < |data|
      ensures !CarriesChunk(kind, chainId, diamond, timelock, files[j], data, j)
    {
      assert GeneratedCall(kind, chainId, diamond, data, DelayOf(files[j].transactions[0].call), j).salt
             == SaltHash(chainId, diamond, j);
    }
  }

  /** Without a minimal delay no delay is checked: scheduling the chain with any other delay is accepted. */
  lemma DelayUncheckedWithoutMinDelay(chainId: int, diamond: Address, timelock: Address, data: seq<Calldata>,
                                      due: nat, delay: nat)
    requires data != [] && delay != due
    ensures var files := GeneratedFiles(ScheduleKind, chainId, diamond, timelock, data, delay);
            && FilesPass(ScheduleKind, chainId, diamond, timelock, None, files, data, 0, ZeroWord)
            && NoValue(files) && files != GeneratedFiles(ScheduleKind, chainId, diamond, timelock, data, due)
  {
    GeneratedFilesPass(ScheduleKind, chainId, diamond, timelock, None, data, delay, 0);
    var files := GeneratedFiles(ScheduleKind, chainId, diamond, timelock, data, delay);
    CarriesTheDueDelay(ScheduleKind, chainId, diamond, timelock, due, files[0], data, 0);
  }

  /**
   Acceptance means the generated chain, up to the ether, exactly when the chain id is positive and, for
   schedule files, the checker is given the delay that is due. The scripts give it none.
   */
  lemma AcceptsOnlyTheChainIff(kind: Kind, chainId: int, diamond: Address, timelock: Address,
                               minDelay: Option<nat>, due: nat, data: seq<Calldata>)
    requires data != []
    ensures AcceptsOnlyTheChain(kind, chainId, diamond, timelock, minDelay, due, data)
            <==> chainId > 0 && (kind == ExecuteKind || minDelay == Some(due))
  {
    var delay := if minDelay.Some? then minDelay.value else due + 1;
    if chainId <= 0 {
      SaltUncheckedWithoutChainId(kind, chainId, diamond, timelock, minDelay, data, delay, 0);
      var forged := ForgedFiles(kind, chainId, diamond, timelock, data, delay);
      CarriesTheDueDelay(kind, chainId, diamond, timelock, due, forged[0], data, 0);
      assert NoValue(forged) && forged != GeneratedFiles(kind, chainId, diamond, timelock, data, due);
    } else if kind == ScheduleKind && minDelay != Some(due) {
      GeneratedFilesPass(kind, chainId, diamond, timelock, minDelay, data, delay, 0);
      var files := GeneratedFiles(kind, chainId, diamond, timelock, data, delay);
      CarriesTheDueDelay(kind, chainId, diamond, timelock, due, files[0], data, 0);
      assert NoValue(files) && files != GeneratedFiles(kind, chainId, diamond, timelock, data, due);
    } else {
      forall files | |files| == |data| && NoValue(files)
                     && FilesPass(kind, chainId, diamond, timelock, minDelay, files, data, 0, ZeroWord)
        ensures files == GeneratedFiles(kind, chainId, diamond, timelock, data, due)
      {
        AcceptedIffChain(kind, chainId, diamond, timelock, minDelay, files, data, 0);
        forall j | 0 <= j < |data|
          ensures files[j] == GeneratedFiles(kind, chainId, diamond, timelock, data, due)[j]
        {
          CarriesTheDueDelay(kind, chainId, diamond, timelock, due, files[j], data, j);
        }
      }
    }
  }

  // ---- What is never checked ----

  /** The same files, every transaction carrying `v` wei. */
  function WithValue(files: seq<SafeBatch>, v: nat): seq<SafeBatch> {
    seq(|files|, j requires 0 <= j < |files| =>
      files[j].(transactions := seq(|files[j].transactions|, t requires 0 <= t < |files[j].transactions| =>
                                  files[j].transactions[t].(value := v))))
  }

  /** The ether of the outer transactions decides nothing. */
  lemma {:induction false} ValueUnchecked(kind: Kind, chainId: int, diamond: Address, timelock: Address,
                                          minDelay: Option<nat>, files: seq<SafeBatch>, data: seq<Calldata>, v: nat,
                                          i: nat, predecessor: Word)
    requires i <= |files| && i <= |data|
    ensures FilesPass(kind, chainId, diamond, timelock, minDelay, WithValue(files, v), data, i, predecessor)
            <==> FilesPass(kind, chainId, diamond, timelock, minDelay, files, data, i, predecessor)
    decreases |files| - i
  {
    if i < |files| && i < |data| && |files[i].transactions| == 1 && IsKind(files[i].transactions[0].call, kind) {
      assert WithValue(files, v)[i].transactions[0].call == files[i].transactions[0].call;
      ValueUnchecked(kind, chainId, diamond, timelock, minDelay, files, data, v, i + 1,
                     OperationId(files[i].transactions[0].call));
    }
  }

  /** The generated files with ether on top are accepted, although they are others. */
  lemma ValueAccepted(kind: Kind, chainId: int, diamond: Address, timelock: Address, minDelay: Option<nat>, delay: nat,
                      data: seq<Calldata>, v: nat)
    requires data != [] && v != 0 && DelayPasses(kind, minDelay, delay)
    ensures var files := GeneratedFiles(kind, chainId, diamond, timelock, data, delay);
            && FilesPass(kind, chainId, diamond, timelock, minDelay, WithValue(files, v), data, 0, ZeroWord)
            && WithValue(files, v) != files
  {
    var files := GeneratedFiles(kind, chainId, diamond, timelock, data, delay);
    GeneratedFilesPass(kind, chainId, diamond, timelock, minDelay, data, delay, 0);
    ValueUnchecked(kind, chainId, diamond, timelock, minDelay, files, data, v, 0, ZeroWord);
    assert WithValue(files, v)[0].transactions[0].value == v && files[0].transactions[0].value == 0;
  }

  /** The chain id is the files' own: a chain that was generated for another network is accepted. */
  lemma OtherNetworkAccepted(kind: Kind, network: int, other: int, diamond: Address, timelock: Address,
                             minDelay: Option<nat>, delay: nat, data: seq<Calldata>)
    requires data != [] && other != network && DelayPasses(kind, minDelay, delay)
    ensures var files := GeneratedFiles(kind, other, diamond, timelock, data, delay);
            && files[0].chainId == Some(other)
            && FilesPass(kind, files[0].chainId.value, diamond, timelock, minDelay, files, data, 0, ZeroWord)
            && files != GeneratedFiles(kind, network, diamond, timelock, data, delay)
  {
    var files := GeneratedFiles(kind, other, diamond, timelock, data, delay);
    GeneratedFilesPass(kind, other, diamond, timelock, minDelay, data, delay, 0);
    assert GeneratedFiles(kind, network, diamond, timelock, data, delay)[0].chainId == Some(network);
  }

  /** What is left to check in an accepted file: the network, the ether, the delay, and without a chain id the salt. */
  ghost predicate UncheckedIsRight(kind: Kind, network: int, diamond: Address, due: nat, file: SafeBatch, i: nat) {
    && file.chainId == Some(network) && |file.transactions| == 1
    && var tx := file.transactions[0];
       && IsKind(tx.call, kind) && tx.value == 0
       && (kind == ScheduleKind ==> tx.call.delay == due)
       && (network > 0 || tx.call.salt == SaltHash(network, diamond, i))
  }

  lemma {:induction false} RightFromThereOn(kind: Kind, network: int, diamond: Address, timelock: Address,
                                            minDelay: Option<nat>, files: seq<SafeBatch>, data: seq<Calldata>,
                                            due: nat, i: nat)
    requires |files| == |data| && i <= |data|
    requires FilesPass(kind, network, diamond, timelock, minDelay, files, data, i,
                       Predecessor(network, diamond, data, i))
    requires forall j :: i <= j < |files| ==> UncheckedIsRight(kind, network, diamond, due, files[j], j)
    ensures forall j :: i <= j < |files| ==>
                          files[j] == GeneratedFiles(kind, network, diamond, timelock, data, due)[j]
    decreases |data| - i
  {
    if i < |data| {
      CarriesTheDueDelay(kind, network, diamond, timelock, due, files[i], data, i);
      assert OperationId(files[i].transactions[0].call) == Predecessor(network, diamond, data, i + 1);
      RightFromThereOn(kind, network, diamond, timelock, minDelay, files, data, due, i + 1);
    }
  }

  /** Accepted files are the chain generated for a network and a delay exactly when what is never checked is right. */
  lemma AcceptedIsChainIff(kind: Kind, network: int, diamond: Address, timelock: Address, minDelay: Option<nat>,
                           due: nat, files: seq<SafeBatch>, data: seq<Calldata>)
    requires |files| == |data| > 0 && files[0].chainId.Some?
    requires FilesPass(kind, files[0].chainId.value, diamond, timelock, minDelay, files, data, 0, ZeroWord)
    ensures files == GeneratedFiles(kind, network, diamond, timelock, data, due) <==>
            forall j :: 0 <= j < |files| ==> UncheckedIsRight(kind, network, diamond, due, files[j], j)
  {
    if forall j :: 0 <= j < |files| ==> UncheckedIsRight(kind, network, diamond, due, files[j], j) {
      assert UncheckedIsRight(kind, network, diamond, due, files[0], 0);
      RightFromThereOn(kind, network, diamond, timelock, minDelay, files, data, due, 0);
    }
  }

  // ---- The output directory ----

  function KindName(kind: Kind): string {
    if kind == ScheduleKind then "schedule" else "execute"
  }

  function BatchPrefix(kind: Kind, network: string): string {
    "timelock-" + KindName(kind) + "-safe-batch-" + network
  }

  /** The directory after a generator run: no stale chunk file is left, and all new ones are there. */
  ghost predicate Written(dir: map<string, SafeBatch>, network: string, kind: Kind, files: seq<SafeBatch>) {
    && (forall name :: name in dir && Matches(BatchPrefix(kind, network), name) ==>
          name in ChunkNames(BatchPrefix(kind, network), |files|))
    && (forall i :: 0 <= i < |files| ==>
          var name := ChunkName(BatchPrefix(kind, network), |files|, i);
          name in dir && dir[name] == files[i])
  }

  predicate Stale(network: string, name: string) {
    Matches(BatchPrefix(ScheduleKind, network), name) || Matches(BatchPrefix(ExecuteKind, network), name)
  }

  /** Removes earlier chunk files of either kind. */
  method CleanOutput(dir: map<string, SafeBatch>, listing: seq<string>, network: string)
      returns (cleaned: map<string, SafeBatch>)
    requires forall name :: name in dir ==> name in listing
    ensures forall name :: name in cleaned <==> (name in dir && !Stale(network, name))
    ensures forall name :: name in cleaned ==> cleaned[name] == dir[name]
  {
    cleaned := dir;
    for i := 0 to |listing|
      invariant forall name :: name in cleaned <==> (name in dir && !(name in listing[..i] && Stale(network, name)))
      invariant forall name :: name in cleaned ==> cleaned[name] == dir[name]
    {
      PrefixStep(listing, i);
      if Stale(network, listing[i]) {
        cleaned := cleaned - {listing[i]};
      }
    }
    assert listing[..|listing|] == listing;
  }

  /** A generator run on the output directory: clean up, then write both kinds. */
  method WriteBatches(dir: map<string, SafeBatch>, listing: seq<string>, network: string,
                      scheduleFiles: seq<SafeBatch>, executeFiles: seq<SafeBatch>)
      returns (after: map<string, SafeBatch>)
    requires forall name :: name in dir ==> name in listing
    ensures Written(after, network, ScheduleKind, scheduleFiles)
    ensures Written(after, network, ExecuteKind, executeFiles)
    ensures forall name :: name in dir && !Stale(network, name) ==> (name in after && after[name] == dir[name])
  {
    var cleaned := CleanOutput(dir, listing, network);
    var half := WriteKind(cleaned, ScheduleKind, network, scheduleFiles);
    after := WriteKind(half, ExecuteKind, network, executeFiles);
    FirstKindSurvives(half, after, network, scheduleFiles, executeFiles);
    SecondKindWritten(half, after, network, scheduleFiles, executeFiles);
    forall name | name in dir && !Stale(network, name)
      ensures name in after && after[name] == dir[name]
    {
      NotAChunkName(BatchPrefix(ScheduleKind, network), |scheduleFiles|, name);
      NotAChunkName(BatchPrefix(ExecuteKind, network), |executeFiles|, name);
    }
  }

  /** `after` is `dir` with the files of a kind written over it. */
  ghost predicate Overwritten(dir: map<string, SafeBatch>, after: map<string, SafeBatch>, kind: Kind, network: string,
                              files: seq<SafeBatch>)
  {
    var names := ChunkNames(BatchPrefix(kind, network), |files|);
    && (forall name :: name in after <==> (name in dir || name in names))
    && (forall name :: name in dir && name !in names ==> after[name] == dir[name])
    && (forall i :: 0 <= i < |files| ==> after[names[i]] == files[i])
  }

  lemma FirstKindSurvives(half: map<string, SafeBatch>, after: map<string, SafeBatch>, network: string,
                          scheduleFiles: seq<SafeBatch>, executeFiles: seq<SafeBatch>)
    requires Overwritten(half, after, ExecuteKind, network, executeFiles)
    requires forall name :: name in half && Stale(network, name) ==>
               name in ChunkNames(BatchPrefix(ScheduleKind, network), |scheduleFiles|)
    requires forall i :: 0 <= i < |scheduleFiles| ==>
               var name := ChunkNames(BatchPrefix(ScheduleKind, network), |scheduleFiles|)[i];
               name in half && half[name] == scheduleFiles[i]
    ensures Written(after, network, ScheduleKind, scheduleFiles)
  {
    OtherKindUntouched(network, |executeFiles|, ScheduleKind, ExecuteKind);
    forall i | 0 <= i < |scheduleFiles|
      ensures var name := ChunkName(BatchPrefix(ScheduleKind, network), |scheduleFiles|, i);
              name in after && after[name] == scheduleFiles[i]
    {
      ChunkNameMatches(BatchPrefix(ScheduleKind, network), |scheduleFiles|, i);
      assert ChunkNames(BatchPrefix(ScheduleKind, network), |scheduleFiles|)[i] in half;
    }
  }

  lemma SecondKindWritten(half: map<string, SafeBatch>, after: map<string, SafeBatch>, network: string,
                          scheduleFiles: seq<SafeBatch>, executeFiles: seq<SafeBatch>)
    requires Overwritten(half, after, ExecuteKind, network, executeFiles)
    requires forall name :: name in half && Stale(network, name) ==>
               name in ChunkNames(BatchPrefix(ScheduleKind, network), |scheduleFiles|)
    ensures Written(after, network, ExecuteKind, executeFiles)
  {
    OtherKindUntouched(network, |scheduleFiles|, ExecuteKind, ScheduleKind);
    forall i | 0 <= i < |executeFiles|
      ensures var name := ChunkName(BatchPrefix(ExecuteKind, network), |executeFiles|, i);
              name in after && after[name] == executeFiles[i]
    {
      assert ChunkNames(BatchPrefix(ExecuteKind, network), |executeFiles|)[i] in after;
    }
  }

  lemma NotAChunkName(prefix: string, n: nat, name: string)
    requires !Matches(prefix, name)
    ensures name !in ChunkNames(prefix, n)
  {
    if name in ChunkNames(prefix, n) {
      var i :| 0 <= i < n && ChunkNames(prefix, n)[i] == name;
      ChunkNameMatches(prefix, n, i);
    }
  }

  lemma OtherKindUntouched(network: string, n: nat, kind: Kind, other: Kind)
    requires kind != other
    ensures forall name :: name in ChunkNames(BatchPrefix(other, network), n) ==>
                             !Matches(BatchPrefix(kind, network), name)
  {
    forall name | name in ChunkNames(BatchPrefix(other, network), n)
      ensures !Matches(BatchPrefix(kind, network), name)
    {
      var i :| 0 <= i < n && ChunkNames(BatchPrefix(other, network), n)[i] == name;
      KindsDoNotMix(network, n, i, kind, other);
    }
  }

  /** Writes one value per name; the names are distinct, so none of them is overwritten. */
  method WriteAll<K(==, !new), V>(dir: map<K, V>, names: seq<K>, values: seq<V>) returns (after: map<K, V>)
    requires |names| == |values| && Distinct(names)
    ensures forall name | name in after :: name in dir || name in names
    ensures forall name | name in dir :: name in after && (name !in names ==> after[name] == dir[name])
    ensures forall i :: 0 <= i < |names| ==> names[i] in after && after[names[i]] == values[i]
  {
    after := dir;
    for i := 0 to |names|
      invariant forall name | name in after :: name in dir || name in names[..i]
      invariant forall name | name in dir :: name in after && (name !in names[..i] ==> after[name] == dir[name])
      invariant forall j :: 0 <= j < i ==> names[j] in after && after[names[j]] == values[j]
    {
      PrefixStep(names, i);
      after := after[names[i] := values[i]];
    }
    assert names[..|names|] == names;
  }

  method WriteKind(dir: map<string, SafeBatch>, kind: Kind, network: string, files: seq<SafeBatch>)
      returns (after: map<string, SafeBatch>)
    ensures Overwritten(dir, after, kind, network, files)
  {
    var names := ChunkNames(BatchPrefix(kind, network), |files|);
    forall i, j | 0 <= i < j < |names|
      ensures names[i] != names[j]
    {
      ChunkNamesAscend(BatchPrefix(kind, network), |files|, i, j);
      NotLessBothWays(names[i], names[j]);
    }
    after := WriteAll(dir, names, files);
    forall name | name in names
      ensures name in after
    {
      var i :| 0 <= i < |names| && names[i] == name;
    }
  }

  lemma KindsDoNotMix(network: string, n: nat, i: nat, kind: Kind, other: Kind)
    requires kind != other && i < n
    ensures !Matches(BatchPrefix(kind, network), ChunkName(BatchPrefix(other, network), n, i))
  {
    var prefix, name := BatchPrefix(kind, network), ChunkName(BatchPrefix(other, network), n, i);
    assert prefix[9] == KindName(kind)[0];
    assert name[9] == KindName(other)[0];
    assert |name| >= |prefix| ==> name[..|prefix|][9] == name[9];
  }

  lemma {:induction false} DistinctCounts(s: seq<string>, x: string)
    requires Distinct(s)
    ensures multiset(s)[x] == if x in s then 1 else 0
  {
    if |s| > 0 {
      assert s == [s[0]] + s[1..];
      DistinctCounts(s[1..], x);
    }
  }

  /** Collecting the written files of a kind, however the directory lists them, gives them in chunk order. */
  lemma CollectedInChunkOrder(dir: map<string, SafeBatch>, network: string, kind: Kind, files: seq<SafeBatch>,
                              listing: seq<string>, out: seq<string>)
    requires Written(dir, network, kind, files)
    requires Distinct(listing) && SortOf(out, listing)
    requires forall name :: name in listing <==> name in dir && Matches(BatchPrefix(kind, network), name)
    ensures out == ChunkNames(BatchPrefix(kind, network), |files|)
    ensures forall i :: 0 <= i < |out| ==> out[i] in dir && dir[out[i]] == files[i]
  {
    var prefix, n := BatchPrefix(kind, network), |files|;
    var names := ChunkNames(prefix, n);
    assert Distinct(names) by {
      forall i, j | 0 <= i < j < n
        ensures names[i] != names[j]
      {
        ChunkNamesAscend(prefix, n, i, j);
        NotLessBothWays(names[i], names[j]);
      }
    }
    forall i | 0 <= i < n
      ensures names[i] in listing
    {
      ChunkNameMatches(prefix, n, i);
      assert names[i] == ChunkName(prefix, n, i);
    }
    forall x: string
      ensures multiset(listing)[x] == multiset(names)[x]
    {
      DistinctCounts(listing, x);
      DistinctCounts(names, x);
    }
    SortedListingIsChunkOrder(prefix, n, listing, out);
  }

  /**
   What the generator wrote is what the checker accepts, end to end through the directory, on every chain id;
   it objects only when it is given a minimal delay that is not the files'.
   */
  lemma GeneratedBatchesVerify(kind: Kind, chainId: int, diamond: Address, timelock: Address, minDelay: Option<nat>,
                               delay: nat, data: seq<Calldata>, dir: map<string, SafeBatch>, network: string,
                               listing: seq<string>, out: seq<string>, files: seq<SafeBatch>)
    requires Written(dir, network, kind, GeneratedFiles(kind, chainId, diamond, timelock, data, delay))
    requires Distinct(listing) && SortOf(out, listing)
    requires forall name :: name in listing <==> name in dir && Matches(BatchPrefix(kind, network), name)
    requires |files| == |out| && forall i :: 0 <= i < |out| && out[i] in dir ==> files[i] == dir[out[i]]
    ensures |files| == |data|
    ensures FilesPass(kind, chainId, diamond, timelock, minDelay, files, data, 0, ZeroWord)
            <==> data == [] || DelayPasses(kind, minDelay, delay)
  {
    var generated := GeneratedFiles(kind, chainId, diamond, timelock, data, delay);
    CollectedInChunkOrder(dir, network, kind, generated, listing, out);
    assert files == generated;
    GeneratedFilesPass(kind, chainId, diamond, timelock, minDelay, data, delay, 0);
  }

  // ---- verifyDiamondCutCalldata ----

  datatype CutIssue =
    | DiamondMismatch | NotACut(chunk: nat) | InitNotZero(chunk: nat) | InitDataNotEmpty(chunk: nat)
    | DuplicateSelector(selector: Selector) | UnknownFacet(facet: Address)
    | NotDeclared(selector: Selector, facet: Address) | RemoveTargetsFacet(facet: Address) | InvalidAction(action: nat)
    | MissingFacet(name: string)
    | MissingSelector(name: string, selector: Selector) | NotInArtifact(name: string, selector: Selector)

  /** The selectors declared by the last deployed facet at an address. */
  function DeclaredAt(deployed: seq<Facet>, facet: Address): Option<seq<Selector>> {
    if |deployed| == 0 then None
    else if deployed[|deployed| - 1].facet == facet then Some(deployed[|deployed| - 1].selectors)
    else DeclaredAt(deployed[..|deployed| - 1], facet)
  }

  /** `k` is the last deployed facet at the address. */
  ghost predicate LastAt(deployed: seq<Facet>, k: int, facet: Address) {
    0 <= k < |deployed| && deployed[k].facet == facet && forall j :: k < j < |deployed| ==> deployed[j].facet != facet
  }

  /** Some deployed facet is at the address, and the last one there declares the selector. */
  ghost predicate Declares(deployed: seq<Facet>, facet: Address, s: Selector) {
    exists k :: LastAt(deployed, k, facet) && s in deployed[k].selectors
  }

  lemma {:induction false} DeclaredAtIff(deployed: seq<Facet>, facet: Address)
    ensures DeclaredAt(deployed, facet).Some? <==> exists k :: LastAt(deployed, k, facet)
    ensures forall k :: LastAt(deployed, k, facet) ==> DeclaredAt(deployed, facet) == Some(deployed[k].selectors)
  {
    if |deployed| > 0 {
      var n := |deployed| - 1;
      DeclaredAtIff(deployed[..n], facet);
      if deployed[n].facet == facet {
        assert LastAt(deployed, n, facet);
      } else {
        assert forall k :: LastAt(deployed, k, facet) <==> LastAt(deployed[..n], k, facet);
      }
    }
  }

  /**
   A call that may be signed, spelled out: it has no initializer and no data for one, its actions exist, what it
   adds or replaces goes to an address where every selector is declared, and what it removes goes to zero.
   */
  ghost predicate CleanCall(deployed: seq<Facet>, data: Calldata) {
    && data.CutCall? && data.init == ZERO_ADDRESS && data.initData == []
    && (forall c :: 0 <= c < |data.cuts| ==> data.cuts[c].action <= 2)
    && (forall c :: 0 <= c < |data.cuts| && data.cuts[c].action <= 1 ==>
                      exists k :: LastAt(deployed, k, data.cuts[c].facet))
    && (forall c, s :: 0 <= c < |data.cuts| && data.cuts[c].action <= 1 && s in data.cuts[c].selectors ==>
                         Declares(deployed, data.cuts[c].facet, s))
    && (forall c :: 0 <= c < |data.cuts| && data.cuts[c].action == 2 ==> data.cuts[c].facet == ZERO_ADDRESS)
  }

  lemma CutPassesIff(deployed: seq<Facet>, cut: RawCut)
    ensures CutPasses(deployed, cut) <==>
            && cut.action <= 2
            && (cut.action <= 1 ==> exists k :: LastAt(deployed, k, cut.facet))
            && (cut.action <= 1 ==> forall s | s in cut.selectors :: Declares(deployed, cut.facet, s))
            && (cut.action == 2 ==> cut.facet == ZERO_ADDRESS)
  {
    DeclaredAtIff(deployed, cut.facet);
    if k :| LastAt(deployed, k, cut.facet) {
      assert DeclaredAt(deployed, cut.facet) == Some(deployed[k].selectors);
    }
  }

  lemma ChunkPassesIff(deployed: seq<Facet>, data: Calldata)
    ensures ChunkPasses(deployed, data) <==> CleanCall(deployed, data)
  {
    if data.CutCall? {
      forall c | 0 <= c < |data.cuts|
        ensures CutPasses(deployed, data.cuts[c]) <==>
                && data.cuts[c].action <= 2
                && (data.cuts[c].action <= 1 ==> exists k :: LastAt(deployed, k, data.cuts[c].facet))
                && (data.cuts[c].action <= 1 ==>
                      forall s | s in data.cuts[c].selectors :: Declares(deployed, data.cuts[c].facet, s))
                && (data.cuts[c].action == 2 ==> data.cuts[c].facet == ZERO_ADDRESS)
      {
        CutPassesIff(deployed, data.cuts[c]);
      }
    }
  }

  predicate CutPasses(deployed: seq<Facet>, cut: RawCut) {
    if cut.action <= 1 then
      && DeclaredAt(deployed, cut.facet).Some?
      && forall s :: s in cut.selectors ==> s in DeclaredAt(deployed, cut.facet).value
    else cut.action == 2 && cut.facet == ZERO_ADDRESS
  }

  predicate ChunkPasses(deployed: seq<Facet>, data: Calldata) {
    && data.CutCall? && data.init == ZERO_ADDRESS && data.initData == []
    && forall i :: 0 <= i < |data.cuts| ==> CutPasses(deployed, data.cuts[i])
  }

  function CutSelectors(cuts: seq<RawCut>): seq<Selector> {
    if |cuts| == 0 then [] else CutSelectors(cuts[..|cuts| - 1]) + cuts[|cuts| - 1].selectors
  }

  /** All selectors named by the decodable chunks, in order. */
  function ChunkSelectors(chunks: seq<Calldata>): seq<Selector> {
    if |chunks| == 0 then []
    else
      var last := chunks[|chunks| - 1];
      ChunkSelectors(chunks[..|chunks| - 1]) + if last.CutCall? then CutSelectors(last.cuts) else []
  }

  lemma PrefixDistinct(a: seq<Selector>, b: seq<Selector>)
    requires Distinct(a + b)
    ensures Distinct(a)
  {
    assert forall i :: 0 <= i < |a| ==> (a + b)[i] == a[i];
  }

  function Elements(s: seq<Selector>): set<Selector> {
    set x | x in s
  }

  /** The duplicate check; `listed` are the selectors seen before. */
  method CheckDuplicates(selectors: seq<Selector>, before: set<Selector>, ghost listed: seq<Selector>)
      returns (issues: seq<CutIssue>, seen: set<Selector>)
    requires before == Elements(listed)
    ensures seen == Elements(listed + selectors)
    ensures issues == [] && Distinct(listed) <==> Distinct(listed + selectors)
  {
    issues, seen := [], before;
    assert listed + selectors[..0] == listed;
    for i := 0 to |selectors|
      invariant seen == Elements(listed + selectors[..i])
      invariant issues == [] && Distinct(listed) <==> Distinct(listed + selectors[..i])
    {
      var s := selectors[i];
      assert listed + selectors[..i + 1] == listed + selectors[..i] + [s];
      DistinctSnoc(listed + selectors[..i], s);
      if s in seen {
        issues := issues + [DuplicateSelector(s)];
      }
      seen := seen + {s};
    }
    assert selectors[..|selectors|] == selectors;
  }

  /** Lookup table from facet address to declared selectors; a later facet at an address wins. */
  method IndexFacets(deployed: seq<Facet>) returns (declared: map<Address, seq<Selector>>)
    ensures forall f :: DeclaredAt(deployed, f) == if f in declared then Some(declared[f]) else None
  {
    declared := map[];
    for i := 0 to |deployed|
      invariant forall f :: DeclaredAt(deployed[..i], f) == if f in declared then Some(declared[f]) else None
    {
      assert deployed[..i + 1][..i] == deployed[..i];
      declared := declared[deployed[i].facet := deployed[i].selectors];
    }
    assert deployed[..|deployed|] == deployed;
  }

  /** The checks on one cut other than duplicates. */
  method CheckCut(declared: map<Address, seq<Selector>>, ghost deployed: seq<Facet>, cut: RawCut)
      returns (issues: seq<CutIssue>)
    requires forall f :: DeclaredAt(deployed, f) == if f in declared then Some(declared[f]) else None
    ensures issues == [] <==> CutPasses(deployed, cut)
  {
    issues := [];
    if cut.action == 0 || cut.action == 1 {
      if cut.facet !in declared {
        return [UnknownFacet(cut.facet)];
      }
      var expected := declared[cut.facet];
      for i := 0 to |cut.selectors|
        invariant issues == [] <==> forall j :: 0 <= j < i ==> cut.selectors[j] in expected
      {
        if cut.selectors[i] !in expected {
          issues := issues + [NotDeclared(cut.selectors[i], cut.facet)];
        }
      }
    } else if cut.action == 2 {
      if cut.facet != ZERO_ADDRESS {
        issues := [RemoveTargetsFacet(cut.facet)];
      }
    } else {
      issues := [InvalidAction(cut.action)];
    }
  }

  /** The checks on one chunk's calldata. */
  method CheckChunk(declared: map<Address, seq<Selector>>, ghost deployed: seq<Facet>, data: Calldata, i: nat,
                    before: set<Selector>, ghost listed: seq<Selector>)
      returns (issues: seq<CutIssue>, seen: set<Selector>)
    requires forall f :: DeclaredAt(deployed, f) == if f in declared then Some(declared[f]) else None
    requires before == Elements(listed)
    ensures data.CutCall? ==> seen == Elements(listed + CutSelectors(data.cuts))
    ensures data.CutCall? ==>
              (issues == [] && Distinct(listed)
               <==> ChunkPasses(deployed, data) && Distinct(listed + CutSelectors(data.cuts)))
    ensures !data.CutCall? ==> issues != [] && seen == before
  {
    issues, seen := [], before;
    if !data.CutCall? {
      return [NotACut(i)], seen;
    }
    if data.init != ZERO_ADDRESS {
      issues := issues + [InitNotZero(i)];
    }
    if data.initData != [] {
      issues := issues + [InitDataNotEmpty(i)];
    }
    ghost var headerOk := issues == [];
    assert listed + [] == listed;
    for c := 0 to |data.cuts|
      invariant seen == Elements(listed + CutSelectors(data.cuts[..c]))
      invariant issues == [] && Distinct(listed) <==>
                headerOk && (forall j :: 0 <= j < c ==> CutPasses(deployed, data.cuts[j]))
                && Distinct(listed + CutSelectors(data.cuts[..c]))
    {
      var cut := data.cuts[c];
      assert data.cuts[..c + 1][..c] == data.cuts[..c];
      ghost var sofar := listed + CutSelectors(data.cuts[..c]);
      assert listed + CutSelectors(data.cuts[..c + 1]) == sofar + cut.selectors;
      if Distinct(sofar + cut.selectors) {
        PrefixDistinct(sofar, cut.selectors);
      }
      var duplicates, seen' := CheckDuplicates(cut.selectors, seen, sofar);
      var cutIssues := CheckCut(declared, deployed, cut);
      issues, seen := issues + duplicates + cutIssues, seen';
    }
    assert data.cuts[..|data.cuts|] == data.cuts;
  }

  /** A compiled facet: its name and the selectors of its ABI. */
  datatype Artifact = Artifact(name: string, selectors: seq<Selector>)

  /** The deployed facets by name, in file order. */
  type Deployed = JsMap<string, Facet>

  function Facets(deployed: Deployed): seq<Facet>
    requires deployed.Valid()
  {
    seq(|deployed.order|, i requires 0 <= i < |deployed.order| => deployed.at[deployed.order[i]])
  }

  /** The facet is deployed under its name, and the file lists exactly the selectors of its ABI. */
  predicate MatchesArtifact(deployed: Deployed, a: Artifact) {
    a.name in deployed.at && Elements(deployed.at[a.name].selectors) == Elements(a.selectors)
  }

  lemma MatchesIff(deployed: Deployed, a: Artifact)
    ensures MatchesArtifact(deployed, a) <==>
            a.name in deployed.at && forall s :: s in deployed.at[a.name].selectors <==> s in a.selectors
  {
    if a.name in deployed.at {
      var listed := deployed.at[a.name].selectors;
      assert forall s :: s in Elements(listed) <==> s in listed;
      assert forall s :: s in Elements(a.selectors) <==> s in a.selectors;
    }
  }

  /** The selectors of a list that are not in another, each once. */
  method NotIn(selectors: seq<Selector>, other: set<Selector>) returns (rest: seq<Selector>)
    ensures Distinct(rest) && Elements(rest) == Elements(selectors) - other
  {
    rest := [];
    for i := 0 to |selectors|
      invariant Distinct(rest) && Elements(rest) == Elements(selectors[..i]) - other
    {
      assert Elements(selectors[..i + 1]) == Elements(selectors[..i]) + {selectors[i]} by {
        assert selectors[..i + 1] == selectors[..i] + [selectors[i]];
      }
      if selectors[i] !in other && selectors[i] !in rest {
        DistinctSnoc(rest, selectors[i]);
        assert Elements(rest + [selectors[i]]) == Elements(rest) + {selectors[i]};
        rest := rest + [selectors[i]];
      }
    }
    assert selectors[..|selectors|] == selectors;
  }

  /** One compiled facet against the file. */
  method CheckArtifact(deployed: Deployed, a: Artifact) returns (issues: seq<CutIssue>)
    ensures issues == [] <==> MatchesArtifact(deployed, a)
  {
    if a.name !in deployed.at {
      return [MissingFacet(a.name)];
    }
    var actual := deployed.at[a.name].selectors;
    var missing := NotIn(a.selectors, Elements(actual));
    var unknown := NotIn(actual, Elements(a.selectors));
    issues := seq(|missing|, i requires 0 <= i < |missing| => MissingSelector(a.name, missing[i]))
              + seq(|unknown|, i requires 0 <= i < |unknown| => NotInArtifact(a.name, unknown[i]));
    NoElements(missing);
    NoElements(unknown);
  }

  lemma NoElements(s: seq<Selector>)
    ensures s == [] <==> Elements(s) == {}
  {
    assert |s| > 0 ==> s[0] in Elements(s);
  }

  /** The cross-check of the file against the compiled facets. */
  method CheckArtifacts(deployed: Deployed, artifacts: seq<Artifact>) returns (issues: seq<CutIssue>)
    ensures issues == [] <==> forall i :: 0 <= i < |artifacts| ==> MatchesArtifact(deployed, artifacts[i])
  {
    issues := [];
    for i := 0 to |artifacts|
      invariant issues == [] <==> forall j :: 0 <= j < i ==> MatchesArtifact(deployed, artifacts[j])
    {
      var more := CheckArtifact(deployed, artifacts[i]);
      issues := issues + more;
    }
  }

  ghost predicate ChunksPass(deployed: seq<Facet>, chunks: seq<Calldata>) {
    forall i :: 0 <= i < |chunks| ==> ChunkPasses(deployed, chunks[i])
  }

  lemma OneMoreChunkPasses(deployed: seq<Facet>, chunks: seq<Calldata>, i: nat)
    requires i < |chunks|
    ensures ChunksPass(deployed, chunks[..i + 1]) <==>
            ChunksPass(deployed, chunks[..i]) && ChunkPasses(deployed, chunks[i])
  {
    assert chunks[..i + 1] == chunks[..i] + [chunks[i]];
    assert ChunksPass(deployed, chunks[..i + 1]) ==> ChunkPasses(deployed, chunks[..i + 1][i]);
    assert forall j :: 0 <= j < i ==> chunks[..i][j] == chunks[..i + 1][j];
  }

  lemma OneMoreChunkSelectors(chunks: seq<Calldata>, i: nat)
    requires i < |chunks|
    ensures ChunkSelectors(chunks[..i + 1]) ==
            ChunkSelectors(chunks[..i]) + if chunks[i].CutCall? then CutSelectors(chunks[i].cuts) else []
    ensures Distinct(ChunkSelectors(chunks[..i + 1])) ==> Distinct(ChunkSelectors(chunks[..i]))
  {
    assert chunks[..i + 1][..i] == chunks[..i];
    if Distinct(ChunkSelectors(chunks[..i + 1])) {
      PrefixDistinct(ChunkSelectors(chunks[..i]), if chunks[i].CutCall? then CutSelectors(chunks[i].cuts) else []);
    }
  }

  /** The checks on all chunks. */
  method CheckChunks(deployed: seq<Facet>, chunks: seq<Calldata>) returns (issues: seq<CutIssue>)
    ensures issues == [] <==> ChunksPass(deployed, chunks) && Distinct(ChunkSelectors(chunks))
  {
    issues := [];
    var declared := IndexFacets(deployed);
    var seen: set<Selector> := {};
    for i := 0 to |chunks|
      invariant seen == Elements(ChunkSelectors(chunks[..i]))
      invariant issues == [] <==> ChunksPass(deployed, chunks[..i]) && Distinct(ChunkSelectors(chunks[..i]))
    {
      OneMoreChunkPasses(deployed, chunks, i);
      OneMoreChunkSelectors(chunks, i);
      var chunkIssues, seen' := CheckChunk(declared, deployed, chunks[i], i, seen, ChunkSelectors(chunks[..i]));
      issues, seen := issues + chunkIssues, seen';
    }
    assert chunks[..|chunks|] == chunks;
  }

  /**
   The calldata checker: silent iff every chunk is an initializer-free cut whose additions and
   replacements go to the facet that declares the selector, whose removals go to zero, no selector is
   named twice anywhere, and, if the compiled facets are given, the file lists exactly their selectors.
   */
  method VerifyDiamondCutCalldata(fileDiamond: Address, diamond: Address, deployed: Deployed, chunks: seq<Calldata>,
                                  artifacts: Option<seq<Artifact>>)
      returns (issues: seq<CutIssue>)
    requires deployed.Valid()
    ensures issues == [] <==>
            && fileDiamond == diamond
            && (forall i :: 0 <= i < |chunks| ==> CleanCall(Facets(deployed), chunks[i]))
            && Distinct(ChunkSelectors(chunks))
            && (artifacts.Some? ==>
                  forall i :: 0 <= i < |artifacts.value| ==>
                    var a := artifacts.value[i];
                    && a.name in deployed.at
                    && forall s :: s in deployed.at[a.name].selectors <==> s in a.selectors)
  {
    forall a
      ensures MatchesArtifact(deployed, a) <==>
              a.name in deployed.at && forall s :: s in deployed.at[a.name].selectors <==> s in a.selectors
    {
      MatchesIff(deployed, a);
    }
    forall i | 0 <= i < |chunks|
      ensures ChunkPasses(Facets(deployed), chunks[i]) <==> CleanCall(Facets(deployed), chunks[i])
    {
      ChunkPassesIff(Facets(deployed), chunks[i]);
    }
    issues := if fileDiamond != diamond then [DiamondMismatch] else [];
    var more := CheckChunks(Facets(deployed), chunks);
    issues := issues + more;
    if artifacts.Some? {
      more := CheckArtifacts(deployed, artifacts.value);
      issues := issues + more;
    }
  }

  // ---- The planner's output passes ----

  function Names(es: seq<Edit>): seq<Selector> {
    seq(|es|, i requires 0 <= i < |es| => es[i].selector)
  }

  function EncodeChunks(chunks: seq<seq<FacetCut>>): seq<Calldata> {
    seq(|chunks|, i requires 0 <= i < |chunks| => ChunkCalldata(chunks[i]))
  }

  lemma {:induction false} EncodedCutSelectors(cuts: seq<FacetCut>)
    ensures CutSelectors(EncodeCuts(cuts)) == Names(AllEdits(cuts))
    decreases |cuts|
  {
    if |cuts| > 0 {
      var init, last := cuts[..|cuts| - 1], cuts[|cuts| - 1];
      EncodedCutSelectors(init);
      assert EncodeCuts(cuts)[..|cuts| - 1] == EncodeCuts(init);
      assert cuts == init + [last];
      AllEditsConcat(init, [last]);
      assert AllEdits([last]) == Edits(last);
      assert Names(AllEdits(init) + Edits(last)) == Names(AllEdits(init)) + last.selectors;
    }
  }

  lemma FlattenSnoc<T>(init: seq<seq<T>>, last: seq<T>)
    ensures Flatten(init + [last]) == Flatten(init) + last
  {
    FlattenConcat(init, [last]);
    assert [last][1..] == [];
  }

  lemma EncodedLast(chunks: seq<seq<FacetCut>>)
    requires |chunks| > 0
    ensures ChunkSelectors(EncodeChunks(chunks)) ==
            ChunkSelectors(EncodeChunks(chunks[..|chunks| - 1])) + CutSelectors(EncodeCuts(chunks[|chunks| - 1]))
  {
    assert EncodeChunks(chunks)[..|chunks| - 1] == EncodeChunks(chunks[..|chunks| - 1]);
  }

  lemma NamesConcat(a: seq<Edit>, b: seq<Edit>)
    ensures Names(a + b) == Names(a) + Names(b)
  {
  }

  lemma {:induction false} EncodedSelectors(chunks: seq<seq<FacetCut>>)
    ensures ChunkSelectors(EncodeChunks(chunks)) == Names(AllEdits(Flatten(chunks)))
    decreases |chunks|
  {
    if |chunks| > 0 {
      var init, last := chunks[..|chunks| - 1], chunks[|chunks| - 1];
      EncodedSelectors(init);
      EncodedCutSelectors(last);
      EncodedLast(chunks);
      NamesSnoc(init, last);
      assert chunks == init + [last];
    }
  }

  lemma NamesSnoc(init: seq<seq<FacetCut>>, last: seq<FacetCut>)
    ensures Names(AllEdits(Flatten(init + [last]))) == Names(AllEdits(Flatten(init))) + Names(AllEdits(last))
  {
    FlattenSnoc(init, last);
    AllEditsConcat(Flatten(init), last);
    NamesConcat(AllEdits(Flatten(init)), AllEdits(last));
  }

  ghost predicate AllCutsPass(deployed: seq<Facet>, cuts: seq<FacetCut>) {
    forall c | c in cuts :: CutPasses(deployed, EncodeCut(c))
  }

  lemma {:induction false} EncodedChunksPass(deployed: seq<Facet>, chunks: seq<seq<FacetCut>>)
    ensures ChunksPass(deployed, EncodeChunks(chunks)) <==> AllCutsPass(deployed, Flatten(chunks))
  {
    if |chunks| > 0 {
      EncodedChunksPass(deployed, chunks[1..]);
      assert forall i :: 0 <= i < |chunks| - 1 ==> EncodeChunks(chunks[1..])[i] == EncodeChunks(chunks)[i + 1];
      var encoded := EncodeCuts(chunks[0]);
      assert ChunkPasses(deployed, ChunkCalldata(chunks[0])) <==> AllCutsPass(deployed, chunks[0]) by {
        assert forall i :: 0 <= i < |encoded| ==> encoded[i] == EncodeCut(chunks[0][i]);
        if ChunkPasses(deployed, ChunkCalldata(chunks[0])) {
          forall c | c in chunks[0]
            ensures CutPasses(deployed, EncodeCut(c))
          {
            var i :| 0 <= i < |chunks[0]| && chunks[0][i] == c;
            assert CutPasses(deployed, encoded[i]);
          }
        }
      }
      assert AllCutsPass(deployed, Flatten(chunks)) <==>
             AllCutsPass(deployed, chunks[0]) && AllCutsPass(deployed, Flatten(chunks[1..]));
      if ChunksPass(deployed, EncodeChunks(chunks)) {
        assert ChunkPasses(deployed, EncodeChunks(chunks)[0]);
      }
      if AllCutsPass(deployed, Flatten(chunks)) {
        forall i | 0 <= i < |chunks|
          ensures ChunkPasses(deployed, EncodeChunks(chunks)[i])
        {
          if i > 0 {
            assert ChunkPasses(deployed, EncodeChunks(chunks[1..])[i - 1]);
          }
        }
      }
    }
  }

  predicate DeclaredThere(deployed: seq<Facet>, facet: Address, s: Selector) {
    DeclaredAt(deployed, facet).Some? && s in DeclaredAt(deployed, facet).value
  }

  /** Every selector is declared by the facet its address is looked up under. */
  ghost predicate LookupsAgree(deployed: seq<Facet>) {
    forall s | s in ListedTable(deployed) :: DeclaredThere(deployed, ListedTable(deployed)[s], s)
  }

  lemma GroupsPassIffLookupsAgree(cuts: seq<FacetCut>, current: Table, deployed: seq<Facet>)
    requires Grouped(cuts, current, ListedTable(deployed))
    ensures AllCutsPass(deployed, cuts) <==> LookupsAgree(deployed)
  {
    var next := ListedTable(deployed);
    forall c | c in cuts && LookupsAgree(deployed)
      ensures CutPasses(deployed, EncodeCut(c))
    {
      var i :| 0 <= i < |cuts| && cuts[i] == c;
      assert c.selectors[0] in c.selectors;
      forall s | s in c.selectors
        ensures Change(current, next, s) == Some((c.action, c.facet))
      {
      }
    }
    forall s | s in next && AllCutsPass(deployed, cuts)
      ensures DeclaredThere(deployed, next[s], s)
    {
      assert Change(current, next, s).Some?;
      var i :| 0 <= i < |cuts| && s in cuts[i].selectors;
      assert cuts[i] in cuts;
      assert CutPasses(deployed, EncodeCut(cuts[i]));
    }
  }

  /**
   A planned cut, chunked and encoded, passes the calldata checker iff looking facets up by address
   finds every selector's declarer - which fails only when two deployed facets share an address.
   */
  lemma PlannedCalldataPasses(cuts: seq<FacetCut>, current: Table, deployed: seq<Facet>, size: nat)
    requires Grouped(cuts, current, ListedTable(deployed)) && size > 0
    ensures var chunks := EncodeChunks(Chunks(cuts, size));
            && Distinct(ChunkSelectors(chunks))
            && (ChunksPass(deployed, chunks) <==> LookupsAgree(deployed))
  {
    FlattenChunks(cuts, size);
    GroupedIsPlan(cuts, current, ListedTable(deployed));
    EncodedSelectors(Chunks(cuts, size));
    EncodedChunksPass(deployed, Chunks(cuts, size));
    GroupsPassIffLookupsAgree(cuts, current, deployed);
  }

  ghost predicate DistinctAddresses(deployed: seq<Facet>) {
    forall i, j :: 0 <= i < j < |deployed| ==> deployed[i].facet != deployed[j].facet
  }

  lemma {:induction false} LookupByAddress(deployed: seq<Facet>, k: nat)
    requires k < |deployed|
    requires DistinctAddresses(deployed)
    ensures DeclaredAt(deployed, deployed[k].facet) == Some(deployed[k].selectors)
    decreases |deployed|
  {
    if k < |deployed| - 1 {
      LookupByAddress(deployed[..|deployed| - 1], k);
    }
  }

  lemma DistinctAddressesAgree(deployed: seq<Facet>)
    requires DistinctAddresses(deployed)
    ensures LookupsAgree(deployed)
  {
    forall s | s in ListedTable(deployed)
      ensures DeclaredThere(deployed, ListedTable(deployed)[s], s)
    {
      ListedAtLastDeclarer(deployed, s);
      var k :| LastDeclares(deployed, k, s);
      LookupByAddress(deployed, k);
    }
  }
}
