/** The fork proof checker (crates/check-fork/src/lib.rs): a list of headers with uncles is accepted
    when it is a chain from the peg-out on, and carries the required proof of work. */
module CheckFork {
  import opened Common
  import opened Rlp
  import opened BlockHeader

  const PEGOUT_ID_VERSION: nat := 1
  const SUPERBLOCK_TIMES_DIFFICULTY: nat := 20

  datatype ForkBlock = ForkBlock(uncles: seq<ForkBlock>, pow: Bytes, header: Header)

  datatype ForkArgs = ForkArgs(
    pegoutIdVersion: nat,
    initBlockTime: nat,
    initBlockNumber: nat,
    requiredEffort: nat,
    requiredNumBlocks: nat,
    blockList: seq<ForkBlock>)

  ghost predicate BlockTyped(b: ForkBlock) {
    && WellTyped(b.header)
    && forall j :: 0 <= j < |b.uncles| ==> WellTyped(b.uncles[j].header)
  }

  ghost predicate ListTyped(list: seq<ForkBlock>) {
    forall i :: 0 <= i < |list| ==> BlockTyped(list[i])
  }

  // ---- what is asked of blocks, stated apart from the code that checks it ----

  predicate HasPow(b: ForkBlock) {
    FromBigEndian(b.pow) != 0
  }

  function Divide(n: nat, d: nat): nat
    requires d > 0
  {
    n / d
  }

  /** The work a block stands for: the easiest target over its own. */
  function Effort(b: ForkBlock): nat {
    if HasPow(b) then Divide(U256_MAX, FromBigEndian(b.pow)) else 0
  }

  /** `validate_enough_effort_superblock` computes twenty times the difficulty and the effort, but
      accepts whatever the comparison says; what is left of it is that both can be computed. */
  predicate Computable(b: ForkBlock) {
    b.header.difficulty * SUPERBLOCK_TIMES_DIFFICULTY <= U256_MAX && HasPow(b)
  }

  predicate HashOk(keccak: Digest, b: ForkBlock)
    requires IsDigest(keccak) && WellTyped(b.header)
  {
    ValidateBlockHash(keccak, b.header).Ok?
  }

  predicate HasEvent(b: ForkBlock, event: Bytes) {
    b.header.baseEvent == Some(event)
  }

  /** At most one part in four hundred up or down. */
  predicate DifficultyInBounds(d: nat, prev: nat) {
    prev - prev / 400 <= d <= prev + prev / 400
  }

  predicate FollowsBlock(b: ForkBlock, prev: ForkBlock) {
    && b.header.timestamp > prev.header.timestamp
    && b.header.number == prev.header.number + 1
    && b.header.parent == prev.header.hash
    && DifficultyInBounds(b.header.difficulty, prev.header.difficulty)
    && Computable(b)
  }

  predicate UncleOk(keccak: Digest, trunk: ForkBlock, uncle: ForkBlock)
    requires IsDigest(keccak) && WellTyped(uncle.header)
  {
    && uncle.header.number == trunk.header.number
    && uncle.header.parent == trunk.header.parent
    && uncle.header.difficulty == trunk.header.difficulty
    && HashOk(keccak, uncle) && Computable(uncle)
  }

  predicate UnclesOk(keccak: Digest, trunk: ForkBlock, uncles: seq<ForkBlock>)
    requires IsDigest(keccak) && forall j :: 0 <= j < |uncles| ==> WellTyped(uncles[j].header)
  {
    forall j :: 0 <= j < |uncles| ==> UncleOk(keccak, trunk, uncles[j])
  }

  predicate FirstOk(keccak: Digest, args: ForkArgs, b: ForkBlock, event: Bytes)
    requires IsDigest(keccak) && WellTyped(b.header)
  {
    && b.header.timestamp >= args.initBlockTime && b.header.number >= args.initBlockNumber
    && Computable(b) && !HasEvent(b, event) && HashOk(keccak, b)
  }

  /** What is asked of the block at position `i` after the first. */
  predicate LinkOk(keccak: Digest, list: seq<ForkBlock>, event: Bytes, i: nat)
    requires IsDigest(keccak) && ListTyped(list) && 0 < i < |list|
  {
    && FollowsBlock(list[i], list[i - 1]) && HashOk(keccak, list[i])
    && UnclesOk(keccak, list[i - 1], list[i].uncles)
    && (i >= 2 ==> HasEvent(list[i], event))
  }

  function UnclesEffort(uncles: seq<ForkBlock>, n: nat): nat
    requires n <= |uncles|
  {
    if n == 0 then 0 else UnclesEffort(uncles, n - 1) + Effort(uncles[n - 1])
  }

  /** The exact work of the first `n` blocks; the uncles of the very first do not count. */
  function TotalEffort(list: seq<ForkBlock>, n: nat): nat
    requires n <= |list|
  {
    if n == 0 then 0
    else if n == 1 then Effort(list[0])
    else TotalEffort(list, n - 1) + Effort(list[n - 1]) + UnclesEffort(list[n - 1].uncles, |list[n - 1].uncles|)
  }

  ghost predicate Accepts(keccak: Digest, args: ForkArgs, event: Bytes)
    requires IsDigest(keccak) && ListTyped(args.blockList)
  {
    var list := args.blockList;
    && args.pegoutIdVersion == PEGOUT_ID_VERSION
    && args.requiredNumBlocks >= 1 && |list| >= 3 && |list| >= args.requiredNumBlocks
    && FirstOk(keccak, args, list[0], event)
    && (forall i :: 0 < i < |list| ==> LinkOk(keccak, list, event, i))
    && args.requiredEffort <= TotalEffort(list, |list|) <= U256_MAX
  }

  // ---- the checks as the code makes them ----

  function CalculateBlockEffort(b: ForkBlock): Result<nat> {
    var pow := FromBigEndian(b.pow);
    if pow == 0 then Err("0 division on calculate_block_effort") else Ok(Divide(U256_MAX, pow))
  }

  lemma Quotient(n: nat, d: nat, q: nat)
    requires d > 0 && q == Divide(n, d)
    ensures q * d <= n < q * d + d
  {
  }

  /** The work of a block is how often its hash fits into the largest target; it exists exactly for a
      hash that is not zero. */
  lemma EffortCountsTargets(b: ForkBlock)
    ensures CalculateBlockEffort(b).Ok? <==> FromBigEndian(b.pow) != 0
    ensures CalculateBlockEffort(b).Ok? ==>
      var effort, pow := CalculateBlockEffort(b).value, FromBigEndian(b.pow);
      effort == Effort(b) && effort * pow <= U256_MAX < effort * pow + pow
  {
    if FromBigEndian(b.pow) != 0 {
      Quotient(U256_MAX, FromBigEndian(b.pow), Effort(b));
    }
  }

  function AccumulateEffort(sum: nat, b: ForkBlock): (r: Result<nat>)
    ensures r.Ok? <==> HasPow(b) && sum + Effort(b) <= U256_MAX
    ensures r.Ok? ==> r.value == sum + Effort(b)
  {
    match CalculateBlockEffort(b)
    case Err(e) => Err(e)
    case Ok(effort) =>
      if sum + effort > U256_MAX then Err("Overflow occurred adding block's PoW") else Ok(sum + effort)
  }

  function ValidateEnoughEffort(b: ForkBlock): (r: Result<()>)
    ensures r.Ok? <==> Computable(b)
  {
    if b.header.difficulty * SUPERBLOCK_TIMES_DIFFICULTY > U256_MAX
    then Err("Overflow occurred multiplying difficulty by times")
    else
      match CalculateBlockEffort(b)
      case Err(e) => Err(e)
      case Ok(actual) =>
        if actual >= b.header.difficulty * SUPERBLOCK_TIMES_DIFFICULTY then Ok(()) else Ok(())
  }

  function ValidateDifficulty(b: ForkBlock, prev: ForkBlock): (r: Result<()>)
    requires b.header.difficulty <= U256_MAX
    ensures r.Ok? <==> DifficultyInBounds(b.header.difficulty, prev.header.difficulty)
  {
    var d := prev.header.difficulty;
    var delta := d / 400;
    var lower := if delta <= d then d - delta else 0;
    var upper := if d + delta <= U256_MAX then d + delta else U256_MAX;
    if lower <= b.header.difficulty <= upper then Ok(())
    else Err("Consecutive Block difficulty is out of bounds")
  }

  function ValidateConsecutiveBlock(b: ForkBlock, prev: ForkBlock): (r: Result<()>)
    requires b.header.difficulty <= U256_MAX && b.header.number <= U64_MAX
    ensures r.Ok? <==> FollowsBlock(b, prev)
  {
    if b.header.timestamp <= prev.header.timestamp then Err("Block Timestamp is not increasing")
    else if prev.header.number + 1 > U64_MAX then Err("Overflow incrementing previous block number")
    else if b.header.number != prev.header.number + 1 then Err("Block numbers are not consecutive")
    else if b.header.parent != prev.header.hash then Err("Invalid parent linkage between blocks")
    else
      match ValidateEnoughEffort(b)
      case Err(e) => Err(e)
      case Ok(_) => ValidateDifficulty(b, prev)
  }

  function ValidateUncle(keccak: Digest, trunk: ForkBlock, uncle: ForkBlock): (r: Result<()>)
    requires IsDigest(keccak) && WellTyped(uncle.header)
    ensures r.Ok? <==> UncleOk(keccak, trunk, uncle)
  {
    if uncle.header.number != trunk.header.number then Err("Uncle's block number does not match trunk block number")
    else if uncle.header.parent != trunk.header.parent then Err("Uncle's parent does not match trunk block's parent")
    else if uncle.header.difficulty != trunk.header.difficulty then
      Err("Uncle's difficulty does not match trunk block's difficulty")
    else
      match ValidateBlockHash(keccak, uncle.header)
      case Err(e) => Err(e)
      case Ok(_) => ValidateEnoughEffort(uncle)
  }

  function ValidateFirstBlock(args: ForkArgs, b: ForkBlock, event: Bytes): (r: Result<()>)
    ensures r.Ok? <==> && b.header.timestamp >= args.initBlockTime && b.header.number >= args.initBlockNumber
                       && Computable(b) && !HasEvent(b, event)
  {
    if b.header.timestamp < args.initBlockTime then Err("First block timestamp lower than expected")
    else if b.header.number < args.initBlockNumber then Err("First block number lower than expected")
    else
      match ValidateEnoughEffort(b)
      case Err(e) => Err(e)
      case Ok(_) =>
        if b.header.baseEvent.Some? && b.header.baseEvent.value == event
        then Err("First block must not contain the PegOutID base event") else Ok(())
  }

  /** The inner loop: every uncle is validated against the block before, and its work is added. */
  method AccumulateUncles(keccak: Digest, start: nat, trunk: ForkBlock, uncles: seq<ForkBlock>) returns (r: Result<nat>)
    requires IsDigest(keccak) && forall j :: 0 <= j < |uncles| ==> WellTyped(uncles[j].header)
    requires start <= U256_MAX
    ensures r.Ok? <==> UnclesOk(keccak, trunk, uncles) && start + UnclesEffort(uncles, |uncles|) <= U256_MAX
    ensures r.Ok? ==> r.value == start + UnclesEffort(uncles, |uncles|)
  {
    hide ValidateBlockHash, ValidateUncle, AccumulateEffort, Effort, HasPow;
    var sum := start;
    for j := 0 to |uncles|
      invariant forall k :: 0 <= k < j ==> UncleOk(keccak, trunk, uncles[k])
      invariant sum == start + UnclesEffort(uncles, j) <= U256_MAX
    {
      var ok := ValidateUncle(keccak, trunk, uncles[j]);
      if ok.Err? {
        return Err(ok.message);
      }
      var added := AccumulateEffort(sum, uncles[j]);
      if added.Err? {
        UnclesEffortGrows(uncles, j + 1, |uncles|);
        return Err(added.message);
      }
      sum := added.value;
    }
    r := Ok(sum);
  }

  lemma {:induction false} UnclesEffortGrows(uncles: seq<ForkBlock>, m: nat, n: nat)
    requires m <= n <= |uncles|
    ensures UnclesEffort(uncles, m) <= UnclesEffort(uncles, n)
    decreases n
  {
    if m < n {
      UnclesEffortGrows(uncles, m, n - 1);
    }
  }

  lemma {:induction false} TotalEffortGrows(list: seq<ForkBlock>, m: nat, n: nat)
    requires m <= n <= |list|
    ensures TotalEffort(list, m) <= TotalEffort(list, n)
    decreases n
  {
    if m < n {
      TotalEffortGrows(list, m, n - 1);
    }
  }

  /** One turn of the outer loop. */
  method CheckLink(keccak: Digest, list: seq<ForkBlock>, event: Bytes, i: nat, start: nat) returns (r: Result<nat>)
    requires IsDigest(keccak) && ListTyped(list) && 0 < i < |list|
    requires start == TotalEffort(list, i) <= U256_MAX
    ensures r.Ok? <==> LinkOk(keccak, list, event, i) && TotalEffort(list, i + 1) <= U256_MAX
    ensures r.Ok? ==> r.value == TotalEffort(list, i + 1)
  {
    hide ValidateBlockHash, ValidateConsecutiveBlock, AccumulateEffort, Effort, HasPow, UnclesOk;
    var b, prev := list[i], list[i - 1];
    assert BlockTyped(b);
    var ok := ValidateConsecutiveBlock(b, prev);
    if ok.Err? {
      return Err(ok.message);
    }
    ok := ValidateBlockHash(keccak, b.header);
    if ok.Err? {
      return Err(ok.message);
    }
    var sum := AccumulateEffort(start, b);
    if sum.Err? {
      return Err(sum.message);
    }
    r := AccumulateUncles(keccak, sum.value, prev, b.uncles);
    if r.Ok? && i >= 2 && !HasEvent(b, event) {
      return Err("Continuation block is missing the expected PegOutID base event");
    }
  }

  /** The checks of the shape of the list and of its first block. */
  method CheckFirst(keccak: Digest, args: ForkArgs, event: Bytes) returns (r: Result<nat>)
    requires IsDigest(keccak) && ListTyped(args.blockList)
    ensures r.Ok? <==> && args.pegoutIdVersion == PEGOUT_ID_VERSION && args.requiredNumBlocks >= 1
                       && |args.blockList| >= 3 && |args.blockList| >= args.requiredNumBlocks
                       && FirstOk(keccak, args, args.blockList[0], event)
                       && TotalEffort(args.blockList, 1) <= U256_MAX
    ensures r.Ok? ==> r.value == TotalEffort(args.blockList, 1)
  {
    hide ValidateBlockHash, ValidateFirstBlock, AccumulateEffort, Effort, HasPow;
    if args.pegoutIdVersion != PEGOUT_ID_VERSION {
      return Err("PegOutID version does not match contract ABI");
    }
    if args.requiredNumBlocks < 1 {
      return Err("Invalid number of required blocks");
    }
    if |args.blockList| < 3 {
      return Err("Check-fork requires at least one continuation block with the PegOutID base event");
    }
    if |args.blockList| < args.requiredNumBlocks {
      return Err("Insufficient number of blocks");
    }
    var first := args.blockList[0];
    assert BlockTyped(first);
    var ok := ValidateFirstBlock(args, first, event);
    if ok.Err? {
      return Err(ok.message);
    }
    ok := ValidateBlockHash(keccak, first.header);
    if ok.Err? {
      return Err(ok.message);
    }
    r := AccumulateEffort(0, first);
  }

  /** `check_fork` returns the work of the fork exactly when the fork is acceptable. */
  method CheckFork(keccak: Digest, args: ForkArgs, event: Bytes) returns (r: Result<nat>)
    requires IsDigest(keccak) && ListTyped(args.blockList)
    ensures r.Ok? <==> Accepts(keccak, args, event)
    ensures r.Ok? ==> r.value == TotalEffort(args.blockList, |args.blockList|)
  {
    hide FirstOk, LinkOk, Effort;
    var list := args.blockList;
    var sum := CheckFirst(keccak, args, event);
    if sum.Err? {
      if |list| > 0 {
        TotalEffortGrows(list, 1, |list|);
      }
      return sum;
    }
    for i := 1 to |list|
      invariant sum.Ok? && sum.value == TotalEffort(list, i) <= U256_MAX
      invariant forall k :: 0 < k < i ==> LinkOk(keccak, list, event, k)
    {
      sum := CheckLink(keccak, list, event, i, sum.value);
      if sum.Err? {
        TotalEffortGrows(list, i + 1, |list|);
        return sum;
      }
    }
    if sum.value < args.requiredEffort {
      return Err("Cumulative PoW does not meet the required threshold");
    }
    r := sum;
  }

  // ---- what acceptance implies for the whole fork ----

  function Power(b: nat, k: nat): nat {
    if k == 0 then 1 else b * Power(b, k - 1)
  }

  lemma DriftStep(d: nat, prev: nat)
    requires DifficultyInBounds(d, prev)
    ensures 399 * prev <= 400 * d <= 401 * prev
    ensures prev < 400 ==> d == prev
  {
  }

  /** `a * x <= b * y` carried one step on by a bound on the step. */
  lemma ScaleStep(a: nat, b: nat, x: nat, y: nat, z: nat, p: nat, q: nat)
    requires a * x <= b * y && p * y <= q * z
    ensures (p * a) * x <= (q * b) * z
  {
    assert p * (a * x) <= p * (b * y);
    assert b * (p * y) <= b * (q * z);
    assert (p * a) * x == p * (a * x) && (q * b) * z == b * (q * z) && p * (b * y) == b * (p * y);
  }

  /** Difficulties of which each is within bounds of the one before. */
  predicate Drifting(ds: seq<nat>) {
    forall i :: 0 < i < |ds| ==> DifficultyInBounds(ds[i], ds[i - 1])
  }

  lemma {:induction false} DriftBounds(ds: seq<nat>, k: nat)
    requires Drifting(ds) && k < |ds|
    ensures Power(399, k) * ds[0] <= Power(400, k) * ds[k] <= Power(401, k) * ds[0]
    decreases k
  {
    if k > 0 {
      DriftBounds(ds, k - 1);
      DriftStep(ds[k], ds[k - 1]);
      ScaleStep(Power(399, k - 1), Power(400, k - 1), ds[0], ds[k - 1], ds[k], 399, 400);
      ScaleStep(400, 401, ds[k], ds[k - 1], ds[0], Power(400, k - 1), Power(401, k - 1));
    }
  }

  lemma {:induction false} LowIsFrozen(ds: seq<nat>, j: nat, k: nat)
    requires Drifting(ds) && j <= k < |ds| && ds[j] < 400
    ensures ds[k] == ds[j]
    decreases k
  {
    if j < k {
      LowIsFrozen(ds, j, k - 1);
      DriftStep(ds[k], ds[k - 1]);
    }
  }

  function Difficulties(list: seq<ForkBlock>): (ds: seq<nat>)
    ensures |ds| == |list|
  {
    seq(|list|, i requires 0 <= i < |list| => list[i].header.difficulty)
  }

  /** Along any accepted fork the difficulty drifts by at most one part in four hundred a block,
      and once it is below four hundred it never changes again. */
  lemma DifficultyDrift(keccak: Digest, args: ForkArgs, event: Bytes, j: nat, k: nat)
    requires IsDigest(keccak) && ListTyped(args.blockList) && Accepts(keccak, args, event)
    requires j <= k < |args.blockList|
    ensures var ds := Difficulties(args.blockList);
            && Power(399, k) * ds[0] <= Power(400, k) * ds[k] <= Power(401, k) * ds[0]
            && (ds[j] < 400 ==> ds[k] == ds[j])
  {
    hide HashOk, UnclesOk, FirstOk, TotalEffort, Power, DifficultyInBounds;
    var list, ds := args.blockList, Difficulties(args.blockList);
    forall i | 0 < i < |ds|
      ensures DifficultyInBounds(ds[i], ds[i - 1])
    {
      assert LinkOk(keccak, list, event, i);
    }
    DriftBounds(ds, k);
    if ds[j] < 400 {
      LowIsFrozen(ds, j, k);
    }
  }

  /** No two headers of the two lists have colliding preimages. */
  ghost predicate ForksDoNotCollide(keccak: Digest, a: seq<ForkBlock>, b: seq<ForkBlock>)
    requires IsDigest(keccak) && ListTyped(a) && ListTyped(b)
  {
    forall i, j :: 0 <= i < |a| && 0 <= j < |b| ==>
      NoCollision(keccak, Preimages(keccak, a[i].header) + Preimages(keccak, b[j].header))
  }

  lemma AcceptedHashOk(keccak: Digest, args: ForkArgs, event: Bytes, i: nat)
    requires IsDigest(keccak) && ListTyped(args.blockList) && Accepts(keccak, args, event)
    requires i < |args.blockList|
    ensures HashOk(keccak, args.blockList[i])
    ensures 0 < i ==> args.blockList[i].header.parent == args.blockList[i - 1].header.hash
  {
    hide ValidateBlockHash, TotalEffort;
    if i > 0 {
      assert LinkOk(keccak, args.blockList, event, i);
    }
  }

  /** Two accepted forks with the same last hash carry the same headers, block for block back from
      the tip, in everything the hashes commit to. */
  lemma {:induction false} TipBindsFork(keccak: Digest, a: ForkArgs, aEvent: Bytes, b: ForkArgs, bEvent: Bytes, k: nat)
    requires IsDigest(keccak) && ListTyped(a.blockList) && ListTyped(b.blockList)
    requires Accepts(keccak, a, aEvent) && Accepts(keccak, b, bEvent)
    requires ForksDoNotCollide(keccak, a.blockList, b.blockList)
    requires k < |a.blockList| && k < |b.blockList|
    requires a.blockList[|a.blockList| - 1].header.hash == b.blockList[|b.blockList| - 1].header.hash
    ensures var h := a.blockList[|a.blockList| - 1 - k].header;
            var g := b.blockList[|b.blockList| - 1 - k].header;
            h.hash == g.hash && Committed(h) == Committed(g)
    decreases k
  {
    hide Accepts, ValidateBlockHash, Preimages, NoCollision;
    var i, j := |a.blockList| - 1 - k, |b.blockList| - 1 - k;
    if k > 0 {
      TipBindsFork(keccak, a, aEvent, b, bEvent, k - 1);
      AcceptedHashOk(keccak, a, aEvent, i + 1);
      AcceptedHashOk(keccak, b, bEvent, j + 1);
      assert Committed(a.blockList[i + 1].header).parent == Committed(b.blockList[j + 1].header).parent;
    }
    AcceptedHashOk(keccak, a, aEvent, i);
    AcceptedHashOk(keccak, b, bEvent, j);
    assert BlockTyped(a.blockList[i]) && BlockTyped(b.blockList[j]);
    HashBindsHeader(keccak, a.blockList[i].header, b.blockList[j].header);
  }

  // ---- what the headers leave open ----

  /** The same fork with another proof-of-work hash for one block. */
  function WithPow(list: seq<ForkBlock>, i: nat, pow: Bytes): seq<ForkBlock>
    requires i < |list|
  {
    list[i := list[i].(pow := pow)]
  }

  lemma {:induction false} TotalWithPow(list: seq<ForkBlock>, i: nat, pow: Bytes, n: nat)
    requires i < |list| && n <= |list|
    ensures TotalEffort(WithPow(list, i, pow), n)
         == TotalEffort(list, n) + if i < n then Effort(list[i].(pow := pow)) - Effort(list[i]) else 0
    decreases n
  {
    hide Effort;
    if n > 1 {
      TotalWithPow(list, i, pow, n - 1);
    }
  }

  lemma LinkWithPow(keccak: Digest, list: seq<ForkBlock>, event: Bytes, i: nat, pow: Bytes, j: nat)
    requires IsDigest(keccak) && ListTyped(list) && i < |list| && 0 < j < |list| && LinkOk(keccak, list, event, j)
    requires ListTyped(WithPow(list, i, pow))
    ensures LinkOk(keccak, WithPow(list, i, pow), event, j) <==> j != i || FromBigEndian(pow) != 0
  {
    hide WellTyped, FromBigEndian, ValidateBlockHash;
  }

  /** The work is not bound by the headers: exchange the proof-of-work hash of one block of an accepted
      fork, and the fork is accepted again exactly when the hash is not zero and the work, which
      changes by that block's, is still enough and still fits. */
  lemma WorkIsNotBound(keccak: Digest, args: ForkArgs, event: Bytes, i: nat, pow: Bytes)
    requires IsDigest(keccak) && ListTyped(args.blockList) && Accepts(keccak, args, event)
    requires i < |args.blockList|
    ensures var list, list1 := args.blockList, WithPow(args.blockList, i, pow);
            var work := TotalEffort(list, |list|) - Effort(list[i]) + Effort(list1[i]);
            && (forall j :: 0 <= j < |list| ==> list1[j].header == list[j].header)
            && ListTyped(list1) && TotalEffort(list1, |list1|) == work
            && (Accepts(keccak, args.(blockList := list1), event) <==>
                FromBigEndian(pow) != 0 && args.requiredEffort <= work <= U256_MAX)
  {
    hide WellTyped, Effort, TotalEffort, FromBigEndian, ValidateBlockHash, LinkOk;
    var list, list1 := args.blockList, WithPow(args.blockList, i, pow);
    TotalWithPow(list, i, pow, |list|);
    forall j | 0 <= j < |list1|
      ensures BlockTyped(list1[j])
    {
      assert BlockTyped(list[j]);
    }
    forall j | 0 < j < |list|
      ensures LinkOk(keccak, list1, event, j) <==> j != i || FromBigEndian(pow) != 0
    {
      LinkWithPow(keccak, list, event, i, pow, j);
    }
    assert FirstOk(keccak, args.(blockList := list1), list1[0], event) <==> i != 0 || FromBigEndian(pow) != 0;
    if i > 0 {
      assert LinkOk(keccak, list1, event, i) <==> FromBigEndian(pow) != 0;
    }
  }

  // ---- acceptance in plain terms ----

  /** What every block of a fork, and every uncle that counts, must be in itself. */
  ghost predicate Sound(keccak: Digest, b: ForkBlock)
    requires IsDigest(keccak) && WellTyped(b.header)
  {
    ValidateBlockHash(keccak, b.header).Ok? && FromBigEndian(b.pow) != 0 && 20 * b.header.difficulty <= U256_MAX
  }

  /** An uncle is a sibling of the block before: the same height, parent and difficulty. */
  ghost predicate Siblings(keccak: Digest, b: ForkBlock, prev: ForkBlock)
    requires IsDigest(keccak) && BlockTyped(b)
  {
    forall j :: 0 <= j < |b.uncles| ==>
      && Sound(keccak, b.uncles[j]) && b.uncles[j].header.number == prev.header.number
      && b.uncles[j].header.parent == prev.header.parent && b.uncles[j].header.difficulty == prev.header.difficulty
  }

  /** Four hundred times the change of difficulty is at most the difficulty before. */
  predicate SmallChange(d: nat, prev: nat) {
    400 * (d - prev) <= prev && 400 * (prev - d) <= prev
  }

  lemma BoundsAreSmallChange(d: nat, prev: nat)
    ensures DifficultyInBounds(d, prev) <==> SmallChange(d, prev)
  {
  }

  ghost predicate PlainLink(keccak: Digest, list: seq<ForkBlock>, event: Bytes, i: nat)
    requires IsDigest(keccak) && ListTyped(list) && 0 < i < |list|
  {
    var b, prev := list[i], list[i - 1];
    && Sound(keccak, b) && Siblings(keccak, b, prev)
    && b.header.number == list[0].header.number + i && b.header.parent == prev.header.hash
    && b.header.timestamp > prev.header.timestamp
    && SmallChange(b.header.difficulty, prev.header.difficulty)
    && (i >= 2 ==> b.header.baseEvent == Some(event))
  }

  ghost predicate Plain(keccak: Digest, args: ForkArgs, event: Bytes)
    requires IsDigest(keccak) && ListTyped(args.blockList)
  {
    var list := args.blockList;
    && args.pegoutIdVersion == 1 && 1 <= args.requiredNumBlocks <= |list| && 3 <= |list|
    && Sound(keccak, list[0]) && list[0].header.baseEvent != Some(event)
    && args.initBlockTime <= list[0].header.timestamp && args.initBlockNumber <= list[0].header.number
    && (forall i :: 0 < i < |list| ==> PlainLink(keccak, list, event, i))
    && args.requiredEffort <= Work(Counted(list, |list|)) <= U256_MAX
  }

  /** The blocks whose work counts: the first one, and every later one with its uncles. */
  function Counted(list: seq<ForkBlock>, n: nat): seq<ForkBlock>
    requires n <= |list|
  {
    if n == 0 then []
    else if n == 1 then [list[0]]
    else Counted(list, n - 1) + [list[n - 1]] + list[n - 1].uncles
  }

  function Work(bs: seq<ForkBlock>): nat {
    if bs == [] then 0 else Work(bs[..|bs| - 1]) + Effort(bs[|bs| - 1])
  }

  lemma {:induction false} WorkInTwo(a: seq<ForkBlock>, b: seq<ForkBlock>)
    ensures Work(a + b) == Work(a) + Work(b)
    decreases |b|
  {
    hide Effort;
    if b == [] {
      assert a + b == a;
    } else {
      assert (a + b)[..|a + b| - 1] == a + b[..|b| - 1];
      WorkInTwo(a, b[..|b| - 1]);
    }
  }

  lemma {:induction false} WorkOfUncles(us: seq<ForkBlock>, n: nat)
    requires n <= |us|
    ensures UnclesEffort(us, n) == Work(us[..n])
    decreases n
  {
    hide Effort;
    if n > 0 {
      assert us[..n][..n - 1] == us[..n - 1];
      WorkOfUncles(us, n - 1);
    }
  }

  /** The total is the work of the blocks that count. */
  lemma {:induction false} TotalIsWork(list: seq<ForkBlock>, n: nat)
    requires n <= |list|
    ensures TotalEffort(list, n) == Work(Counted(list, n))
    decreases n
  {
    hide Effort;
    if n == 1 {
      assert Work([list[0]]) == Work([list[0]][..0]) + Effort(list[0]);
    } else if n > 1 {
      var b := list[n - 1];
      TotalIsWork(list, n - 1);
      WorkInTwo(Counted(list, n - 1) + [b], b.uncles);
      WorkInTwo(Counted(list, n - 1), [b]);
      assert Work([b]) == Work([b][..0]) + Effort(b);
      WorkOfUncles(b.uncles, |b.uncles|);
      assert b.uncles[..|b.uncles|] == b.uncles;
    }
  }

  lemma LinkInPlainTerms(keccak: Digest, list: seq<ForkBlock>, event: Bytes, i: nat)
    requires IsDigest(keccak) && ListTyped(list) && 0 < i < |list|
    requires list[i - 1].header.number == list[0].header.number + i - 1
    ensures LinkOk(keccak, list, event, i) <==> PlainLink(keccak, list, event, i)
  {
    hide ValidateBlockHash, WellTyped, FromBigEndian, DifficultyInBounds, SmallChange;
    BoundsAreSmallChange(list[i].header.difficulty, list[i - 1].header.difficulty);
    forall j | 0 <= j < |list[i].uncles|
      ensures UncleOk(keccak, list[i - 1], list[i].uncles[j]) <==>
        && Sound(keccak, list[i].uncles[j]) && list[i].uncles[j].header.number == list[i - 1].header.number
        && list[i].uncles[j].header.parent == list[i - 1].header.parent
        && list[i].uncles[j].header.difficulty == list[i - 1].header.difficulty
    {
    }
  }

  lemma {:induction false} LinksInPlainTerms(keccak: Digest, list: seq<ForkBlock>, event: Bytes, n: nat)
    requires IsDigest(keccak) && ListTyped(list) && 0 < n <= |list|
    ensures (forall i :: 0 < i < n ==> LinkOk(keccak, list, event, i)) <==>
            (forall i :: 0 < i < n ==> PlainLink(keccak, list, event, i))
    ensures (forall i :: 0 < i < n ==> LinkOk(keccak, list, event, i)) ==>
            list[n - 1].header.number == list[0].header.number + n - 1
    decreases n
  {
    hide UnclesOk, HashOk, Siblings, Sound, DifficultyInBounds, SmallChange, Computable;
    if n > 1 {
      LinksInPlainTerms(keccak, list, event, n - 1);
      if forall i :: 0 < i < n - 1 ==> LinkOk(keccak, list, event, i) {
        LinkInPlainTerms(keccak, list, event, n - 1);
      }
    }
  }

  /** `check_fork` accepts exactly the forks that meet the plain conditions. */
  lemma AcceptsInPlainTerms(keccak: Digest, args: ForkArgs, event: Bytes)
    requires IsDigest(keccak) && ListTyped(args.blockList)
    ensures Accepts(keccak, args, event) <==> Plain(keccak, args, event)
  {
    hide LinkOk, PlainLink, ValidateBlockHash, WellTyped, FromBigEndian, TotalEffort, Work, Counted;
    if |args.blockList| > 0 {
      LinksInPlainTerms(keccak, args.blockList, event, |args.blockList|);
      TotalIsWork(args.blockList, |args.blockList|);
    }
  }
}
