/** The scans of a block range in packages/graph-node/chain/ethereum/src/ethereum_adapter.rs: logs, with steps that
    shrink when a request is too heavy for the node, and traces, with a fixed step. */
module RangeScans {
  import opened Common
  import opened BlockStreams

  /** How the node answers a request for the blocks [start, end]. */
  datatype Reply<T> = Items(items: seq<T>) | TooHeavy | Failed

  /** The reply to the `attempt`th request. */
  type Rpc<!T> = (nat, nat, nat) -> Reply<T>

  /** All items of the blocks [from, to], in order. */
  function ItemsIn<T>(chain: nat -> seq<T>, from: nat, to: nat): seq<T>
    decreases if from <= to then to - from + 1 else 0
  {
    if from > to then [] else chain(from) + ItemsIn(chain, from + 1, to)
  }

  lemma {:induction false} ItemsInSplit<T>(chain: nat -> seq<T>, from: nat, mid: nat, to: nat)
    requires from <= mid + 1 && mid <= to
    ensures ItemsIn(chain, from, to) == ItemsIn(chain, from, mid) + ItemsIn(chain, mid + 1, to)
    decreases mid + 1 - from
  {
    if from <= mid { ItemsInSplit(chain, from + 1, mid, to); }
  }

  /** When the node answers with items, they are the ones of the blocks asked for. */
  ghost predicate Honest<T(!new)>(rpc: Rpc<T>, chain: nat -> seq<T>) {
    forall i, start, end :: rpc(i, start, end).Items? ==> rpc(i, start, end).items == ItemsIn(chain, start, end)
  }

  /** A finished scan: the items, and the ranges of the requests that were answered. */
  datatype Scan<T> = Scan(items: seq<T>, served: seq<(nat, nat)>)

  /** The unfold of `log_stream`: a request that is too heavy is repeated with a tenth of the step, down to one
      block. */
  function LogScan<T>(rpc: Rpc<T>, start: nat, to: nat, step: nat, attempt: nat): Result<Scan<T>, nat>
    decreases if start <= to then to + 1 - start else 0, step
  {
    if start > to then Ok(Scan([], [])) else
    var end := Min(start + step, to);
    match rpc(attempt, start, end)
    case Failed => Err(attempt)
    case TooHeavy => if step > 0 then LogScan(rpc, start, to, step / 10, attempt + 1) else Err(attempt)
    case Items(items) =>
      match LogScan(rpc, end + 1, to, step, attempt + 1)
      case Err(e) => Err(e)
      case Ok(rest) => Ok(Scan(items + rest.items, [(start, end)] + rest.served))
  }

  /** `log_stream`: filters on event signatures alone are more expensive, and start with a smaller step. */
  function LogStream<T>(rpc: Rpc<T>, from: nat, to: nat, hasContracts: bool, maxEventOnlyRange: nat)
    : Result<Scan<T>, nat>
    requires from <= to && maxEventOnlyRange >= 1
  {
    LogScan(rpc, from, to, if hasContracts then to - from else Min(to - from, maxEventOnlyRange - 1), 0)
  }

  /** A request that cannot be served: it failed, or it was for one block and still too heavy. */
  ghost predicate Refused<T>(rpc: Rpc<T>, attempt: nat, s: nat, e: nat) {
    rpc(attempt, s, e).Failed? || (s == e && rpc(attempt, s, e).TooHeavy?)
  }

  lemma {:induction false} LogScanItems<T(!new)>(rpc: Rpc<T>, chain: nat -> seq<T>, start: nat, to: nat, step: nat,
                                                 attempt: nat)
    requires Honest(rpc, chain) && start <= to + 1
    ensures var r := LogScan(rpc, start, to, step, attempt);
            r.Ok? ==> r.value.items == ItemsIn(chain, start, to)
    decreases if start <= to then to + 1 - start else 0, step
  {
    if start <= to {
      var end := Min(start + step, to);
      match rpc(attempt, start, end) {
        case Failed =>
        case TooHeavy => if step > 0 { LogScanItems(rpc, chain, start, to, step / 10, attempt + 1); }
        case Items(items) =>
          LogScanItems(rpc, chain, end + 1, to, step, attempt + 1);
          ItemsInSplit(chain, start, end, to);
      }
    }
  }

  ghost function Tenth(step: nat, times: nat): nat {
    if times == 0 then step else Tenth(step / 10, times - 1)
  }

  /** Request number `i` asked for what is left, or for a step that had been divided by ten `times[i]` times. */
  ghost predicate Shrinking(served: seq<(nat, nat)>, times: seq<nat>, step: nat, to: nat) {
    && |times| == |served|
    && (forall i :: 0 <= i < |served| ==> served[i].1 == Min(served[i].0 + Tenth(step, times[i]), to))
    && forall i, j :: 0 <= i < j < |times| ==> times[i] <= times[j]
  }

  ghost predicate ShrinksTenfold(served: seq<(nat, nat)>, step: nat, to: nat) {
    exists times :: Shrinking(served, times, step, to)
  }

  lemma ShrinkOnce(served: seq<(nat, nat)>, times: seq<nat>, step: nat, to: nat, more: seq<nat>)
    requires Shrinking(served, times, step / 10, to) && |more| == |times|
    requires forall i :: 0 <= i < |times| ==> more[i] == times[i] + 1
    ensures Shrinking(served, more, step, to)
  {}

  lemma ShrinkFirst(served: seq<(nat, nat)>, times: seq<nat>, step: nat, to: nat, start: nat)
    requires Shrinking(served, times, step, to)
    ensures Shrinking([(start, Min(start + step, to))] + served, [0] + times, step, to)
  {}

  /** Every request that is too heavy divides the step by ten, for itself and all that follow. */
  lemma {:induction false} LogScanShrinks<T(!new)>(rpc: Rpc<T>, start: nat, to: nat, step: nat, attempt: nat)
    requires start <= to + 1
    ensures var r := LogScan(rpc, start, to, step, attempt);
            r.Ok? ==> ShrinksTenfold(r.value.served, step, to)
    decreases if start <= to then to + 1 - start else 0, step
  {
    if start > to {
      assert Shrinking([], [], step, to);
    } else {
      var end := Min(start + step, to);
      match rpc(attempt, start, end) {
        case Failed =>
        case TooHeavy =>
          if step > 0 {
            LogScanShrinks(rpc, start, to, step / 10, attempt + 1);
            var r := LogScan(rpc, start, to, step / 10, attempt + 1);
            if r.Ok? {
              var times :| Shrinking(r.value.served, times, step / 10, to);
              ShrinkOnce(r.value.served, times, step, to, seq(|times|, i requires 0 <= i < |times| => times[i] + 1));
            }
          }
        case Items(items) =>
          LogScanShrinks(rpc, end + 1, to, step, attempt + 1);
          var rest := LogScan(rpc, end + 1, to, step, attempt + 1);
          if rest.Ok? {
            var times :| Shrinking(rest.value.served, times, step, to);
            ShrinkFirst(rest.value.served, times, step, to, start);
          }
      }
    }
  }

  ghost predicate StepsAtMost(served: seq<(nat, nat)>, step: nat) {
    forall i :: 0 <= i < |served| ==> served[i].1 - served[i].0 <= step
  }

  lemma {:induction false} LogScanServed<T(!new)>(rpc: Rpc<T>, start: nat, to: nat, step: nat, attempt: nat)
    requires start <= to + 1
    ensures var r := LogScan(rpc, start, to, step, attempt);
            r.Ok? ==> Partition(r.value.served, start, to + 1) && StepsAtMost(r.value.served, step)
    decreases if start <= to then to + 1 - start else 0, step
  {
    if start <= to {
      var end := Min(start + step, to);
      match rpc(attempt, start, end) {
        case Failed =>
        case TooHeavy => if step > 0 { LogScanServed(rpc, start, to, step / 10, attempt + 1); }
        case Items(items) =>
          LogScanServed(rpc, end + 1, to, step, attempt + 1);
          var rest := LogScan(rpc, end + 1, to, step, attempt + 1);
          if rest.Ok? { assert ([(start, end)] + rest.value.served)[1..] == rest.value.served; }
      }
    }
  }

  lemma {:induction false} LogScanError<T(!new)>(rpc: Rpc<T>, start: nat, to: nat, step: nat, attempt: nat)
    requires start <= to + 1
    ensures var r := LogScan(rpc, start, to, step, attempt);
            r.Err? ==> r.error >= attempt && exists s, e :: start <= s <= e <= to && Refused(rpc, r.error, s, e)
    decreases if start <= to then to + 1 - start else 0, step
  {
    if start <= to {
      var end := Min(start + step, to);
      match rpc(attempt, start, end) {
        case Failed => assert Refused(rpc, attempt, start, end);
        case TooHeavy =>
          if step > 0 { LogScanError(rpc, start, to, step / 10, attempt + 1); }
          else { assert Refused(rpc, attempt, start, end); }
        case Items(items) =>
          LogScanError(rpc, end + 1, to, step, attempt + 1);
          var rest := LogScan(rpc, end + 1, to, step, attempt + 1);
          if rest.Err? {
            var s, e :| end + 1 <= s <= e <= to && Refused(rpc, rest.error, s, e);
            assert start <= s <= e <= to && Refused(rpc, rest.error, s, e);
          }
      }
    }
  }

  /** However the node makes the steps shrink, a log scan that succeeds has every block's logs once and in order, from
      answered requests that partition the range, the first of them for the whole range, unless it has no contracts to
      filter by and exceeds the limit for that; and it only fails on a failed request, or on a single block that
      is too heavy. */
  lemma LogStreamSound<T(!new)>(rpc: Rpc<T>, chain: nat -> seq<T>, from: nat, to: nat, hasContracts: bool,
                                maxEventOnlyRange: nat)
    requires Honest(rpc, chain) && from <= to && maxEventOnlyRange >= 1
    ensures match LogStream(rpc, from, to, hasContracts, maxEventOnlyRange)
            case Ok(scan) => scan.items == ItemsIn(chain, from, to) && Partition(scan.served, from, to + 1)
                             && (!hasContracts ==> StepsAtMost(scan.served, maxEventOnlyRange - 1))
                             && (hasContracts || to - from < maxEventOnlyRange ==>
                                   ShrinksTenfold(scan.served, to - from, to))
                             && (!hasContracts && to - from >= maxEventOnlyRange ==>
                                   ShrinksTenfold(scan.served, maxEventOnlyRange - 1, to))
            case Err(i) => exists s, e :: from <= s <= e <= to && Refused(rpc, i, s, e)
  {
    var step := if hasContracts then to - from else Min(to - from, maxEventOnlyRange - 1);
    LogScanItems(rpc, chain, from, to, step, 0);
    LogScanServed(rpc, from, to, step, 0);
    LogScanShrinks(rpc, from, to, step, 0);
    LogScanError(rpc, from, to, step, 0);
  }

  /** The unfold of `trace_stream`. */
  function TraceScan<T>(rpc: Rpc<T>, start: nat, to: nat, stepSize: nat, attempt: nat): Result<Scan<T>, nat>
    requires stepSize >= 1
    decreases if start <= to then to + 1 - start else 0
  {
    if start > to then Ok(Scan([], [])) else
    var end := Min(start + stepSize - 1, to);
    match rpc(attempt, start, end)
    case Items(items) =>
      (match TraceScan(rpc, end + 1, to, stepSize, attempt + 1)
       case Err(e) => Err(e)
       case Ok(rest) => Ok(Scan(items + rest.items, [(start, end)] + rest.served)))
    case _ => Err(attempt)
  }

  /** `trace_stream`: without addresses to filter by, the step is a quarter. */
  function TraceStream<T>(rpc: Rpc<T>, from: nat, to: nat, hasAddresses: bool, configuredStep: nat)
    : Result<Scan<T>, nat>
    requires from <= to
  {
    var step := if hasAddresses then configuredStep else configuredStep / 4;
    TraceScan(rpc, from, to, if step < 1 then 1 else step, 0)
  }

  /** Each request is for `size` blocks, or for the fewer that are left. */
  ghost predicate InChunks(served: seq<(nat, nat)>, size: nat, to: nat) {
    forall i :: 0 <= i < |served| ==> served[i].1 + 1 == Min(served[i].0 + size, to + 1)
  }

  lemma ChunkFirst(served: seq<(nat, nat)>, size: nat, to: nat, start: nat)
    requires size >= 1 && start <= to && InChunks(served, size, to)
    ensures InChunks([(start, Min(start + size - 1, to))] + served, size, to)
  {}

  lemma {:induction false} TraceScanSound<T(!new)>(rpc: Rpc<T>, chain: nat -> seq<T>, start: nat, to: nat,
                                                   stepSize: nat, attempt: nat)
    requires Honest(rpc, chain) && stepSize >= 1 && start <= to + 1
    ensures match TraceScan(rpc, start, to, stepSize, attempt)
            case Ok(scan) => scan.items == ItemsIn(chain, start, to) && Partition(scan.served, start, to + 1)
            case Err(i) => i >= attempt && exists s, e :: start <= s <= e <= to && !rpc(i, s, e).Items?
    decreases if start <= to then to + 1 - start else 0
  {
    if start <= to {
      var end := Min(start + stepSize - 1, to);
      if rpc(attempt, start, end).Items? {
        TraceScanSound(rpc, chain, end + 1, to, stepSize, attempt + 1);
        ItemsInSplit(chain, start, end, to);
        var rest := TraceScan(rpc, end + 1, to, stepSize, attempt + 1);
        if rest.Ok? { assert ([(start, end)] + rest.value.served)[1..] == rest.value.served; }
      }
    }
  }

  lemma {:induction false} TraceScanChunks<T(!new)>(rpc: Rpc<T>, start: nat, to: nat, stepSize: nat, attempt: nat)
    requires stepSize >= 1 && start <= to + 1
    ensures var r := TraceScan(rpc, start, to, stepSize, attempt); r.Ok? ==> InChunks(r.value.served, stepSize, to)
    decreases if start <= to then to + 1 - start else 0
  {
    if start <= to {
      var end := Min(start + stepSize - 1, to);
      if rpc(attempt, start, end).Items? {
        TraceScanChunks(rpc, end + 1, to, stepSize, attempt + 1);
        var rest := TraceScan(rpc, end + 1, to, stepSize, attempt + 1);
        if rest.Ok? { ChunkFirst(rest.value.served, stepSize, to, start); }
      }
    }
  }

  /** A trace scan that succeeds has every block's traces once and in order, asked for in chunks of the configured size,
      or of a quarter of it when there are no addresses to filter by, but of at least one block. */
  lemma TraceStreamSound<T(!new)>(rpc: Rpc<T>, chain: nat -> seq<T>, from: nat, to: nat, hasAddresses: bool,
                                  configuredStep: nat)
    requires Honest(rpc, chain) && from <= to
    ensures match TraceStream(rpc, from, to, hasAddresses, configuredStep)
            case Ok(scan) => scan.items == ItemsIn(chain, from, to) && Partition(scan.served, from, to + 1)
                             && (hasAddresses && configuredStep > 0 ==> InChunks(scan.served, configuredStep, to))
                             && (!hasAddresses && configuredStep >= 4 ==> InChunks(scan.served, configuredStep / 4, to))
                             && (configuredStep == 0 || (!hasAddresses && configuredStep < 4) ==>
                                InChunks(scan.served, 1, to))
            case Err(i) => exists s, e :: from <= s <= e <= to && !rpc(i, s, e).Items?
  {
    var step := if hasAddresses then configuredStep else configuredStep / 4;
    TraceScanSound(rpc, chain, from, to, if step < 1 then 1 else step, 0);
    TraceScanChunks(rpc, from, to, if step < 1 then 1 else step, 0);
  }
}
