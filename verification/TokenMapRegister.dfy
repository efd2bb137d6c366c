/** The token-map-register job: find the deposits relayed since the last run,
    search backwards for their events, and register their ERC-20 tokens. */
module TokenMapRegister {
  import opened Wrappers
  import opened Scanner
  import opened EventStore
  import opened Liquidity

  datatype TokenType = Native | ERC20 | ERC721 | ERC1155

  datatype TokenInfo = TokenInfo(tokenType: TokenType, tokenAddress: string, tokenId: nat)

  datatype Metadata = Metadata(decimals: nat, symbol: string)

  datatype TokenMapEntry = TokenMapEntry(tokenIndex: nat, tokenId: nat, decimals: nat, symbol: string,
                                         contractAddress: string)

  /** `step` is BLOCK_RANGE_MINIMUM, `maxAttempts` DEPOSIT_EVENT_MAX_ATTEMPTS;
      `tokenInfo` is what the contract answers for a token index. */
  datatype Config = Config(deployed: nat, step: nat, maxAttempts: nat, tokenInfo: nat -> TokenInfo)

  /** Which multicall answers of one run succeed, and with what metadata. */
  datatype Rpc = Rpc(infoOk: nat -> bool, metadata: string -> Option<Metadata>)

  // ------------------------------------------------------------ deposit ids

  /** Unlike the other jobs, a cursor at block 0 is used as it is. */
  function GetStart(doc: Option<EventDoc>, deployed: nat): nat {
    if doc.Some? then doc.value.lastBlockNumber + 1 else deployed
  }

  function LastUpTo(doc: Option<EventDoc>): nat {
    if doc.Some? && doc.value.lastUpToDepositId.Some? then doc.value.lastUpToDepositId.value else 0
  }

  /** The ids `from + 1 .. upTo`, none if `upTo` is not beyond `from`. */
  function IdsBetween(from: nat, upTo: nat): (ids: seq<nat>)
    ensures |ids| == if upTo <= from then 0 else upTo - from
    ensures forall i :: 0 <= i < |ids| ==> ids[i] == from + i + 1
  {
    if upTo <= from then [] else seq(upTo - from, i requires 0 <= i => from + i + 1)
  }

  function GenerateDepositIds(events: seq<Entry<nat>>, lastUpToDepositId: nat): seq<nat>
    requires events != []
  {
    IdsBetween(lastUpToDepositId, events[|events| - 1].data)
  }

  function GetDepositIds(l: Ledger, doc: Option<EventDoc>, current: nat, deployed: nat): seq<nat> {
    var start := GetStart(doc, deployed);
    if start > current then []
    else
      var events := LogsIn(l.relays, start, current);
      if events == [] then [] else GenerateDepositIds(events, LastUpTo(doc))
  }

  // -------------------------------------------------- searching the first deposit

  function WithIds(events: seq<Entry<Deposit>>, ids: seq<nat>): seq<Entry<Deposit>> {
    if events == [] then []
    else (if events[0].data.depositId in ids then [events[0]] else []) + WithIds(events[1..], ids)
  }

  /** The backward search: scan `start..current` for the deposit, moving `start`
      down by `step` after each miss; None where the job throws. */
  function Search(deposits: seq<Entry<Deposit>>, id: nat, start: int, current: nat, step: nat, attempts: nat)
    : Option<nat>
    decreases attempts
  {
    if attempts == 0 then None
    else
      var events := WithIds(LogsIn(deposits, start, current), [id]);
      if events != [] then Some(events[0].block)
      else if start - step <= 0 then None
      else Search(deposits, id, start - step, current, step, attempts - 1)
  }

  method CalculateDepositStartNumber(deposits: seq<Entry<Deposit>>, currentBlockNumber: nat, startBlockNumber: nat,
                                     minDepositId: nat, step: nat, maxAttempts: nat)
    returns (r: Option<nat>)
    ensures r == Search(deposits, minDepositId, startBlockNumber, currentBlockNumber, step, maxAttempts)
  {
    var start: int := startBlockNumber;
    var attempts := 0;
    while attempts < maxAttempts
      invariant attempts <= maxAttempts
      invariant Search(deposits, minDepositId, startBlockNumber, currentBlockNumber, step, maxAttempts)
             == Search(deposits, minDepositId, start, currentBlockNumber, step, maxAttempts - attempts)
    {
      var events := WithIds(LogsIn(deposits, start, currentBlockNumber), [minDepositId]);
      if events != [] {
        return Some(events[0].block);
      }
      start := start - step;
      attempts := attempts + 1;
      if start <= 0 {
        return None;
      }
    }
    return None;
  }

  lemma {:induction false} WithIdsMembers(events: seq<Entry<Deposit>>, ids: seq<nat>, e: Entry<Deposit>)
    ensures e in WithIds(events, ids) <==> e in events && e.data.depositId in ids
  {
    if events != [] {
      WithIdsMembers(events[1..], ids, e);
      assert e in events <==> e == events[0] || e in events[1..];
    }
  }

  /** The window start of attempt `k` is legal and reaches down to `block`. */
  predicate Reaches(start: int, step: nat, k: nat, block: int) {
    start - k * step <= block && (k == 0 || start - k * step > 0)
  }

  ghost predicate SomeAttemptReaches(start: int, step: nat, attempts: nat, block: int) {
    exists k: nat :: k < attempts && Reaches(start, step, k, block)
  }

  lemma AttemptsShift(start: int, next: int, step: nat, attempts: nat, block: int)
    requires attempts > 0 && start > block && next == start - step
    ensures SomeAttemptReaches(start, step, attempts, block)
       <==> next > 0 && SomeAttemptReaches(next, step, attempts - 1, block)
  {
    forall k: nat
      ensures start - (k + 1) * step == next - k * step
      ensures k * step >= 0
    {
      assert (k + 1) * step == k * step + step;
    }
    if SomeAttemptReaches(start, step, attempts, block) {
      var k: nat :| k < attempts && Reaches(start, step, k, block);
      assert start - (k - 1 + 1) * step == next - (k - 1) * step;
      assert Reaches(next, step, k - 1, block);
    }
    if next > 0 && SomeAttemptReaches(next, step, attempts - 1, block) {
      var k: nat :| k < attempts - 1 && Reaches(next, step, k, block);
      assert Reaches(start, step, k + 1, block);
    }
  }

  lemma WindowHoldsDeposit(l: Ledger, deployed: nat, id: nat, start: int, current: nat)
    requires Valid(l, deployed) && 0 < id <= |l.deposits| && l.deposits[id - 1].block <= current
    ensures var events := WithIds(LogsIn(l.deposits, start, current), [id]);
      && (events != [] <==> start <= l.deposits[id - 1].block)
      && (events != [] ==> events[0] == l.deposits[id - 1])
  {
    var d := l.deposits[id - 1];
    var window := LogsIn(l.deposits, start, current);
    var events := WithIds(window, [id]);
    WithIdsMembers(window, [id], d);
    LogsInMembers(l.deposits, start, current, d);
    if events != [] {
      WithIdsMembers(window, [id], events[0]);
      LogsInMembers(l.deposits, start, current, events[0]);
    }
  }

  /** On a valid ledger the search can only find the block of deposit `id` itself,
      and finds it exactly when some attempt's window reaches down to that block. */
  lemma {:induction false} SearchFindsDeposit(l: Ledger, deployed: nat, id: nat, start: int, current: nat,
                                              step: nat, attempts: nat)
    requires Valid(l, deployed) && 0 < id <= |l.deposits| && l.deposits[id - 1].block <= current
    ensures var r := Search(l.deposits, id, start, current, step, attempts);
      && (r.Some? ==> r.value == l.deposits[id - 1].block)
      && (r.Some? <==> SomeAttemptReaches(start, step, attempts, l.deposits[id - 1].block))
    decreases attempts
  {
    if attempts > 0 {
      var block := l.deposits[id - 1].block;
      WindowHoldsDeposit(l, deployed, id, start, current);
      if start <= block {
        assert Reaches(start, step, 0, block);
      } else {
        AttemptsShift(start, start - step, step, attempts, block);
        SearchFindsDeposit(l, deployed, id, start - step, current, step, attempts - 1);
      }
    }
  }

  // ------------------------------------------------------------- token entries

  function Indexes(logs: seq<Entry<Deposit>>): set<nat> {
    set e | e in logs :: e.data.tokenIndex
  }

  /** One multicall over the distinct token indexes; any failed answer throws. */
  function TokenInfoMap(c: Config, rpc: Rpc, logs: seq<Entry<Deposit>>): Option<map<nat, TokenInfo>> {
    if exists t :: t in Indexes(logs) && !rpc.infoOk(t) then None
    else Some(map t | t in Indexes(logs) :: c.tokenInfo(t))
  }

  method MapDepositsToTokenInfo(c: Config, rpc: Rpc, logs: seq<Entry<Deposit>>) returns (r: Option<map<nat, TokenInfo>>)
    ensures r == TokenInfoMap(c, rpc, logs)
  {
    var tokenIndexes := Indexes(logs);
    var infos: map<nat, TokenInfo> := map[];
    var todo := tokenIndexes;
    while todo != {}
      invariant todo <= tokenIndexes
      invariant infos == map t | t in tokenIndexes - todo :: c.tokenInfo(t)
      invariant forall t :: t in tokenIndexes - todo ==> rpc.infoOk(t)
      decreases todo
    {
      var t :| t in todo;
      if !rpc.infoOk(t) {
        return None;
      }
      infos := infos[t := c.tokenInfo(t)];
      todo := todo - {t};
    }
    assert tokenIndexes - todo == Indexes(logs);
    assert infos == map t | t in Indexes(logs) :: c.tokenInfo(t);
    return Some(infos);
  }

  function ToLowerCase(s: string): string {
    seq(|s|, i requires 0 <= i < |s| => if 'A' <= s[i] <= 'Z' then s[i] + 32 as char else s[i])
  }

  function EntryOf(t: nat, info: TokenInfo, m: Metadata): TokenMapEntry {
    TokenMapEntry(t, info.tokenId, m.decimals, m.symbol, ToLowerCase(info.tokenAddress))
  }

  function FilterERC20(infos: map<nat, TokenInfo>): map<nat, TokenInfo> {
    map t | t in infos && infos[t].tokenType.ERC20? :: infos[t]
  }

  /** The entries a run adds: the ERC-20 tokens the store lacks, with metadata. */
  function NewEntries(stored: map<nat, TokenMapEntry>, infos: map<nat, TokenInfo>, rpc: Rpc)
    : Option<map<nat, TokenMapEntry>>
  {
    var missing := FilterERC20(infos) - stored.Keys;
    if exists t :: t in missing && rpc.metadata(missing[t].tokenAddress).None? then None
    else Some(map t | t in missing :: EntryOf(t, missing[t], rpc.metadata(missing[t].tokenAddress).value))
  }

  method FilterERC20Tokens(infos: map<nat, TokenInfo>) returns (erc20: map<nat, TokenInfo>)
    ensures erc20 == FilterERC20(infos)
  {
    erc20 := map[];
    var todo := infos.Keys;
    while todo != {}
      invariant todo <= infos.Keys
      invariant erc20 == map t | t in infos.Keys - todo && infos[t].tokenType.ERC20? :: infos[t]
      decreases todo
    {
      var t :| t in todo;
      if infos[t].tokenType == ERC20 {
        erc20 := erc20[t := infos[t]];
      }
      todo := todo - {t};
    }
  }

  // -------------------------------------------------------------------- a run

  /** What a run fetches: the new ids and the token info of their deposits. */
  function Fetch(c: Config, l: Ledger, doc: Option<EventDoc>, current: nat, rpc: Rpc)
    : Option<(seq<nat>, map<nat, TokenInfo>)>
  {
    var ids := GetDepositIds(l, doc, current, c.deployed);
    if ids == [] then Some((ids, map[]))
    else
      match Search(l.deposits, ids[0], GetStart(doc, c.deployed), current, c.step, c.maxAttempts)
      case None => None
      case Some(from) =>
        match TokenInfoMap(c, rpc, WithIds(LogsIn(l.deposits, from, current), ids))
        case None => None
        case Some(infos) => Some((ids, infos))
  }

  datatype Outcome = Outcome(ids: seq<nat>, added: map<nat, TokenMapEntry>, doc: EventDoc)

  /** A completed run's ids, added entries and next cursor document; None if it throws. */
  function RunOutcome(c: Config, l: Ledger, stored: map<nat, TokenMapEntry>, doc: Option<EventDoc>, current: nat,
                      rpc: Rpc)
    : Option<Outcome>
  {
    match Fetch(c, l, doc, current, rpc)
    case None => None
    case Some((ids, infos)) =>
      if ids == [] then Some(Outcome([], map[], Merge(doc, current, None)))
      else
        match NewEntries(stored, infos, rpc)
        case None => None
        case Some(added) => Some(Outcome(ids, added, Merge(doc, current, Some(ids[|ids| - 1]))))
  }

  class TokenMapStore {
    var maps: map<nat, TokenMapEntry>

    constructor ()
      ensures maps == map[]
    {
      maps := map[];
    }

    /** Overwriting saves, one document per token index. */
    method SaveTokenMapsBatch(inputs: map<nat, TokenMapEntry>)
      modifies this
      ensures maps == old(maps) + inputs
    {
      var todo := inputs.Keys;
      while todo != {}
        invariant todo <= inputs.Keys
        invariant maps == old(maps) + (map t | t in inputs.Keys - todo :: inputs[t])
        decreases todo
      {
        var t :| t in todo;
        maps := maps[t := inputs[t]];
        todo := todo - {t};
      }
    }
  }

  method SaveTokenIndexMaps(store: TokenMapStore, infos: map<nat, TokenInfo>, rpc: Rpc) returns (ok: bool)
    modifies store
    ensures ok <==> NewEntries(old(store.maps), infos, rpc).Some?
    ensures store.maps == if ok then old(store.maps) + NewEntries(old(store.maps), infos, rpc).value
                          else old(store.maps)
  {
    var erc20 := FilterERC20Tokens(infos);
    var newTokens := erc20 - store.maps.Keys;
    if exists t :: t in newTokens && rpc.metadata(newTokens[t].tokenAddress).None? {
      return false;
    }
    var enriched := map t | t in newTokens :: EntryOf(t, newTokens[t], rpc.metadata(newTokens[t].tokenAddress).value);
    store.SaveTokenMapsBatch(enriched);
    return true;
  }

  /** The job: entries are saved before the cursor moves; a run that throws moves neither. */
  method PerformJob(c: Config, l: Ledger, event: Event, store: TokenMapStore, current: nat, rpc: Rpc)
    returns (ok: bool)
    modifies event, store
    ensures var r := RunOutcome(c, l, old(store.maps), old(event.doc), current, rpc);
      && (ok <==> r.Some?)
      && (ok ==> store.maps == old(store.maps) + r.value.added && event.doc == Some(r.value.doc))
      && (!ok ==> store.maps == old(store.maps) && event.doc == old(event.doc))
  {
    var doc := event.doc;
    var depositIds := GetDepositIds(l, doc, current, c.deployed);
    if depositIds == [] {
      event.AddOrUpdateEvent(current, None);
      assert store.maps + map[] == store.maps;
      return true;
    }
    var from := CalculateDepositStartNumber(l.deposits, current, GetStart(doc, c.deployed), depositIds[0],
                                            c.step, c.maxAttempts);
    if from.None? {
      return false;
    }
    var logs := WithIds(LogsIn(l.deposits, from.value, current), depositIds);
    var infos := MapDepositsToTokenInfo(c, rpc, logs);
    if infos.None? {
      return false;
    }
    ok := SaveTokenIndexMaps(store, infos.value, rpc);
    if !ok {
      return;
    }
    event.AddOrUpdateEvent(current, Some(depositIds[|depositIds| - 1]));
    return true;
  }
}
