/** The token-map register over whole histories: the ids it generates tile
    `1..n`, and the token map is complete for them and never overwritten. */
module TokenMapSafety {
  import opened Wrappers
  import opened Scanner
  import opened EventStore
  import opened Liquidity
  import opened TokenMapRegister

  /** `scanned` is the highest block a completed run has observed, -1 before the
      first; `generated` is every id list of the completed runs, concatenated. */
  datatype State = State(ledger: Ledger, doc: Option<EventDoc>, maps: map<nat, TokenMapEntry>,
                         scanned: int, generated: seq<nat>)

  /** A crashed run has saved some of its entries and not written its cursor. */
  datatype Step =
    | MakeDeposit(tokenIndex: nat)
    | SealBlock
    | Relay(upToDepositId: nat)
    | Run(observedBlock: nat, rpc: Rpc)
    | CrashedRun(observedBlock: nat, rpc: Rpc, saved: set<nat>)

  function Next(c: Config, s: State, step: Step): State {
    match step
    case MakeDeposit(t) => s.(ledger := AddDeposit(s.ledger, t))
    case SealBlock => s.(ledger := Seal(s.ledger))
    case Relay(u) => (
      match RelayDeposits(s.ledger, u)
      case None => s
      case Some(l) => s.(ledger := l))
    case Run(b, rpc) => (
      match if b <= s.ledger.head then RunOutcome(c, s.ledger, s.maps, s.doc, b, rpc) else None
      case None => s
      case Some(o) => s.(doc := Some(o.doc), maps := s.maps + o.added,
                         scanned := if b > s.scanned then b else s.scanned, generated := s.generated + o.ids))
    case CrashedRun(b, rpc, saved) => (
      match if b <= s.ledger.head then RunOutcome(c, s.ledger, s.maps, s.doc, b, rpc) else None
      case None => s
      case Some(o) => s.(maps := s.maps + (map t | t in o.added && t in saved :: o.added[t])))
  }

  function Exec(c: Config, s: State, steps: seq<Step>): State
    decreases |steps|
  {
    if steps == [] then s else Exec(c, Next(c, s, steps[0]), steps[1..])
  }

  /** Every ERC-20 token used by a deposit with id at most `upTo` has an entry. */
  ghost predicate Complete(c: Config, s: State, upTo: nat) {
    upTo <= |s.ledger.deposits| &&
    forall i :: 0 <= i < upTo && c.tokenInfo(s.ledger.deposits[i].data.tokenIndex).tokenType.ERC20? ==>
      s.ledger.deposits[i].data.tokenIndex in s.maps
  }

  ghost predicate Inv(c: Config, s: State) {
    && Valid(s.ledger, c.deployed)
    && -1 <= s.scanned <= s.ledger.head
    && (s.doc.None? <==> s.scanned == -1)
    && (s.doc.Some? ==> s.doc.value.lastBlockNumber <= s.scanned)
    && LastUpTo(s.doc) == LastRelayedAt(s.ledger, s.scanned)
    && s.generated == IdsBetween(0, LastUpTo(s.doc))
    && Complete(c, s, LastUpTo(s.doc))
  }

  // ---------------------------------------------------------- the relay history

  lemma CutMonotone<T(!new)>(log: seq<Entry<T>>, a: int, b: int)
    requires ChainOrdered(log) && a <= b
    ensures Cut(log, a) <= Cut(log, b)
  {
  }

  /** Blocks that are already sealed keep their relays. */
  lemma SealedRelaysFixed(l: Ledger, l': Ledger, deployed: nat, b: int)
    requires Valid(l, deployed) && Valid(l', deployed) && -1 <= b
    requires l.relays <= l'.relays && (|l.relays| < |l'.relays| ==> l'.relays[|l.relays|].block > b)
    ensures LastRelayedAt(l', b) == LastRelayedAt(l, b)
  {
    RelayedAtBounds(l, deployed, b);
    RelayedAtBounds(l', deployed, b);
    CutOfExtension(l.relays, l'.relays, b + 1);
  }

  lemma RelayedByMonotone(l: Ledger, deployed: nat, a: int, b: int)
    requires Valid(l, deployed) && -1 <= a <= b
    ensures LastRelayedAt(l, a) <= LastRelayedAt(l, b)
  {
    RelayedAtBounds(l, deployed, a);
    RelayedAtBounds(l, deployed, b);
    CutMonotone(l.relays, a + 1, b + 1);
    var n, m := Cut(l.relays, a + 1), Cut(l.relays, b + 1);
    if 0 < n < m {
      assert l.relays[n - 1].data < l.relays[m - 1].data;
    }
  }

  /** The last relay of a run's window names the highest id relayed by then. */
  lemma WindowEndsAt(l: Ledger, deployed: nat, start: nat, current: nat)
    requires Valid(l, deployed) && start <= current
    ensures var events: seq<Entry<nat>> := LogsIn(l.relays, start, current);
      && (events != [] ==> events[|events| - 1].data == LastRelayedAt(l, current))
      && (events == [] ==> Cut(l.relays, start) == Cut(l.relays, current + 1))
  {
    LogsInIsSlice(l.relays, start, current);
    RelayedAtBounds(l, deployed, current);
  }

  /** A run generates exactly the ids relayed since the highest block scanned,
      whatever its cursor block has regressed to. */
  lemma RunGenerates(c: Config, s: State, current: nat)
    requires Inv(c, s)
    ensures GetDepositIds(s.ledger, s.doc, current, c.deployed)
         == if current <= s.scanned then [] else IdsBetween(LastUpTo(s.doc), LastRelayedAt(s.ledger, current))
  {
    var l, start := s.ledger, GetStart(s.doc, c.deployed);
    if current <= s.scanned {
      RelayedByMonotone(l, c.deployed, current, s.scanned);
    }
    if start <= current {
      WindowEndsAt(l, c.deployed, start, current);
      if current > s.scanned && Cut(l.relays, start) == Cut(l.relays, current + 1) {
        SameCut(l, c.deployed, s.scanned, start, current);
      }
    } else if s.doc.None? {
      NothingBeforeDeployment(l, c.deployed, current);
      NothingBeforeDeployment(l, c.deployed, s.scanned);
    }
  }

  lemma FirstScanSeesAll(l: Ledger, deployed: nat)
    requires Valid(l, deployed)
    ensures Cut(l.relays, deployed) == 0 && Cut(l.relays, 0) == 0
  {
    assert l.relays != [] ==> l.relays[0] in l.relays;
    CutUnique(l.relays, deployed, 0);
    CutUnique(l.relays, 0, 0);
  }

  lemma NothingBeforeDeployment(l: Ledger, deployed: nat, b: int)
    requires Valid(l, deployed) && -1 <= b < deployed
    ensures LastRelayedAt(l, b) == 0
  {
    FirstScanSeesAll(l, deployed);
    CutMonotone(l.relays, b + 1, deployed);
    RelayedAtBounds(l, deployed, b);
  }

  lemma SameCut(l: Ledger, deployed: nat, scanned: int, start: nat, current: nat)
    requires Valid(l, deployed) && -1 <= scanned < current
    requires start <= scanned + 1 || (scanned == -1 && start == deployed)
    requires Cut(l.relays, start) == Cut(l.relays, current + 1)
    ensures LastRelayedAt(l, current) == LastRelayedAt(l, scanned)
  {
    RelayedAtBounds(l, deployed, current);
    RelayedAtBounds(l, deployed, scanned);
    if start <= scanned + 1 {
      CutMonotone(l.relays, start, scanned + 1);
    } else {
      FirstScanSeesAll(l, deployed);
    }
    CutMonotone(l.relays, scanned + 1, current + 1);
  }

  // -------------------------------------------------------------- completeness

  /** A run that gets through registers every ERC-20 token of its ids: the
      backward search starts the log query at or before each of their deposits. */
  lemma RunRegistersItsTokens(c: Config, s: State, current: nat, rpc: Rpc, i: nat)
    requires Valid(s.ledger, c.deployed)
    requires RunOutcome(c, s.ledger, s.maps, s.doc, current, rpc).Some?
    requires var ids := GetDepositIds(s.ledger, s.doc, current, c.deployed);
      ids != [] && ids == IdsBetween(ids[0] - 1, LastRelayedAt(s.ledger, current))
      && ids[0] <= i + 1 <= LastRelayedAt(s.ledger, current)
    requires i < |s.ledger.deposits| && c.tokenInfo(s.ledger.deposits[i].data.tokenIndex).tokenType.ERC20?
    ensures s.ledger.deposits[i].data.tokenIndex
            in s.maps + RunOutcome(c, s.ledger, s.maps, s.doc, current, rpc).value.added
  {
    var l := s.ledger;
    var ids := GetDepositIds(l, s.doc, current, c.deployed);
    var d := l.deposits[i];
    RelayedAtBounds(l, c.deployed, current);
    var first := ids[0];
    assert l.deposits[first - 1].block <= current && d.block <= current;
    SearchFindsDeposit(l, c.deployed, first, GetStart(s.doc, c.deployed), current, c.step, c.maxAttempts);
    var from := l.deposits[first - 1].block;
    assert from <= d.block;
    LogsInMembers(l.deposits, from, current, d);
    WithIdsMembers(LogsIn(l.deposits, from, current), ids, d);
    assert d.data.depositId == ids[i + 1 - first];
    assert d.data.tokenIndex in Indexes(WithIds(LogsIn(l.deposits, from, current), ids));
  }

  lemma OutcomeIds(c: Config, l: Ledger, stored: map<nat, TokenMapEntry>, doc: Option<EventDoc>, b: nat, rpc: Rpc)
    requires RunOutcome(c, l, stored, doc, b, rpc).Some?
    ensures var o := RunOutcome(c, l, stored, doc, b, rpc).value;
      && o.ids == GetDepositIds(l, doc, b, c.deployed)
      && o.doc.lastBlockNumber == b
      && LastUpTo(Some(o.doc)) == if o.ids == [] then LastUpTo(doc) else o.ids[|o.ids| - 1]
  {
  }

  lemma IdsJoin(a: nat, b: nat)
    requires a <= b
    ensures IdsBetween(0, a) + IdsBetween(a, b) == IdsBetween(0, b)
  {
  }

  /** The stored id after a run is the highest id relayed by the highest block scanned. */
  lemma RunRaisesLevel(c: Config, s: State, b: nat, o: Outcome)
    requires Inv(c, s) && o.ids == GetDepositIds(s.ledger, s.doc, b, c.deployed)
    requires LastUpTo(Some(o.doc)) == if o.ids == [] then LastUpTo(s.doc) else o.ids[|o.ids| - 1]
    ensures LastUpTo(Some(o.doc)) == LastRelayedAt(s.ledger, if b > s.scanned then b else s.scanned) >= LastUpTo(s.doc)
    ensures o.ids == IdsBetween(LastUpTo(s.doc), LastUpTo(Some(o.doc)))
  {
    RunGenerates(c, s, b);
    RelayedByMonotone(s.ledger, c.deployed, s.scanned, if b > s.scanned then b else s.scanned);
  }

  lemma RunExtendsTiling(c: Config, s: State, b: nat, rpc: Rpc)
    requires Inv(c, s) && RunOutcome(c, s.ledger, s.maps, s.doc, b, rpc).Some?
    ensures var o := RunOutcome(c, s.ledger, s.maps, s.doc, b, rpc).value;
      && LastUpTo(Some(o.doc)) == LastRelayedAt(s.ledger, if b > s.scanned then b else s.scanned)
      && LastUpTo(Some(o.doc)) >= LastUpTo(s.doc)
      && s.generated + o.ids == IdsBetween(0, LastUpTo(Some(o.doc)))
  {
    var o := RunOutcome(c, s.ledger, s.maps, s.doc, b, rpc).value;
    OutcomeIds(c, s.ledger, s.maps, s.doc, b, rpc);
    RunRaisesLevel(c, s, b, o);
    IdsJoin(LastUpTo(s.doc), LastUpTo(Some(o.doc)));
  }

  lemma RunCompletesMap(c: Config, s: State, b: nat, rpc: Rpc, upTo: nat)
    requires Inv(c, s) && RunOutcome(c, s.ledger, s.maps, s.doc, b, rpc).Some?
    requires upTo == LastUpTo(Some(RunOutcome(c, s.ledger, s.maps, s.doc, b, rpc).value.doc))
    ensures Complete(c, s.(maps := s.maps + RunOutcome(c, s.ledger, s.maps, s.doc, b, rpc).value.added), upTo)
  {
    OutcomeIds(c, s.ledger, s.maps, s.doc, b, rpc);
    RunGenerates(c, s, b);
    RelayedAtBounds(s.ledger, c.deployed, b);
    forall i | LastUpTo(s.doc) <= i < upTo && c.tokenInfo(s.ledger.deposits[i].data.tokenIndex).tokenType.ERC20?
      ensures s.ledger.deposits[i].data.tokenIndex
              in s.maps + RunOutcome(c, s.ledger, s.maps, s.doc, b, rpc).value.added
    {
      RunRegistersItsTokens(c, s, b, rpc, i);
    }
  }

  lemma RunKeepsInv(c: Config, s: State, b: nat, rpc: Rpc)
    requires Inv(c, s) && b <= s.ledger.head
    requires RunOutcome(c, s.ledger, s.maps, s.doc, b, rpc).Some?
    ensures Inv(c, Next(c, s, Run(b, rpc)))
  {
    OutcomeIds(c, s.ledger, s.maps, s.doc, b, rpc);
    RunExtendsTiling(c, s, b, rpc);
    RunCompletesMap(c, s, b, rpc, LastUpTo(Some(RunOutcome(c, s.ledger, s.maps, s.doc, b, rpc).value.doc)));
  }

  lemma NextKeepsInv(c: Config, s: State, step: Step)
    requires Inv(c, s)
    ensures Inv(c, Next(c, s, step))
  {
    var l, s' := s.ledger, Next(c, s, step);
    match step
    case MakeDeposit(t) =>
      AddDepositKeepsValid(l, c.deployed, t);
      SealedRelaysFixed(l, s'.ledger, c.deployed, s.scanned);
    case SealBlock =>
      SealKeepsValid(l, c.deployed);
    case Relay(u) =>
      if RelayDeposits(l, u).Some? {
        RelayKeepsValid(l, c.deployed, u);
        SealedRelaysFixed(l, s'.ledger, c.deployed, s.scanned);
      }
    case Run(b, rpc) =>
      if b <= l.head && RunOutcome(c, l, s.maps, s.doc, b, rpc).Some? {
        RunKeepsInv(c, s, b, rpc);
      }
    case CrashedRun(b, rpc, saved) =>
  }

  /** Token-id tiling and token-map completeness: over any history, also when the
      observed block and with it the cursor go backwards, the ids the completed
      runs generated are exactly `1..n` in order, where `n` is the stored id and
      the highest id relayed up to the highest block scanned; and every ERC-20
      token of those deposits has an entry. */
  lemma {:induction false} IdsTileAndMapIsComplete(c: Config, s: State, steps: seq<Step>)
    requires Inv(c, s)
    ensures var end := Exec(c, s, steps);
      && Inv(c, end)
      && LastUpTo(end.doc) == LastRelayedAt(end.ledger, end.scanned)
      && end.generated == IdsBetween(0, LastUpTo(end.doc))
      && Complete(c, end, LastUpTo(end.doc))
    decreases |steps|
  {
    if steps != [] {
      NextKeepsInv(c, s, steps[0]);
      IdsTileAndMapIsComplete(c, Next(c, s, steps[0]), steps[1..]);
    }
  }

  /** No history overwrites or removes an entry. */
  lemma {:induction false} EntriesAreNeverOverwritten(c: Config, s: State, steps: seq<Step>, t: nat)
    requires t in s.maps
    ensures t in Exec(c, s, steps).maps && Exec(c, s, steps).maps[t] == s.maps[t]
    decreases |steps|
  {
    if steps != [] {
      EntriesAreNeverOverwritten(c, Next(c, s, steps[0]), steps[1..], t);
    }
  }

  // ------------------------------------------------------ a search that misses

  /** No attempt of the backward search reaches the next deposit to register. */
  ghost predicate OutOfReach(c: Config, l: Ledger, doc: Option<EventDoc>) {
    LastUpTo(doc) < |l.deposits|
    && !SomeAttemptReaches(GetStart(doc, c.deployed), c.step, c.maxAttempts, l.deposits[LastUpTo(doc)].block)
  }

  /** A run that observes block `b` finds ids it has not registered. */
  predicate FindsNewIds(s: State, b: nat) {
    b > s.scanned && LastRelayedAt(s.ledger, b) > LastUpTo(s.doc)
  }

  /** A deposit among the new ids uses the token. */
  ghost predicate NewlyUsed(s: State, b: nat, token: nat) {
    exists i :: LastUpTo(s.doc) <= i < LastRelayedAt(s.ledger, b) && i < |s.ledger.deposits|
                && s.ledger.deposits[i].data.tokenIndex == token
  }

  /** The run is to register the token: an ERC-20 token of a new id without an entry. */
  ghost predicate Wanted(c: Config, s: State, b: nat, token: nat) {
    NewlyUsed(s, b, token) && c.tokenInfo(token).tokenType == ERC20 && token !in s.maps
  }

  /** Every token of the new ids is answered, and the metadata of every wanted one. */
  ghost predicate AllAnswered(c: Config, s: State, b: nat, rpc: Rpc) {
    && (forall token :: NewlyUsed(s, b, token) ==> rpc.infoOk(token))
    && (forall token :: Wanted(c, s, b, token) ==> rpc.metadata(c.tokenInfo(token).tokenAddress).Some?)
  }

  /** The deposits a run looks up: those of its new ids, from the first one's block on. */
  function LookedUp(c: Config, s: State, b: nat): seq<Entry<Deposit>>
    requires LastUpTo(s.doc) < |s.ledger.deposits|
  {
    WithIds(LogsIn(s.ledger.deposits, s.ledger.deposits[LastUpTo(s.doc)].block, b),
            GetDepositIds(s.ledger, s.doc, b, c.deployed))
  }

  lemma LookedUpIs(c: Config, s: State, b: nat, e: Entry<Deposit>)
    requires LastUpTo(s.doc) < |s.ledger.deposits|
    ensures e in LookedUp(c, s, b)
       <==> e in s.ledger.deposits && s.ledger.deposits[LastUpTo(s.doc)].block <= e.block <= b
            && e.data.depositId in GetDepositIds(s.ledger, s.doc, b, c.deployed)
  {
    var from := s.ledger.deposits[LastUpTo(s.doc)].block;
    WithIdsMembers(LogsIn(s.ledger.deposits, from, b), GetDepositIds(s.ledger, s.doc, b, c.deployed), e);
    LogsInMembers(s.ledger.deposits, from, b, e);
  }

  lemma NewIdIs(c: Config, s: State, b: nat, id: nat)
    requires Inv(c, s) && FindsNewIds(s, b)
    ensures id in GetDepositIds(s.ledger, s.doc, b, c.deployed) <==> LastUpTo(s.doc) < id <= LastRelayedAt(s.ledger, b)
  {
    RunGenerates(c, s, b);
    var ids := GetDepositIds(s.ledger, s.doc, b, c.deployed);
    if LastUpTo(s.doc) < id <= LastRelayedAt(s.ledger, b) {
      assert ids[id - LastUpTo(s.doc) - 1] == id;
    }
  }

  lemma NewDepositIsLookedUp(c: Config, s: State, b: nat, i: nat)
    requires Inv(c, s) && FindsNewIds(s, b)
    requires LastUpTo(s.doc) <= i < LastRelayedAt(s.ledger, b) && i < |s.ledger.deposits|
    ensures s.ledger.deposits[i] in LookedUp(c, s, b)
  {
    RelayedAtBounds(s.ledger, c.deployed, b);
    NewIdIs(c, s, b, i + 1);
    LookedUpIs(c, s, b, s.ledger.deposits[i]);
  }

  lemma LookedUpIsNew(c: Config, s: State, b: nat, e: Entry<Deposit>)
    requires Inv(c, s) && FindsNewIds(s, b) && LastUpTo(s.doc) < |s.ledger.deposits|
    requires e in LookedUp(c, s, b)
    ensures NewlyUsed(s, b, e.data.tokenIndex)
  {
    LookedUpIs(c, s, b, e);
    NewIdIs(c, s, b, e.data.depositId);
    var i :| 0 <= i < |s.ledger.deposits| && s.ledger.deposits[i] == e;
  }

  /** The tokens a run looks up are exactly those of its new ids. */
  lemma LooksUpNewlyUsed(c: Config, s: State, b: nat, token: nat)
    requires Inv(c, s) && FindsNewIds(s, b) && LastUpTo(s.doc) < |s.ledger.deposits|
    ensures token in Indexes(LookedUp(c, s, b)) <==> NewlyUsed(s, b, token)
  {
    if NewlyUsed(s, b, token) {
      var i :| LastUpTo(s.doc) <= i < LastRelayedAt(s.ledger, b) && i < |s.ledger.deposits|
               && s.ledger.deposits[i].data.tokenIndex == token;
      NewDepositIsLookedUp(c, s, b, i);
    }
    if token in Indexes(LookedUp(c, s, b)) {
      var e :| e in LookedUp(c, s, b) && e.data.tokenIndex == token;
      LookedUpIsNew(c, s, b, e);
    }
  }

  lemma SearchOutcome(c: Config, s: State, b: nat)
    requires Inv(c, s) && FindsNewIds(s, b)
    ensures LastUpTo(s.doc) < |s.ledger.deposits|
    ensures var ids := GetDepositIds(s.ledger, s.doc, b, c.deployed);
      && ids != [] && ids[0] == LastUpTo(s.doc) + 1
      && Search(s.ledger.deposits, ids[0], GetStart(s.doc, c.deployed), b, c.step, c.maxAttempts)
         == if OutOfReach(c, s.ledger, s.doc) then None else Some(s.ledger.deposits[LastUpTo(s.doc)].block)
  {
    RunGenerates(c, s, b);
    RelayedAtBounds(s.ledger, c.deployed, b);
    SearchFindsDeposit(s.ledger, c.deployed, LastUpTo(s.doc) + 1, GetStart(s.doc, c.deployed), b,
                       c.step, c.maxAttempts);
  }

  /** When a run throws: exactly if it finds new ids, and no search attempt reaches the
      first of their deposits or a token of theirs is not answered. */
  lemma RunThrowsIff(c: Config, s: State, b: nat, rpc: Rpc)
    requires Inv(c, s)
    ensures RunOutcome(c, s.ledger, s.maps, s.doc, b, rpc).None?
       <==> FindsNewIds(s, b) && (OutOfReach(c, s.ledger, s.doc) || !AllAnswered(c, s, b, rpc))
  {
    RunGenerates(c, s, b);
    if FindsNewIds(s, b) {
      SearchOutcome(c, s, b);
      if !OutOfReach(c, s.ledger, s.doc) {
        AnsweredIff(c, s, b, rpc);
      }
    } else {
      assert GetDepositIds(s.ledger, s.doc, b, c.deployed) == [];
    }
  }

  /** What a run looks up once its search has found the first deposit. */
  function Infos(c: Config, s: State, b: nat): map<nat, TokenInfo>
    requires LastUpTo(s.doc) < |s.ledger.deposits|
  {
    map t | t in Indexes(LookedUp(c, s, b)) :: c.tokenInfo(t)
  }

  lemma InfosAre(c: Config, s: State, b: nat)
    requires Inv(c, s) && FindsNewIds(s, b) && LastUpTo(s.doc) < |s.ledger.deposits|
    ensures forall t :: t in Infos(c, s, b) <==> NewlyUsed(s, b, t)
    ensures forall t :: t in FilterERC20(Infos(c, s, b)) - s.maps.Keys <==> Wanted(c, s, b, t)
    ensures forall t :: t in Infos(c, s, b) ==> Infos(c, s, b)[t] == c.tokenInfo(t)
  {
    forall t
      ensures t in Infos(c, s, b) <==> NewlyUsed(s, b, t)
    {
      LooksUpNewlyUsed(c, s, b, t);
    }
  }

  lemma AnsweredIff(c: Config, s: State, b: nat, rpc: Rpc)
    requires Inv(c, s) && FindsNewIds(s, b) && LastUpTo(s.doc) < |s.ledger.deposits|
    ensures var infos := TokenInfoMap(c, rpc, LookedUp(c, s, b));
      AllAnswered(c, s, b, rpc) <==> infos.Some? && NewEntries(s.maps, infos.value, rpc).Some?
  {
    InfosAre(c, s, b);
    assert forall t :: t in Indexes(LookedUp(c, s, b)) <==> t in Infos(c, s, b);
    var infos := TokenInfoMap(c, rpc, LookedUp(c, s, b));
    if infos.Some? {
      assert infos.value == Infos(c, s, b);
    }
  }

  /** What a run that gets through adds: exactly the wanted tokens, each with its own
      on-chain data and the metadata of its contract. */
  lemma RunAddsExactly(c: Config, s: State, b: nat, rpc: Rpc, token: nat)
    requires Inv(c, s) && FindsNewIds(s, b) && RunOutcome(c, s.ledger, s.maps, s.doc, b, rpc).Some?
    ensures var added := RunOutcome(c, s.ledger, s.maps, s.doc, b, rpc).value.added;
      && (token in added <==> Wanted(c, s, b, token))
      && (token in added ==>
            var info := c.tokenInfo(token);
            var m := rpc.metadata(info.tokenAddress);
            && m.Some?
            && added[token].tokenIndex == token && added[token].tokenId == info.tokenId
            && added[token].decimals == m.value.decimals && added[token].symbol == m.value.symbol
            && IsLowerCaseOf(added[token].contractAddress, info.tokenAddress))
  {
    SearchOutcome(c, s, b);
    InfosAre(c, s, b);
    assert TokenInfoMap(c, rpc, LookedUp(c, s, b)).value == Infos(c, s, b);
    LowerCases(c.tokenInfo(token).tokenAddress);
  }

  predicate IsUpper(ch: char) { 'A' <= ch <= 'Z' }

  /** `lower` is `s` with each letter from A to Z replaced by the one from a to z. */
  ghost predicate IsLowerCaseOf(lower: string, s: string) {
    && |lower| == |s|
    && forall i :: 0 <= i < |s| ==>
         if IsUpper(s[i]) then lower[i] as int - 97 == s[i] as int - 65 else lower[i] == s[i]
  }

  lemma LowerCases(s: string)
    ensures IsLowerCaseOf(ToLowerCase(s), s)
  {
  }

  /** A relay of new ids is visible at block `b`, and their first deposit is out of reach. */
  ghost predicate Stuck(c: Config, s: State, b: nat) {
    b <= s.ledger.head && FindsNewIds(s, b) && OutOfReach(c, s.ledger, s.doc)
  }

  ghost predicate Observes(step: Step, b: nat) {
    (step.Run? || step.CrashedRun?) ==> step.observedBlock >= b
  }

  lemma NextStaysStuck(c: Config, s: State, step: Step, b: nat)
    requires Inv(c, s) && Stuck(c, s, b) && Observes(step, b)
    ensures Stuck(c, Next(c, s, step), b)
    ensures Next(c, s, step).doc == s.doc && Next(c, s, step).maps == s.maps
        && Next(c, s, step).generated == s.generated
  {
    var l, s' := s.ledger, Next(c, s, step);
    match step
    case MakeDeposit(t) =>
      AddDepositKeepsValid(l, c.deployed, t);
      SealedRelaysFixed(l, s'.ledger, c.deployed, b);
    case SealBlock =>
    case Relay(u) =>
      if RelayDeposits(l, u).Some? {
        RelayKeepsValid(l, c.deployed, u);
        SealedRelaysFixed(l, s'.ledger, c.deployed, b);
      }
    case Run(observed, rpc) =>
      RelayedByMonotone(l, c.deployed, b, observed);
      RunThrowsIff(c, s, observed, rpc);
    case CrashedRun(observed, rpc, _) =>
      RelayedByMonotone(l, c.deployed, b, observed);
      RunThrowsIff(c, s, observed, rpc);
  }

  /** As long as runs observe block `b` or later, a stuck job stays stuck: every run
      throws, and no cursor, entry or id is ever written. */
  lemma {:induction false} StuckForGood(c: Config, s: State, steps: seq<Step>, b: nat)
    requires Inv(c, s) && Stuck(c, s, b)
    requires forall i :: 0 <= i < |steps| ==> Observes(steps[i], b)
    ensures var end := Exec(c, s, steps);
      Stuck(c, end, b) && end.doc == s.doc && end.maps == s.maps && end.generated == s.generated
    decreases |steps|
  {
    if steps != [] {
      assert Observes(steps[0], b);
      NextKeepsInv(c, s, steps[0]);
      NextStaysStuck(c, s, steps[0], b);
      StuckForGood(c, Next(c, s, steps[0]), steps[1..], b);
    }
  }

  /** A run without new ids, because it observes a block that is already scanned or
      lies before the relay, moves the cursor to that block and keeps the stored id;
      it frees the job exactly if some attempt of a search from the block after it
      reaches the deposit. */
  lemma IdleRunFreesIff(c: Config, s: State, observed: nat, rpc: Rpc)
    requires Inv(c, s) && OutOfReach(c, s.ledger, s.doc)
    requires observed <= s.ledger.head && !FindsNewIds(s, observed)
    ensures var s' := Next(c, s, Run(observed, rpc));
      && GetStart(s'.doc, c.deployed) == observed + 1 && LastUpTo(s'.doc) == LastUpTo(s.doc)
      && (OutOfReach(c, s'.ledger, s'.doc)
          <==> !SomeAttemptReaches(observed + 1, c.step, c.maxAttempts, s.ledger.deposits[LastUpTo(s.doc)].block))
  {
    RunThrowsIff(c, s, observed, rpc);
    RunGenerates(c, s, observed);
    assert GetDepositIds(s.ledger, s.doc, observed, c.deployed) == [];
  }

  /** A deposit of block 2, relayed in block 4 after the run at block 3. */
  function LateRelay(): State {
    State(Ledger([Entry(2, Deposit(1, 0))], [Entry(4, 1)], 4), Some(EventDoc(3, None)), map[], 3, [])
  }

  /** A search of one attempt never reaches that deposit, until a run observes block 1. */
  lemma LateRelayIsStuck(tokenInfo: nat -> TokenInfo, rpc: Rpc)
    ensures var c, s := Config(1, 1, 1, tokenInfo), LateRelay();
      && Inv(c, s) && Stuck(c, s, 4)
      && !OutOfReach(c, Next(c, s, Run(1, rpc)).ledger, Next(c, s, Run(1, rpc)).doc)
  {
    var c, s := Config(1, 1, 1, tokenInfo), LateRelay();
    CutUnique(s.ledger.relays, 4, 0);
    CutUnique(s.ledger.relays, 5, 1);
    assert Valid(s.ledger, 1);
    RelayedAtBounds(s.ledger, 1, 3);
    RelayedAtBounds(s.ledger, 1, 4);
    assert !Reaches(4, 1, 0, 2);
    assert Reaches(2, 1, 0, 2);
    IdleRunFreesIff(c, s, 1, rpc);
  }

  /** A deposit of block 2, relayed in block 20 after the run at block 3. */
  function LaterRelay(): State {
    State(Ledger([Entry(2, Deposit(1, 0))], [Entry(20, 1)], 20), Some(EventDoc(3, None)), map[], 3, [])
  }

  /** Steps of ten blocks down from block 4 miss that deposit, and a run at the new
      block 11, which does not see the relay yet, frees the job. */
  lemma EarlierBlockFrees(tokenInfo: nat -> TokenInfo, rpc: Rpc)
    ensures var c, s := Config(1, 10, 10, tokenInfo), LaterRelay();
      && Inv(c, s) && Stuck(c, s, 20) && 11 > s.scanned
      && !OutOfReach(c, Next(c, s, Run(11, rpc)).ledger, Next(c, s, Run(11, rpc)).doc)
  {
    var c, s := Config(1, 10, 10, tokenInfo), LaterRelay();
    CutUnique(s.ledger.relays, 4, 0);
    CutUnique(s.ledger.relays, 12, 0);
    CutUnique(s.ledger.relays, 21, 1);
    assert Valid(s.ledger, 1);
    RelayedAtBounds(s.ledger, 1, 3);
    RelayedAtBounds(s.ledger, 1, 11);
    RelayedAtBounds(s.ledger, 1, 20);
    assert forall k: nat :: !Reaches(4, 10, k, 2);
    assert Reaches(12, 10, 1, 2);
    IdleRunFreesIff(c, s, 11, rpc);
  }

  // ----------------------------------------------------------------- contents

  /** An entry is the contract's record of an ERC-20 token under its own index. */
  ghost predicate FaithfulEntry(c: Config, t: nat, e: TokenMapEntry) {
    var info := c.tokenInfo(t);
    && info.tokenType.ERC20?
    && e.tokenIndex == t && e.tokenId == info.tokenId && IsLowerCaseOf(e.contractAddress, info.tokenAddress)
  }

  ghost predicate Faithful(c: Config, maps: map<nat, TokenMapEntry>) {
    forall t :: t in maps ==> FaithfulEntry(c, t, maps[t])
  }

  lemma RunAddsFaithful(c: Config, l: Ledger, stored: map<nat, TokenMapEntry>, doc: Option<EventDoc>, b: nat, rpc: Rpc)
    requires RunOutcome(c, l, stored, doc, b, rpc).Some?
    ensures Faithful(c, RunOutcome(c, l, stored, doc, b, rpc).value.added)
  {
  }

  lemma NextAddsFaithful(c: Config, s: State, step: Step)
    requires Faithful(c, s.maps)
    ensures Faithful(c, Next(c, s, step).maps)
  {
    if step.Run? || step.CrashedRun? {
      if RunOutcome(c, s.ledger, s.maps, s.doc, step.observedBlock, step.rpc).Some? {
        RunAddsFaithful(c, s.ledger, s.maps, s.doc, step.observedBlock, step.rpc);
      }
    }
  }

  /** Only ERC-20 tokens are ever registered, each with its own on-chain data. */
  lemma {:induction false} EntriesAreFaithful(c: Config, s: State, steps: seq<Step>)
    requires Faithful(c, s.maps)
    ensures Faithful(c, Exec(c, s, steps).maps)
    decreases |steps|
  {
    if steps != [] {
      NextAddsFaithful(c, s, steps[0]);
      EntriesAreFaithful(c, Next(c, s, steps[0]), steps[1..]);
    }
  }

  lemma FreshStateIsValid(c: Config, head: nat)
    requires c.deployed <= head + 1
    ensures Inv(c, State(Ledger([], [], head), None, map[], -1, []))
  {
  }
}
