/**
 The window of derived addresses a wallet watches. Derivation is a parameter,
 not assumed injective.
 */
module AddressWindow {
  datatype Kind = External | Internal

  /** A derivation path, by its last two components. */
  datatype Path = Path(chain: Kind, index: nat)

  const GAP := 20

  type Derive = Path -> string

  /** `loaded`, `highest` and `current` hold an index per chain; `issued` is every address handed out so far. */
  datatype State = State(loaded: map<Kind, nat>, highest: map<Kind, nat>, current: map<Kind, nat>, own: map<string, Path>, issued: set<string>)

  const ZERO: map<Kind, nat> := map[External := 0, Internal := 0]

  predicate Complete(m: map<Kind, nat>) {
    forall k: Kind :: k in m
  }

  lemma ZeroComplete()
    ensures Complete(ZERO)
  {
    forall k: Kind ensures k in ZERO {
      match k case External => case Internal =>
    }
  }

  predicate Shaped(s: State) {
    Complete(s.loaded) && Complete(s.highest) && Complete(s.current)
  }

  function Max(a: nat, b: nat): nat {
    if a < b then b else a
  }

  /** Addresses `low` up to `end` of a chain become the wallet's, later paths taking the place of earlier ones. */
  function Own(own: map<string, Path>, derive: Derive, chain: Kind, low: nat, end: nat): (r: map<string, Path>)
    requires low <= end
    ensures own.Keys <= r.Keys
    ensures forall i :: low <= i < end ==> derive(Path(chain, i)) in r
    ensures forall a :: a in r ==> (a in own && r[a] == own[a]) || (r[a].chain == chain && low <= r[a].index < end && derive(r[a]) == a)
    decreases end
  {
    if low == end then own
    else
      var before := Own(own, derive, chain, low, end - 1);
      before[derive(Path(chain, end - 1)) := Path(chain, end - 1)]
  }

  /** `#loadAddresses` of a key that derives addresses. */
  function Load(s: State, derive: Derive, chain: Kind): (r: State)
    requires Shaped(s)
    ensures Shaped(r)
  {
    var start := s.loaded[chain];
    s.(own := Own(s.own, derive, chain, start, start + GAP + 1), loaded := s.loaded[chain := start + GAP])
  }

  /** `setMasterKey` with a new account: a reset, and both chains loaded. */
  function Fresh(derive: Derive): (r: State)
    ensures Shaped(r)
  {
    ZeroComplete();
    Load(Load(State(ZERO, ZERO, ZERO, map[], {}), derive, External), derive, Internal)
  }

  /** `#updateHighestUsedIndex`, for the address an output pays. */
  function Used(s: State, derive: Derive, address: string): (r: State)
    requires Shaped(s)
    ensures Shaped(r)
  {
    if address !in s.own then s
    else
      var path := s.own[address];
      var marked := s.(highest := s.highest[path.chain := Max(path.index, s.highest[path.chain])]);
      if marked.highest[path.chain] + GAP >= s.loaded[path.chain] then Load(marked, derive, path.chain) else marked
  }

  /** The index `getNewAddress` moves to: back to the highest used one when the gap is exhausted. */
  function NextIndex(s: State, chain: Kind): nat
    requires Shaped(s)
  {
    var next := Max(s.current[chain], s.highest[chain]) + 1;
    if next - s.highest[chain] > GAP then s.highest[chain] else next
  }

  function NewAddress(s: State, derive: Derive, chain: Kind): (r: State)
    requires Shaped(s)
    ensures Shaped(r)
  {
    var index := NextIndex(s, chain);
    s.(current := s.current[chain := index], issued := s.issued + {derive(Path(chain, index))})
  }

  function CurrentAddress(s: State, derive: Derive): (r: State)
    requires Shaped(s)
    ensures Shaped(r)
  {
    s.(issued := s.issued + {derive(Path(External, s.current[External]))})
  }

  /** `#updateCurrentAddress`. */
  function AdvanceCurrent(s: State): (r: State)
    requires Shaped(s)
    ensures Shaped(r)
  {
    if s.current[External] <= s.highest[External] then s.(current := s.current[External := s.highest[External] + 1]) else s
  }

  // ---------------------------------------------------------------- runs

  datatype Event = Paid(address: string) | NewAsked(chain: Kind) | CurrentAsked | Advanced

  function Step(s: State, derive: Derive, e: Event): (r: State)
    requires Shaped(s)
    ensures Shaped(r)
  {
    match e
    case Paid(address) => Used(s, derive, address)
    case NewAsked(chain) => NewAddress(s, derive, chain)
    case CurrentAsked => CurrentAddress(s, derive)
    case Advanced => AdvanceCurrent(s)
  }

  function Run(derive: Derive, events: seq<Event>): (r: State)
    ensures Shaped(r)
  {
    if events == [] then Fresh(derive) else Step(Run(derive, events[..|events| - 1]), derive, events[|events| - 1])
  }

  /** Everything up to the loaded index is recognised, and what is recognised is a derived address within it. */
  predicate Watched(s: State, derive: Derive)
    requires Shaped(s)
  {
    && (forall chain, i {:trigger derive(Path(chain, i))} :: 0 <= i <= s.loaded[chain] ==> derive(Path(chain, i)) in s.own)
    && (forall a :: a in s.own ==> s.own[a].index <= s.loaded[s.own[a].chain] && derive(s.own[a]) == a)
  }

  predicate ChainKept(s: State, chain: Kind)
    requires Shaped(s)
  {
    && s.highest[chain] + GAP <= s.loaded[chain]
    && s.current[chain] <= s.highest[chain] + GAP
  }

  predicate Inv(s: State, derive: Derive) {
    && Shaped(s) && Watched(s, derive)
    && ChainKept(s, External) && ChainKept(s, Internal)
    && s.issued <= s.own.Keys
  }

  lemma FreshKept(derive: Derive)
    ensures Inv(Fresh(derive), derive)
  {
    hide Own;
    ZeroComplete();
    var blank := State(ZERO, ZERO, ZERO, map[], {});
    LoadKeeps(blank, derive, External);
    var half := Load(blank, derive, External);
    LoadKeeps(half, derive, Internal);
    EachWatched(Load(half, derive, Internal), derive);
  }

  /** What `Watched` says of one chain. */
  predicate WatchedChain(s: State, derive: Derive, chain: Kind)
    requires Shaped(s)
  {
    forall i {:trigger derive(Path(chain, i))} :: 0 <= i <= s.loaded[chain] ==> derive(Path(chain, i)) in s.own
  }

  predicate OwnDerived(s: State, derive: Derive)
    requires Shaped(s)
  {
    forall a :: a in s.own ==> s.own[a].index <= s.loaded[s.own[a].chain] && derive(s.own[a]) == a
  }

  /** Loading widens one chain's window and keeps all that was recognised. */
  lemma LoadKeeps(s: State, derive: Derive, chain: Kind)
    requires Shaped(s) && OwnDerived(s, derive)
    requires s.loaded[chain] > 0 ==> WatchedChain(s, derive, chain)
    ensures var r := Load(s, derive, chain);
            && WatchedChain(r, derive, chain) && OwnDerived(r, derive) && s.own.Keys <= r.own.Keys
            && forall k :: k != chain && WatchedChain(s, derive, k) ==> WatchedChain(r, derive, k)
  {
    var start := s.loaded[chain];
    var r := Load(s, derive, chain);
    forall i | 0 <= i <= r.loaded[chain] ensures derive(Path(chain, i)) in r.own {
      if i < start {
        assert derive(Path(chain, i)) in s.own;
      }
    }
  }

  lemma UsedKeeps(s: State, derive: Derive, address: string)
    requires Inv(s, derive)
    ensures Inv(Used(s, derive, address), derive) && s.issued == Used(s, derive, address).issued && s.own.Keys <= Used(s, derive, address).own.Keys
  {
    hide Own, Watched, WatchedChain, OwnDerived;
    if address in s.own {
      var path := s.own[address];
      var marked := s.(highest := s.highest[path.chain := Max(path.index, s.highest[path.chain])]);
      WatchedEach(s, derive);
      SameWindow(s, marked, derive);
      WatchedEach(marked, derive);
      LoadKeeps(marked, derive, path.chain);
      var loaded := Load(marked, derive, path.chain);
      EachWatched(marked, derive);
      EachWatched(loaded, derive);
    }
  }

  lemma WatchedEach(s: State, derive: Derive)
    requires Shaped(s) && Watched(s, derive)
    ensures OwnDerived(s, derive) && WatchedChain(s, derive, External) && WatchedChain(s, derive, Internal)
  {
  }

  lemma EachWatched(s: State, derive: Derive)
    requires Shaped(s) && OwnDerived(s, derive) && WatchedChain(s, derive, External) && WatchedChain(s, derive, Internal)
    ensures Watched(s, derive)
  {
    forall chain: Kind, i | 0 <= i <= s.loaded[chain] ensures derive(Path(chain, i)) in s.own {
      match chain case External => case Internal =>
    }
  }

  /** An index within the gap of the highest used one is watched. */
  lemma WithinGap(s: State, derive: Derive, chain: Kind, index: nat)
    requires Inv(s, derive) && index <= s.highest[chain] + GAP
    ensures derive(Path(chain, index)) in s.own
  {
    match chain case External => case Internal =>
  }

  /** Every address up to twenty indices past the highest used one of its chain is recognised. */
  predicate GapWatched(s: State, derive: Derive)
    requires Shaped(s)
  {
    forall chain, i {:trigger derive(Path(chain, i))} :: 0 <= i <= s.highest[chain] + 20 ==> derive(Path(chain, i)) in s.own
  }

  lemma InvGap(s: State, derive: Derive)
    requires Inv(s, derive)
    ensures GapWatched(s, derive)
  {
    forall chain: Kind, i | 0 <= i <= s.highest[chain] + GAP ensures derive(Path(chain, i)) in s.own {
      WithinGap(s, derive, chain, i);
    }
  }

  lemma StepKeeps(s: State, derive: Derive, e: Event)
    requires Inv(s, derive)
    ensures Inv(Step(s, derive, e), derive) && s.issued <= Step(s, derive, e).issued && s.own.Keys <= Step(s, derive, e).own.Keys
  {
    hide Watched, Used;
    match e
    case Paid(address) => UsedKeeps(s, derive, address);
    case NewAsked(chain) =>
      WithinGap(s, derive, chain, NextIndex(s, chain));
      SameWindow(s, NewAddress(s, derive, chain), derive);
    case CurrentAsked =>
      WithinGap(s, derive, External, s.current[External]);
      SameWindow(s, CurrentAddress(s, derive), derive);
    case Advanced =>
      SameWindow(s, AdvanceCurrent(s), derive);
  }

  lemma SameWindow(s: State, r: State, derive: Derive)
    requires Shaped(s) && Shaped(r) && Watched(s, derive) && r.own == s.own && r.loaded == s.loaded
    ensures Watched(r, derive)
  {
  }

  /**
   Over every run each chain's window reaches at least twenty indices past its
   highest used one, and every address handed out is, and stays, recognised.
   */
  lemma {:induction false} RunKeeps(derive: Derive, events: seq<Event>)
    ensures Inv(Run(derive, events), derive)
  {
    if events == [] {
      FreshKept(derive);
    } else {
      RunKeeps(derive, events[..|events| - 1]);
      StepKeeps(Run(derive, events[..|events| - 1]), derive, events[|events| - 1]);
    }
  }

  lemma RunSnoc(derive: Derive, events: seq<Event>, e: Event)
    ensures Run(derive, events + [e]) == Step(Run(derive, events), derive, e)
  {
    assert (events + [e])[..|events|] == events;
  }

  /** Addresses handed out stay recognised whatever comes later. */
  lemma {:induction false} IssuedStayRecognised(derive: Derive, events: seq<Event>, more: seq<Event>)
    ensures Run(derive, events).issued <= Run(derive, events + more).own.Keys
    ensures Run(derive, events).issued <= Run(derive, events + more).issued
  {
    hide Run, Step;
    RunKeeps(derive, events + more);
    if more == [] {
      assert events + more == events;
    } else {
      var last := |more| - 1;
      IssuedStayRecognised(derive, events, more[..last]);
      assert (events + more)[..|events + more| - 1] == events + more[..last];
      RunKeeps(derive, events + more[..last]);
      StepKeeps(Run(derive, events + more[..last]), derive, more[last]);
      RunSnoc(derive, events + more[..last], more[last]);
      assert events + more == events + more[..last] + [more[last]];
    }
  }

  // ---------------------------------------------------------------- fresh addresses

  /** The state after asking for n new addresses of a chain, one after the other. */
  function AskedFor(s: State, derive: Derive, chain: Kind, n: nat): (r: State)
    requires Shaped(s)
    ensures Shaped(r)
  {
    if n == 0 then s else NewAddress(AskedFor(s, derive, chain, n - 1), derive, chain)
  }

  /**
   New addresses go up one index at a time until the twentieth past the highest
   used one; the one after that is the highest used one again.
   */
  lemma {:induction false} FreshAddresses(s: State, derive: Derive, chain: Kind, n: nat)
    requires Shaped(s) && 0 < n && Max(s.current[chain], s.highest[chain]) + n <= s.highest[chain] + 21
    ensures var r := AskedFor(s, derive, chain, n);
            && r.highest == s.highest && r.own == s.own
            && (r.current[chain] == if Max(s.current[chain], s.highest[chain]) + n <= s.highest[chain] + 20
                                    then Max(s.current[chain], s.highest[chain]) + n else s.highest[chain])
            && derive(Path(chain, r.current[chain])) in r.issued
  {
    if n > 1 {
      FreshAddresses(s, derive, chain, n - 1);
    } else {
      assert AskedFor(s, derive, chain, 0) == s;
    }
  }

  // ---------------------------------------------------------------- the wallet

  lemma OwnNothing(own: map<string, Path>, derive: Derive, chain: Kind, low: nat)
    ensures Own(own, derive, chain, low, low) == own
  {
  }

  lemma OwnOneMore(own: map<string, Path>, derive: Derive, chain: Kind, low: nat, end: nat)
    requires low <= end
    ensures Own(own, derive, chain, low, end + 1) == Own(own, derive, chain, low, end)[derive(Path(chain, end)) := Path(chain, end)]
  {
  }

  class Wallet {
    const derive: Derive
    var loadedIndexes: map<Kind, nat>
    var highestUsedIndices: map<Kind, nat>
    var addressIndices: map<Kind, nat>
    var ownAddresses: map<string, Path>
    ghost var issued: set<string>

    ghost function Snapshot(): State
      reads this
    {
      State(loadedIndexes, highestUsedIndices, addressIndices, ownAddresses, issued)
    }

    /** What the wallet recognises reaches twenty indices past the highest used one, and whatever it issued is recognised. */
    ghost predicate Valid()
      reads this
    {
      Inv(Snapshot(), derive)
    }

    /** The wallet as `setMasterKey` leaves it. */
    constructor (derive: Derive)
      ensures Valid() && this.derive == derive && Snapshot() == Fresh(derive)
    {
      this.derive := derive;
      loadedIndexes, highestUsedIndices, addressIndices := ZERO, ZERO, ZERO;
      ownAddresses, issued := map[], {};
      new;
      ZeroComplete();
      LoadAddresses(External);
      LoadAddresses(Internal);
      FreshKept(derive);
    }

    method LoadAddresses(chain: Kind)
      requires Shaped(Snapshot())
      modifies this`ownAddresses, this`loadedIndexes
      ensures Snapshot() == Load(old(Snapshot()), derive, chain)
    {
      hide Own;
      OwnNothing(ownAddresses, derive, chain, loadedIndexes[chain]);
      var start := loadedIndexes[chain];
      var end := start + GAP;
      var i := start;
      while i <= end
        invariant start <= i <= end + 1 && loadedIndexes == old(loadedIndexes)
        invariant ownAddresses == Own(old(ownAddresses), derive, chain, start, i)
      {
        OwnOneMore(old(ownAddresses), derive, chain, start, i);
        ownAddresses := ownAddresses[derive(Path(chain, i)) := Path(chain, i)];
        i := i + 1;
      }
      assert i == start + GAP + 1;
      loadedIndexes := loadedIndexes[chain := end];
    }

    method UpdateHighestUsedIndex(address: string)
      requires Valid()
      modifies this`ownAddresses, this`loadedIndexes, this`highestUsedIndices
      ensures Valid() && Snapshot() == Used(old(Snapshot()), derive, address)
      ensures GapWatched(Snapshot(), derive) && old(ownAddresses.Keys) <= ownAddresses.Keys
      ensures address in old(ownAddresses) ==>
        var path := old(ownAddresses[address]);
        && highestUsedIndices[path.chain] >= path.index && highestUsedIndices[path.chain] in {path.index, old(highestUsedIndices)[path.chain]}
      ensures forall k: Kind :: highestUsedIndices[k] >= old(highestUsedIndices)[k]
    {
      hide Watched;
      StepKeeps(Snapshot(), derive, Paid(address));
      InvGap(Used(Snapshot(), derive, address), derive);
      if address !in ownAddresses {
        return;
      }
      var path := ownAddresses[address];
      highestUsedIndices := highestUsedIndices[path.chain := Max(path.index, highestUsedIndices[path.chain])];
      if highestUsedIndices[path.chain] + GAP >= loadedIndexes[path.chain] {
        LoadAddresses(path.chain);
      }
    }

    method GetNewAddress(chain: Kind) returns (address: string)
      requires Valid()
      modifies this`addressIndices, this`issued
      ensures Valid() && Snapshot() == NewAddress(old(Snapshot()), derive, chain) && address == derive(Path(chain, addressIndices[chain]))
      ensures address in ownAddresses && highestUsedIndices[chain] <= addressIndices[chain] <= highestUsedIndices[chain] + 20
      ensures old(addressIndices)[chain] < highestUsedIndices[chain] + 20 ==>
        addressIndices[chain] > highestUsedIndices[chain] && addressIndices[chain] > old(addressIndices)[chain]
    {
      hide Watched;
      StepKeeps(Snapshot(), derive, NewAsked(chain));
      var last, curr := highestUsedIndices[chain], addressIndices[chain];
      addressIndices := addressIndices[chain := Max(curr, last) + 1];
      if addressIndices[chain] - last > GAP {
        addressIndices := addressIndices[chain := last];
      }
      assert addressIndices == old(addressIndices)[chain := NextIndex(old(Snapshot()), chain)];
      address := derive(Path(chain, addressIndices[chain]));
      issued := issued + {address};
    }

    method GetCurrentAddress() returns (address: string)
      requires Valid()
      modifies this`issued
      ensures Valid() && Snapshot() == CurrentAddress(old(Snapshot()), derive) && address == derive(Path(External, addressIndices[External]))
      ensures address in ownAddresses
    {
      hide Watched;
      StepKeeps(Snapshot(), derive, CurrentAsked);
      address := derive(Path(External, addressIndices[External]));
      issued := issued + {address};
    }

    method UpdateCurrentAddress()
      requires Valid()
      modifies this`addressIndices
      ensures Valid() && Snapshot() == AdvanceCurrent(old(Snapshot()))
      ensures addressIndices[External] > highestUsedIndices[External] && addressIndices[External] >= old(addressIndices)[External]
    {
      hide Watched;
      StepKeeps(Snapshot(), derive, Advanced);
      var last, curr := highestUsedIndices[External], addressIndices[External];
      if curr <= last {
        addressIndices := addressIndices[External := last + 1];
      }
    }
  }
}
