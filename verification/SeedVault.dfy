/** The seeds an unlocked wallet holds in memory, and their wiping. */
module SeedVault {
  import opened Wrappers
  import opened Bytes
  import opened WalletStore

  /** A seed held for an address; the memory is shared with whoever asked for it. */
  datatype Held = Held(address: string, memory: array<Byte>)

  ghost predicate Wiped(a: array<Byte>)
    reads a
  {
    forall i :: 0 <= i < a.Length ==> a[i] == 0
  }

  method Wipe(a: array<Byte>)
    modifies a
    ensures Wiped(a)
  {
    for i := 0 to a.Length
      invariant forall k :: 0 <= k < i ==> a[k] == 0
    {
      a[i] := 0;
    }
  }

  // ---------------------------------------------------------------- the map of seeds

  predicate DistinctHeld(held: seq<Held>) {
    forall i, j :: 0 <= i < j < |held| ==> held[i].address != held[j].address
  }

  /** A map in order of first insertion: a later seed of an address takes the place of an earlier one. */
  function SetSeed(seeds: seq<Held>, address: string, memory: array<Byte>): (r: seq<Held>) {
    if seeds == [] then [Held(address, memory)]
    else if seeds[0].address == address then [Held(address, memory)] + seeds[1..]
    else [seeds[0]] + SetSeed(seeds[1..], address, memory)
  }

  /** After a seed is set the map holds it, and all it held for other addresses. */
  predicate SetFrom(r: seq<Held>, seeds: seq<Held>, address: string, memory: array<Byte>) {
    && (forall p :: 0 <= p < |r| ==> r[p] == Held(address, memory) || (r[p] in seeds && r[p].address != address))
    && (forall p :: 0 <= p < |seeds| && seeds[p].address != address ==> seeds[p] in r)
    && Held(address, memory) in r
  }

  lemma {:induction false} SetSeedHolds(seeds: seq<Held>, address: string, memory: array<Byte>)
    requires DistinctHeld(seeds)
    ensures SetFrom(SetSeed(seeds, address, memory), seeds, address, memory) && DistinctHeld(SetSeed(seeds, address, memory))
  {
    if seeds == [] {
      assert SetSeed(seeds, address, memory)[0] == Held(address, memory);
    } else {
      hide DistinctHeld, SetFrom;
      var first, others := seeds[0], seeds[1..];
      assert seeds == [first] + others;
      if first.address == address {
        SetFirst(first, others, memory);
      } else {
        RestDistinct(first, others);
        SetSeedHolds(others, address, memory);
        SetAfter(first, others, SetSeed(others, address, memory), address, memory);
      }
    }
  }

  lemma SetFirst(first: Held, others: seq<Held>, memory: array<Byte>)
    requires DistinctHeld([first] + others)
    ensures var r := [Held(first.address, memory)] + others;
            SetFrom(r, [first] + others, first.address, memory) && DistinctHeld(r)
  {
    FirstDiffers(first, others);
    RestDistinct(first, others);
    DistinctCons(Held(first.address, memory), others);
    var r, seeds := [Held(first.address, memory)] + others, [first] + others;
    hide DistinctHeld;
    assert r[0] == Held(first.address, memory) && r[0] in r;
    assert forall p :: 0 < p < |r| ==> r[p] == others[p - 1] == seeds[p];
    forall p | 0 < p < |seeds| ensures seeds[p] in r && r[p] in seeds && seeds[p].address != first.address {
      assert others[p - 1].address != first.address;
    }
  }

  lemma SetAfter(first: Held, others: seq<Held>, rest: seq<Held>, address: string, memory: array<Byte>)
    requires first.address != address && DistinctHeld([first] + others) && DistinctHeld(rest) && SetFrom(rest, others, address, memory)
    ensures SetFrom([first] + rest, [first] + others, address, memory) && DistinctHeld([first] + rest)
  {
    FirstDiffers(first, others);
    var r, seeds := [first] + rest, [first] + others;
    hide DistinctHeld;
    assert forall p :: 0 < p < |seeds| ==> seeds[p] == others[p - 1];
    assert forall p :: 0 < p < |r| ==> r[p] == rest[p - 1];
    DistinctCons(first, rest);
    assert r[0] in r && seeds[0] in seeds;
    forall p | 0 < p < |r| ensures r[p] == Held(address, memory) || (r[p] in seeds && r[p].address != address) {
      assert rest[p - 1] == r[p];
    }
    forall p | 0 < p < |seeds| && seeds[p].address != address ensures seeds[p] in r {
      assert others[p - 1] in rest;
    }
    var k :| 0 <= k < |rest| && rest[k] == Held(address, memory);
    assert r[k + 1] == Held(address, memory);
  }

  lemma FirstDiffers(first: Held, others: seq<Held>)
    requires DistinctHeld([first] + others)
    ensures forall p :: 0 <= p < |others| ==> others[p].address != first.address
  {
    var seeds := [first] + others;
    forall p | 0 <= p < |others| ensures others[p].address != first.address {
      assert seeds[0] == first && seeds[p + 1] == others[p];
    }
  }

  lemma RestDistinct(first: Held, others: seq<Held>)
    requires DistinctHeld([first] + others)
    ensures DistinctHeld(others)
  {
    assert forall p :: 0 <= p < |others| ==> ([first] + others)[p + 1] == others[p];
  }

  lemma DistinctCons(first: Held, rest: seq<Held>)
    requires DistinctHeld(rest) && forall p :: 0 <= p < |rest| ==> rest[p].address != first.address
    ensures DistinctHeld([first] + rest)
  {
  }

  lemma {:induction false} SetSeedNew(seeds: seq<Held>, address: string, memory: array<Byte>)
    requires forall i :: 0 <= i < |seeds| ==> seeds[i].address != address
    ensures SetSeed(seeds, address, memory) == seeds + [Held(address, memory)]
  {
    if seeds == [] {
    } else {
      SetSeedNew(seeds[1..], address, memory);
    }
  }

  /** A later one of the first `n` keys has the same address. */
  predicate Replaced(keys: seq<Key>, i: nat, n: nat)
    requires i < n <= |keys|
  {
    exists j :: i < j < n && keys[j].address == keys[i].address
  }

  predicate NoneReplaced(keys: seq<Key>, n: nat)
    requires n <= |keys|
  {
    forall i, j :: 0 <= i < j < n ==> keys[i].address != keys[j].address
  }

  ghost predicate HeldWereMade(seeds: seq<Held>, keys: seq<Key>, made: seq<array<Byte>>, n: nat)
    requires n <= |keys| && n <= |made|
  {
    forall p :: 0 <= p < |seeds| ==> exists i :: 0 <= i < n && seeds[p] == Held(keys[i].address, made[i]) && !Replaced(keys, i, n)
  }

  ghost predicate MadeAreHeld(seeds: seq<Held>, keys: seq<Key>, made: seq<array<Byte>>, n: nat)
    requires n <= |keys| && n <= |made|
  {
    forall i :: 0 <= i < n && !Replaced(keys, i, n) ==> Held(keys[i].address, made[i]) in seeds
  }

  /** Without replacements they are in the order of the keys. */
  ghost predicate InOrder(seeds: seq<Held>, keys: seq<Key>, made: seq<array<Byte>>, n: nat)
    requires n <= |keys| && n <= |made|
  {
    NoneReplaced(keys, n) ==> |seeds| == n && forall i :: 0 <= i < n ==> seeds[i] == Held(keys[i].address, made[i])
  }

  /** The map holds, of the seeds made for the first `n` keys, exactly those that were not replaced. */
  ghost predicate HoldsLast(seeds: seq<Held>, keys: seq<Key>, made: seq<array<Byte>>, n: nat)
    requires n <= |keys| && n <= |made|
  {
    && DistinctHeld(seeds) && HeldWereMade(seeds, keys, made, n) && MadeAreHeld(seeds, keys, made, n) && InOrder(seeds, keys, made, n)
  }

  /** The keys of a backup that imports have different addresses, so that none is replaced. */
  lemma ImportedNotReplaced(keys: seq<Key>)
    requires Distinct(Addresses(keys))
    ensures NoneReplaced(keys, |keys|) && forall i, n {:trigger Replaced(keys, i, n)} :: 0 <= i < n <= |keys| ==> !Replaced(keys, i, n)
  {
    hide Addresses, Replaced;
    DistinctKeys(keys, Addresses(keys));
    NeverReplaced(keys);
  }

  lemma DistinctKeys(keys: seq<Key>, addresses: seq<string>)
    requires Distinct(addresses) && |addresses| == |keys| && forall i :: 0 <= i < |keys| ==> addresses[i] == keys[i].address
    ensures NoneReplaced(keys, |keys|)
  {
    forall i, j | 0 <= i < j < |keys| ensures keys[i].address != keys[j].address {
      assert addresses[i] != addresses[j];
    }
  }

  lemma NeverReplaced(keys: seq<Key>)
    requires NoneReplaced(keys, |keys|)
    ensures forall i, n {:trigger Replaced(keys, i, n)} :: 0 <= i < n <= |keys| ==> !Replaced(keys, i, n)
  {
  }

  lemma ReplacedNext(keys: seq<Key>, i: nat, n: nat)
    requires i < n < |keys|
    ensures Replaced(keys, i, n + 1) <==> Replaced(keys, i, n) || keys[n].address == keys[i].address
  {
    if keys[n].address == keys[i].address {
      assert i < n < n + 1;
    }
  }

  lemma HoldsNext(seeds: seq<Held>, keys: seq<Key>, made: seq<array<Byte>>, n: nat, memory: array<Byte>)
    requires n == |made| < |keys| && HoldsLast(seeds, keys, made, n)
    ensures HoldsLast(SetSeed(seeds, keys[n].address, memory), keys, made + [memory], n + 1)
  {
    hide SetSeed, SetFrom, HeldWereMade, MadeAreHeld, InOrder, DistinctHeld;
    var address, more := keys[n].address, made + [memory];
    var after := SetSeed(seeds, address, memory);
    SetSeedHolds(seeds, address, memory);
    HeldNext(seeds, after, keys, made, n, memory);
    MadeNext(seeds, after, keys, made, n, memory);
    OrderNext(seeds, keys, made, n, memory);
  }

  lemma HeldNext(seeds: seq<Held>, after: seq<Held>, keys: seq<Key>, made: seq<array<Byte>>, n: nat, memory: array<Byte>)
    requires n == |made| < |keys| && HeldWereMade(seeds, keys, made, n)
    requires SetFrom(after, seeds, keys[n].address, memory)
    ensures HeldWereMade(after, keys, made + [memory], n + 1)
  {
    var more := made + [memory];
    assert !Replaced(keys, n, n + 1);
    forall p | 0 <= p < |after|
      ensures exists i :: 0 <= i < n + 1 && after[p] == Held(keys[i].address, more[i]) && !Replaced(keys, i, n + 1)
    {
      if after[p] == Held(keys[n].address, memory) {
        assert after[p] == Held(keys[n].address, more[n]);
      } else {
        var q :| 0 <= q < |seeds| && seeds[q] == after[p];
        var i :| 0 <= i < n && seeds[q] == Held(keys[i].address, made[i]) && !Replaced(keys, i, n);
        ReplacedNext(keys, i, n);
        assert after[p] == Held(keys[i].address, more[i]);
      }
    }
  }

  lemma MadeNext(seeds: seq<Held>, after: seq<Held>, keys: seq<Key>, made: seq<array<Byte>>, n: nat, memory: array<Byte>)
    requires n == |made| < |keys| && MadeAreHeld(seeds, keys, made, n)
    requires SetFrom(after, seeds, keys[n].address, memory)
    ensures MadeAreHeld(after, keys, made + [memory], n + 1)
  {
    var more := made + [memory];
    forall i | 0 <= i < n + 1 && !Replaced(keys, i, n + 1) ensures Held(keys[i].address, more[i]) in after {
      if i < n {
        ReplacedNext(keys, i, n);
        assert Held(keys[i].address, made[i]) in seeds;
      }
    }
  }

  lemma OrderNext(seeds: seq<Held>, keys: seq<Key>, made: seq<array<Byte>>, n: nat, memory: array<Byte>)
    requires n == |made| < |keys| && InOrder(seeds, keys, made, n)
    ensures InOrder(SetSeed(seeds, keys[n].address, memory), keys, made + [memory], n + 1)
  {
    if NoneReplaced(keys, n + 1) {
      assert NoneReplaced(keys, n);
      SetSeedNew(seeds, keys[n].address, memory);
    }
  }

  lemma HoldsNothing(keys: seq<Key>)
    ensures HoldsLast([], keys, [], 0)
  {
  }

  /** What the map holds was made for it, each for one address; what was replaced it does not hold. */
  lemma OnlyMade(seeds: seq<Held>, keys: seq<Key>, made: seq<array<Byte>>, n: nat)
    requires n == |made| <= |keys| && HoldsLast(seeds, keys, made, n)
    requires forall i, j :: 0 <= i < j < n ==> made[i] != made[j]
    ensures DistinctHeld(seeds) && forall p :: 0 <= p < |seeds| ==> seeds[p].memory in made
    ensures forall p, q :: 0 <= p < q < |seeds| ==> seeds[p].memory != seeds[q].memory
    ensures forall i, p :: 0 <= i < n && 0 <= p < |seeds| && Replaced(keys, i, n) ==> seeds[p].memory != made[i]
  {
    hide Replaced;
    forall p | 0 <= p < |seeds|
      ensures exists i :: 0 <= i < n && seeds[p] == Held(keys[i].address, made[i]) && !Replaced(keys, i, n)
    {
    }
  }

  lemma WipedLast(seeds: seq<Held>, keys: seq<Key>, made: seq<array<Byte>>, n: nat)
    requires n == |made| <= |keys| && HoldsLast(seeds, keys, made, n)
    requires forall p :: 0 <= p < |seeds| ==> Wiped(seeds[p].memory)
    ensures forall i :: 0 <= i < n && !Replaced(keys, i, n) ==> Wiped(made[i])
  {
    hide Replaced, Wiped;
    forall i | 0 <= i < n && !Replaced(keys, i, n) ensures Wiped(made[i]) {
      assert Held(keys[i].address, made[i]) in seeds;
    }
  }

  class Seeds {
    var unlocked: bool
    var held: seq<Held>

    ghost function Memory(): set<object>
      reads this
    {
      set i | 0 <= i < |held| :: held[i].memory
    }

    ghost predicate Valid()
      reads this
    {
      && (!unlocked ==> held == [])
      && DistinctHeld(held)
      && (forall i, j :: 0 <= i < j < |held| ==> held[i].memory != held[j].memory)
    }

    constructor ()
      ensures Valid() && !unlocked
    {
      unlocked, held := false, [];
    }

    /** `lockWallet`: every array handed out is zero from now on, wherever it is kept. */
    method Lock()
      requires Valid()
      modifies this, Memory()
      ensures Valid() && !unlocked
      ensures forall i :: 0 <= i < |old(held)| ==> Wiped(old(held)[i].memory)
    {
      for k := 0 to |held|
        invariant held == old(held)
        invariant forall i :: 0 <= i < k ==> Wiped(held[i].memory)
      {
        Wipe(held[k].memory);
      }
      held := [];
      unlocked := false;
    }

    /** A decrypted seed in memory of its own; the copy is wiped when the check fails. */
    method Decrypt(v: Vault, k: Key, network: string, password: string) returns (r: Option<array<Byte>>, ghost memory: array<Byte>)
      ensures r.Some? <==> SeedOf(v, k, network, password).Some?
      ensures r.Some? ==> r.value == memory && fresh(memory) && memory[..] == SeedOf(v, k, network, password).value
      ensures r.None? ==> fresh(memory) && Wiped(memory)
    {
      hide AddressForSeed;
      var plain := v.decrypt(k.encryptedSeed, password);
      if plain.None? || !plain.value.SeedText? || |plain.value.seed| != 32 {
        memory := new Byte[0];
        return None, memory;
      }
      var text := plain.value.seed;
      var seed := new Byte[32](i requires 0 <= i < 32 => text[i]);
      memory := seed;
      assert seed[..] == text;
      if AddressForSeed(v, seed[..], network) != Some(k.address) {
        Wipe(seed);
        return None, memory;
      }
      r := Some(seed);
    }

    /**
     `unlockWallet`, after the password check: the seeds of all addresses or none.
     When one key fails, the seeds decrypted before it are wiped and those held
     before stay as they were; when all succeed, those are wiped. Of two keys with
     one address the earlier seed is replaced, and then neither held nor wiped.
     */
    method Unlock(v: Vault, keys: seq<Key>, network: string, password: string) returns (ok: bool, ghost made: seq<array<Byte>>)
      requires Valid()
      modifies this, Memory()
      ensures Valid()
      ensures ok <==> forall i :: 0 <= i < |keys| ==> SeedOf(v, keys[i], network, password).Some?
      ensures ok ==> unlocked && |made| == |keys| && HoldsLast(held, keys, made, |keys|)
      ensures ok ==> forall i :: 0 <= i < |keys| ==> made[i][..] == SeedOf(v, keys[i], network, password).value
      ensures ok ==> forall i :: 0 <= i < |old(held)| ==> Wiped(old(held)[i].memory)
      ensures !ok ==> unlocked == old(unlocked) && held == old(held) && forall i :: 0 <= i < |held| ==> held[i].memory[..] == old(held[i].memory[..])
      ensures !ok ==> 0 < |made| <= |keys| && Wiped(made[|made| - 1]) && forall i :: 0 <= i < |made| - 1 ==>
        if Replaced(keys, i, |made| - 1) then Some(made[i][..]) == SeedOf(v, keys[i], network, password) else Wiped(made[i])
      ensures forall i :: 0 <= i < |made| ==> fresh(made[i])
    {
      hide SeedOf, HoldsLast, SetSeed, Replaced;
      var seeds: seq<Held> := [];
      made := [];
      assert HoldsLast([], keys, [], 0) by { HoldsNothing(keys); }
      for k := 0 to |keys|
        invariant |made| == k && held == old(held) && unlocked == old(unlocked)
        invariant forall i :: 0 <= i < k ==> SeedOf(v, keys[i], network, password).Some?
        invariant forall i :: 0 <= i < k ==> fresh(made[i]) && made[i][..] == SeedOf(v, keys[i], network, password).value
        invariant forall i, j :: 0 <= i < j < k ==> made[i] != made[j]
        invariant HoldsLast(seeds, keys, made, k)
        invariant forall i :: 0 <= i < |held| ==> held[i].memory[..] == old(held[i].memory[..])
      {
        var seed, memory := Decrypt(v, keys[k], network, password);
        if seed == None {
          OnlyMade(seeds, keys, made, k);
          WipeAll(seeds);
          WipedLast(seeds, keys, made, k);
          made := made + [memory];
          return false, made;
        }
        HoldsNext(seeds, keys, made, k, memory);
        seeds := SetSeed(seeds, keys[k].address, seed.value);
        made := made + [memory];
      }
      OnlyMade(seeds, keys, made, |keys|);
      Lock();
      held := seeds;
      unlocked := true;
      ok := true;
    }

    method WipeAll(seeds: seq<Held>)
      modifies set i | 0 <= i < |seeds| :: seeds[i].memory
      ensures forall i :: 0 <= i < |seeds| ==> Wiped(seeds[i].memory)
    {
      for k := 0 to |seeds|
        invariant forall i :: 0 <= i < k ==> Wiped(seeds[i].memory)
      {
        Wipe(seeds[k].memory);
      }
    }
  }
}
