// The transaction records decoded from `getrawtransaction` / `getblock`
// (reduced to the fields the classifier reads), the transaction classifier
// predicates and the block-level bucketing of transactions.

module Classifier {

  /** A Sapling spend or output description; the classifier reads only how many there are. */
  datatype ShieldedDescriptor = ShieldedDescriptor(fields: map<string, string>)

  /** A Sprout JoinSplit description. */
  datatype JoinSplit = JoinSplit(vpubOld: real, vpubNew: real)

  /** A transparent input; `coinbase` is empty unless the input is a coinbase. */
  datatype VIn = VIn(coinbase: string, txid: string, vout: int, sequence: int)

  /** A transparent output. */
  datatype VOut = VOut(value: real, n: int)

  datatype Transaction = Transaction(
    txid: string,
    vin: seq<VIn>,
    vout: seq<VOut>,
    vJoinSplit: seq<JoinSplit>,
    valueBalance: real,
    vShieldedSpend: seq<ShieldedDescriptor>,
    vShieldedOutput: seq<ShieldedDescriptor>)

  datatype Block = Block(hash: string, height: int, tx: seq<Transaction>)

  // ---------------------------------------------------------------------
  // Classifier predicates
  // ---------------------------------------------------------------------

  /** The transaction has at least one transparent input and one transparent output. */
  function TransparentInAndOut(t: Transaction): (b: bool)
    ensures b <==> exists i, o :: i in t.vin && o in t.vout
  {
    assert |t.vin| > 0 && |t.vout| > 0 ==> t.vin[0] in t.vin && t.vout[0] in t.vout;
    |t.vin| > 0 && |t.vout| > 0
  }

  /**
   * Transparent in and out, no Sprout data, zero value balance, no Sapling spends.
   * The spend test is made twice, as written; the Sapling outputs are never consulted.
   */
  function IsTransparent(t: Transaction): (b: bool)
    ensures b ==> TransparentInAndOut(t) && !ContainsSprout(t) && !ContainsSapling(t)
  {
    && TransparentInAndOut(t)
    && |t.vJoinSplit| == 0
    && t.valueBalance == 0.0
    && |t.vShieldedSpend| == 0
    && |t.vShieldedSpend| == 0
  }

  /** Sprout data is present. */
  function ContainsSprout(t: Transaction): (b: bool)
    ensures b <==> exists js :: js in t.vJoinSplit
  {
    assert |t.vJoinSplit| > 0 ==> t.vJoinSplit[0] in t.vJoinSplit;
    |t.vJoinSplit| > 0
  }

  /** A non-zero value balance together with at least one Sapling spend or output. */
  function ContainsSapling(t: Transaction): (b: bool)
    ensures b <==> t.valueBalance != 0.0 && exists d :: d in t.vShieldedSpend + t.vShieldedOutput
  {
    assert |t.vShieldedSpend + t.vShieldedOutput| > 0 ==>
      (t.vShieldedSpend + t.vShieldedOutput)[0] in t.vShieldedSpend + t.vShieldedOutput;
    t.valueBalance != 0.0 && (|t.vShieldedSpend| > 0 || |t.vShieldedOutput| > 0)
  }

  /** Not transparent in and out, and Sprout or Sapling data present. */
  function IsShielded(t: Transaction): (b: bool)
    ensures b ==> HasShieldedDescriptor(t) && !IsTransparent(t)
  {
    !TransparentInAndOut(t) && (ContainsSprout(t) || ContainsSapling(t))
  }

  /** Some transparent input or output, and Sprout or Sapling data present. */
  function IsMixed(t: Transaction): (b: bool)
    ensures b ==> HasShieldedDescriptor(t) && !IsTransparent(t)
  {
    var tInOrOut := |t.vin| > 0 || |t.vout| > 0;
    tInOrOut && (ContainsSprout(t) || ContainsSapling(t))
  }

  /** An input is a coinbase input exactly when its coinbase string is non-empty. */
  function IsCoinBase(v: VIn): (b: bool)
    ensures b <==> v.coinbase != ""
  {
    |v.coinbase| > 0
  }

  // ---------------------------------------------------------------------
  // Relations between the classifier predicates
  // ---------------------------------------------------------------------

  /** A transparent transaction is transparent in and out and neither shielded nor mixed. */
  lemma TransparentExcludesOtherClasses(t: Transaction)
    requires IsTransparent(t)
    ensures TransparentInAndOut(t)
    ensures !ContainsSprout(t) && !ContainsSapling(t)
    ensures !IsShielded(t) && !IsMixed(t)
  {
  }

  /** `IsTransparent` does not depend on the Sapling outputs at all. */
  lemma TransparentIgnoresShieldedOutputs(t: Transaction, outputs: seq<ShieldedDescriptor>)
    ensures IsTransparent(t.(vShieldedOutput := outputs)) == IsTransparent(t)
  {
  }

  /** Hence a transaction with Sapling outputs can be classified transparent. */
  lemma TransparentWithShieldedOutput()
    ensures exists t :: IsTransparent(t) && |t.vShieldedOutput| > 0
  {
    var d := ShieldedDescriptor(map[]);
    var t := Transaction("", [VIn("", "", 0, 0)], [VOut(0.0, 0)], [], 0.0, [], [d]);
    assert IsTransparent(t) && |t.vShieldedOutput| > 0;
  }

  /** A zero value balance rules out Sapling data, whatever the descriptors hold. */
  lemma ZeroBalanceIsNotSapling(t: Transaction)
    requires t.valueBalance == 0.0
    ensures !ContainsSapling(t)
    ensures IsShielded(t) <==> !TransparentInAndOut(t) && ContainsSprout(t)
  {
  }

  /** Without transparent inputs and outputs a transaction is never mixed. */
  lemma NoTransparentPartIsNotMixed(t: Transaction)
    requires |t.vin| == 0 && |t.vout| == 0
    ensures !IsMixed(t)
    ensures IsShielded(t) <==> ContainsSprout(t) || ContainsSapling(t)
  {
  }

  /** Shielded and mixed at once exactly when one transparent side is empty and the other is not. */
  lemma ShieldedAndMixed(t: Transaction)
    ensures IsShielded(t) && IsMixed(t) <==>
      (ContainsSprout(t) || ContainsSapling(t)) && ((|t.vin| > 0) != (|t.vout| > 0))
  {
  }

  /** The three classes are not exclusive: a transaction can be shielded and mixed. */
  lemma ShieldedAndMixedOverlap()
    ensures exists t :: IsShielded(t) && IsMixed(t)
  {
    var t := Transaction("", [VIn("", "", 0, 0)], [], [JoinSplit(1.0, 0.0)], 0.0, [], []);
    assert IsShielded(t) && IsMixed(t);
  }

  /** Nor exhaustive: a transaction with transparent inputs may be in none of them. */
  lemma SomeTransactionUnclassified()
    ensures exists t: Transaction :: |t.vin| > 0 && !IsTransparent(t) && !IsShielded(t) && !IsMixed(t)
  {
    var t := Transaction("", [VIn("", "", 0, 0)], [], [], 0.0, [], []);
    assert |t.vin| > 0 && !IsTransparent(t) && !IsShielded(t) && !IsMixed(t);
  }

  /** One transparent input and output, nothing shielded: transparent only. */
  lemma PlainTransferIsTransparent(i: VIn, o: VOut)
    ensures var t := Transaction("", [i], [o], [], 0.0, [], []);
      IsTransparent(t) && !IsShielded(t) && !IsMixed(t)
  {
  }

  /** No transparent part, a non-zero value balance and one Sapling output: shielded. */
  lemma SaplingOutputIsShielded(d: ShieldedDescriptor, balance: real)
    requires balance != 0.0
    ensures var t := Transaction("", [], [], [], balance, [], [d]);
      IsShielded(t) && !IsTransparent(t) && !IsMixed(t)
  {
  }

  /** One transparent input and output plus one JoinSplit: mixed. */
  lemma JoinSplitWithTransparentIsMixed(i: VIn, o: VOut, js: JoinSplit)
    ensures var t := Transaction("", [i], [o], [js], 0.0, [], []);
      IsMixed(t) && !IsShielded(t) && !IsTransparent(t)
  {
  }

  // ---------------------------------------------------------------------
  // Block-level bucketing
  // ---------------------------------------------------------------------

  /** The test `TransactionTypes` applies: any Sprout or Sapling descriptor present. */
  predicate HasShieldedDescriptor(t: Transaction)
  {
    |t.vJoinSplit| > 0 || |t.vShieldedOutput| > 0 || |t.vShieldedSpend| > 0
  }

  /** Every transaction of the block, whichever bucket of `TransactionTypes` it falls in. */
  function NumberofTransactions(b: Block): (n: nat)
    ensures n == WithDescriptors(b.tx) + WithoutDescriptors(b.tx)
  {
    BucketsPartition(b.tx);
    |b.tx|
  }

  /** How many of `txs` carry a shielded descriptor. */
  function WithDescriptors(txs: seq<Transaction>): (n: nat)
    ensures n <= |txs|
  {
    if txs == [] then 0
    else WithDescriptors(txs[..|txs| - 1]) + (if HasShieldedDescriptor(txs[|txs| - 1]) then 1 else 0)
  }

  /** How many of `txs` carry no shielded descriptor. */
  function WithoutDescriptors(txs: seq<Transaction>): (n: nat)
    ensures n <= |txs|
  {
    if txs == [] then 0
    else WithoutDescriptors(txs[..|txs| - 1]) + (if HasShieldedDescriptor(txs[|txs| - 1]) then 0 else 1)
  }

  /** Every transaction lands in exactly one of the two buckets. */
  lemma {:induction false} BucketsPartition(txs: seq<Transaction>)
    ensures WithDescriptors(txs) + WithoutDescriptors(txs) == |txs|
  {
    if txs != [] {
      BucketsPartition(txs[..|txs| - 1]);
    }
  }

  /** Counting distributes over concatenation. */
  lemma {:induction false} WithDescriptorsAppend(a: seq<Transaction>, b: seq<Transaction>)
    ensures WithDescriptors(a + b) == WithDescriptors(a) + WithDescriptors(b)
  {
    if b == [] {
      assert a + b == a;
    } else {
      assert (a + b)[..|a + b| - 1] == a + b[..|b| - 1];
      WithDescriptorsAppend(a, b[..|b| - 1]);
    }
  }

  /** The descriptor bucket is empty exactly when no transaction has a descriptor. */
  lemma {:induction false} WithDescriptorsZero(txs: seq<Transaction>)
    ensures WithDescriptors(txs) == 0 <==> forall i :: 0 <= i < |txs| ==> !HasShieldedDescriptor(txs[i])
  {
    if txs != [] {
      var init := txs[..|txs| - 1];
      WithDescriptorsZero(init);
      assert forall i :: 0 <= i < |init| ==> init[i] == txs[i];
    }
  }

  /** The descriptor bucket is full exactly when every transaction has a descriptor. */
  lemma {:induction false} WithDescriptorsAll(txs: seq<Transaction>)
    ensures WithDescriptors(txs) == |txs| <==> forall i :: 0 <= i < |txs| ==> HasShieldedDescriptor(txs[i])
  {
    if txs != [] {
      var init := txs[..|txs| - 1];
      WithDescriptorsAll(init);
      assert forall i :: 0 <= i < |init| ==> init[i] == txs[i];
    }
  }

  /** A shielded transaction always goes to the descriptor bucket. */
  lemma ShieldedHasDescriptor(t: Transaction)
    requires IsShielded(t) || IsMixed(t)
    ensures HasShieldedDescriptor(t)
  {
  }

  /**
   * Counts the transactions of `b`: the first result counts those WITH a
   * shielded descriptor, the second those without (the source's comments say
   * the opposite; the code is followed).
   */
  method TransactionTypes(b: Block) returns (tTXs: int, sTXs: int)
    ensures tTXs == WithDescriptors(b.tx)
    ensures sTXs == WithoutDescriptors(b.tx)
    ensures tTXs + sTXs == NumberofTransactions(b)
  {
    tTXs, sTXs := 0, 0;
    var i := 0;
    while i < |b.tx|
      invariant 0 <= i <= |b.tx|
      invariant tTXs == WithDescriptors(b.tx[..i])
      invariant sTXs == WithoutDescriptors(b.tx[..i])
    {
      var tx := b.tx[i];
      assert b.tx[..i + 1][..i] == b.tx[..i];
      if |tx.vJoinSplit| > 0 || |tx.vShieldedOutput| > 0 || |tx.vShieldedSpend| > 0 {
        tTXs := tTXs + 1;
      } else {
        sTXs := sTXs + 1;
      }
      i := i + 1;
    }
    assert b.tx[..i] == b.tx;
    BucketsPartition(b.tx);
  }
}
