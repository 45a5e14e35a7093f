/** The per-UTXO loop of the `/check/:address` handler: resolve each unspent
    output's transaction, keep it only when the resolved output exists and is
    locked to the queried address, classify it and append one verdict. */
module UtxoClassifier {
  import opened Fetch
  import opened ScriptTypes

  /** An entry of `GET /address/:address/utxo`. */
  datatype Utxo = Utxo(txid: string, vout: nat, value: nat)

  /** An output of a resolved transaction (`tx.vout[k]`). */
  datatype Vout = Vout(scriptPubKeyAddress: Option<string>, scriptPubKeyType: string)

  /** One record of the handler's JSON reply. */
  datatype Verdict = Verdict(
    txid: string, vout: nat, value: nat, scriptType: string, isVulnerable: bool, reason: string)

  /** The transactions `GET /tx/:txid` resolves, by txid, each given by its
      outputs. A txid absent from the map is a lookup whose `fetch` or `json()`
      threw, or whose body had no `vout` list. One outcome per txid: UTXOs of the
      same transaction all see the same lookup result. */
  type TxLookup = map<string, seq<Vout>>

  predicate AllResolved(utxos: seq<Utxo>, lookup: TxLookup) {
    forall k :: 0 <= k < |utxos| ==> utxos[k].txid in lookup
  }

  /** The output `u` names was resolved, exists and is locked to `address`. */
  predicate Belongs(u: Utxo, address: string, lookup: TxLookup) {
    u.txid in lookup && u.vout < |lookup[u.txid]| && lookup[u.txid][u.vout].scriptPubKeyAddress == Some(address)
  }

  /** The record for a UTXO whose resolved output is `out`: the UTXO's
      identity and value and the output's type are copied, and the verdict is
      vulnerable for a type that embeds the key, and for one that hashes it once
      the key was revealed. */
  function VerdictFor(u: Utxo, out: Vout, revealed: bool): (v: Verdict)
    ensures v.txid == u.txid && v.vout == u.vout && v.value == u.value
    ensures v.scriptType == out.scriptPubKeyType
    ensures v.isVulnerable <==>
      Parse(out.scriptPubKeyType).EmbedsKey() || (revealed && Parse(out.scriptPubKeyType).HashesKey())
  {
    var c := Classify(Parse(out.scriptPubKeyType), revealed);
    Verdict(u.txid, u.vout, u.value, out.scriptPubKeyType, c.isVulnerable, c.reason)
  }

  /** The list the loop builds: one verdict per UTXO that belongs to `address`,
      in the order of `utxos`. */
  function Verdicts(address: string, revealed: bool, utxos: seq<Utxo>, lookup: TxLookup): (r: seq<Verdict>)
    requires AllResolved(utxos, lookup)
    ensures |r| <= |utxos|
    decreases |utxos|
  {
    if utxos == [] then []
    else
      var u := utxos[|utxos| - 1];
      Verdicts(address, revealed, utxos[..|utxos| - 1], lookup) +
        (if Belongs(u, address, lookup) then [VerdictFor(u, lookup[u.txid][u.vout], revealed)] else [])
  }

  /** The positions of `utxos` that the loop keeps: increasing, and exactly
      those whose output belongs to `address`. */
  function KeptIndices(address: string, utxos: seq<Utxo>, lookup: TxLookup): (r: seq<nat>)
    requires AllResolved(utxos, lookup)
    ensures forall k :: 0 <= k < |r| ==> r[k] < |utxos|
    ensures forall k, l :: 0 <= k < l < |r| ==> r[k] < r[l]
    ensures forall i :: 0 <= i < |utxos| ==> (i in r <==> Belongs(utxos[i], address, lookup))
    decreases |utxos|
  {
    if utxos == [] then []
    else
      var n := |utxos| - 1;
      KeptIndices(address, utxos[..n], lookup) + (if Belongs(utxos[n], address, lookup) then [n] else [])
  }

  /** The loop. A lookup that throws aborts it (None); otherwise it returns
      the verdicts of the UTXOs that belong to `address`, in order. */
  method ClassifyUtxos(address: string, revealed: bool, utxos: seq<Utxo>, lookup: TxLookup)
    returns (results: Option<seq<Verdict>>)
    ensures results.None? <==> !AllResolved(utxos, lookup)
    ensures results.Some? ==> results.value == Verdicts(address, revealed, utxos, lookup)
  {
    var acc: seq<Verdict> := [];
    for i := 0 to |utxos|
      invariant AllResolved(utxos[..i], lookup)
      invariant acc == Verdicts(address, revealed, utxos[..i], lookup)
    {
      var utxo := utxos[i];
      assert utxos[..i + 1][..i] == utxos[..i];
      if utxo.txid !in lookup {
        return None;
      }
      var tx := lookup[utxo.txid];
      if utxo.vout >= |tx| || tx[utxo.vout].scriptPubKeyAddress != Some(address) {
        continue;
      }
      acc := acc + [VerdictFor(utxo, tx[utxo.vout], revealed)];
    }
    assert utxos[..|utxos|] == utxos;
    return Some(acc);
  }

  /** `v` is the record the handler emits for `u`: `u` belongs to `address`,
      txid, vout and value are copied from `u`, the script type is copied from
      the resolved output, and the verdict and reason are that type's
      classification. */
  predicate Describes(v: Verdict, u: Utxo, address: string, revealed: bool, lookup: TxLookup)
    requires u.txid in lookup
  {
    && Belongs(u, address, lookup)
    && v.txid == u.txid && v.vout == u.vout && v.value == u.value
    && v.scriptType == lookup[u.txid][u.vout].scriptPubKeyType
    && Classification(v.isVulnerable, v.reason) == Classify(Parse(v.scriptType), revealed)
  }

  /** The verdicts are the kept UTXOs, in order, one each: the k-th verdict
      describes the k-th kept UTXO. */
  lemma {:induction false} VerdictsFollowKeptUtxos(address: string, revealed: bool, utxos: seq<Utxo>, lookup: TxLookup)
    requires AllResolved(utxos, lookup)
    ensures |Verdicts(address, revealed, utxos, lookup)| == |KeptIndices(address, utxos, lookup)|
    ensures forall k :: 0 <= k < |KeptIndices(address, utxos, lookup)| ==>
      Describes(Verdicts(address, revealed, utxos, lookup)[k], utxos[KeptIndices(address, utxos, lookup)[k]],
                address, revealed, lookup)
    decreases |utxos|
  {
    if utxos != [] {
      var n := |utxos| - 1;
      var init := utxos[..n];
      VerdictsFollowKeptUtxos(address, revealed, init, lookup);
      var idx, idx' := KeptIndices(address, utxos, lookup), KeptIndices(address, init, lookup);
      var r, r' := Verdicts(address, revealed, utxos, lookup), Verdicts(address, revealed, init, lookup);
      assert |r| == |idx|;
      forall k | 0 <= k < |idx|
        ensures Describes(r[k], utxos[idx[k]], address, revealed, lookup)
      {
        if k < |idx'| {
          assert idx[k] == idx'[k] && r[k] == r'[k];
          assert utxos[idx[k]] == init[idx'[k]];
        } else {
          assert idx[k] == n;
          VerdictForDescribes(utxos[n], address, revealed, lookup);
        }
      }
    }
  }

  lemma VerdictForDescribes(u: Utxo, address: string, revealed: bool, lookup: TxLookup)
    requires Belongs(u, address, lookup)
    ensures Describes(VerdictFor(u, lookup[u.txid][u.vout], revealed), u, address, revealed, lookup)
  {
  }

  /** One step of the loop: the last UTXO adds one verdict iff it belongs. */
  lemma VerdictsSnoc(address: string, revealed: bool, utxos: seq<Utxo>, lookup: TxLookup)
    requires AllResolved(utxos, lookup) && utxos != []
    ensures AllResolved(utxos[..|utxos| - 1], lookup)
    ensures |Verdicts(address, revealed, utxos, lookup)| ==
      |Verdicts(address, revealed, utxos[..|utxos| - 1], lookup)| +
      (if Belongs(utxos[|utxos| - 1], address, lookup) then 1 else 0)
  {
  }

  /** A UTXO is dropped exactly when its resolved output is missing or locked
      to another address: the reply has one verdict per UTXO exactly when
      every UTXO belongs to the address. */
  lemma {:induction false} DroppedIffNotBelonging(address: string, revealed: bool, utxos: seq<Utxo>, lookup: TxLookup)
    requires AllResolved(utxos, lookup)
    ensures |Verdicts(address, revealed, utxos, lookup)| == |utxos| <==>
      forall i :: 0 <= i < |utxos| ==> Belongs(utxos[i], address, lookup)
  {
    if forall i :: 0 <= i < |utxos| ==> Belongs(utxos[i], address, lookup) {
      NoneDroppedWhenAllBelong(address, revealed, utxos, lookup);
    }
    if |Verdicts(address, revealed, utxos, lookup)| == |utxos| {
      forall i | 0 <= i < |utxos|
        ensures Belongs(utxos[i], address, lookup)
      {
        FullLengthMeansBelongs(address, revealed, utxos, lookup, i);
      }
    }
  }

  lemma {:induction false} NoneDroppedWhenAllBelong(address: string, revealed: bool, utxos: seq<Utxo>, lookup: TxLookup)
    requires AllResolved(utxos, lookup)
    requires forall i :: 0 <= i < |utxos| ==> Belongs(utxos[i], address, lookup)
    ensures |Verdicts(address, revealed, utxos, lookup)| == |utxos|
    decreases |utxos|
  {
    if utxos != [] {
      var n := |utxos| - 1;
      VerdictsSnoc(address, revealed, utxos, lookup);
      assert forall i :: 0 <= i < n ==> utxos[..n][i] == utxos[i];
      NoneDroppedWhenAllBelong(address, revealed, utxos[..n], lookup);
    }
  }

  lemma {:induction false} FullLengthMeansBelongs(address: string, revealed: bool, utxos: seq<Utxo>, lookup: TxLookup, i: nat)
    requires AllResolved(utxos, lookup)
    requires |Verdicts(address, revealed, utxos, lookup)| == |utxos|
    requires i < |utxos|
    ensures Belongs(utxos[i], address, lookup)
    decreases |utxos|
  {
    var n := |utxos| - 1;
    var init := utxos[..n];
    VerdictsSnoc(address, revealed, utxos, lookup);
    var shorter := |Verdicts(address, revealed, init, lookup)|;
    assert shorter <= n;
    if i < n {
      assert shorter == n;
      assert init[i] == utxos[i];
      FullLengthMeansBelongs(address, revealed, init, lookup, i);
    }
  }

  /** When the history did not reveal the key (including a history lookup
      that failed), only P2PK and P2TR outputs are reported vulnerable. */
  lemma {:induction false} UnrevealedReportsOnlyEmbeddedKeys(address: string, utxos: seq<Utxo>, lookup: TxLookup)
    requires AllResolved(utxos, lookup)
    ensures forall v :: v in Verdicts(address, false, utxos, lookup) ==>
      (v.isVulnerable <==> v.scriptType == "p2pk" || v.scriptType == "p2tr")
  {
    VerdictsFollowKeptUtxos(address, false, utxos, lookup);
    forall v | v in Verdicts(address, false, utxos, lookup)
      ensures v.isVulnerable <==> v.scriptType == "p2pk" || v.scriptType == "p2tr"
    {
      var k :| 0 <= k < |Verdicts(address, false, utxos, lookup)| && Verdicts(address, false, utxos, lookup)[k] == v;
      var t := Parse(v.scriptType);
      if t.HashesKey() {
        HashedKeyVulnerableIffRevealed(t, false);
      }
    }
  }

  /** When the key was revealed, every output of a type the classifier knows is
      reported vulnerable, and only those. */
  lemma {:induction false} RevealedReportsAllKnownTypes(address: string, utxos: seq<Utxo>, lookup: TxLookup)
    requires AllResolved(utxos, lookup)
    ensures forall v :: v in Verdicts(address, true, utxos, lookup) ==>
      (v.isVulnerable <==> IsKnownName(v.scriptType))
  {
    VerdictsFollowKeptUtxos(address, true, utxos, lookup);
    forall v | v in Verdicts(address, true, utxos, lookup)
      ensures v.isVulnerable <==> IsKnownName(v.scriptType)
    {
      var k :| 0 <= k < |Verdicts(address, true, utxos, lookup)| && Verdicts(address, true, utxos, lookup)[k] == v;
    }
  }
}
