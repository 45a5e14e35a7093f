/** The revealed-key detector (`hasPublicKeyBeenRevealed`): an address's public
    key counts as revealed once the address has been spent from, that is, once
    some transaction input consumed an output locked to the address. */
module RevealedKey {
  import opened Fetch

  /** The output an input spends, as the explorer describes it. */
  datatype Prevout = Prevout(scriptPubKeyAddress: Option<string>)

  /** A transaction input; coinbase inputs have no prevout. */
  datatype Input = Input(prevout: Option<Prevout>)

  /** A transaction of the address's history; only its inputs matter here. */
  datatype Tx = Tx(vin: seq<Input>)

  /** The body of `GET /address/:address/txs`; None is a JSON `null`. */
  type History = Option<seq<Tx>>

  /** `input` spends an output locked to `address`. */
  predicate SpendsFrom(input: Input, address: string) {
    input.prevout.Some? && input.prevout.value.scriptPubKeyAddress == Some(address)
  }

  predicate TxSpendsFrom(tx: Tx, address: string) {
    exists j :: 0 <= j < |tx.vin| && SpendsFrom(tx.vin[j], address)
  }

  /** Some input of some transaction of `txs` spends from `address`. */
  predicate HistoryReveals(txs: seq<Tx>, address: string) {
    exists i :: 0 <= i < |txs| && TxSpendsFrom(txs[i], address)
  }

  /** What the detector reports for a history lookup that came back as
      `response`: some input of some transaction of an ok, non-null body spends
      from `address`. */
  predicate KeyRevealed(address: string, response: Response<History>)
    ensures !response.Ok? || response.body == None || response.body == Some([]) ==> !KeyRevealed(address, response)
    ensures KeyRevealed(address, response) <==>
      response.Ok? && response.body.Some? &&
      exists i, j :: 0 <= i < |response.body.value| && 0 <= j < |response.body.value[i].vin| &&
                     SpendsFrom(response.body.value[i].vin[j], address)
  {
    response.Ok? && response.body.Some? && HistoryReveals(response.body.value, address)
  }

  /** The detector. A lookup that threw, a response that was not ok, a null
      body and an empty history all give false; otherwise the inputs are scanned
      in order and the first one spending from `address` gives true. */
  method HasPublicKeyBeenRevealed(address: string, response: Response<History>) returns (revealed: bool)
    ensures !response.Ok? ==> !revealed
    ensures response == Ok(None) || response == Ok(Some([])) ==> !revealed
    ensures revealed <==>
      response.Ok? && response.body.Some? &&
      exists i, j :: 0 <= i < |response.body.value| && 0 <= j < |response.body.value[i].vin| &&
                     SpendsFrom(response.body.value[i].vin[j], address)
  {
    match response {
      case Threw =>
        return false;
      case NotOk(_) =>
        return false;
      case Ok(body) =>
        if body.None? || |body.value| == 0 {
          return false;
        }
        var txs := body.value;
        for i := 0 to |txs|
          invariant forall i' :: 0 <= i' < i ==> !TxSpendsFrom(txs[i'], address)
        {
          var vin := txs[i].vin;
          for j := 0 to |vin|
            invariant forall j' :: 0 <= j' < j ==> !SpendsFrom(vin[j'], address)
          {
            if vin[j].prevout.Some? && vin[j].prevout.value.scriptPubKeyAddress == Some(address) {
              assert TxSpendsFrom(txs[i], address);
              return true;
            }
          }
        }
        return false;
    }
  }

  /** Splitting a history anywhere: it reveals the key iff one of the parts does. */
  lemma HistoryRevealsAppend(xs: seq<Tx>, ys: seq<Tx>, address: string)
    ensures HistoryReveals(xs + ys, address) <==> HistoryReveals(xs, address) || HistoryReveals(ys, address)
  {
    if HistoryReveals(ys, address) {
      var i :| 0 <= i < |ys| && TxSpendsFrom(ys[i], address);
      assert (xs + ys)[|xs| + i] == ys[i];
    }
    if HistoryReveals(xs, address) {
      var i :| 0 <= i < |xs| && TxSpendsFrom(xs[i], address);
      assert (xs + ys)[i] == xs[i];
    }
    if HistoryReveals(xs + ys, address) {
      var i :| 0 <= i < |xs + ys| && TxSpendsFrom((xs + ys)[i], address);
      if i < |xs| {
        assert xs[i] == (xs + ys)[i];
      } else {
        assert ys[i - |xs|] == (xs + ys)[i];
      }
    }
  }

  /** The order of the transactions does not matter: any reordering of the
      history gives the same answer. */
  lemma HistoryRevealsReordered(xs: seq<Tx>, ys: seq<Tx>, address: string)
    requires multiset(xs) == multiset(ys)
    ensures HistoryReveals(xs, address) <==> HistoryReveals(ys, address)
  {
    if HistoryReveals(xs, address) {
      MatchMovesWithTx(xs, ys, address);
    }
    if HistoryReveals(ys, address) {
      MatchMovesWithTx(ys, xs, address);
    }
  }

  lemma MatchMovesWithTx(xs: seq<Tx>, ys: seq<Tx>, address: string)
    requires multiset(xs) == multiset(ys)
    requires HistoryReveals(xs, address)
    ensures HistoryReveals(ys, address)
  {
    var i :| 0 <= i < |xs| && TxSpendsFrom(xs[i], address);
    assert xs[i] in multiset(ys);
    var k :| 0 <= k < |ys| && ys[k] == xs[i];
  }

  /** Inputs without a prevout (coinbase inputs, or inputs the explorer could
      not describe) never count, wherever they sit among a transaction's inputs. */
  lemma PrevoutlessInputsNeverCount(pre: seq<Input>, extra: seq<Input>, post: seq<Input>, address: string)
    requires forall k :: 0 <= k < |extra| ==> extra[k].prevout.None?
    ensures TxSpendsFrom(Tx(pre + extra + post), address) <==> TxSpendsFrom(Tx(pre + post), address)
  {
    var long, short := pre + extra + post, pre + post;
    if TxSpendsFrom(Tx(long), address) {
      var j :| 0 <= j < |long| && SpendsFrom(long[j], address);
      if j < |pre| {
        assert short[j] == long[j];
      } else {
        assert j >= |pre| + |extra|;
        assert short[j - |extra|] == long[j];
      }
    }
    if TxSpendsFrom(Tx(short), address) {
      var j :| 0 <= j < |short| && SpendsFrom(short[j], address);
      if j < |pre| {
        assert long[j] == short[j];
      } else {
        assert long[j + |extra|] == short[j];
      }
    }
  }
}
