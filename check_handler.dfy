/** The `/check/:address` request handler: detect whether the address's key
    was revealed, enumerate its UTXOs, and classify them. The three explorer
    calls arrive as values; HTTP routing and JSON writing are not modelled. */
module CheckHandler {
  import opened Fetch
  import opened ScriptTypes
  import opened RevealedKey
  import opened UtxoClassifier

  /** What the handler answers. */
  datatype Reply =
    | Listed(verdicts: seq<Verdict>)  // 200, the JSON array of verdicts
    | AddressRequired                 // 400 'Bitcoin address is required'
    | InvalidAddress                  // 400 'Invalid Bitcoin address format.'
    | ServerError                     // 500 'Failed to fetch or process Bitcoin address data.'
  {
    function Status(): int {
      match this
      case Listed(_) => 200
      case AddressRequired => 400
      case InvalidAddress => 400
      case ServerError => 500
    }
  }

  /** Handles one request for `address`, given the outcomes of
      `GET /address/:address/txs` (`history`), `GET /address/:address/utxo`
      (`utxoResponse`) and `GET /tx/:txid` for each UTXO (`lookup`). */
  method CheckAddress(address: string, history: Response<History>, utxoResponse: Response<seq<Utxo>>, lookup: TxLookup)
    returns (reply: Reply)
    ensures address == "" ==> reply == AddressRequired
    ensures address != "" && utxoResponse.Threw? ==> reply == ServerError
    ensures address != "" && utxoResponse == NotOk(400) ==> reply == InvalidAddress
    ensures address != "" && utxoResponse.NotOk? && utxoResponse.status != 400 ==> reply == Listed([])
    ensures address != "" && utxoResponse == Ok([]) ==> reply == Listed([])
    ensures address != "" && utxoResponse.Ok? ==>
      (reply == ServerError <==> !AllResolved(utxoResponse.body, lookup))
    ensures address != "" && utxoResponse.Ok? && AllResolved(utxoResponse.body, lookup) ==>
      reply == Listed(Verdicts(address, KeyRevealed(address, history), utxoResponse.body, lookup))
    ensures reply.Status() == 400 <==> address == "" || utxoResponse == NotOk(400)
    ensures reply.Status() == 500 <==>
      address != "" && (utxoResponse.Threw? || (utxoResponse.Ok? && !AllResolved(utxoResponse.body, lookup)))
    ensures reply.Status() == 200 <==> reply.Listed?
  {
    if address == "" {
      return AddressRequired;
    }
    var publicKeyRevealed := HasPublicKeyBeenRevealed(address, history);
    match utxoResponse {
      case Threw =>
        return ServerError;
      case NotOk(status) =>
        if status == 400 {
          return InvalidAddress;
        }
        return Listed([]);
      case Ok(utxos) =>
        if |utxos| == 0 {
          return Listed([]);
        }
        var results := ClassifyUtxos(address, publicKeyRevealed, utxos, lookup);
        if results.None? {
          return ServerError;
        }
        return Listed(results.value);
    }
  }

  // ---------------------------------------------------------------------------
  // Worked scenarios

  /** A never-spent address holding one P2PK output of 5000 satoshis: the
      output is reported vulnerable because the key sits in the script. */
  lemma NeverSpentP2pkScenario(address: string, txid: string)
    ensures
      var utxos := [Utxo(txid, 0, 5000)];
      var lookup := map[txid := [Vout(Some(address), "p2pk")]];
      Verdicts(address, KeyRevealed(address, Ok(Some([]))), utxos, lookup) ==
        [Verdict(txid, 0, 5000, "p2pk", true, "P2PK: Public key is directly in the script.")]
  {
  }

  /** One P2PKH output of an address whose history shows a spend from it:
      the output is reported vulnerable. */
  lemma SpentP2pkhScenario(address: string, txid: string)
    ensures
      var utxos := [Utxo(txid, 1, 700)];
      var lookup := map[txid := [Vout(None, "p2tr"), Vout(Some(address), "p2pkh")]];
      var history: Response<History> := Ok(Some([Tx([Input(None), Input(Some(Prevout(Some(address))))])]));
      Verdicts(address, KeyRevealed(address, history), utxos, lookup) ==
        [Verdict(txid, 1, 700, "p2pkh", true, "P2PKH" + RevealedSentence)]
  {
    var txs := [Tx([Input(None), Input(Some(Prevout(Some(address))))])];
    assert TxSpendsFrom(txs[0], address) by {
      assert SpendsFrom(txs[0].vin[1], address);
    }
    assert KeyRevealed(address, Ok(Some(txs)));
    HashedKeyVulnerableIffRevealed(P2PKH, true);
  }

  /** The same output when the history shows no spend from the address: the
      output is reported safe. */
  lemma UnspentP2pkhScenario(address: string, txid: string)
    ensures
      var utxos := [Utxo(txid, 1, 700)];
      var lookup := map[txid := [Vout(None, "p2tr"), Vout(Some(address), "p2pkh")]];
      var history: Response<History> := Ok(Some([Tx([Input(None)])]));
      Verdicts(address, KeyRevealed(address, history), utxos, lookup) ==
        [Verdict(txid, 1, 700, "p2pkh", false, "P2PKH" + SafeSentence)]
  {
    HashedKeyVulnerableIffRevealed(P2PKH, false);
  }

  /** A UTXO whose resolved output is locked to another address is dropped,
      and a UTXO naming an output index the transaction does not have is
      dropped too. */
  lemma ForeignOutputsDroppedScenario(address: string, other: string, txid: string)
    requires other != address
    ensures
      var utxos := [Utxo(txid, 0, 10), Utxo(txid, 5, 20), Utxo(txid, 1, 30)];
      var lookup := map[txid := [Vout(Some(other), "p2pk"), Vout(Some(address), "p2wsh")]];
      Verdicts(address, true, utxos, lookup) ==
        [Verdict(txid, 1, 30, "p2wsh", false, "Script type '" + "p2wsh" + "' is not checked or is considered safe.")]
  {
    var utxos := [Utxo(txid, 0, 10), Utxo(txid, 5, 20), Utxo(txid, 1, 30)];
    var lookup := map[txid := [Vout(Some(other), "p2pk"), Vout(Some(address), "p2wsh")]];
    assert utxos[..2][..1] == [Utxo(txid, 0, 10)];
    assert utxos[..2] == [Utxo(txid, 0, 10), Utxo(txid, 5, 20)];
    assert [Utxo(txid, 0, 10)][..0] == [];
    assert Verdicts(address, true, [Utxo(txid, 0, 10)], lookup) == [];
    assert Verdicts(address, true, utxos[..2], lookup) == [];
    assert utxos[..2] == utxos[..|utxos| - 1];
    assert Belongs(utxos[2], address, lookup);
    assert VerdictFor(utxos[2], lookup[txid][1], true) ==
           Verdict(txid, 1, 30, "p2wsh", false, "Script type '" + "p2wsh" + "' is not checked or is considered safe.");
  }
}
