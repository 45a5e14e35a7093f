# Quantum-exposure classifier for Bitcoin UTXOs, modelled in Dafny

The server behind the quantum vulnerability checker answers `GET /check/:address`.
It asks the Blockstream explorer for three things: the address's transaction
history, its unspent outputs (UTXOs), and each UTXO's transaction. It then tells,
per UTXO, whether the funds are exposed to a quantum key-recovery attack, with a
reason.

Two steps make up that answer, and this project models both, together with the
handler that runs them:

- **Revealed-key detector** (`hasPublicKeyBeenRevealed`). An address's public key
  counts as revealed once some input in its history spent an output locked to the
  address. A failed or empty history lookup counts as "not revealed".
- **UTXO classifier** (the loop in the handler). Each UTXO is resolved to its
  output. The UTXO is skipped when the output index is out of range or the output
  is locked to another address. Otherwise the script-type table decides the
  verdict: P2PK and P2TR are always vulnerable; P2PKH and P2WPKH are vulnerable
  exactly when the key was revealed; any other type is reported safe.

Files, one module each:

- `fetch.dfy` (`Fetch`): `Option` and `Response`, the outcome of one `fetch` +
  `json()` (threw, not ok with a status, or ok with a body).
- `js_strings.dfy` (`JsStrings`): `toUpperCase` and `replace(pattern, '')`, the
  two string operations used for the reason labels.
- `script_type.dfy` (`ScriptTypes`): the script-type tag and its string form, the
  reason labels, and the classification table `Classify`.
- `revealed_key.dfy` (`RevealedKey`): the history datatypes, the detector as a
  method with the source's nested loops and early return, and the specification
  `HistoryReveals` with its lemmas.
- `utxo_classifier.dfy` (`UtxoClassifier`): UTXOs, outputs, verdict records, the
  loop as a method with `continue`, its specification `Verdicts`, the kept
  positions `KeptIndices`, and lemmas about order, copying and dropping.
- `check_handler.dfy` (`CheckHandler`): the request handler with its status rules,
  and worked scenarios.

All network results are parameters. The history lookup and the UTXO lookup are
`Response` values. The per-transaction lookups form a map from txid to the
transaction's outputs; a txid missing from the map is a lookup that threw.

The model follows the code in three places where a reader might expect otherwise:

- A UTXO whose transaction lookup fails is not skipped. The handler has no `ok`
  check on that response, so the failure throws and the whole request ends in the
  500 reply (app.js:69-70, 115-117). `ClassifyUtxos` returns `None` and
  `CheckAddress` replies `ServerError`.
- A UTXO lookup that is not ok is only an error for status 400. Every other
  status gives an empty list, not an upstream error (app.js:53-60).
- An empty address gets its own 400 reply (app.js:45-47).

## Model

| member | source | states |
|---|---|---|
| `ScriptTypes.Parse` | app.js:75-101 | the explorer's type string maps to P2PK, P2TR, P2PKH, P2WPKH for "p2pk", "p2tr", "p2pkh", "v0_p2wpkh" and to Other for every other string; printing the result gives the string back |
| `ScriptTypes.ParseName` | app.js:79-101 | a well-formed type survives printing and parsing (the other half of the round trip) |
| `ScriptTypes.DisplayLabel` | app.js:92-95 | `toUpperCase().replace('V0_', '')` is never longer than the type string, and only upper-cases a string without "V0_"; its values for the two hash-based types are stated by `HashLabels` |
| `JsStrings.RemoveFirstWhenAbsent` | app.js:92 | `replace(pat, '')` leaves the string unchanged when `pat` does not occur in it |
| `JsStrings.RemoveFirstCutsLeftmost` | app.js:92 | `replace(pat, '')` removes exactly the leftmost occurrence of `pat` and nothing else |
| `ScriptTypes.HashLabels` | app.js:92-95 | the upper-cased type with "V0_" removed is "P2PKH" for p2pkh and "P2WPKH" for v0_p2wpkh |
| `ScriptTypes.Classify` | app.js:79-101 | no contract of its own; its table is stated by `EmbeddedKeyAlwaysVulnerable`, `HashedKeyVulnerableIffRevealed`, `UnknownTypeNeverVulnerable` and `RevealedFlagMattersOnlyForHashedKeys` |
| `ScriptTypes.EmbeddedKeyAlwaysVulnerable` | app.js:80-87 | P2PK and P2TR are vulnerable, their verdict and reason do not depend on the revealed flag, and the reasons are "P2PK: Public key is directly in the script." and "P2TR (Taproot): Public key is part of the output script." |
| `ScriptTypes.HashedKeyVulnerableIffRevealed` | app.js:88-97 | P2PKH and P2WPKH are vulnerable iff the key was revealed; the reason is "P2PKH"/"P2WPKH" followed by the revealed sentence or the safe sentence |
| `ScriptTypes.UnknownTypeNeverVulnerable` | app.js:98-101 | any other type is not vulnerable and its reason quotes the type as "not checked or is considered safe" |
| `ScriptTypes.RevealedFlagMattersOnlyForHashedKeys` | app.js:79-101 | flipping the revealed flag changes the classification iff the type is P2PKH or P2WPKH |
| `RevealedKey.KeyRevealed` | app.js:17-35 | the detector's answer as a predicate: false for a lookup that threw, was not ok, or gave a null or empty history; otherwise true iff some input of some transaction has a prevout whose address equals the queried address |
| `RevealedKey.HasPublicKeyBeenRevealed` | app.js:14-41 | false when the lookup threw, was not ok, or gave a null or empty history; otherwise true iff some input of some transaction has a prevout whose address equals the queried address |
| `RevealedKey.HistoryRevealsAppend` | app.js:28-34 | a history split anywhere reveals the key iff one of its parts does |
| `RevealedKey.HistoryRevealsReordered` | app.js:28-34 | reordering the transactions of a history does not change the answer |
| `RevealedKey.PrevoutlessInputsNeverCount` | app.js:29-30 | inputs without a prevout, inserted anywhere among a transaction's inputs, never change whether it spends from the address |
| `UtxoClassifier.Verdicts` | app.js:67-112 | the reply built from the UTXO list is never longer than that list |
| `UtxoClassifier.KeptIndices` | app.js:71-73 | the kept positions are increasing and are exactly the UTXOs whose output index is in range and whose output address equals the queried address |
| `UtxoClassifier.VerdictFor` | app.js:104-111 | the pushed record copies txid, vout and value from the UTXO and the script type from its output; it is vulnerable iff the type embeds the key (p2pk, p2tr) or hashes it (p2pkh, v0_p2wpkh) and the key was revealed |
| `UtxoClassifier.ClassifyUtxos` | app.js:67-112 | the loop aborts exactly when some UTXO's transaction lookup failed; otherwise it returns `Verdicts` of its inputs |
| `UtxoClassifier.VerdictsFollowKeptUtxos` | app.js:71-111 | the k-th verdict belongs to the k-th kept UTXO: txid, vout and value copied from it, script type copied from its output, verdict and reason from `Classify` (order-preserving, one verdict per kept UTXO) |
| `UtxoClassifier.DroppedIffNotBelonging` | app.js:71-73 | the reply has one verdict per UTXO iff every UTXO's output exists and is locked to the queried address |
| `UtxoClassifier.NoneDroppedWhenAllBelong` | app.js:71-73 | when every UTXO's output exists and is locked to the queried address, the reply has one verdict per UTXO |
| `UtxoClassifier.FullLengthMeansBelongs` | app.js:71-73 | a reply with one verdict per UTXO means every UTXO's output exists and is locked to the queried address |
| `UtxoClassifier.UnrevealedReportsOnlyEmbeddedKeys` | app.js:88-97 | with the key not revealed (including a failed history lookup), exactly the p2pk and p2tr verdicts are vulnerable |
| `UtxoClassifier.RevealedReportsAllKnownTypes` | app.js:79-101 | with the key revealed, a verdict is vulnerable iff its type is one of the four named types |
| `CheckHandler.CheckAddress` | app.js:43-119 | empty address gives the 400 "required" reply; a UTXO lookup that threw gives 500; status 400 gives InvalidAddress; any other non-ok status and an empty UTXO list give []; otherwise 500 iff some transaction lookup failed, else the verdicts of the UTXOs under the detector's flag; the status is 400 exactly for an empty address or an upstream 400, 500 exactly for a thrown UTXO lookup or a failed transaction lookup, and 200 exactly for a listed reply |
| `CheckHandler.NeverSpentP2pkScenario` | app.js:80-83 | a never-spent address with one 5000-satoshi P2PK output gets one vulnerable verdict, "P2PK: Public key is directly in the script." |
| `CheckHandler.SpentP2pkhScenario` | app.js:28-34 | one P2PKH output is reported vulnerable, with the "P2PKH" revealed reason, when the history has an input spending from the address |
| `CheckHandler.UnspentP2pkhScenario` | app.js:93-96 | the same output is reported safe, with the "P2PKH" safe reason, when no input spends from the address |
| `CheckHandler.ForeignOutputsDroppedScenario` | app.js:71-73 | UTXOs whose output index is out of range or whose output belongs to another address are dropped; the remaining one is kept |

## Left out

- HTTP plumbing: Express setup, CORS, routing, `app.listen` and JSON response writing (app.js:1-11, 121-123). `Reply` stands for the status and body the handler sends.
- The network: the three `node-fetch` calls (app.js:16, 52, 69) are parameters holding their outcomes. The relation between `res.ok` and the status code is the explorer's business; `NotOk` carries any status.
- Repeated transaction lookups: the source fetches `GET /tx/:txid` once per UTXO (app.js:68-70), so two UTXOs of one transaction make two fetches, and the second can throw after the first succeeded. `TxLookup` holds one outcome per txid, so the model assumes repeated lookups of one txid agree; a request whose later re-fetch throws, which the source answers with 500 (app.js:115-117), is not modelled.
- `console.error` logging on a failed history lookup or a failed request (app.js:37, 116): a side effect with no bearing on the reply.
- async/await: the calls are sequenced as plain sequential code.
- Malformed JSON shapes: a history transaction without `vin`, or a UTXO body that is not an array, make the source throw. The model's datatypes always have these fields. A parse failure of a whole body is covered by `Threw`.
- A missing `scriptpubkey_type` (JavaScript `undefined`, giving the reason "Script type 'undefined' …") is not modelled: the type is always a string.
- `JsStrings.ToUpper`: models `toUpperCase` on ASCII letters only, because the only strings it is applied to are "p2pkh" and "v0_p2wpkh".
- Idempotence of the classification holds by construction, because every Dafny function is deterministic. No lemma states it.
- The frontend (frontend/src/App.jsx) is not part of this model. It holds UI state and the floating-point satoshi-to-BTC display.
