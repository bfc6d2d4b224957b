# Token-transfer wallet demo: a Dafny model

The repository is a React demo, `src/App.js`, that connects to a Solana wallet
and sends one SPL token. It finds the sender's token account for a fixed mint,
builds a transfer, has the wallet sign it, submits it and awaits confirmation.
It logs around each step from the blockhash fetch to the confirmation. The demo can also have the wallet sign a
message and log the signature in hex.

This model covers the parts of that file whose behaviour can be stated without
the network, the wallet or floating point:

- `hex.dfy` (module `Hex`): the `toHex` encoder. It is modelled step by step:
  `x.toString(16)`, prefixing `'00'`, `.slice(-2)`, then joining. A decoder,
  `FromHex`, is the partner for the round-trip proofs.
- `accounts.dfy` (module `Accounts`): choosing the source account. The accounts
  are filtered by mint, sorted by amount (largest first, stable) and element
  `[0]` is taken. `Select` models that chain. The predicate `IsFirstLargest`
  states the same policy without sorting, and lemmas prove the two agree.
  `SelectSourceAccount` is a single-pass loop that is proved equal to `Select`.
- `wallet_demo.dfy` (module `WalletDemo`): the component's state. The class
  `App` holds the `logs` trail and the `connected` flag. Its methods are
  `addLog`, the wallet's `connect` and `disconnect` handlers, `sendTransaction`
  and `signMessage`. Every wallet or network call is an input: its value, or
  the message of the error it throws. The class `PendingTransaction` holds the
  two fields the demo assigns itself, `recentBlockhash` and `feePayer`.
  `SendTrail` states which log entries one send appends. Lemmas about it
  cover the single error entry, aborting when there is no source account, and
  the rejected-submission trail.
- `wrappers.dfy` (module `Wrappers`): `Option`, and `Result`/`Outcome` for
  calls that may throw.

What src/App.js does, in points a reader may not expect:

- When no account has the mint, src/App.js raises no dedicated "no matching
  account" error. Reading `.publicKey` of `undefined` (src/App.js:87) throws a
  TypeError, and the catch block logs it. The model uses V8's message text
  for that TypeError.
- Records that fail to decode are not skipped. `parseTokenAccountData`
  (src/App.js:76) runs inside the same `try`, so a throw there aborts the
  whole send like any other error.
- The connection state is one boolean set by the wallet's `connect` and
  `disconnect` events (src/App.js:39-46). There is no Connecting state and no
  guard against a repeated event. Nothing reads this flag: src/App.js:36
  discards its value (`const [, setConnected]`), and the page reads
  `selectedWallet.connected` (src/App.js:144) instead. The model keeps the
  flag only as the state the handlers write.
- `memo` is `null` (src/App.js:66), so the transfer carries no memo. Errors
  are not classified: every error becomes one `Error: <message>` entry
  (src/App.js:115).

## Model

| member | source | states |
|---|---|---|
| `Hex.ToString16` | src/App.js:10 | `x.toString(16)` writes at least one lower-case hex digit. It writes exactly one digit if and only if x < 16, and at most two for a byte. |
| `Hex.SliceLast` | src/App.js:10 | `s.slice(-n)` keeps the last min(n, \|s\|) characters for n > 0, and all of s for n = 0 (`slice(-0)` starts at 0). s is what it drops followed by what it keeps. |
| `Hex.ByteToHex` | src/App.js:10 | `('00' + x.toString(16)).slice(-2)` is exactly two lower-case hex digits. `Hex.ByteToHexDigits` pins them to the high and low nibble. |
| `Hex.ToHex` | src/App.js:8-12 | The encoding is exactly twice as long as the byte sequence and uses only the digits 0-9 and a-f. `Hex.ToHexAt` places each byte, and `Hex.FromHexToHex`/`Hex.ToHexFromHex` make it invertible. |
| `Hex.ByteToHexDigits` | src/App.js:10 | Each byte becomes exactly two digits, high nibble then low nibble, zero-padded (0x0a gives "0a"). |
| `Hex.ToHexAt` | src/App.js:8-12 | Byte i occupies characters 2i and 2i+1 of the encoding, as its high and low hex digits. |
| `Hex.FromHexToHex` | src/App.js:9-11 | Reading the encoding back two characters at a time recovers the input bytes exactly. |
| `Hex.ToHexFromHex` | src/App.js:9-11 | Every text the decoder accepts is the encoding of the bytes it decodes to, so encoder and decoder are inverse both ways. |
| `Hex.ToHexInjective` | src/App.js:8-12 | Distinct byte sequences give distinct hex strings. |
| `Accounts.FilterByMint` | src/App.js:78 | The filter keeps exactly the accounts whose mint equals the target: an account survives if and only if it was discovered and has that mint. A single account is kept or dropped whole. |
| `Accounts.FilterByMintAppend` | src/App.js:78 | Filtering a concatenation gives the filtered parts in order. With the single-account case this fixes the result: the survivors in discovery order, each as often as it occurs. |
| `Accounts.SortByAmountDesc` | src/App.js:79-81 | The comparator sort keeps the number of accounts. `Accounts.SortIsSortedPermutation` proves it ordered and a permutation, and `Accounts.SortIsStable` proves ties keep their order. |
| `Accounts.SortIsSortedPermutation` | src/App.js:79-81 | The comparator sort orders accounts by amount, largest first, and is a permutation of its input. |
| `Accounts.SortIsStable` | src/App.js:79-81 | Accounts with equal amounts keep their discovery order after sorting (stable sort, ECMAScript 2019 onward). |
| `Accounts.Select` | src/App.js:78-81 | Filter, sort and `[0]` give `undefined` (None) if and only if no account survives the filter. `Accounts.SelectIsFirstLargest` says which account is chosen otherwise. |
| `Accounts.SelectCons` | src/App.js:78-81 | Selecting from an account discovered first, followed by others: it wins if it has the mint and at least the amount of the choice among the others. |
| `Accounts.SelectIsFirstLargest` | src/App.js:71-81 | The selection is absent if and only if no account has the target mint. Otherwise it is the account of that mint with the largest amount that precedes every other account with that amount. |
| `Accounts.TieGoesToFirstDiscovered` | src/App.js:79-81 | When several accounts of the mint share the largest amount, the one discovered first is selected. |
| `Accounts.SelectedHasTargetMint` | src/App.js:78 | The selected account was discovered and holds the target mint. Accounts of other mints are never chosen. |
| `Accounts.SelectedIsLargest` | src/App.js:79-81 | No discovered account of the target mint holds more than the selected one. |
| `Accounts.FirstOfTiedMaximaExample` | src/App.js:79-81 | With amounts 5, 20, 20 and 3 and a larger account of another mint among them, the first 20 is selected. |
| `Accounts.SelectSourceAccount` | src/App.js:71-81 | One pass that keeps the first strictly largest balance of the mint returns the same account as filter, sort and `[0]`, or None for `undefined`. |
| `WalletDemo.App.constructor` | src/App.js:15-36 | The log trail starts empty and the connection flag starts false. |
| `WalletDemo.App.AddLog` | src/App.js:16-18 | Appends exactly one entry at the end. All earlier entries stay unchanged and in order, and the flag is untouched. |
| `WalletDemo.App.OnConnect` | src/App.js:39-42 | The connect event sets the flag to true and appends one "Connected to wallet <key>" entry. |
| `WalletDemo.App.OnDisconnect` | src/App.js:43-46 | The disconnect event sets the flag to false and appends one "Disconnected from wallet" entry. |
| `WalletDemo.PendingTransaction.constructor` | src/App.js:83-91 | A newly built transaction carries the transfer request and has neither blockhash nor fee payer. |
| `WalletDemo.App.SendTransaction` | src/App.js:54-117 | A send appends exactly `SendTrail` and makes the collaborator calls in order up to the first step that throws; when `signed.serialize()` throws, the calls stop at the signing and nothing is submitted. It builds a transaction only when a source account was selected. That transaction's source is the selected account, and its blockhash and fee payer are stamped exactly when the blockhash fetch succeeded. |
| `WalletDemo.App.SubmitTransfer` | src/App.js:100-112 | After the build, the send stamps the blockhash, then the fee payer, then has the wallet sign, serializes the signed transaction, submits and confirms. It logs a prefix of the six progress entries, records a call only for the awaits it reaches, and hands back the first thrown error. |
| `WalletDemo.App.SignMessage` | src/App.js:119-130 | Signing a message appends the request entry, then either "Got signature: " with the hex of the signature or one error entry. |
| `WalletDemo.SendEnding` | src/App.js:71-116 | A send stops after at most the five collaborator calls and at most the six progress entries, at the first step that throws. |
| `WalletDemo.SendTrail` | src/App.js:100-116 | Every send appends between one and six entries. The lemmas below say which. |
| `WalletDemo.SendTrailHasOneErrorExactlyOnFailure` | src/App.js:100-116 | A send's trail holds exactly one `Error: ` entry if some step threw and none otherwise. The error entry is the last one and carries the thrown message. A send without failure writes the six progress entries. |
| `WalletDemo.CompletedSendConfirmsSignature` | src/App.js:100-112 | A send ends without error if and only if every step succeeds. It then makes all five calls, writes six entries, and the last one confirms the returned signature. |
| `WalletDemo.NoSourceAccountAbortsSend` | src/App.js:71-116 | With no account of the mint, the only call made is the account lookup. No blockhash fetch, signing or submission happens, and the trail is a single `Error: ` entry. |
| `WalletDemo.UnserializableSignedTransactionIsNotSubmitted` | src/App.js:107-116 | When `signed.serialize()` throws, no submission is made: the calls end with the signing, and the trail is the four entries up to "Got signature" followed by the error entry. |
| `WalletDemo.RejectedSubmissionIsLogged` | src/App.js:108-116 | A serialized transaction whose submission is rejected leaves the "submitting" entry followed by the error entry, and no confirmation is awaited. |
| `WalletDemo.MessageSignatureEntryDecodes` | src/App.js:125 | The logged message-signature entry has the expected length, and its hex part decodes back to the signature. |

## Left out

- React rendering, JSX, and the `useState`/`useMemo`/`useEffect` plumbing (src/App.js:20-35, 47-50, 132-164). This is UI framework behaviour. The effect cleanup (src/App.js:48-50) calls `disconnect()` on the old wallet whenever the selected wallet changes and on unmount. It is left out too; its effect on the state is the disconnect handler, which is modelled.
- WalletDemo.App.OnConnect: the model is one handler call per event. In src/App.js:37-52 the effect registers a new `connect` and `disconnect` handler each time a wallet is selected and never removes them. Selecting the same wallet object again adds a second pair, so one event then appends its entry twice, and a replaced wallet's handlers stay attached. The pile-up of handlers is not modelled.
- WalletDemo.App.OnDisconnect: one handler call per event, for the same reason; the handlers that pile up on `disconnect` are not modelled either.
- Choosing between the URL wallet and the injected wallet, and the `try`/`catch` probe for `window.solana`. These are platform lookups.
- The network calls `getOwnedTokenAccounts`, `getRecentBlockhash`, `sendRawTransaction` and `confirmTransaction`. They are I/O, so each is an input to `SendTransaction` (its value or its thrown message). Its timing and the `'singleGossip'` commitment level are not modelled.
- Wallet signing (`signTransaction`, `sign`) and `TextEncoder`. These are external cryptography and platform calls. Their outcomes are inputs, and the signed bytes are not modelled. `signed.serialize()` (src/App.js:109) is an input too: whether it throws, and with which message; the wire format it produces is not modelled.
- `parseTokenAccountData` and `createTransferBetweenSplTokenAccountsInstruction`. The file that defines them is not part of this model. Decoded accounts are an input, and the built transaction records only the request object it was built from, not its instructions or encoding. Two properties of the builder are assumed rather than shown: it never throws for the fixed arguments the send passes it, and the transaction it returns has no blockhash and no fee payer until src/App.js:101 and 106 assign them (`WalletDemo.PendingTransaction.constructor`).
- Amount scaling `Math.round(parseFloat('1') * 10 ** decimals)`. This is floating point. The model uses its value for the fixed inputs, 10000.
- `PublicKey` construction and base-58 rendering. A key is represented by its base-58 text. Key equality is equality of that text, which holds because base-58 is a bijection on keys.
- Numeric subtraction in the sort comparator. Amounts are `nat` and compared directly, so the precision loss of subtracting large big-number balances as JavaScript numbers is not modelled.
- Interleaving: any handler or action that runs during a send's awaits (another `sendTransaction`, a `signMessage`, a wallet `connect` or `disconnect` event) can append entries between two of the send's entries. `WalletDemo.App.SendTransaction` appends its trail as one block, so it describes a send during which nothing else runs.
- React's batching of `setLogs` updates, and console output.
- WalletDemo.App.SendTransaction: the text of the TypeError thrown on an `undefined` source account depends on the JavaScript engine. The model fixes V8's wording.
