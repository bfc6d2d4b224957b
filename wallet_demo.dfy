/**
  The state of the demo component `App` in src/App.js: its log trail and its
  connection flag, the wallet's connect and disconnect handlers, and the two
  actions `sendTransaction` and `signMessage`. The wallet and the network are
  not modelled; what each of their calls does in one run is given as an input.
 */
module WalletDemo {
  import opened Wrappers
  import opened Hex
  import opened Accounts

  /** The receiver's associated token account. */
  const DestinationAddress: PublicKey := PublicKey("46w2oyWknW7wAJiMWDNEU1maJSYM62vhot11s6shwWw4")

  /** The mint of the token sent. */
  const MxMint: PublicKey := PublicKey("mx3edW3gRoM9J4sJKtuobQW3ZB1HeuZH8hQeH9HDkF3")

  const Decimals: nat := 4

  const TransferAmountString: string := "1"

  /** `Math.round(parseFloat('1') * 10 ** 4)`: one token in raw units of a 4-decimal mint. */
  const AmountFix: nat := 10000

  /** The message of the TypeError thrown when `.publicKey` is read from an undefined source account (V8's wording). */
  const UndefinedSourceMessage: string := "Cannot read properties of undefined (reading 'publicKey')"

  /** The argument object of createTransferBetweenSplTokenAccountsInstruction. */
  datatype TransferRequest = TransferRequest(
    ownerPublicKey: PublicKey,
    mint: PublicKey,
    decimals: nat,
    sourcePublicKey: PublicKey,
    destinationPublicKey: PublicKey,
    amount: nat,
    memo: Option<string>)

  /** The request sendTransaction builds once it has chosen `source`. */
  function TransferFrom(walletKey: PublicKey, source: TokenAccount): TransferRequest {
    TransferRequest(walletKey, MxMint, Decimals, source.publicKey, DestinationAddress, AmountFix, None)
  }

  /**
    The transaction object sendTransaction builds and then stamps. Its
    instructions are whatever the builder makes of `request`; only the two
    fields the demo assigns itself are modelled as state.
   */
  class PendingTransaction {
    const request: TransferRequest
    var recentBlockhash: Option<string>
    var feePayer: Option<PublicKey>

    constructor (request: TransferRequest)
      ensures this.request == request
      ensures recentBlockhash == None && feePayer == None
    {
      this.request := request;
      recentBlockhash := None;
      feePayer := None;
    }
  }

  /** The collaborator calls sendTransaction awaits, in the order it makes them. */
  datatype Call = GetOwnedTokenAccounts | GetRecentBlockhash | SignTransaction | SendRawTransaction | ConfirmTransaction

  const CallOrder: seq<Call> :=
    [GetOwnedTokenAccounts, GetRecentBlockhash, SignTransaction, SendRawTransaction, ConfirmTransaction]

  /**
    What each collaborator call does in one run of sendTransaction: the
    decoded owned accounts, the blockhash, the wallet's signing,
    `signed.serialize()` (which throws when the returned signatures do not
    verify or `signed` is no transaction), the signature returned on
    submission, and the confirmation; or, for each, the message of the error
    it throws.
   */
  datatype Collaborators = Collaborators(
    ownedTokenAccounts: Result<seq<TokenAccount>>,
    recentBlockhash: Result<string>,
    signTransaction: Outcome,
    serialize: Outcome,
    sendRawTransaction: Result<string>,
    confirmTransaction: Outcome)

  const ErrorPrefix: string := "Error: "

  function ErrorEntry(message: string): string {
    ErrorPrefix + message
  }

  /** An entry written by one of the catch blocks. */
  predicate IsErrorEntry(entry: string) {
    |entry| >= |ErrorPrefix| && entry[..|ErrorPrefix|] == ErrorPrefix
  }

  function ConnectedEntry(walletKey: PublicKey): string {
    "Connected to wallet " + walletKey.base58
  }

  const DisconnectedEntry: string := "Disconnected from wallet"

  const GettingBlockhashEntry: string := "Getting recent blockhash"

  const SendingEntry: string :=
    "Sending " + TransferAmountString + " of " + MxMint.base58 + " to recipient at: " + DestinationAddress.base58

  const SignatureRequestEntry: string := "Sending signature request to wallet"

  const GotSignatureEntry: string := "Got signature, submitting transaction"

  function SubmittedEntry(signature: string): string {
    "Submitted transaction " + signature + ", awaiting confirmation"
  }

  function ConfirmedEntry(signature: string): string {
    "Transaction " + signature + " confirmed"
  }

  const MessageSignatureRequestEntry: string := "Sending message signature request to wallet"

  const GotMessageSignaturePrefix: string := "Got signature: "

  function GotMessageSignatureEntry(signature: seq<Byte>): string {
    GotMessageSignaturePrefix + ToHex(signature)
  }

  /** The six entries of a send that meets no error, in order; `signature` is what the submission returned. */
  function SuccessTrail(signature: string): seq<string> {
    [GettingBlockhashEntry, SendingEntry, SignatureRequestEntry, GotSignatureEntry,
     SubmittedEntry(signature), ConfirmedEntry(signature)]
  }

  /** Where a send stops: after how many collaborator calls, after how many entries of the success trail, and with which error, if any. */
  datatype Ending = Ending(calls: nat, logged: nat, error: Option<string>)

  /**
    Where the steps after the transaction is built stop: blockhash, signing,
    serialization, submission, confirmation. Calls are counted from the
    blockhash fetch; serialization is local and is no call.
   */
  function SubmissionEnding(env: Collaborators): (e: Ending)
    ensures 1 <= e.calls <= 4 && 1 <= e.logged <= 6
  {
    match env.recentBlockhash
    case Err(m) => Ending(1, 1, Some(m))
    case Ok(_) =>
      match env.signTransaction
      case Fail(m) => Ending(2, 3, Some(m))
      case Pass =>
        match env.serialize
        case Fail(m) => Ending(2, 4, Some(m))
        case Pass =>
          match env.sendRawTransaction
          case Err(m) => Ending(3, 4, Some(m))
          case Ok(_) =>
            match env.confirmTransaction
            case Fail(m) => Ending(4, 5, Some(m))
            case Pass => Ending(4, 6, None)
  }

  /** The first step of sendTransaction that throws, read off the collaborators' outcomes. */
  function SendEnding(env: Collaborators): (e: Ending)
    ensures e.calls <= |CallOrder| && e.logged <= 6
  {
    match env.ownedTokenAccounts
    case Err(m) => Ending(1, 0, Some(m))
    case Ok(accounts) =>
      if Select(accounts, MxMint).None? then Ending(1, 0, Some(UndefinedSourceMessage))
      else
        var e := SubmissionEnding(env);
        Ending(1 + e.calls, e.logged, e.error)
  }

  /** The signature the submission returned; the empty text when it threw (no entry that shows it is then written). */
  function SubmittedSignature(env: Collaborators): string {
    if env.sendRawTransaction.Ok? then env.sendRawTransaction.value else ""
  }

  /** The entries one send appends: the success trail up to the failing step, then one error entry if a step threw. */
  function SendTrail(env: Collaborators): (r: seq<string>)
    ensures 1 <= |r| <= 6
  {
    var e := SendEnding(env);
    SuccessTrail(SubmittedSignature(env))[..e.logged] + if e.error.Some? then [ErrorEntry(e.error.value)] else []
  }

  /** The number of error entries in a trail. */
  function ErrorCount(trail: seq<string>): nat {
    if trail == [] then 0 else (if IsErrorEntry(trail[0]) then 1 else 0) + ErrorCount(trail[1..])
  }

  lemma {:induction false} ErrorCountAppend(a: seq<string>, b: seq<string>)
    ensures ErrorCount(a + b) == ErrorCount(a) + ErrorCount(b)
  {
    if a == [] {
      assert a + b == b;
    } else {
      assert (a + b)[0] == a[0];
      assert (a + b)[1..] == a[1..] + b;
      ErrorCountAppend(a[1..], b);
    }
  }

  lemma {:induction false} NoErrorEntries(trail: seq<string>)
    requires forall i :: 0 <= i < |trail| ==> !IsErrorEntry(trail[i])
    ensures ErrorCount(trail) == 0
  {
    if trail != [] {
      NoErrorEntries(trail[1..]);
    }
  }

  /** None of the progress entries of a send reads as an error entry. */
  lemma SuccessEntriesAreNotErrors(signature: string)
    ensures forall i :: 0 <= i < 6 ==> !IsErrorEntry(SuccessTrail(signature)[i])
  {
    var t := SuccessTrail(signature);
    forall i | 0 <= i < 6
      ensures !IsErrorEntry(t[i])
    {
      assert t[i][0] != 'E';
    }
  }

  /**
    Every failed send ends its trail with exactly one error entry, carrying the
    thrown message, after the progress entries written before the failure; a
    send that fails nowhere writes the six progress entries and no error.
   */
  lemma SendTrailHasOneErrorExactlyOnFailure(env: Collaborators)
    ensures var t, e := SendTrail(env), SendEnding(env);
      && ErrorCount(t) == (if e.error.Some? then 1 else 0)
      && (e.error.Some? ==> |t| == e.logged + 1 && t[|t| - 1] == ErrorEntry(e.error.value))
      && (e.error.None? ==> t == SuccessTrail(SubmittedSignature(env)))
  {
    var e := SendEnding(env);
    var progress := SuccessTrail(SubmittedSignature(env))[..e.logged];
    SuccessEntriesAreNotErrors(SubmittedSignature(env));
    NoErrorEntries(progress);
    if e.error.Some? {
      ErrorCountAppend(progress, [ErrorEntry(e.error.value)]);
      assert IsErrorEntry(ErrorEntry(e.error.value)) by {
        assert ErrorEntry(e.error.value)[..|ErrorPrefix|] == ErrorPrefix;
      }
      assert ErrorCount([ErrorEntry(e.error.value)]) == 1;
    } else {
      assert SendTrail(env) == progress;
    }
  }

  /** A send fails nowhere exactly when every step succeeds, and then its last entry confirms the returned signature. */
  lemma CompletedSendConfirmsSignature(env: Collaborators)
    ensures SendEnding(env).error.None? <==>
      && env.ownedTokenAccounts.Ok?
      && Select(env.ownedTokenAccounts.value, MxMint).Some?
      && env.recentBlockhash.Ok?
      && env.signTransaction.Pass?
      && env.serialize.Pass?
      && env.sendRawTransaction.Ok?
      && env.confirmTransaction.Pass?
    ensures SendEnding(env).error.None? ==>
      && CallOrder[..SendEnding(env).calls] == CallOrder
      && |SendTrail(env)| == 6
      && SendTrail(env)[5] == ConfirmedEntry(env.sendRawTransaction.value)
  {
  }

  /**
    When no discovered account holds the mint, the send stops before fetching
    a blockhash, signing or submitting, and writes one error entry only.
   */
  lemma NoSourceAccountAbortsSend(env: Collaborators)
    requires env.ownedTokenAccounts.Ok?
    requires forall j :: 0 <= j < |env.ownedTokenAccounts.value| ==> env.ownedTokenAccounts.value[j].mint != MxMint
    ensures CallOrder[..SendEnding(env).calls] == [GetOwnedTokenAccounts]
    ensures SendTrail(env) == [ErrorEntry(UndefinedSourceMessage)]
  {
    SelectIsFirstLargest(env.ownedTokenAccounts.value, MxMint);
  }

  /** A rejected submission leaves both the submission attempt and the failure in the trail, and no confirmation is awaited. */
  lemma RejectedSubmissionIsLogged(env: Collaborators)
    requires env.ownedTokenAccounts.Ok? && Select(env.ownedTokenAccounts.value, MxMint).Some?
    requires env.recentBlockhash.Ok? && env.signTransaction.Pass? && env.serialize.Pass?
    requires env.sendRawTransaction.Err?
    ensures ConfirmTransaction !in CallOrder[..SendEnding(env).calls]
    ensures SendTrail(env) ==
      [GettingBlockhashEntry, SendingEntry, SignatureRequestEntry, GotSignatureEntry,
       ErrorEntry(env.sendRawTransaction.message)]
  {
  }

  /**
    When the signed transaction does not serialize, nothing is submitted: the
    send stops after the signing call, with the four entries up to "Got
    signature" and the error entry.
   */
  lemma UnserializableSignedTransactionIsNotSubmitted(env: Collaborators)
    requires env.ownedTokenAccounts.Ok? && Select(env.ownedTokenAccounts.value, MxMint).Some?
    requires env.recentBlockhash.Ok? && env.signTransaction.Pass?
    requires env.serialize.Fail?
    ensures CallOrder[..SendEnding(env).calls] == [GetOwnedTokenAccounts, GetRecentBlockhash, SignTransaction]
    ensures SendRawTransaction !in CallOrder[..SendEnding(env).calls]
    ensures SendTrail(env) ==
      [GettingBlockhashEntry, SendingEntry, SignatureRequestEntry, GotSignatureEntry,
       ErrorEntry(env.serialize.message)]
  {
  }

  /** The hex text a signed message is logged with gives the signature back. */
  lemma MessageSignatureEntryDecodes(signature: seq<Byte>)
    ensures var entry := GotMessageSignatureEntry(signature);
      && |entry| == |GotMessageSignaturePrefix| + 2 * |signature|
      && FromHex(entry[|GotMessageSignaturePrefix|..]) == Some(signature)
  {
    FromHexToHex(signature);
    assert GotMessageSignatureEntry(signature)[|GotMessageSignaturePrefix|..] == ToHex(signature);
  }

  /** The component's state: the log trail it renders and the connection flag. */
  class App {
    var logs: seq<string>
    var connected: bool

    /** `useState([])` and `useState(false)`. */
    constructor ()
      ensures logs == [] && !connected
    {
      logs := [];
      connected := false;
    }

    /** `addLog`: one entry at the end, every earlier entry kept in place. */
    method AddLog(log: string)
      modifies this
      ensures logs == old(logs) + [log]
      ensures connected == old(connected)
    {
      logs := logs + [log];
    }

    /** The wallet's `connect` handler. */
    method OnConnect(walletKey: PublicKey)
      modifies this
      ensures connected
      ensures logs == old(logs) + [ConnectedEntry(walletKey)]
    {
      connected := true;
      AddLog(ConnectedEntry(walletKey));
    }

    /** The wallet's `disconnect` handler. */
    method OnDisconnect()
      modifies this
      ensures !connected
      ensures logs == old(logs) + [DisconnectedEntry]
    {
      connected := false;
      AddLog(DisconnectedEntry);
    }

    /**
      `sendTransaction`, with the wallet's public key and the collaborators'
      outcomes as inputs. It returns the collaborator calls it made, in order,
      and the transaction it built, if it got that far.
     */
    method SendTransaction(walletKey: PublicKey, env: Collaborators) returns (calls: seq<Call>, tx: PendingTransaction?)
      modifies this
      ensures connected == old(connected)
      ensures logs == old(logs) + SendTrail(env)
      ensures calls == CallOrder[..SendEnding(env).calls]
      ensures (tx != null) == (SendEnding(env).calls >= 2)
      ensures tx != null ==>
        && fresh(tx)
        && env.ownedTokenAccounts.Ok?
        && Select(env.ownedTokenAccounts.value, MxMint).Some?
        && tx.request == TransferFrom(walletKey, Select(env.ownedTokenAccounts.value, MxMint).value)
        && tx.recentBlockhash == (if env.recentBlockhash.Ok? then Some(env.recentBlockhash.value) else None)
        && tx.feePayer == (if SendEnding(env).calls >= 3 then Some(walletKey) else None)
    {
      tx := null;
      var thrown: Option<string> := None;  // the message of the error the try block throws, if any
      calls := [GetOwnedTokenAccounts];
      match env.ownedTokenAccounts {
        case Err(m) =>
          thrown := Some(m);
        case Ok(accounts) =>
          var source := Select(accounts, MxMint);
          if source.None? {
            thrown := Some(UndefinedSourceMessage);
          } else {
            tx := new PendingTransaction(TransferFrom(walletKey, source.value));
            var submitted;
            submitted, thrown := SubmitTransfer(walletKey, tx, env);
            calls := calls + submitted;
            assert CallOrder[..SendEnding(env).calls] == CallOrder[..1] + CallOrder[1..SendEnding(env).calls];
          }
      }
      // the catch block
      ghost var progress := SuccessTrail(SubmittedSignature(env))[..SendEnding(env).logged];
      if thrown.Some? {
        AddLog(ErrorEntry(thrown.value));
        assert SendTrail(env) == progress + [ErrorEntry(thrown.value)];
      } else {
        assert SendTrail(env) == progress;
      }
    }

    /**
      The rest of the try block of `sendTransaction` once the transaction is
      built: stamp the blockhash, stamp the fee payer and have the wallet sign,
      submit, await confirmation. It returns the calls it made and the message
      of the error that stopped it, if any, for the catch block to log.
     */
    method SubmitTransfer(walletKey: PublicKey, tx: PendingTransaction, env: Collaborators)
      returns (calls: seq<Call>, thrown: Option<string>)
      modifies this, tx
      ensures connected == old(connected)
      ensures logs == old(logs) + SuccessTrail(SubmittedSignature(env))[..SubmissionEnding(env).logged]
      ensures thrown == SubmissionEnding(env).error
      ensures calls == CallOrder[1..1 + SubmissionEnding(env).calls]
      ensures tx.recentBlockhash == (if env.recentBlockhash.Ok? then Some(env.recentBlockhash.value) else old(tx.recentBlockhash))
      ensures tx.feePayer == (if env.recentBlockhash.Ok? then Some(walletKey) else old(tx.feePayer))
    {
      thrown := None;
      ghost var logged := 1;
      ghost var trail := SuccessTrail(SubmittedSignature(env));
      AddLog(GettingBlockhashEntry);
      calls := [GetRecentBlockhash];
      match env.recentBlockhash {
        case Err(m) =>
          thrown := Some(m);
          assert trail[..1] == [GettingBlockhashEntry];
          assert CallOrder[1..2] == calls;
        case Ok(blockhash) =>
          tx.recentBlockhash := Some(blockhash);
          AddLog(SendingEntry);
          AddLog(SignatureRequestEntry);
          tx.feePayer := Some(walletKey);
          calls, logged := calls + [SignTransaction], 3;
          match env.signTransaction {
            case Fail(m) =>
              thrown := Some(m);
              assert trail[..3] == [GettingBlockhashEntry, SendingEntry, SignatureRequestEntry];
              assert CallOrder[1..3] == calls;
            case Pass =>
              AddLog(GotSignatureEntry);
              logged := 4;
              match env.serialize {
                case Fail(m) =>
                  thrown := Some(m);
                  assert trail[..4] == [GettingBlockhashEntry, SendingEntry, SignatureRequestEntry, GotSignatureEntry];
                  assert CallOrder[1..3] == calls;
                case Pass =>
                  calls := calls + [SendRawTransaction];
                  match env.sendRawTransaction {
                    case Err(m) =>
                      thrown := Some(m);
                      assert trail[..4] == [GettingBlockhashEntry, SendingEntry, SignatureRequestEntry, GotSignatureEntry];
                      assert CallOrder[1..4] == calls;
                    case Ok(signature) =>
                      AddLog(SubmittedEntry(signature));
                      calls, logged := calls + [ConfirmTransaction], 5;
                      match env.confirmTransaction {
                        case Fail(m) =>
                          thrown := Some(m);
                          assert trail[..5] == [GettingBlockhashEntry, SendingEntry, SignatureRequestEntry, GotSignatureEntry,
                                                SubmittedEntry(signature)];
                          assert CallOrder[1..5] == calls;
                        case Pass =>
                          AddLog(ConfirmedEntry(signature));
                          logged := 6;
                          assert trail[..6] == trail;
                          assert CallOrder[1..5] == calls;
                      }
                  }
              }
          }
      }
      assert SubmissionEnding(env) == Ending(|calls|, logged, thrown);
    }

    /** `signMessage`, with the wallet's signing outcome as input. */
    method SignMessage(signing: Result<seq<Byte>>)
      modifies this
      ensures connected == old(connected)
      ensures logs == old(logs) + [MessageSignatureRequestEntry] +
        match signing
        case Ok(signature) => [GotMessageSignatureEntry(signature)]
        case Err(m) => [ErrorEntry(m)]
    {
      AddLog(MessageSignatureRequestEntry);
      match signing
      case Ok(signature) =>
        AddLog(GotMessageSignatureEntry(signature));
      case Err(m) =>
        AddLog(ErrorEntry(m));
    }
  }
}
