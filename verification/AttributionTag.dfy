/**
 * The tag's way round: written into the transaction that is sent, compiled to index form,
 * recovered from the observed transaction and compared with the sender's name.
 */
module AttributionTag {
  import opened Wrappers
  import opened Ledger
  import opened LedgerLog
  import OrderStatistics
  import Text

  datatype Pubkey = SystemProgram | ComputeBudgetProgram | MemoProgram | Key(bytes: seq<bv8>)

  /** Instruction data: the UTF-8 form of a text, or bytes that are no UTF-8 text. */
  datatype Data = Utf8(text: string) | NotUtf8(bytes: seq<bv8>)

  datatype Call =
    | AdvanceNonce(nonce: Pubkey, authority: Pubkey)
    | Transfer(payer: Pubkey, wallet: Pubkey, lamports: nat)
    | SetUnitPrice(microLamports: nat)
    | SetUnitLimit(units: nat)
    | Memo(payload: string)

  function ProgramOf(c: Call): Pubkey {
    match c
    case AdvanceNonce(_, _) => SystemProgram
    case Transfer(_, _, _) => SystemProgram
    case SetUnitPrice(_) => ComputeBudgetProgram
    case SetUnitLimit(_) => ComputeBudgetProgram
    case Memo(_) => MemoProgram
  }

  datatype EndpointKind = Rpc | Custom | Soyas

  /** A configured wallet is a text that parses to a key or does not. */
  datatype Wallet = Parsed(key: Pubkey) | Unparsable

  datatype Endpoint = Endpoint(name: string, kind: EndpointKind, tipLamports: Option<nat>, tipWallet: Option<Wallet>)

  datatype BuildError = MissingTipWallet | InvalidTipWallet

  const U64_MAX := 0xFFFF_FFFF_FFFF_FFFF

  /** Lamports to micro-lamports, clamped to the 64-bit range, rounded, saturated by the cast. */
  function MicroFee(prioFee: real): (r: nat)
    requires prioFee > 0.0
    ensures prioFee * 1_000_000.0 <= U64_MAX as real ==> -0.5 < r as real - prioFee * 1_000_000.0 <= 0.5
    ensures prioFee * 1_000_000.0 > U64_MAX as real ==> r == U64_MAX
  {
    var scaled := prioFee * 1_000_000.0;
    var clamped := if scaled < (U64_MAX + 1) as real then scaled else (U64_MAX + 1) as real;
    var rounded := OrderStatistics.Round(clamped);
    if rounded > U64_MAX then U64_MAX else rounded
  }

  predicate Tips(e: Endpoint) {
    !e.kind.Rpc? && e.tipLamports.Some? && e.tipLamports.value > 0
  }

  function Payload(provider: string, random: string): string {
    provider + ['|'] + random
  }

  /** `random` is what the hash of provider, clock and counter encodes to. */
  method BuildInstructions(endpoint: Endpoint, nonce: Pubkey, authority: Pubkey, memoText: string,
                           prioFee: real, cuLimit: nat, random: string)
    returns (r: Result<seq<Call>, BuildError>)
    ensures r.Err? <==> Tips(endpoint) && (endpoint.tipWallet.None? || endpoint.tipWallet.value.Unparsable?)
    ensures r.Err? ==> r.error == if endpoint.tipWallet.None? then MissingTipWallet else InvalidTipWallet
    ensures r.Ok? ==> r.value != [] && r.value[0] == AdvanceNonce(nonce, authority)
    ensures r.Ok? ==> MemoOnce(r.value, Payload(memoText, random))
    ensures r.Ok? ==> |r.value| == 2 + (if prioFee > 0.0 then 2 else 0) + (if Tips(endpoint) then 1 else 0)
    ensures r.Ok? && prioFee > 0.0 ==> r.value[1..3] == [SetUnitPrice(MicroFee(prioFee)), SetUnitLimit(cuLimit)]
    ensures r.Ok? && Tips(endpoint) ==>
              r.value[|r.value| - 1] == Transfer(authority, endpoint.tipWallet.value.key, endpoint.tipLamports.value)
    ensures r.Ok? && endpoint.kind.Rpc? ==> forall i :: 0 <= i < |r.value| ==> !r.value[i].Transfer?
    ensures r.Ok? && (endpoint.kind.Custom? || endpoint.kind.Soyas?) && endpoint.tipLamports.Some? ==>
              (endpoint.tipLamports.value > 0 <==> r.value[|r.value| - 1].Transfer?)
  {
    var ix := [AdvanceNonce(nonce, authority)];
    if prioFee > 0.0 {
      ix := ix + [SetUnitPrice(MicroFee(prioFee))];
      ix := ix + [SetUnitLimit(cuLimit)];
    }
    ghost var at := |ix|;
    ix := ix + [Memo(Payload(memoText, random))];
    assert MemoAt(ix, at, Payload(memoText, random));
    if endpoint.kind == Custom || endpoint.kind == Soyas {
      if endpoint.tipLamports.Some? {
        var lamports := endpoint.tipLamports.value;
        if lamports > 0 {
          if endpoint.tipWallet.None? {
            return Err(MissingTipWallet);
          }
          if endpoint.tipWallet.value.Unparsable? {
            return Err(InvalidTipWallet);
          }
          ix := ix + [Transfer(authority, endpoint.tipWallet.value.key, lamports)];
        }
      }
    }
    assert MemoAt(ix, at, Payload(memoText, random));
    return Ok(ix);
  }

  /** Instruction `k`, and no other, belongs to the memo program; it carries `payload`. */
  ghost predicate MemoAt(calls: seq<Call>, k: nat, payload: string) {
    && k < |calls| && calls[k] == Memo(payload)
    && forall i :: 0 <= i < |calls| && i != k ==> ProgramOf(calls[i]) != MemoProgram
  }

  ghost predicate MemoOnce(calls: seq<Call>, payload: string) {
    exists k :: MemoAt(calls, k, payload)
  }

  // ----- the observed transaction -----

  datatype Compiled = Compiled(programIdIndex: nat, data: Data)

  datatype Message = Message(accountKeys: seq<Pubkey>, instructions: seq<Compiled>)

  /** Signatures are given in their base58 text. */
  datatype Transaction = Transaction(signatures: seq<string>, message: Option<Message>)

  datatype TransactionInfo = TransactionInfo(transaction: Option<Transaction>)

  datatype Update = Update(transaction: Option<TransactionInfo>)

  predicate IsMemo(m: Message, i: nat)
    requires i < |m.instructions|
  {
    var inst := m.instructions[i];
    inst.programIdIndex < |m.accountKeys| && m.accountKeys[inst.programIdIndex] == MemoProgram && inst.data.Utf8?
  }

  predicate Complete(u: Update) {
    && u.transaction.Some? && u.transaction.value.transaction.Some?
    && u.transaction.value.transaction.value.signatures != []
    && u.transaction.value.transaction.value.message.Some?
  }

  function SignatureOf(u: Update): string
    requires Complete(u)
  {
    u.transaction.value.transaction.value.signatures[0]
  }

  function MessageOf(u: Update): Message
    requires Complete(u)
  {
    u.transaction.value.transaction.value.message.value
  }

  /** The scan returns the first memo instruction whose data is text, skipping bad program indices. */
  method ExtractMemo(u: Update) returns (r: Option<(string, string)>)
    ensures r.None? && Complete(u) ==> forall i :: 0 <= i < |MessageOf(u).instructions| ==> !IsMemo(MessageOf(u), i)
    ensures r.Some? ==> FirstMemo(u, r.value.0, r.value.1)
  {
    if u.transaction.None? || u.transaction.value.transaction.None? {
      return None;
    }
    var tx := u.transaction.value.transaction.value;
    if tx.signatures == [] || tx.message.None? {
      return None;
    }
    var message := tx.message.value;
    var i := 0;
    while i < |message.instructions|
      invariant 0 <= i <= |message.instructions|
      invariant forall k :: 0 <= k < i ==> !IsMemo(message, k)
    {
      var inst := message.instructions[i];
      if inst.programIdIndex < |message.accountKeys| {
        if message.accountKeys[inst.programIdIndex] == MemoProgram {
          if inst.data.Utf8? {
            assert Complete(u) && FirstMemoAt(MessageOf(u), i, inst.data.text);
            return Some((tx.signatures[0], inst.data.text));
          }
        }
      }
      i := i + 1;
    }
    return None;
  }

  ghost predicate FirstMemoAt(m: Message, i: nat, memo: string) {
    i < |m.instructions| && IsMemo(m, i) && m.instructions[i].data.text == memo
    && forall k :: 0 <= k < i ==> !IsMemo(m, k)
  }

  ghost predicate FirstMemo(u: Update, signature: string, memo: string) {
    Complete(u) && signature == SignatureOf(u) && exists i :: FirstMemoAt(MessageOf(u), i, memo)
  }

  /** What compilation guarantees: each index points at its program's key; memo data is unchanged. */
  ghost predicate Compiles(calls: seq<Call>, m: Message) {
    && |m.instructions| == |calls|
    && forall i :: 0 <= i < |calls| ==>
         && m.instructions[i].programIdIndex < |m.accountKeys|
         && m.accountKeys[m.instructions[i].programIdIndex] == ProgramOf(calls[i])
         && (calls[i].Memo? ==> m.instructions[i].data == Utf8(calls[i].payload))
  }

  /** Whatever the scan returns from a compiled transaction is the payload that was built into it. */
  lemma ExtractedIsPayload(calls: seq<Call>, payload: string, u: Update, signature: string, memo: string)
    requires MemoOnce(calls, payload) && Complete(u) && Compiles(calls, MessageOf(u))
    ensures FirstMemo(u, signature, memo) <==> signature == SignatureOf(u) && memo == payload
  {
    var m := MessageOf(u);
    var k :| MemoAt(calls, k, payload);
    assert forall i :: 0 <= i < |calls| ==> (IsMemo(m, i) <==> i == k);
    assert FirstMemoAt(m, k, payload);
  }

  /**
   * The tag comes back as the provider's name exactly for names without the separator: the
   * extracted memo is cut at its first `|`, whatever the random part contains.
   */
  lemma TagRoundTrip(calls: seq<Call>, provider: string, random: string, u: Update, signature: string, memo: string)
    requires MemoOnce(calls, Payload(provider, random)) && Complete(u) && Compiles(calls, MessageOf(u))
    requires FirstMemo(u, signature, memo)
    ensures Tag(memo) == provider <==> '|' !in provider
  {
    ExtractedIsPayload(calls, Payload(provider, random), u, signature, memo);
    Text.BeforeInvertsJoin(provider, '|', random);
  }

  /**
   * End to end: when the first observation after a registration is the registered transaction's own
   * memo, the send is credited exactly if its provider's name has no separator in it.
   */
  lemma AttributedExactlyWithoutSeparator(log: seq<Event>, i: nat, j: nat, calls: seq<Call>, random: string, u: Update)
    requires UniqueSignatures(log) && i < |log| && log[i].Registered? && FirstObservation(log, i, j)
    requires MemoOnce(calls, Payload(log[i].record.provider, random)) && Complete(u) && Compiles(calls, MessageOf(u))
    requires FirstMemo(u, log[j].obs.signature, log[j].obs.memo)
    ensures CreditAt(log, j).Some? <==> '|' !in log[i].record.provider
  {
    CreditedExactlyOnFirstObservation(log, i, j);
    TagRoundTrip(calls, log[i].record.provider, random, u, log[j].obs.signature, log[j].obs.memo);
  }
}
