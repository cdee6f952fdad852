/**
 * The RPC response normaliser: one function per RPC call kind that turns the
 * raw payload a node returns into the library's canonical response record.
 *
 * Field names are the JSON keys of the payloads. Field elements (`felt`s) and
 * other numeric strings stay strings until a conversion turns them into
 * integers. The conversions and the fee policy belong to other parts of the
 * library and are passed in as function parameters:
 *   toBigInt               the library's `toBigInt`
 *   bigInt                 JavaScript's built-in `BigInt`
 *   estimatedFeeToMaxFee   the library's fee-bound policy
 */
module RpcResponseParser {
  import opened Wrappers

  /** A field element or other numeric value as it arrives on the wire: a string. */
  type Felt = string

  /** An arbitrary JSON value (numbers restricted to integers). */
  datatype Json =
    | JNull
    | JBool(b: bool)
    | JNumber(n: int)
    | JString(s: string)
    | JArray(items: seq<Json>)
    | JObject(fields: map<string, Json>)

  // ---------------------------------------------------------------------------
  // Raw payloads, as the node sends them
  // ---------------------------------------------------------------------------

  /**
   * The result of a get-block-with-transaction-hashes call. `extra` holds
   * every key the normaliser does not read (the open `[key: string]: any`).
   */
  datatype RpcGetBlockResponse = RpcGetBlockResponse(
    timestamp: nat,
    block_hash: Felt,
    block_number: nat,
    new_root: Felt,
    parent_hash: Felt,
    status: string,
    transactions: seq<Felt>,
    extra: map<string, Json>)

  /** The result of a get-transaction-by-hash call; `calldata` and `signature` may be absent. */
  datatype RpcGetTransactionByHashResponse = RpcGetTransactionByHashResponse(
    calldata: Option<seq<Felt>>,
    contract_address: Felt,
    max_fee: Felt,
    nonce: Felt,
    signature: Option<seq<Felt>>,
    transaction_hash: Felt,
    version: Felt,
    extra: map<string, Json>)

  /** One fee estimate, its three quantities still as strings. */
  datatype RpcEstimateFeeResponse = RpcEstimateFeeResponse(
    overall_fee: Felt,
    gas_consumed: Felt,
    gas_price: Felt)

  /** One simulated transaction: an opaque trace and its fee estimate. */
  datatype RpcSimulatedTransaction = RpcSimulatedTransaction(
    transaction_trace: Json,
    fee_estimation: RpcEstimateFeeResponse)

  datatype RpcSimulateTransactionResponse = RpcSimulateTransactionResponse(
    simulated_transactions: seq<RpcSimulatedTransaction>)

  // ---------------------------------------------------------------------------
  // Canonical responses
  // ---------------------------------------------------------------------------

  datatype GetBlockResponse = GetBlockResponse(
    timestamp: nat,
    block_hash: Felt,
    block_number: nat,
    new_root: Felt,
    parent_hash: Felt,
    status: string,
    transactions: seq<Felt>)

  datatype GetTransactionResponse = GetTransactionResponse(
    calldata: seq<Felt>,
    contract_address: Felt,
    sender_address: Felt,
    max_fee: Felt,
    nonce: Felt,
    signature: seq<Felt>,
    transaction_hash: Felt,
    version: Felt)

  /** A fee estimate with its three quantities as unbounded integers. */
  datatype EstimateFeeResponse = EstimateFeeResponse(
    overall_fee: int,
    gas_consumed: int,
    gas_price: int)

  datatype CallContractResponse = CallContractResponse(result: seq<Felt>)

  datatype SimulatedTransaction = SimulatedTransaction(
    transaction_trace: Json,
    fee_estimation: RpcEstimateFeeResponse,
    suggestedMaxFees: int)

  datatype SimulateTransactionResponse = SimulateTransactionResponse(
    simulated_transactions: seq<SimulatedTransaction>)

  // ---------------------------------------------------------------------------
  // parseGetBlockResponse
  // ---------------------------------------------------------------------------

  /** Copies the seven block fields; nothing else of the payload reaches the result. */
  function ParseGetBlockResponse(res: RpcGetBlockResponse): (r: GetBlockResponse)
    ensures r.timestamp == res.timestamp && r.block_hash == res.block_hash
    ensures r.block_number == res.block_number && r.new_root == res.new_root
    ensures r.parent_hash == res.parent_hash && r.status == res.status
    ensures r.transactions == res.transactions
  {
    GetBlockResponse(
      timestamp := res.timestamp,
      block_hash := res.block_hash,
      block_number := res.block_number,
      new_root := res.new_root,
      parent_hash := res.parent_hash,
      status := res.status,
      transactions := res.transactions)
  }

  /**
   * Two payloads give the same block response exactly when they agree on the
   * seven copied fields, whatever their extra keys.
   */
  lemma GetBlockDependsOnlyOnItsFields(a: RpcGetBlockResponse, b: RpcGetBlockResponse)
    ensures ParseGetBlockResponse(a) == ParseGetBlockResponse(b) <==> a.(extra := map[]) == b.(extra := map[])
  {
  }

  /** The block response is a left inverse of building a payload from it. */
  lemma GetBlockRoundTrip(b: GetBlockResponse, extra: map<string, Json>)
    ensures ParseGetBlockResponse(RpcGetBlockResponse(b.timestamp, b.block_hash, b.block_number,
      b.new_root, b.parent_hash, b.status, b.transactions, extra)) == b
  {
  }

  // ---------------------------------------------------------------------------
  // parseGetTransactionResponse
  // ---------------------------------------------------------------------------

  /**
   * Copies the transaction fields, defaulting an absent `calldata` or
   * `signature` to the empty sequence; both `contract_address` and
   * `sender_address` come from the payload's `contract_address`.
   */
  function ParseGetTransactionResponse(res: RpcGetTransactionByHashResponse): (r: GetTransactionResponse)
    ensures r.calldata == (if res.calldata.Some? then res.calldata.value else [])
    ensures r.signature == (if res.signature.Some? then res.signature.value else [])
    ensures r.contract_address == res.contract_address && r.sender_address == res.contract_address
    ensures r.max_fee == res.max_fee && r.nonce == res.nonce
    ensures r.transaction_hash == res.transaction_hash && r.version == res.version
  {
    GetTransactionResponse(
      calldata := res.calldata.GetOr([]),
      contract_address := res.contract_address,
      sender_address := res.contract_address,
      max_fee := res.max_fee,
      nonce := res.nonce,
      signature := res.signature.GetOr([]),
      transaction_hash := res.transaction_hash,
      version := res.version)
  }

  /**
   * A payload without `calldata` and `signature` gives empty ones and the
   * same response as a payload that carries them empty.
   */
  lemma GetTransactionDefaults(res: RpcGetTransactionByHashResponse)
    requires res.calldata == None && res.signature == None
    ensures ParseGetTransactionResponse(res) == ParseGetTransactionResponse(res.(calldata := Some([]), signature := Some([])))
    ensures ParseGetTransactionResponse(res).calldata == [] && ParseGetTransactionResponse(res).signature == []
  {
  }

  /**
   * The response never tells the sender and the contract apart, and does not
   * depend on the payload's extra keys.
   */
  lemma GetTransactionSenderIsContract(res: RpcGetTransactionByHashResponse, extra: map<string, Json>)
    ensures ParseGetTransactionResponse(res).sender_address == ParseGetTransactionResponse(res).contract_address
    ensures ParseGetTransactionResponse(res.(extra := extra)) == ParseGetTransactionResponse(res)
  {
  }

  // ---------------------------------------------------------------------------
  // parseFeeEstimateResponse and parseFeeEstimateOriginalResponse
  // ---------------------------------------------------------------------------

  /** The head of a fee-estimate batch, converted field by field. */
  function ParseFeeEstimateResponse(toBigInt: Felt -> int, res: seq<RpcEstimateFeeResponse>): (r: EstimateFeeResponse)
    requires |res| > 0
    ensures r.overall_fee == toBigInt(res[0].overall_fee)
    ensures r.gas_consumed == toBigInt(res[0].gas_consumed)
    ensures r.gas_price == toBigInt(res[0].gas_price)
  {
    EstimateFeeResponse(
      overall_fee := toBigInt(res[0].overall_fee),
      gas_consumed := toBigInt(res[0].gas_consumed),
      gas_price := toBigInt(res[0].gas_price))
  }

  /** Only the head of the batch matters: batches with equal heads give equal results. */
  lemma FeeEstimateUsesHeadOnly(toBigInt: Felt -> int, a: seq<RpcEstimateFeeResponse>, b: seq<RpcEstimateFeeResponse>)
    requires |a| > 0 && |b| > 0 && a[0] == b[0]
    ensures ParseFeeEstimateResponse(toBigInt, a) == ParseFeeEstimateResponse(toBigInt, b)
  {
  }

  /** The mapped callback of `parseFeeEstimateOriginalResponse`. */
  function ToEstimateFee(toBigInt: Felt -> int, val: RpcEstimateFeeResponse): (r: EstimateFeeResponse)
    ensures r.overall_fee == toBigInt(val.overall_fee)
    ensures r.gas_consumed == toBigInt(val.gas_consumed)
    ensures r.gas_price == toBigInt(val.gas_price)
  {
    EstimateFeeResponse(
      overall_fee := toBigInt(val.overall_fee),
      gas_consumed := toBigInt(val.gas_consumed),
      gas_price := toBigInt(val.gas_price))
  }

  /** Converts every estimate of the batch, keeping length and order. */
  function ParseFeeEstimateOriginalResponse(toBigInt: Felt -> int, res: seq<RpcEstimateFeeResponse>): (r: seq<EstimateFeeResponse>)
    ensures |r| == |res|
    ensures forall i :: 0 <= i < |res| ==>
      && r[i].overall_fee == toBigInt(res[i].overall_fee)
      && r[i].gas_consumed == toBigInt(res[i].gas_consumed)
      && r[i].gas_price == toBigInt(res[i].gas_price)
  {
    seq(|res|, i requires 0 <= i < |res| => ToEstimateFee(toBigInt, res[i]))
  }

  /** For a non-empty batch, the single estimate is the head of the converted batch. */
  lemma FeeEstimateIsHeadOfOriginal(toBigInt: Felt -> int, res: seq<RpcEstimateFeeResponse>)
    requires |res| > 0
    ensures ParseFeeEstimateOriginalResponse(toBigInt, res)[0] == ParseFeeEstimateResponse(toBigInt, res)
  {
  }

  /** Converting a concatenation converts each part: no element affects another. */
  lemma FeeEstimateOriginalDistributes(toBigInt: Felt -> int, a: seq<RpcEstimateFeeResponse>, b: seq<RpcEstimateFeeResponse>)
    ensures ParseFeeEstimateOriginalResponse(toBigInt, a + b)
         == ParseFeeEstimateOriginalResponse(toBigInt, a) + ParseFeeEstimateOriginalResponse(toBigInt, b)
  {
    var l, r := ParseFeeEstimateOriginalResponse(toBigInt, a + b),
                ParseFeeEstimateOriginalResponse(toBigInt, a) + ParseFeeEstimateOriginalResponse(toBigInt, b);
    assert |l| == |r|;
    forall i | 0 <= i < |l| ensures l[i] == r[i] {
      if i < |a| {
        assert (a + b)[i] == a[i];
      } else {
        assert (a + b)[i] == b[i - |a|];
      }
    }
  }

  // ---------------------------------------------------------------------------
  // parseCallContractResponse
  // ---------------------------------------------------------------------------

  /** Wraps the returned values unchanged. */
  function ParseCallContractResponse(res: seq<Felt>): (r: CallContractResponse)
    ensures r.result == res
  {
    CallContractResponse(result := res)
  }

  // ---------------------------------------------------------------------------
  // parseSimulateTransactionResponse
  // ---------------------------------------------------------------------------

  /** The mapped callback: trace and estimate pass through, the suggested maximum fee is added. */
  function WithMaxFee(bigInt: Felt -> int, estimatedFeeToMaxFee: int -> int,
                      simulated: RpcSimulatedTransaction): (r: SimulatedTransaction)
    ensures r.transaction_trace == simulated.transaction_trace
    ensures r.fee_estimation == simulated.fee_estimation
    ensures r.suggestedMaxFees == estimatedFeeToMaxFee(bigInt(simulated.fee_estimation.overall_fee))
  {
    SimulatedTransaction(
      transaction_trace := simulated.transaction_trace,
      fee_estimation := simulated.fee_estimation,
      suggestedMaxFees := estimatedFeeToMaxFee(bigInt(simulated.fee_estimation.overall_fee)))
  }

  /**
   * Adds to every simulated transaction the maximum fee suggested for its own
   * overall fee, keeping length, order, traces and estimates.
   */
  function ParseSimulateTransactionResponse(bigInt: Felt -> int, estimatedFeeToMaxFee: int -> int,
                                            res: RpcSimulateTransactionResponse): (r: SimulateTransactionResponse)
    ensures |r.simulated_transactions| == |res.simulated_transactions|
    ensures forall i :: 0 <= i < |res.simulated_transactions| ==>
      && r.simulated_transactions[i].transaction_trace == res.simulated_transactions[i].transaction_trace
      && r.simulated_transactions[i].fee_estimation == res.simulated_transactions[i].fee_estimation
      && r.simulated_transactions[i].suggestedMaxFees
         == estimatedFeeToMaxFee(bigInt(res.simulated_transactions[i].fee_estimation.overall_fee))
  {
    var sims := res.simulated_transactions;
    var withMaxFees := seq(|sims|, i requires 0 <= i < |sims| => WithMaxFee(bigInt, estimatedFeeToMaxFee, sims[i]));
    SimulateTransactionResponse(simulated_transactions := withMaxFees)
  }

  /** Drops the suggested maximum fees: the raw payload the response was made from. */
  function ForgetMaxFees(r: SimulateTransactionResponse): RpcSimulateTransactionResponse {
    var sims := r.simulated_transactions;
    RpcSimulateTransactionResponse(
      seq(|sims|, i requires 0 <= i < |sims| => RpcSimulatedTransaction(sims[i].transaction_trace, sims[i].fee_estimation)))
  }

  /** The normaliser only adds a field: dropping it again gives back the payload. */
  lemma SimulateRoundTrip(bigInt: Felt -> int, estimatedFeeToMaxFee: int -> int, res: RpcSimulateTransactionResponse)
    ensures ForgetMaxFees(ParseSimulateTransactionResponse(bigInt, estimatedFeeToMaxFee, res)) == res
  {
    var back := ForgetMaxFees(ParseSimulateTransactionResponse(bigInt, estimatedFeeToMaxFee, res));
    assert back.simulated_transactions == res.simulated_transactions;
  }

  /**
   * Reordering, dropping or repeating the simulated transactions reorders,
   * drops or repeats the results in the same way: each result depends on its
   * own transaction only.
   */
  lemma SimulateCommutesWithReindexing(bigInt: Felt -> int, estimatedFeeToMaxFee: int -> int,
                                       res: RpcSimulateTransactionResponse, index: seq<nat>)
    requires forall k :: 0 <= k < |index| ==> index[k] < |res.simulated_transactions|
    ensures var sims := res.simulated_transactions;
            var out := ParseSimulateTransactionResponse(bigInt, estimatedFeeToMaxFee, res).simulated_transactions;
            var picked := RpcSimulateTransactionResponse(seq(|index|, k requires 0 <= k < |index| => sims[index[k]]));
            ParseSimulateTransactionResponse(bigInt, estimatedFeeToMaxFee, picked).simulated_transactions
              == seq(|index|, k requires 0 <= k < |index| => out[index[k]])
  {
  }
}
