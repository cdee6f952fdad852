# starknet.js URL resolver and RPC response normaliser, in Dafny

This project models two independent, stateless leaf components of the
starknet.js client library and proves properties of them.

- **URL resolver** (`url.dfy`, module `Url`). `isUrl` is a loose URL
  validator. It works in two stages against three fixed regular expressions.
  First the whole string must match `^(?:\w+:)?\/\/(\S+)$`. Then the captured
  remainder must match `^localhost[:?\d]*(?:[^:?\d]\S*)?$` or
  `^[^\s.]+\.\S{2,}$`. `buildUrl` returns a URL-shaped override verbatim.
  Otherwise it joins the base URL with `urlOrPath ?? defaultPath`.
  Each regular expression appears twice. A ghost predicate states which splits
  of a string the pattern accepts (`ProtocolAndDomainRE`, `LocalhostDomainRE`,
  `NonLocalhostDomainRE`). A function decides it in one left-to-right scan.
  The decider's contract and the completeness lemmas prove the two agree.
- **RPC response normaliser** (`rpc.dfy`, module `RpcResponseParser`). The six
  methods of `RPCResponseParser` become six functions. Raw node payloads and
  canonical responses become datatypes whose fields carry the JSON key names.
  The class has no state, so it is modelled as the module.
- `wrappers.dfy` holds the `Option` type that stands for JavaScript's
  `undefined`.

Collaborators whose code is not part of this model are function parameters:
- `join` stands for the `url-join` library;
- `toBigInt` for the library's conversion in `utils/num`;
- `bigInt` for JavaScript's built-in `BigInt`, which
  `parseSimulateTransactionResponse` uses in place of `toBigInt`;
- `estimatedFeeToMaxFee` for the fee policy in `utils/stark`.

`buildUrl` joins `urlOrPath ?? defaultPath`. The `??` operator replaces only
`undefined`, so a present empty string is joined to the base itself. It does
not fall back to `defaultPath` (`Url.BuildUrlEmptyOverrideIsJoined`). The
JSDoc at `src/utils/url.ts:53` describes `defaultPath` as the path to use when
no URL or path is provided.

## Model

| member | source | states |
|---|---|---|
| `Url.IsSpace` | src/utils/url.ts:12 | the `\s` class of the patterns: a whitespace character is never a word character, a `[:?\d]` character, `.` or `/` |
| `Url.ProtocolAndDomainRE` | src/utils/url.ts:12 | a match of `protocolAndDomainRE` has a non-empty group 1 that ends the string and is preceded by `//` |
| `Url.LocalhostDomainRE` | src/utils/url.ts:14 | `localhost` followed only by `[:?\d]` characters matches `localhostDomainRE` |
| `Url.NonLocalhostDomainRE` | src/utils/url.ts:15 | a match of `nonLocalhostDomainRE` has at least four characters, does not start with `.` and contains a `.` |
| `Url.Span` | src/utils/url.ts:14 | the length of the longest prefix in a character class: every character before it is in the class, the next one is not (the greedy run `[:?\d]*`) |
| `Url.SpanUnique` | src/utils/url.ts:14 | those two conditions fix the length of a greedy run |
| `Url.MatchProtocolAndDomain` | src/utils/url.ts:29-32 | a capture the decider returns is a real match of `protocolAndDomainRE` with that group 1 |
| `Url.SchemePrefixLength` | src/utils/url.ts:12 | a `(?:\w+:)?` prefix followed by `//` is empty exactly when the string starts with `/`, and otherwise ends one past the leading run of word characters |
| `Url.ProtocolAndDomainComplete` | src/utils/url.ts:12 | whenever `protocolAndDomainRE` matches with some group 1, the decider returns exactly that group |
| `Url.ProtocolAndDomainUnique` | src/utils/url.ts:12 | the optional `\w+:` prefix parses in only one way: group 1 is unique |
| `Url.TestLocalhostDomain` | src/utils/url.ts:14 | the decider is true exactly when `localhostDomainRE` accepts some split into `localhost`, a `[:?\d]*` run and the optional tail |
| `Url.LocalhostIffPrefix` | src/utils/url.ts:14 | for a whitespace-free remainder, `localhostDomainRE` holds exactly when it starts with `localhost`, whatever follows |
| `Url.TestNonLocalhostDomain` | src/utils/url.ts:15 | the decider is true exactly when `nonLocalhostDomainRE` accepts some split into host run, `.` and a suffix of two or more non-blank characters |
| `Url.FirstDot` | src/utils/url.ts:15 | the index of the first `.`, or the length when there is none |
| `Url.NonLocalhostIffDot` | src/utils/url.ts:15 | for a whitespace-free remainder, `nonLocalhostDomainRE` holds exactly when its first `.` has at least one character before it and two after it |
| `Url.IsUrl` | src/utils/url.ts:20-23 | an absent argument and the empty string are not URLs |
| `Url.IsUrlMatchesPatterns` | src/utils/url.ts:29-46 | `isUrl` holds exactly when `protocolAndDomainRE` matches and its group 1 matches `localhostDomainRE` or `nonLocalhostDomainRE` |
| `Url.IsUrlCharacterisation` | src/utils/url.ts:12-46 | for `s` = scheme prefix + `//` + rest: `isUrl(s)` holds exactly when rest is non-empty and whitespace-free and starts with `localhost` or has its first `.` at index 1 or more with two characters after it |
| `Url.IsUrlNeedsProtocol` | src/utils/url.ts:29-32 | a URL starts with `//`, or with a non-empty run of `[A-Za-z0-9_]` followed by `://`, and has a character after it |
| `Url.IsUrlRejectsBlankRest` | src/utils/url.ts:34-37 | no URL has nothing, or any whitespace, after the `//` that follows the scheme prefix |
| `Url.IsUrlLocalhostExample` | src/utils/url.ts:40 | `http://localhost:5050` is a URL |
| `Url.IsUrlDomainExample` | src/utils/url.ts:41 | `https://example.com/rpc` is a URL |
| `Url.IsUrlSchemelessExample` | src/utils/url.ts:41 | `//example.co/rpc` is a URL |
| `Url.IsUrlPathExample` | src/utils/url.ts:29-32 | `/v1/foo` is not a URL: it fails `protocolAndDomainRE` |
| `Url.IsUrlFileNameExample` | src/utils/url.ts:29-32 | `index.html` is not a URL: it fails `protocolAndDomainRE` |
| `Url.IsUrlBlankExample` | src/utils/url.ts:12 | `http:// example.com` is not a URL |
| `Url.BuildUrl` | src/utils/url.ts:58 | a URL-shaped override is returned verbatim; otherwise the base is joined with the override when present and with the default path when absent |
| `Url.BuildUrlOverrideIgnoresBase` | src/utils/url.ts:58 | with a URL-shaped override, the base URL and the default path make no difference |
| `Url.BuildUrlEmptyOverrideIsJoined` | src/utils/url.ts:58 | a present empty override is joined to the base and does not fall back to the default path |
| `Url.BuildUrlDefaultExample` | src/utils/url.ts:58 | `buildUrl("https://host.test", "/rpc")` joins the base with `/rpc` |
| `Url.BuildUrlPathExample` | src/utils/url.ts:58 | `buildUrl("https://host.test", "/rpc", "v2")` joins the base with `v2`, since `v2` is not URL-shaped |
| `Url.BuildUrlOverrideExample` | src/utils/url.ts:58 | `buildUrl("https://host.test", "/rpc", "https://other.test/x")` is `https://other.test/x` |
| `RpcResponseParser.ParseGetBlockResponse` | src/utils/responseParser/rpc.ts:35-45 | each of the seven result fields equals the same-named payload field |
| `RpcResponseParser.GetBlockDependsOnlyOnItsFields` | src/utils/responseParser/rpc.ts:17-19 | two payloads give the same block exactly when they agree on the seven fields: extra keys never reach the result |
| `RpcResponseParser.GetBlockRoundTrip` | src/utils/responseParser/rpc.ts:35-45 | parsing a payload built from a block response gives that block response back |
| `RpcResponseParser.ParseGetTransactionResponse` | src/utils/responseParser/rpc.ts:47-58 | `calldata` and `signature` are the payload's when present and empty when absent; `contract_address` and `sender_address` both equal the payload's `contract_address`; the other four fields are copied |
| `RpcResponseParser.GetTransactionDefaults` | src/utils/responseParser/rpc.ts:49-54 | a payload with neither `calldata` nor `signature` gives empty ones, as if both were sent empty |
| `RpcResponseParser.GetTransactionSenderIsContract` | src/utils/responseParser/rpc.ts:50-51 | the sender always equals the contract address, and extra payload keys make no difference |
| `RpcResponseParser.ParseFeeEstimateResponse` | src/utils/responseParser/rpc.ts:60-66 | for a non-empty batch, each field is `toBigInt` of the head estimate's field |
| `RpcResponseParser.FeeEstimateUsesHeadOnly` | src/utils/responseParser/rpc.ts:62-64 | two batches with equal heads give equal results |
| `RpcResponseParser.ParseFeeEstimateOriginalResponse` | src/utils/responseParser/rpc.ts:68-76 | the result has the batch's length and element i is the field-wise `toBigInt` conversion of estimate i |
| `RpcResponseParser.FeeEstimateIsHeadOfOriginal` | src/utils/responseParser/rpc.ts:60-76 | for a non-empty batch, element 0 of the converted batch is the single estimate |
| `RpcResponseParser.ToEstimateFee` | src/utils/responseParser/rpc.ts:71-75 | each of the three fields of one converted estimate is `toBigInt` of the same-named payload field |
| `RpcResponseParser.FeeEstimateOriginalDistributes` | src/utils/responseParser/rpc.ts:71-75 | converting a concatenation is concatenating the conversions |
| `RpcResponseParser.ParseCallContractResponse` | src/utils/responseParser/rpc.ts:78-82 | `result` is the returned sequence itself |
| `RpcResponseParser.ParseSimulateTransactionResponse` | src/utils/responseParser/rpc.ts:84-98 | same length; each trace and fee estimate passes through; each `suggestedMaxFees` is `estimatedFeeToMaxFee(BigInt(overall_fee))` of its own estimate |
| `RpcResponseParser.WithMaxFee` | src/utils/responseParser/rpc.ts:87-93 | one simulated transaction keeps its trace and fee estimate and gains `suggestedMaxFees` = `estimatedFeeToMaxFee(BigInt(overall_fee))` of that estimate |
| `RpcResponseParser.SimulateRoundTrip` | src/utils/responseParser/rpc.ts:87-93 | dropping the added `suggestedMaxFees` gives back the payload: nothing else changes |
| `RpcResponseParser.SimulateCommutesWithReindexing` | src/utils/responseParser/rpc.ts:87-93 | reordering, dropping or repeating simulated transactions does the same to the results: no result depends on a sibling |

## Left out

- The internals of `url-join`, a foreign library: `join` is a parameter of `Url.BuildUrl`.
- The internals of `toBigInt`, `BigInt` and `estimatedFeeToMaxFee`, which live in other files: they are parameters, and the string-to-integer step is not modelled.
- `Url.IsUrl`: counts characters as Unicode code points, while the source's patterns (no `u` flag) count UTF-16 code units. The two differ only when the part after the dot is a single character outside the Basic Multilingual Plane: `\S{2,}` accepts it in the source and the model rejects it.
- The `typeof s !== 'string'` check of `isUrl`: the Dafny types make it vacuous.
- The `!everythingAfterProtocol` check of `isUrl` is modelled, but it never fires: `(\S+)` always captures at least one character.
- The open `[key: string]: any` part of the raw block and transaction payloads is modelled as an `extra` map that no function reads. The fee-estimate and simulation payloads are closed at the type level in the source and are modelled closed.
- `RpcResponseParser.ParseFeeEstimateResponse`: requires a non-empty batch. On an empty array the source reads `res[0].overall_fee` of `undefined` and throws a `TypeError`; the exception is not modelled.
- `RpcResponseParser.ParseSimulateTransactionResponse`, `RpcResponseParser.ParseGetBlockResponse`, `RpcResponseParser.ParseGetTransactionResponse` and `RpcResponseParser.ParseCallContractResponse`: the model works on values, so it does not capture that the source's results share objects with the payload by reference. These shared objects are `transactions`, a present `calldata` or `signature`, `result`, `fee_estimation` and `transaction_trace`, so a later mutation of either side shows on the other. Nor does it capture that a `fee_estimation` object with keys beyond the declared three keeps them in the result, because at run time the object is passed through whole.
- JSON numbers are integers here. The block `timestamp` and `block_number` are naturals; floating point is not modelled.
- A `calldata` or `signature` that is `null` is treated like an absent one, as `||` does; other falsy values cannot occur for an array field.
- A missing *required* payload field, which the source would copy as `undefined`: required fields are always present in the model.
- The `ResponseParser` interface and the four parser methods it omits: they are not defined in these files.
- The `RPCResponseParser` class itself: it has no fields, so its six methods are modelled as functions of one module.
