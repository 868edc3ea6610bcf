# Chaincase wallet core, modelled in Dafny

Chaincase is a Bitcoin wallet for mobile. It is built on Wasabi and NBitcoin. This project models the wallet's own logic, which sits between those libraries and the screens:

- **Encrypted envelope** (`AesGcmService`). A string is encrypted under a password-derived AES-GCM key into one byte buffer: a little-endian int32 nonce length, the nonce, a little-endian int32 tag length, the tag, then the ciphertext. `Decrypt` takes the two sizes from the buffer itself and slices it back apart.
  - `envelope.dfy` holds the value-level layout: int32 wrap-around, `BinaryPrimitives` little-endian reads and writes, and the serialiser and parser.
  - `aes_gcm.dfy` holds the service class. `Encrypt` and `Decrypt` fill and slice arrays. The cipher, PBKDF2, UTF-8 and base64 are function-valued parameters. `Lawful` states what the service relies on them for, and `ReferenceIsLawful` shows that a concrete instance satisfies it.
- **Synchronizer lifecycle** (`ChaincaseSynchronizer`, `MempoolSynchronizer`), in `synchronizer.dfy`.
  - The per-network fetch size and polling interval.
  - The compare-and-swap handshake over `_running` (0 NotStarted, 1 Running, 2 Stopping, 3 Stopped) in `SleepAsync` and `Resume`. The background loop's 2 -> 3 acknowledgement is an environment step, scheduled by a parameter.
  - The early exits of the mempool tick.
- **Backend client** (`ChaincaseClient`), in `client.dfy`.
  - The versioned request paths, including the repeated `&keys=` query.
  - The status dispatch of each call: 204 means no header, 200 means parse, anything else throws.
  - The first-entry choice of the root filter.
  - The key- and order-preserving bucket map.
  - The transport is a parameter `send` from request to response.
- **Send-amount screen** (`SendAmountViewModel`), in `send_amount.dfy`.
  - The amount-text sanitiser.
  - The fee-target choice and its snapping onto the estimate keys.
  - The greedy input count over coins sorted by amount, descending.
  - The transaction-size estimate, the "max sendable" amount and the labels.
- **CoinJoin screen** (`CoinJoinViewModel`), in `coinjoin.dfy`.
  - The never-negative time left.
  - The one-shot "time to CoinJoin" notification, de-duplicated by a strictly increasing recorded offset.
  - The input limit and the coin-status predicates.
  - How round state is copied in, including the error-state branch.
- **Device-token hex encoder** (`NSDataExtensions.ToHexString`), in `hex.dfy`. It encodes upper-case base16 (section 8 of RFC 4648).
- **Seed-word back-up and migration** (`BackUpViewModel`), in `backup.dfy`. The class works over two maps: the HSM store and the password-protected store.

`text.dfy` holds the string operations the code takes from .NET: decimal rendering, `ushort.Parse`, `string.Join` and `string.Split`. `wrappers.dfy` holds `Option` and `Result`.

Where the code mutates state, the model is imperative:

- classes with `modifies` clauses;
- arrays for the envelope buffer;
- loops for `SleepAsync`'s polling, the key snap, the input count and the hex encoder.

Each method is proved equal to a specification function, and the properties are proved about that function. Pure C# (switches, string interpolation, LINQ projections) is modelled as functions.

Behaviours of the source that a reader may not expect, all modelled as written:

- In "max" mode a zero balance reads "Too high fee" whenever the fee is not negative. So "No Coins Selected" appears only for a negative fee (`MaxAmountText`).
- `AllSelectedAmount` stays null until `SetFees` runs with a fee estimate. In "max" mode a null amount is not equal to zero, so `SetAmountIfMax` formats it and throws a `NullReferenceException`. The model returns `Failure(NullReference)` there.
- The constructor's `FeeChoice` subscription has no `ObserveOn`, so `SetFees` runs before the constructor returns. The fee limits are still 0 at that point, so the Standard choice asks for target 0.
- `AmountTextPositive` ignores its argument and reads the `AmountText` property. `GoNext` calls it with the same text, so the two coincide.
- When a fee estimate arrives, `SetFees` overwrites the clamp of `FeeTarget` into the limits straight away, because it recomputes the target from the fee choice. Without an estimate `SetFees` does nothing, so the clamp stays.
- `MempoolSynchronizer` never assigns `lastRootFilterKey` after construction. Every tick that is not behind on headers therefore reports a new root.

## Model

| member | source | states |
|---|---|---|
| Text.ParseUShort | Chaincase.Common/Services/ChaincaseClient.cs:36 | `ushort.Parse`: non-empty all-digit text below 65536 parses to the number it denotes; empty or non-digit text is a format error, and all-digit text of 65536 or more an overflow error |
| Text.ParseDecimalString | Chaincase.Common/Services/ChaincaseClient.cs:36 | a 16-bit number rendered in decimal parses back to itself |
| Text.DecimalString | Chaincase.Common/Services/ChaincaseClient.cs:46 | the interpolated number is non-empty, all digits, and has no leading zero unless it is 0 |
| Text.Split | Chaincase.UI/ViewModels/BackUpViewModel.cs:51 | `Split` always yields at least one piece |
| Text.JoinSplit | Chaincase.UI/ViewModels/BackUpViewModel.cs:51 | joining the pieces of a split with the same separator gives the string back |
| Text.SplitJoin | Chaincase.Common/Services/ChaincaseClient.cs:124 | when no piece contains the separator (whose first character does not recur), splitting the joined string recovers the pieces in order |
| Envelope.Wrap32 | Chaincase.Common/Services/AesGcmService.cs:37 | unchecked int32 arithmetic: the result is an int32 congruent to the exact value modulo 2^32, and equal to it when it fits |
| Envelope.UInt32Of | Chaincase.Common/Services/AesGcmService.cs:69-71 | the `(uint)` cast `Span.Slice` applies: identity on non-negatives, negatives map above Int32Max |
| Envelope.Int32LE | Chaincase.Common/Services/AesGcmService.cs:42-43 | `WriteInt32LittleEndian` writes exactly four bytes |
| Envelope.ReadInt32LE | Chaincase.Common/Services/AesGcmService.cs:64-65 | `ReadInt32LittleEndian` yields an int32 |
| Envelope.ReadWriteInt32 | Chaincase.Common/Services/AesGcmService.cs:42-65 | reading back a written int32 gives the value |
| Envelope.WriteReadInt32 | Chaincase.Common/Services/AesGcmService.cs:64-65 | writing back a read int32 gives the four bytes: the encoding is a bijection |
| Envelope.Serialise | Chaincase.Common/Services/AesGcmService.cs:36-46 | the buffer is 4 + nonce + 4 + tag + ciphertext bytes long |
| Envelope.SerialiseLayout | Chaincase.Common/Services/AesGcmService.cs:42-46 | the two length fields, nonce, tag and ciphertext sit in five consecutive regions that cover the buffer |
| Envelope.Parse | Chaincase.Common/Services/AesGcmService.cs:61-71 | the slicing succeeds exactly when length >= 8, both sizes are non-negative and 8 + nonce + tag <= length; the ciphertext is the rest |
| Envelope.ParseSerialise | Chaincase.Common/Services/AesGcmService.cs:26-71 | parsing a serialised envelope gives back the nonce, tag and ciphertext |
| Envelope.SerialiseParse | Chaincase.Common/Services/AesGcmService.cs:61-71 | a buffer that parses is exactly the serialisation of its parts |
| AesGcm.KeyFor | Chaincase.Common/Services/AesGcmService.cs:19 | the PBKDF2 key (8 zero salt bytes, 1000 iterations) is 16 bytes, the AES-128 key size |
| AesGcm.Sealing | Chaincase.Common/Services/AesGcmService.cs:26-56 | encryption fails with an encoding error when UTF-8 encoding throws; otherwise it fails (length overflow) exactly when 36 + the plaintext's UTF-8 length exceeds Int32Max |
| AesGcm.SealedLayout | Chaincase.Common/Services/AesGcmService.cs:26-56 | the plaintext encodes, and the encrypted buffer is 36 + n bytes, holds the given nonce and a 16-byte tag, and its ciphertext is as long as the plaintext bytes |
| AesGcm.DecryptEncrypt | Chaincase.Common/Services/AesGcmService.cs:13-79 | for lawful primitives, decrypting what a store with the same password encrypted gives the plaintext back |
| AesGcm.AesGcmService.constructor | Chaincase.Common/Services/AesGcmService.cs:13-24 | the service's key is the PBKDF2 key of the password |
| AesGcm.AesGcmService.Encrypt | Chaincase.Common/Services/AesGcmService.cs:26-56 | filling the buffer (two length writes, nonce, AEAD output) yields exactly the sealed envelope |
| AesGcm.AesGcmService.Decrypt | Chaincase.Common/Services/AesGcmService.cs:58-79 | decoding, slicing, opening and UTF-8 decoding give exactly `Opening`: a base64 error, a slicing error, a parameter-size error (nonce not 12 bytes, tag not 12 to 16 bytes), an authentication error, or the plaintext |
| AesGcm.Opening | Chaincase.Common/Services/AesGcmService.cs:58-79 | decryption fails with a base64 error exactly when the text is not base64; on success the blob parses with a 12-byte nonce and a tag of 12 to 16 bytes |
| AesGcm.AesGcmService.WriteEnvelope | Chaincase.Common/Services/AesGcmService.cs:39-52 | the length prefix, nonce length, nonce, tag length, tag and ciphertext written into the buffer form the serialised envelope of the sealed plaintext |
| AesGcm.ReferenceIsLawful | Chaincase.Common/Services/AesGcmService.cs:19-78 | the hypothesis on the library calls is satisfiable: a reference instance of the primitives meets `Lawful` |
| AesGcm.ExtractParameters | Chaincase.Common/Services/AesGcmService.cs:61-71 | the wrap-around offset arithmetic and `Slice` bounds checks of `Decrypt` compute exactly `Parse` of the buffer |
| AesGcm.OffsetsDoNotWrap | Chaincase.Common/Services/AesGcmService.cs:64-71 | in a well-formed buffer none of `Decrypt`'s offset and size computations wraps |
| AesGcm.WriteInt32LittleEndian | Chaincase.Common/Services/AesGcmService.cs:42-43 | the four bytes at the offset become the little-endian value; the rest of the array is unchanged |
| AesGcm.Fill | Chaincase.Common/Services/AesGcmService.cs:49 | writing into a slice replaces those bytes and nothing else |
| AesGcm.EncryptLayout | Chaincase.Common/Services/AesGcmService.cs:41-52 | the five writes of `Encrypt`, in its order, produce the serialised envelope |
| Synchronizer.MaxFilterFetch | Chaincase.Common/Services/ChaincaseSynchronizer.cs:50-64 | 1000 exactly on Mainnet, 10 exactly on Regtest, 10000 on every other chain |
| Synchronizer.RequestInterval | Chaincase.Common/Services/ChaincaseSynchronizer.cs:66-69 | 5 s exactly on Regtest, 30 s otherwise |
| Synchronizer.CompareExchange | Chaincase.Common/Services/ChaincaseSynchronizer.cs:88 | `Interlocked.CompareExchange` returns the original value and writes only when it equals the comparand |
| Synchronizer.RequestStop | Chaincase.Common/Services/ChaincaseSynchronizer.cs:88 | Running becomes Stopping; every other state is unchanged |
| Synchronizer.PollForStop | Chaincase.Common/Services/ChaincaseSynchronizer.cs:90 | the loop continues exactly while the state is Stopping; NotStarted is turned into Stopped |
| Synchronizer.RearmStopped | Chaincase.Common/Services/ChaincaseSynchronizer.cs:100 | Stopped becomes NotStarted; every other state is unchanged |
| Synchronizer.SleepOutcomeIsStopped | Chaincase.Common/Services/ChaincaseSynchronizer.cs:90-93 | from any state but Running, the wait loop ends in Stopped however late the acknowledgement comes |
| Synchronizer.SleepThenResume | Chaincase.Common/Services/ChaincaseSynchronizer.cs:86-103 | pausing and then resuming always leaves a runner that can start, whatever state the pause found |
| Synchronizer.CancellationSource.Cancel | Chaincase.Common/Services/ChaincaseSynchronizer.cs:89 | the source is cancelled; its disposal is unchanged |
| Synchronizer.CancellationSource.Dispose | Chaincase.Common/Services/ChaincaseSynchronizer.cs:94 | the source is disposed; its cancellation is unchanged |
| Synchronizer.ChaincaseSynchronizer.AcknowledgeStop | Chaincase.Common/Services/ChaincaseSynchronizer.cs:92 | the background loop's step: Stopping becomes Stopped, any other state stays |
| Synchronizer.ChaincaseSynchronizer.SleepAsync | Chaincase.Common/Services/ChaincaseSynchronizer.cs:86-96 | the final state is `SleepOutcome` of the stop request, which is Stopped; `Cancel` is null; the old source was cancelled and disposed; no start is issued |
| Synchronizer.ChaincaseSynchronizer.Start | Chaincase.Common/Services/ChaincaseSynchronizer.cs:112-115 | starts the base runner with the network's interval, five minutes and the network's fetch size |
| Synchronizer.ChaincaseSynchronizer.Resume | Chaincase.Common/Services/ChaincaseSynchronizer.cs:98-103 | re-arms a stopped runner, installs a fresh uncancelled source, then starts with the network's interval |
| Synchronizer.ChaincaseSynchronizer.ResumeWithInterval | Chaincase.Common/Services/ChaincaseSynchronizer.cs:105-110 | as `Resume`, but starts with the given interval, five minutes and the network's fetch size |
| Synchronizer.MempoolSynchronizer.constructor | Chaincase.Common/Services/ChaincaseSynchronizer.cs:19 | `lastRootFilterKey` starts null |
| Synchronizer.MempoolSynchronizer.ActionAsync | Chaincase.Common/Services/ChaincaseSynchronizer.cs:20-32 | more than 100 missing headers: no fetch; otherwise exactly one fetch, a fetch error propagates, and an unchanged key returns without processing |
| Client.ApiVersion | Chaincase.Common/Services/ChaincaseClient.cs:36 | a parsed version comes from non-empty digits; an empty constant is a format error |
| Client.ApiVersionOfDecimal | Chaincase.Common/Services/ChaincaseClient.cs:36 | a version constant written in decimal parses to its value |
| Client.RequestShapes | Chaincase.Common/Services/ChaincaseClient.cs:43-125 | every path starts with `/api/v{N}/` and expects 200; only the notification-token call is a PUT with a body and an explicit retry count of 2 |
| Client.PathVersion | Chaincase.Common/Services/ChaincaseClient.cs:46 | the version segment of a path parses back to the version |
| Client.BucketQueryKeys | Chaincase.Common/Services/ChaincaseClient.cs:124 | when no key contains `&keys=`, splitting the query on it recovers the keys in order |
| Client.NoBucketKeys | Chaincase.Common/Services/ChaincaseClient.cs:124 | with no keys, the path ends in `?keys=` |
| Client.RequireOK | Chaincase.Common/Services/ChaincaseClient.cs:52-55 | succeeds exactly on 200 with the body; any other status fails with that status and content |
| Client.GetLatestMatureHeader | Chaincase.Common/Services/ChaincaseClient.cs:41-60 | 204 and only 204 gives a null header; 200 gives the parsed header; any other status throws |
| Client.RegisterNotificationToken | Chaincase.Common/Services/ChaincaseClient.cs:62-81 | succeeds exactly on 200 (204 throws) and returns the body |
| Client.GetMempoolRootFilter | Chaincase.Common/Services/ChaincaseClient.cs:83-99 | succeeds exactly on 200 with a non-empty mapping, returning its first entry; an empty mapping fails |
| Client.GetMempoolSubFilters | Chaincase.Common/Services/ChaincaseClient.cs:101-117 | succeeds exactly on 200 with a parsed mapping, and returns it |
| Client.ParseAll | Chaincase.Common/Services/ChaincaseClient.cs:134 | succeeds exactly when every element parses; the result keeps the length and the order |
| Client.GetMempoolTransactionBuckets | Chaincase.Common/Services/ChaincaseClient.cs:119-135 | on success: the same keys, each array the same length with element i the parse of text i; one failed parse fails the call |
| SendAmount.KeepAmountChars | Chaincase/ViewModels/SendAmountViewModel.cs:58-59 | only digits, ',' and '.' remain, and the text is not longer |
| SendAmount.KeepAmountCharsIdentity | Chaincase/ViewModels/SendAmountViewModel.cs:58-59 | text made of those characters passes through unchanged |
| SendAmount.CommaToDot | Chaincase/ViewModels/SendAmountViewModel.cs:61 | every ',' becomes '.' and every other character stays in place |
| SendAmount.IndexOf | Chaincase/ViewModels/SendAmountViewModel.cs:65 | the first occurrence at or after the start, or -1 exactly when there is none |
| SendAmount.SecondOccurrence | Chaincase/ViewModels/SendAmountViewModel.cs:63-65 | with more than one '.', a second '.' is found after the first |
| SendAmount.LongestValid | Chaincase/ViewModels/SendAmountViewModel.cs:58-75 | the prefix is valid, and no longer prefix is |
| SendAmount.Normalised | Chaincase/ViewModels/SendAmountViewModel.cs:58-61 | after filtering and the comma swap only digits and '.' remain |
| SendAmount.Sanitise | Chaincase/ViewModels/SendAmountViewModel.cs:58-75 | digits and '.' only, at most one '.', at most eight decimals, a prefix of the normalised text |
| SendAmount.SanitiseLongest | Chaincase/ViewModels/SendAmountViewModel.cs:63-75 | the sanitiser cuts only what it must: no longer prefix is valid |
| SendAmount.SanitiseIdempotent | Chaincase/ViewModels/SendAmountViewModel.cs:77-80 | sanitising twice is sanitising once, so the write-back changes nothing on the second pass |
| SendAmount.CutOneDot | Chaincase/ViewModels/SendAmountViewModel.cs:71-75 | with one '.', the longest valid prefix ends eight decimals after it, or is everything |
| SendAmount.CutTwoDots | Chaincase/ViewModels/SendAmountViewModel.cs:63-75 | with a second '.', the longest valid prefix ends before it, or eight decimals after the first |
| SendAmount.CutAtSecondDot | Chaincase/ViewModels/SendAmountViewModel.cs:63-75 | cutting at the second '.' and then after eight decimals gives the longest valid prefix |
| SendAmount.CutDecimals | Chaincase/ViewModels/SendAmountViewModel.cs:71-75 | with at most one '.', cutting after eight decimals gives the longest valid prefix |
| SendAmount.CutMatchesSanitise | Chaincase/ViewModels/SendAmountViewModel.cs:58-75 | the source's cutting steps end exactly where `Sanitise` does |
| SendAmount.SanitiseAmountText | Chaincase/ViewModels/SendAmountViewModel.cs:58-75 | the subscription's step-by-step rewriting computes `Sanitise` of the typed text |
| SendAmount.FeeTargetFor | Chaincase/ViewModels/SendAmountViewModel.cs:154-168 | Economy gives the maximum, Priority the minimum, Standard the smaller of the maximum and 6 |
| SendAmount.FeeTargetOrder | Chaincase/ViewModels/SendAmountViewModel.cs:155-166 | Priority waits no longer than Standard, Standard no longer than Economy |
| SendAmount.SnapScan | Chaincase/ViewModels/SendAmountViewModel.cs:170-183 | the scan yields the target, the previous key or one of the keys |
| SendAmount.Snap | Chaincase/ViewModels/SendAmountViewModel.cs:170-183 | the snapped target is the target itself or an estimate key |
| SendAmount.SnapScanAscending | Chaincase/ViewModels/SendAmountViewModel.cs:170-183 | over ascending keys: a key or a target above all keys is kept; below the first key gives the previous key; between two keys gives the lower one |
| SendAmount.SnapCases | Chaincase/ViewModels/SendAmountViewModel.cs:170-183 | a key is kept, a target between keys becomes the largest key below it, below all keys the first key, above all keys the target |
| SendAmount.SnapLandsOnKey | Chaincase/ViewModels/SendAmountViewModel.cs:170-183 | a target not above the last key always lands on an estimate key |
| SendAmount.SnapToEstimate | Chaincase/ViewModels/SendAmountViewModel.cs:170-183 | the `foreach` over the keys computes `Snap` |
| SendAmount.MinOf | Chaincase/ViewModels/SendAmountViewModel.cs:243 | a key no larger than any key |
| SendAmount.MaxOf | Chaincase/ViewModels/SendAmountViewModel.cs:244 | a key no smaller than any key |
| SendAmount.Clamp | Chaincase/ViewModels/SendAmountViewModel.cs:115-122 | the result lies within the limits, and a target already within them is kept |
| SendAmount.Insert | Chaincase/ViewModels/SendAmountViewModel.cs:197 | inserting into a descending list keeps it descending and adds exactly the element |
| SendAmount.SortDescending | Chaincase/ViewModels/SendAmountViewModel.cs:197 | `OrderByDescending`: descending and a permutation of the amounts |
| SendAmount.InputsNeeded | Chaincase/ViewModels/SendAmountViewModel.cs:195-205 | the shortest prefix whose sum exceeds the amount, or all coins; at least one when there are coins |
| SendAmount.InputsNeededUnique | Chaincase/ViewModels/SendAmountViewModel.cs:195-205 | any count with those properties is that one |
| SendAmount.CountInputs | Chaincase/ViewModels/SendAmountViewModel.cs:195-205 | the accumulating `foreach` with its `break` computes `InputsNeeded` |
| SendAmount.TrimStart | Chaincase/ViewModels/SendAmountViewModel.cs:193 | drops exactly the leading '~' and ' ' characters |
| SendAmount.VirtualSize | Chaincase/ViewModels/SendAmountViewModel.cs:188-207 | 150 without coins or without a parsable amount; otherwise the size for between 1 and all the selected coins |
| SendAmount.EstimateVirtualSize | Chaincase/ViewModels/SendAmountViewModel.cs:190-207 | the size block of `SetFees` computes `VirtualSize` |
| SendAmount.MaxSendable | Chaincase/ViewModels/SendAmountViewModel.cs:220-221 | never negative, at least all minus fee, and exactly that when the fee is covered |
| SendAmount.MaxAmountText | Chaincase/ViewModels/SendAmountViewModel.cs:229-233 | a non-zero amount shows `~ ` and the amount; "Too high fee" exactly for zero and a fee >= 0; "No Coins Selected" exactly for zero and a negative fee |
| SendAmount.SendFromText | Chaincase/ViewModels/SendAmountViewModel.cs:84-91 | "Auto-Select Private ▾" in private mode; otherwise the count in decimal, followed by " Coin ▾" exactly when it is 1 and by " Coins ▾" for any other count |
| SendAmount.AmountTextPositive | Chaincase/ViewModels/SendAmountViewModel.cs:309-319 | true exactly when the trimmed text parses to more than zero |
| SendAmount.CanGoNext | Chaincase/ViewModels/SendAmountViewModel.cs:132-139 | enabled exactly when the amount is positive and amount plus fee is covered by the selection |
| SendAmount.SendAmountViewModel.constructor | Chaincase/ViewModels/SendAmountViewModel.cs:40-106 | the text starts as "0.0" and the choice as Standard, with limits 0. Without an estimate the fee is zero and the max amount null. With one, the `FeeChoice` subscription's `SetFees` leaves the snapped target for 0, its rate, the fee at `VirtualSize` and the max sendable |
| SendAmount.SendAmountViewModel.SetAmountIfMax | Chaincase/ViewModels/SendAmountViewModel.cs:225-235 | in max mode the text becomes `MaxAmountText` of the amount; a null amount throws and leaves the text; outside max mode nothing changes |
| SendAmount.SendAmountViewModel.SetIsMax | Chaincase/ViewModels/SendAmountViewModel.cs:95-99 | a change to true runs `SetAmountIfMax`, including its throw on a null amount; any other assignment leaves the text |
| SendAmount.SendAmountViewModel.OnAmountText | Chaincase/ViewModels/SendAmountViewModel.cs:48-81 | in max mode the max text, or a throw on a null amount; otherwise the text is replaced by its sanitised form exactly when that differs |
| SendAmount.SendAmountViewModel.SetFeeTargetLimits | Chaincase/ViewModels/SendAmountViewModel.cs:237-251 | the limits are the estimate's smallest and largest key, or 2 and 1008 without an estimate |
| SendAmount.SendAmountViewModel.SetFees | Chaincase/ViewModels/SendAmountViewModel.cs:148-223 | without an estimate nothing changes; otherwise the target is the snapped choice, the fee is priced at `VirtualSize`, and the max sendable is what remains |
| SendAmount.SendAmountViewModel.SetFeeChoice | Chaincase/ViewModels/SendAmountViewModel.cs:106 | a new choice re-runs `SetFees` with it; assigning the same choice changes nothing |
| SendAmount.SendAmountViewModel.OnFeeEstimateChanged | Chaincase/ViewModels/SendAmountViewModel.cs:108-125 | without an estimate the limits become 2 and 1008, the target is clamped into them, and rate, fee and max amount are kept. With one, the limits are the smallest and largest key, and the target, rate, fee and max amount are as `SetFees` computes them from those limits |
| CoinJoin.TimeUntilOffset | Chaincase.UI/ViewModels/CoinJoinViewModel.cs:207-211 | max(offset - now, 0): never negative |
| CoinJoin.AnyCoinRegistered | Chaincase.UI/ViewModels/CoinJoinViewModel.cs:78-79 | true exactly when some coin is in MixingInputRegistration |
| CoinJoin.HasRegistrationResponse | Chaincase.UI/ViewModels/CoinJoinViewModel.cs:85-96 | true exactly when some coin is in one of the five response statuses or registered |
| CoinJoin.RegisteredIsResponse | Chaincase.UI/ViewModels/CoinJoinViewModel.cs:85-96 | being registered implies having a response |
| CoinJoin.HasTooManyInputs | Chaincase.UI/ViewModels/CoinJoinViewModel.cs:394 | true exactly when more than 7 coins are selected |
| CoinJoin.HasSelectedEnough | Chaincase.UI/ViewModels/CoinJoinViewModel.cs:392 | the selected amount, or 0 when null, covers the required amount |
| CoinJoin.NotificationDelay | Chaincase.UI/ViewModels/CoinJoinViewModel.cs:366-390 | a notification is due exactly with at least 90 s left, in input registration, for a later offset; it fires 90 s before the timeout |
| CoinJoin.NotifiedOnce | Chaincase.UI/ViewModels/CoinJoinViewModel.cs:377-381 | once an offset is recorded, neither it nor an earlier one is scheduled again |
| CoinJoin.RoundTimeout | Chaincase.UI/ViewModels/CoinJoinViewModel.cs:135 | the input-registration timeout while registering, else now |
| CoinJoin.CoinJoinViewModel.constructor | Chaincase.UI/ViewModels/CoinJoinViewModel.cs:126-149 | state copied from the most advanced round, or the defaults (InputRegistration without error, 0 registered, 0 queued, 100 needed, 0.01 BTC required); fee percent from the registrable round or "0.003" |
| CoinJoin.CoinJoinViewModel.ScheduleConfirmNotification | Chaincase.UI/ViewModels/CoinJoinViewModel.cs:366-390 | schedules exactly when `NotificationDelay` says so, recording the offset; recorded offsets strictly increase |
| CoinJoin.CoinJoinViewModel.UpdateStates | Chaincase.UI/ViewModels/CoinJoinViewModel.cs:213-249 | in error state the phase is kept and flagged; otherwise the round's phase and timeout are taken; the peer counts are copied; nothing changes without a client |
| Hex.ToUpperInvariant | Chaincase.iOS/AppDelegate.cs:143 | upper-cases each character in place |
| Hex.UpperLowerDigit | Chaincase.iOS/AppDelegate.cs:140-143 | an upper-cased `x2` digit is the base16 digit |
| Hex.Hex | Chaincase.iOS/AppDelegate.cs:131-144 | twice as many characters as bytes, all in 0-9A-F, high nibble first, bytes in order |
| Hex.UnhexHex | Chaincase.iOS/AppDelegate.cs:140-143 | a base16 decoder recovers the bytes |
| Hex.HexInjective | Chaincase.iOS/AppDelegate.cs:131-144 | different tokens never give the same text |
| Hex.ToHexString | Chaincase.iOS/AppDelegate.cs:131-144 | null gives null; otherwise the `foreach` with `AppendFormat` and the final upper-casing compute `Hex` |
| BackUp.LegacyWordsLoc | Chaincase.UI/ViewModels/BackUpViewModel.cs:29 | the network name followed by `-seedWords` |
| BackUp.LegacyWordsLocInjective | Chaincase.UI/ViewModels/BackUpViewModel.cs:29 | two networks never share a legacy key |
| BackUp.NewWalletWordsMigrate | Chaincase.UI/ViewModels/NewPasswordViewModel.cs:31 | words a new wallet writes under its key are what a later migration returns |
| BackUp.MigrationOutcome | Chaincase.UI/ViewModels/BackUpViewModel.cs:54-81 | succeeds exactly when the guard passes, the legacy entry is non-empty and the password opens the wallet, returning the legacy words; the errors come in the source's order |
| BackUp.SplitWords | Chaincase.UI/ViewModels/BackUpViewModel.cs:51 | at least one word, and joining with a space gives the string back |
| BackUp.BackUpViewModel.HasNoSeedWords | Chaincase.UI/ViewModels/BackUpViewModel.cs:27 | true exactly when neither a seed nor an intermediate key is recorded |
| BackUp.BackUpViewModel.MigrateLegacyWords | Chaincase.UI/ViewModels/BackUpViewModel.cs:57-71 | the outcome is `MigrationOutcome`; only success writes, and only the words under the password |
| BackUp.BackUpViewModel.SetAlphaToBetaSeedWords | Chaincase.UI/ViewModels/BackUpViewModel.cs:54-81 | as the migration, and `IsBusy` is false afterwards whether it succeeded or threw |
| BackUp.BackUpViewModel.InitSeedWords | Chaincase.UI/ViewModels/BackUpViewModel.cs:40-52 | stored words are used without migrating; otherwise it migrates; a failure leaves store and words unchanged; on success the words rejoin to what is stored under the password |
| BackUp.BackUpViewModel.IsPasswordValid | Chaincase.UI/ViewModels/BackUpViewModel.cs:83-95 | succeeds exactly when the password opens the wallet; `IsBusy` is false afterwards |

## Left out

- AesGcm.DecryptEncrypt: holds only for strings of Unicode scalar values. A C# `string` is a sequence of UTF-16 code units and may hold unpaired surrogates, which `Encoding.UTF8.GetBytes` (Chaincase.Common/Services/AesGcmService.cs:29) replaces with U+FFFD; for such a string decrypting the encryption does not give the string back (line 78). A Dafny `string` cannot hold such a string, so the model does not capture this case.
- The AES-GCM cipher, PBKDF2, `RandomNumberGenerator`, UTF-8 and base64 are .NET library calls. They are parameters; the service's round trip is proved under the hypothesis `Lawful`, which the reference instance of `ReferenceIsLawful` meets. `Convert.ToBase64String`'s own output-length limit and nonce freshness are not modelled.
- Whether the buffer lives on the stack (`stackalloc`) or the heap does not change its contents, so it is not modelled. Neither is `Dispose` of the AES object.
- `TorClient.SendAndRetryAsync` is not part of this model: the transport, SOCKS, retries and cancellation tokens. The request records the retry count the client asks for. The response is whatever the `send` parameter returns. JSON deserialisation and `Transaction.Parse` are parameters that may fail.
- Client.GetLatestMatureHeader: a JSON `null` body on a 200 is folded into the header parser's result.
- The unfinished processing step of `MempoolSynchronizer` does not compile and is not modelled. Neither are its dangling `event` and the missing update of `lastRootFilterKey`. The model stops at `NewRoot`.
- `ChaincaseSynchronizer.Restart` and the three constructors call into `WasabiSynchronizer`, which is not part of this model. The base runner's loop, threads, `Interlocked` atomicity and `Task.Delay(50)` are also left out. The loop's acknowledgement is the environment step `AcknowledgeStop`, and the number of polls before it is a parameter.
- Synchronizer.RequestInterval: network equality is modelled as equality of chain names.
- Reactive plumbing is not modelled: `WhenAnyValue`, `Throttle`, `ObserveOn`, `Merge`, `ToProperty`, `RaiseAndSetIfChanged` and `Observable.Interval`. Each subscription is a method called with the new value. A subscription behind `ObserveOn` runs later on the main thread, but the model runs it at once. The `SelectionChanged` subscription is `SetFees` called with the new selection. `HasRegistrationResponse` takes the disjunction of the two merged streams. `ToProperty` holds whichever value `Merge` emitted last, and both streams fire on each coin change in subscription order, so at rest the property most likely holds the registered-stream value; the disjunction is this model's reading of the intent, and the arrival order is not modelled.
- The .NET `\d` class matches every Unicode decimal digit, but `KeepAmountChars` keeps only ASCII `0`-`9`. Likewise `ushort.Parse` is modelled on ASCII digits without signs or white space.
- The following NBitcoin and Wasabi calls are fields of `Services` and `FeeEstimate`:
  - `Money` parsing and formatting;
  - `CalculateVsizeAssumeSegwit`;
  - `FeeRate.GetTotalFee`;
  - `AllFeeEstimate.GetFeeRate`.
- SendAmount.SendAmountViewModel.SetFees requires a non-empty estimate. Wasabi's `AllFeeEstimate` always has keys, which `Keys.First()` relies on.
- `SevenDaysConfirmationTarget` (1008) and the `SmartCoinStatus` and `RoundPhase` enumerations are Wasabi's. They are not part of this model; their values are restated.
- CoinJoin.CoinJoinViewModel.UpdateStates: `UpdateRequiredBtcLabel` is reduced to taking the registrable round's required amount. `CalculateRequiredAmount` and the coin queries it is given are Wasabi calls.
- Enqueueing and dequeueing (`DoEnqueueAsync`, `DoDequeueAsync`) only wrap Wasabi calls with busy flags and are not modelled. The same holds for notification removal on dequeue, percentages and other decimal formatting, and `BackgroundTimeRemaining`.
- Times are whole seconds: `TimeSpan.TotalSeconds` is a double in the source. The notification's message text, which formats a local time, is not modelled.
- `PasswordHelper.Guard` and `KeyManager.GetMasterExtKey` are predicates on the password. `SensitiveStorage`, which is not part of this model, is a map from password to words. A null password (`password ?? ""`) is not modelled.
- `SetIsBackedUp`, `UiConfig.ToFile` and `NewPasswordViewModel.SetPassword` (beyond its storage key) are not modelled. The same holds for platform start-up, push registration, views, dependency-injection wiring and Tor process management.
