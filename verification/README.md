# Verified model of ln-node's payment and peer store

ln-node keeps its payments and peers as files behind `NodeStore` and drives their lifecycle from API
calls and from LDK's event handler. This Dafny project models that core and proves what a maintainer
relies on: nothing stored is ever misread, listings are right while other threads write, replayed
events are harmless, and exactly when a payment's record settles.

Run `dafny verify dfyconfig.toml` in this directory.

## How it is laid out

| file | what it models |
|---|---|
| `Bytes`, `BigSize`, `Tlv` | bytes, hex names, BigSize and TLV framing of BOLT #1 ("Fundamental Types", "Type-Length-Value Format") |
| `Records`, `FieldCodec`, `PaymentCodec`, `PeerCodec` | the two records and their stored form; addresses as in BOLT #7 ("The node_announcement Message") |
| `Streams` | the mutable writer and cursor, and the reading and writing procedures over them |
| `KeyedFiles`, `NodeFiles`, `NodeStores` | the directory of files, the two maps it stands for, and the class `NodeStore` |
| `Listing`, `NodeListing`, `StatusLists` | listings that interleave with any other store operation; lists by status |
| `PaymentEvents`, `Lifecycle`, `Settlement`, `DurableLifecycle` | the event log, the interleaved system of API calls and event handler, settlement, and the same on disk beside listings |
| `NodeApi` | `pay_bolt11_invoice`, `create_bolt11_invoice`, `get_payment` and `handle_event` over the store |
| `PeerRestart`, `FeeCache`, `Balances`, `ChainListeners` | peers across a restart, fee cache, balance, block notifications |

## Assumptions

- **File store.** Writes are atomic, a read returns the last write or `NotFound`, a listing gives each
  present name once in any order, removal is idempotent. A failing disk is the parameter `diskOk`
  (`storeOk` for the event handler): the call returns an error and nothing changes.
- **LDK's serialization.** Its macro bodies are not part of the repository. Ids, hashes and preimages
  are 32 raw bytes, `u64` is big-endian, an option is 0 or a BigSize header followed by the payload,
  the payload reader being limited to header - 1 bytes; an enum is its variant byte followed by an
  empty length-prefixed stream, read with the same tolerance of unknown odd records. Hostnames hold
  at most 255 ASCII letters, digits, `.`, `-` and `_`.
- **Decode errors** are one value. `src/storage.rs` replaces every `DecodeError` by `InvalidData`.
- **The channel manager, wallet, network and bitcoind** are inputs: `accepted`, `created`, `reachable`,
  the fee answers, the event sequence. A panic (an `unwrap` of `None`) stops the event handler.
- **Info messages.** `log::info!` evaluates its arguments only while the maximum log level admits them.
  The daemon takes the level from its environment (`src/bin/lnnode.rs:10`, by default "debug"); a user
  of the library may install no logger. The level is `verbose`: either value, fixed from one start of
  the process to the next. Of the unwraps at `src/event_handler.rs:179-276` only that of the payment id
  runs at every level.
- **Lock holds are steps.** In the interleaved models each lock hold of the store is one atomic step.

## Where the code does less than expected

- `list_peers` fails as a whole when a listed peer is removed before it is read, where `list_payments`
  skips it: `NodeListing.ListPeersInterleaved` gives the exact condition, `NodeListing.ListPeersCanFail`
  a run. Nothing in the repository calls `remove_peer` yet, and without it the call succeeds beside
  anything else: `NodeListing.ListPeersUndisturbed`.
- A payment whose outcome event is handled before its pending record is written stays pending:
  `Settlement.SettledIffWrittenFirst` is the exact condition, `Settlement.OutcomeCanBeMissed` a run for
  any outcome.
- An outcome event does not always leave amount and direction alone. A record written between the
  event handler's read and its write is overwritten by the older copy: `Settlement.StoreKeepsTermsExactly`
  is the exact condition, `Settlement.RetryCanBeLost` a run. That run passes an amount for an invoice
  without one, which the library API allows; the socket never passes an amount (`src/server.rs:93`).
  Handled atomically, a log never changes them (`PaymentEvents.LogClosedForm`).
- The comment at `src/event_handler.rs:184` says that the amount is always present when sending. It
  is, on outbound records. `Lifecycle.StopsExactly` says what else can be read there, and when each of
  the handler's unwraps stops it. While outcomes follow their pay records and invoice hashes are fresh
  the comment holds (`Lifecycle.OutcomesFindTheirRecord`), and only a missing field stops the handler
  (`Lifecycle.ProperRunStopsExactly`). `Settlement.OwnInvoiceCanStopHandler` is a run in which the
  comment fails. That run supposes info messages, an invoice created without an amount and paid with
  one through the library API (the socket always creates invoices with an amount, `src/server.rs:106`),
  and a channel manager that accepts a payment to its own node, which the repository does not show.
- A succeeded payment can lack its fee: all have theirs throughout a run if and only if no
  `PaymentSent` without one is handled for a stored payment while info messages are off
  (`Lifecycle.RunKeepsFees`); `Settlement.FeeCanBeMissing` is a run.
- An event handler that has stopped costs more than its events. `src/node.rs:815-817` joins the
  background process before the save loop, and joining one that has panicked panics in turn, so no
  peer of that run is saved: `PeerRestart.StoppedHandlerForgetsPeers`.

## Model

| member | source | states |
|---|---|---|
| Bytes.HexRoundTrip | src/storage.rs:174 | hex decoding undoes the encoding of a file name |
| Bytes.HexAt | src/storage.rs:174 | two digits a byte out of "0123456789abcdef", high half first |
| Bytes.HexInjective | src/storage.rs:190 | different ids have different file names |
| Bytes.HexDecodeSound | src/server.rs:110-111 | any id text that decodes is the encoding of the decoded id up to letter case |
| BigSize.RoundTrip | src/storage.rs:71-79 | a BigSize of any width is read back and the following bytes are left unread |
| BigSize.Canonical | src/storage.rs:86-94 | only minimal forms are accepted: re-encoding restores the bytes consumed |
| BigSize.TestVectors | src/storage.rs:71-79 | boundary values of the one, three, five and nine byte widths have the bytes BOLT #1 lists |
| Tlv.StreamAccepts | src/storage.rs:86-94 | the decoder loop accepts an encoded record list iff types strictly increase and unknown types are odd, and then yields the known values |
| Tlv.StreamCanonical | src/storage.rs:86-94 | every accepted stream is the encoding of its records, byte for byte |
| Tlv.ReadFieldsExact | src/storage.rs:86-104 | the length-prefixed reader in full, both directions: which inputs give which fields and leave which bytes |
| Tlv.BadStreamRejected | src/storage.rs:86-104 | out-of-order, repeated, unknown even or missing required types reject |
| FieldCodec.OptionExact | src/storage.rs:89-92 | exactly which bytes stand for which optional value |
| FieldCodec.AmountExact | src/storage.rs:91-92 | the same for optional u64 amounts, big-endian |
| FieldCodec.TagExact | src/storage.rs:36-52 | exactly which bytes stand for an enum variant |
| FieldCodec.AddressLayout | src/storage.rs:141 | the bytes of every address form written out |
| FieldCodec.AddressRoundTrip | src/storage.rs:141 | every address form is read back, following bytes unread |
| FieldCodec.AddressExact | src/storage.rs:151 | an address field is accepted iff it is the one encoding of that address |
| PaymentCodec.PaymentRoundTrip | src/storage.rs:69-106 | for every payment and suffix, reading the encoding yields the payment and leaves the suffix |
| PaymentCodec.EncodingPrefixFree | src/storage.rs:69-82 | the encoding is injective and no payment's bytes are a prefix of another's |
| PaymentCodec.WireLayout | src/storage.rs:71-79 | the stored bytes written out field by field |
| PaymentCodec.ReadPaymentExact | src/storage.rs:84-106 | the payment reader in full, both directions |
| PaymentCodec.UnknownOddSkipped | src/storage.rs:62-64 | unknown odd records anywhere in increasing order do not change the payment read |
| PaymentCodec.WrongLengthRejected | src/storage.rs:86-94 | a field value of a length its type cannot have rejects the record, too short or too long, in steps as fine as the BigSize widths |
| PaymentCodec.FittingLengthsOccur | src/storage.rs:86-94 | the converse: every other length is that of a field in some input that is read, if the frame fits at all, so the rejected lengths are all there are |
| PaymentCodec.BadTypesRejected | src/storage.rs:86-104 | out-of-order, repeated, unknown even or missing types reject the payment |
| PeerCodec.PeerRoundTrip | src/storage.rs:137-159 | for every peer, every address form and suffix, reading the encoding yields the peer and leaves the suffix |
| PeerCodec.EncodingPrefixFree | src/storage.rs:137-145 | the encoding of peers is injective and prefix-free |
| PeerCodec.WireLayout | src/storage.rs:139-142 | the stored bytes of a peer written out: key under type 0, address under type 2, length prefix |
| PeerCodec.ReadPeerExact | src/storage.rs:147-159 | the peer reader in full, both directions |
| PeerCodec.LongHostnames | src/storage.rs:139-142 | exactly which hostnames need the three-byte length form for the field and for the frame |
| Streams.ReadBigSize | src/storage.rs:86-94 | the cursor procedure reads what `BigSize.Read` says and stops where it says |
| Streams.DecodeStream | src/storage.rs:86-94 | the decoder loop over a cursor computes `Tlv.ReadStream` |
| Streams.ReadPayment | src/storage.rs:84-106 | reading from a cursor returns and consumes what `PaymentCodec.ReadPayment` says |
| Streams.ReadPeer | src/storage.rs:147-159 | the same for peers |
| Streams.WritePayment | src/storage.rs:69-82 | writing appends exactly the encoding |
| Streams.WritePeer | src/storage.rs:137-145 | the same for peers |
| NodeFiles.ApplyRefines | src/storage.rs:173-183 | each file operation is the map operation it stands for and keeps every record under its own id |
| NodeFiles.RunRefines | src/storage.rs:173-306 | any sequence of operations leaves exactly the files of the two maps |
| NodeFiles.LookupRefines | src/storage.rs:189-206 | reading the files is looking up the map; decoding never fails |
| NodeFiles.LookupExact | src/storage.rs:189-206 | reading any directory, damaged or not: `NotFound` iff there is no file, `InvalidData` iff its bytes begin with no stored payment, else the one they begin with |
| NodeFiles.DecodePeerExact | src/storage.rs:293-298 | which bytes a peer is decoded from, whatever follows them |
| NodeFiles.PaymentFileSource | src/storage.rs:174-182 | every file of the payments space is the encoding of the payment whose id its name spells |
| NodeFiles.PeerFileSource | src/storage.rs:258-266 | the same for peers |
| NodeFiles.NamespacesIndependent | src/storage.rs:24-28 | in any directory the payment files after a run are what its payment operations alone make of the payment files before, whatever the peer files; and the same for peers |
| NodeFiles.IdTextFindsRecord | src/server.rs:95-113 | the id text handed out for a payment finds its record again, after any operations on other payments and on peers |
| NodeStores.NodeStore.AddPayment | src/storage.rs:173-183 | put on the payment map and on the one file `payments//hex(id)`, or an error and no change |
| NodeStores.NodeStore.UpdatePayment | src/storage.rs:185-187 | the same |
| NodeStores.NodeStore.GetPayment | src/storage.rs:189-206 | the stored payment or `NotFound`; on a damaged directory what `NodeFiles.LookupPayment` says |
| NodeStores.NodeStore.ListPayments | src/storage.rs:209-235 | succeeds with every stored payment once, when nothing runs beside it; on a damaged directory what `Listing.Collect` says |
| NodeStores.NodeStore.ReadPaymentsNamed | src/storage.rs:217-234 | the loop makes of its reads what `Listing.Collect` says: a missing file is skipped |
| NodeStores.NodeStore.RemovePayment | src/storage.rs:237-245 | delete on the payment map |
| NodeStores.NodeStore.ListPaymentsByStatus | src/storage.rs:247-255 | each stored payment with the status once and no other, in the order of one listing; an error of the listing is passed on |
| NodeStores.NodeStore.AddPeer | src/storage.rs:257-267 | put on the peer map and on the one file `peers//hex(key)`, or an error and no change |
| NodeStores.NodeStore.RemovePeer | src/storage.rs:269-277 | delete on the peer map |
| NodeStores.NodeStore.ListPeers | src/storage.rs:279-305 | succeeds with every stored peer once, when nothing runs beside it; on a damaged directory what `Listing.Collect` says |
| NodeStores.NodeStore.ReadPeersNamed | src/storage.rs:287-304 | the loop makes of its reads what `Listing.Collect` says: a missing file ends it with an error |
| NodeStores.QuietListing | src/storage.rs:209-235 | a listing over a fixed directory returns each entry once and nothing else |
| StatusLists.OfStatusKeepsOrder | src/storage.rs:252-254 | the filtered list is the listing at ascending positions, exactly those with the status |
| StatusLists.OfStatusLists | src/storage.rs:247-255 | filtering any listing of a store gives each stored payment with the status once |
| StatusLists.StatusListsPartition | src/storage.rs:247-255 | three calls, each with a listing and an order of its own, return together what one listing of the store returns, each payment in one of them |
| Listing.CallReads | src/storage.rs:210-222 | in every interleaving the names read are those taken at the start and each read is genuine |
| Listing.CollectExact | src/storage.rs:217-234 | the loops on any reads, of damaged files too: they fail iff some read is damaged, with the error of the first, and else return just what the reads decode to |
| Listing.CollectStrict | src/storage.rs:287-301 | the peer loop fails iff some read found no file, and otherwise agrees with the payment loop |
| Listing.ListingUnderInterference | src/storage.rs:209-235 | the listing theorem for any kind of record |
| Listing.StrictUnderInterference | src/storage.rs:279-305 | the same for a listing that fails on a missing file: it succeeds iff each file read is there when it is read |
| NodeListing.ListPaymentsInterleaved | src/storage.rs:209-235 | under any interleaved operations: no error, no id twice, only payments that `get_payment` would have returned during the call, every id present throughout |
| NodeListing.ListPeersInterleaved | src/storage.rs:279-305 | beside any operations it succeeds iff each file it reads is there in the state in which it is read; then one record a listed name, each stored during the call |
| NodeListing.ListPeersUndisturbed | src/storage.rs:279-305 | while no step removes a peer stored at the start, it succeeds and returns every one of them |
| NodeListing.ListPeersCanFail | src/storage.rs:300 | for any peer, a run in which its removal fails the listing |
| PaymentEvents.LogClosedForm | src/event_handler.rs:173-265 | any log at either level: stops iff some event unwraps a missing field; else no record appears or vanishes, the last outcome fixes the status, the last `PaymentSent` fixes preimage and fee, the rest is kept |
| PaymentEvents.ReplayIdempotent | src/event_handler.rs:173-265 | handling any tail of a log again changes nothing, at the same level or another that stops on none of its events |
| PaymentEvents.Projection | src/event_handler.rs:179-200 | the record of an id is the fold of that id's events alone |
| PaymentEvents.InterleavingIrrelevant | src/event_handler.rs:244-263 | logs that agree on each id's own events leave the same store |
| PaymentEvents.EventEffects | src/event_handler.rs:173-276 | the effect of every payment event on every store written out: each failure with a hash and each `PaymentSent` with an id settles its payment, whatever reason and fee |
| Lifecycle.RunKeepsInv | src/node.rs:949-997 | every reachable state, with failures and restarts: hash is id, succeeded has its preimage, outbound has an amount, no record disappears |
| Lifecycle.WaitingExact | src/node.rs:937-958 | records still to be written are those asked for since the process started, less those written |
| Lifecycle.RecordsWereAskedFor | src/node.rs:932-958 | each record written comes from an earlier accepted payment with an amount, or an invoice, of the same process, with its id, amount and direction, once for each call |
| Lifecycle.RunKeepsFees | src/event_handler.rs:179-195 | throughout a run every succeeded payment has its fee iff no `PaymentSent` without one is handled for a stored payment while info messages are off |
| Lifecycle.ProperRunsSafe | src/node.rs:987-997 | with outcomes after pay records and fresh invoice hashes, whatever fields events lack: directions stay apart, inbound records stay pending without preimage or fee, every pay record written is stored |
| Lifecycle.InvoicesUntouched | src/node.rs:987-997 | in those runs an invoice's record is, field for field, what its API call last wrote |
| Lifecycle.OutcomesFindTheirRecord | src/event_handler.rs:179-192 | in those runs each outcome event finds an outbound record with an amount; the handler then holds its copy, or stops iff the event lacks its id or a logged field |
| Lifecycle.ProperRunStopsExactly | src/event_handler.rs:173-276 | in those runs the handler runs on throughout iff each event has its id and, with info messages on, its logged fields |
| Lifecycle.StopsExactly | src/event_handler.rs:173-276 | in every run, for every payment event: delivering it stops the handler iff the id is missing or, with info messages on, a logged field is missing or an own invoice without amount is read |
| Settlement.QuietStretch | src/event_handler.rs:179-195 | reading and writing back in separate steps, among any other steps, failures and restarts that do not lose the record itself, equals handling the id's events atomically |
| Settlement.SettlesByLaterEvents | src/node.rs:937-958 | a payment ends at the outcome of exactly the events delivered after its record was written |
| Settlement.SettledIffWrittenFirst | src/node.rs:937-958 | one pay call, one outcome: settled iff the pending write came before the handler's read |
| Settlement.OutcomeCanBeMissed | src/node.rs:937-958 | for any outcome, a run with one write, after the delivery, that leaves the payment pending |
| Settlement.ReplaySettles | src/event_handler.rs:173-265 | after any loss, replayed outcomes settle the record as the last of them says |
| Settlement.StoreKeepsTermsExactly | src/event_handler.rs:190-195 | the exact condition under which the handler's write keeps direction and amount |
| Settlement.RetryCanBeLost | src/event_handler.rs:245-255 | a run in which a retry's record is replaced by the older copy |
| Settlement.FeeCanBeMissing | src/event_handler.rs:190-192 | a run that leaves a succeeded payment without its fee |
| Settlement.OwnInvoiceCanStopHandler | src/event_handler.rs:184-185 | a run in which the unwrap of the amount stops the handler, if info messages are on and the channel manager accepts a self-payment |
| DurableLifecycle.RunOnDisk | src/event_handler.rs:195 | every lifecycle run is a sequence of payment file writes that leaves exactly the files of its records, peers untouched |
| DurableLifecycle.RestartFromDisk | src/storage.rs:189-206 | a restart after any run continues with just the payments the files hold, nothing waiting and an idle handler |
| DurableLifecycle.SettlementReadsBack | src/node.rs:1002-1004 | settlement as `get_payment` reads it from the files |
| DurableLifecycle.ListsEveryPayment | src/storage.rs:209-235 | `list_payments` beside any lifecycle run and changes of peers: no error, no id twice, only records stored during the call, every payment written before it |
| NodeApi.Node.PayBolt11Invoice | src/node.rs:927-961 | results and errors in order, an unspecified amount iff neither the invoice nor the caller gives one; the stored record field by field, the invoice's amount first; run alone it is the two steps of the interleaved system |
| NodeApi.Node.CreateBolt11Invoice | src/node.rs:963-1000 | results and errors in order, and the stored record field by field with the amount asked for; run alone it is two steps of the interleaved system |
| NodeApi.Node.GetPayment | src/node.rs:1002-1004 | the stored payment, if any |
| NodeApi.LdkEventHandler.OnPaymentSent | src/event_handler.rs:173-206 | the arm is `PaymentEvents.Handle` at the process's log level, or leaves the store alone when the write fails |
| NodeApi.LdkEventHandler.OnPaymentFailed | src/event_handler.rs:239-265 | the same for failures, ignored without a hash |
| NodeApi.LdkEventHandler.HandleEvent | src/event_handler.rs:24-25 | dispatch over the payment arms; `PaymentClaimed` and `PaymentPathSuccessful` store nothing |
| NodeApi.HandlingIsTwoSteps | src/event_handler.rs:173-265 | what handling leaves is the read and the write of the interleaved system, after which the handler is idle again even if the write failed |
| PeerRestart.SavePeers | src/node.rs:820-845 | the save loop puts every peer that has an address and whose write succeeds |
| PeerRestart.Shutdown | src/node.rs:813-848 | with a running event handler shutdown is the save loop; with a stopped one it panics and saves no peer |
| PeerRestart.Reconnect | src/node.rs:632-658 | every peer stored at an IPv4 or IPv6 address is tried exactly once at that address and port, no other is, whatever attempts return |
| PeerRestart.SaveThenRestart | src/node.rs:820-845 | shutdown and the next start over one directory |
| PeerRestart.SaveAllExact | src/node.rs:820-845 | after the save loop each key has its last saved address, or its old one |
| PeerRestart.RestartDialsLastSaved | src/node.rs:632-658 | which peer is dialed where after a restart, both directions |
| PeerRestart.ConnectedPeersAreDialed | src/node.rs:632-658 | every peer connected at shutdown and saved is dialed at that address |
| PeerRestart.StoppedHandlerForgetsPeers | src/node.rs:815-817 | if the handler stops anywhere in a run, the next start dials exactly the peers stored before it |
| PeerRestart.ProperRunSavesPeers | src/node.rs:815-845 | in a proper run whose events carry their fields the save loop is reached |
| FeeCache.CacheExact | src/bitcoind_client.rs:84-107 | after any fetches, failed or not, each target has its fallback or the rate of its last answer: a quarter rounded down, at least 253, 2500 more for the maximum estimate, at most 2^32 - 1 |
| FeeCache.CacheFloors | src/bitcoind_client.rs:42-52 | all targets present, every rate at least 253, the maximum estimate at least 2753 and never wrapped |
| FeeCache.BitcoindRpcClient.UpdateFeeEstimates | src/bitcoind_client.rs:90-107 | one round is the eight turns in order |
| FeeCache.BitcoindRpcClient.GetEstSatPer1000Weight | src/bitcoind_client.rs:148-170 | the lookup never misses and returns the last answer's rate, in numbers, or the fallback of the target |
| Balances.RoundingLoss | src/node.rs:1014-1017 | the reported sats are below the exact total by less than one sat a channel |
| Balances.SumExact | src/node.rs:1014-1017 | a thousand times the reported sats plus the remainders of the channels is the exact total, and there is a sum iff it fits a u64 |
| Balances.SumFitsIff | src/node.rs:1014-1017 | the u64 sum is safe for all capacities iff there are at most 1000 channels |
| ChainListeners.ChainListener.FilteredBlockConnected | src/bitcoind_client.rs:245-264 | both managers get the notice, the wallet the rebuilt block unless it refuses it |
| ChainListeners.ChainListener.BlocksDisconnected | src/bitcoind_client.rs:266-272 | both managers get the notice, the wallet nothing |
| ChainListeners.ChainListener.Follow | src/bitcoind_client.rs:244-273 | after any notices the managers agree and the wallet has the connected blocks; the listener stops at the first block the wallet refuses and only there |
| ChainListeners.BlocksInOrder | src/bitcoind_client.rs:252-255 | the wallet's blocks are exactly the connects, in order, same header, height and transactions |

## Left out

- Settlement.SettledIffWrittenFirst: assumes that the payment's own record is not lost: no failed write of it and no crash while the event handler holds it; other failures and crashes may happen, and Settlement.ReplaySettles covers what replay repairs.
- NodeStores.NodeStore.ListPayments: says what one call does with nothing beside it; NodeListing.ListPaymentsInterleaved covers the interleavings.
- NodeStores.NodeStore.ListPeers: the same; NodeListing.ListPeersInterleaved covers the interleavings.
- NodeStores.NodeStore.ListPaymentsByStatus: the same; it filters what `list_payments` returns.
- PeerRestart.Reconnect: takes a directory that stands for two maps; on a damaged one the listing fails before any attempt.
- PaymentCodec.ReadPaymentExact: does not say which decode error a rejected input gives, because the store discards it.
- Balances.RoundingLoss: covers the lightning sum only; the on-chain part is two additions of wallet figures.
- That a compressed public key lies on the curve: only its length and parity byte are checked.
- `confirmation_target_to_blocks`: a table that only chooses the argument of the RPC call.
- Floating point in the fee conversion: the rate is a whole number of sats per 1000 vbytes.
- Panics of the event handler's other arms, as on a wallet lock that a refused block has poisoned (`src/event_handler.rs:105`).
- LDK internals, routing, gossip, channel opening and closing events, `PaymentClaimable`: no effect on the store, or decided by code outside the repository.
- Node building and the wiring in `Node::start` other than the two peer loops.
- `src/onchain_wallet.rs`, RPC and socket I/O, the CLI, log messages other than the unwraps in them, and the JSON form of a payment.
- The wallet's view after a reorganisation, which the source leaves open.
