# Verified models of the gateway's crypto and modem software

This project models, in Dafny, the parts of the repository that hold real state or arithmetic, and
proves what they promise. Code that changes things step by step is modelled by classes, arrays and
loops, each proved against a pure specification; the promises over whole runs are proved about the
specification and carried back to the code by the methods' postconditions.

| files | what they model |
|---|---|
| `Words`, `Sm3Spec`, `Sm3`, `Sm3Example` | the SM3 streaming hash of `gm-test/gmalg_test/src/sm3.c`, refined to the hash of GM/T 0004-2012 |
| `Words`, `Sm4`, `Sm4Example` | the SM4 block cipher and key schedule of `gm-test/gmalg_test/src/sm4.c` |
| `QList`, `QmiProxy` | the QMI proxy on its intrusive circular lists (`quectel-qmi-proxy.c`) |
| `QmiProxySpec`, `QmiProxyRuns`, `QmiProxyTables` | the same proxy as a step system: the CTL FIFO, the client tables, routing |
| `QmiTlv`, `QmiBuilder` | the TLV walkers and the request builders of `QMIThread.c` |
| `QmiTransport` | the one-slot request/response rendezvous of `QMIThread.c` |
| `NetlinkAttr` | the attribute builder and iterators of `libmnl/attr.c` |
| `RedialSpec`, `RedialReactions`, `Redial` | the event loop of `qmi_main` in `main.c` |
| `MbimProxySpec`, `MbimProxy` | transaction-id multiplexing in `quectel-mbim-proxy.c` |
| `MbimConnect` | the connect request layout of `mbim-cm.c` |
| `Bytes`, `Seqs`, `Options` | little-endian fields, laws of sequences, optional values |

`dafny verify dfyconfig.toml` checks everything.

## How to read the models

- Input from outside (poll results, clocks, the modem's answers, return codes of system calls) arrives
  as arguments or events; writing to a descriptor appends to a log. A run is any sequence of events the
  environment conditions allow.
- Integer widths are explicit: the SM3 counter halves and words are 32 bits wide, TLV and attribute
  lengths are reduced mod 2^16, `ClientFd` mod 2^8, MBIM ids mod 2^32.
- Constants and tables are pinned by laws or figures that do not mention them: linear transforms by their
  laws, the SM4 table by its algebra, protocol numbers by examples that write them out.
- `ROTL(T[j], j)` in `sm3.c` shifts by up to 63, which C leaves undefined; the model rotates by the
  count mod 32, as the standard does.

## Where the code does not do what one would expect

Each of these is proved, with the exact condition under which the expectation holds.

- `sm3_finup` starts over, so it hashes its own data only and drops what was absorbed before. It continues
  the context exactly when nothing was absorbed (`Sm3.FinupContinues`; stated of the padded messages, since
  digests may collide).
- `cleanup_qmi_connection` drops one queued CTL request of the closing client, possibly the one in
  flight; the FIFO survives a close exactly when the client has none queued
  (`QmiProxyRuns.CloseKeepsFifo`, with the misdelivery in `ClosingEarlyMisdelivers`). What can go
  wrong otherwise is a response to the wrong client (`CloseMisdelivers`), a request dropped unsent
  (`DroppedUnsent`, with a run in `CloseLosesRequestRun`), or a queue that is stuck with nothing outstanding
  (`CloseStalls`, with a run in `CloseStallsRun`; `StuckForever` says what that means for the other
  clients). For the same reason requests can be left in the queue at exit (`ShutdownEmptiesQueue`, with a
  run in `ShutdownKeepsRequest`).
- A CTL message that is not a response makes the proxy send the queue head again
  (`QmiProxyRuns.IndicationKeepsFifo`, with a run in `IndicationResends`).
- A START handled while the packet service is detached is dropped, and the alarm was disarmed before; if
  nothing else is pending the redial waits for the next 15-second check or indication
  (`RedialSpec.StepLosesNothing`, with a run in `RedialLost`).
- A dial that fails while the family's status is neither disconnected nor connected, as after a failed
  query, gets no back-off and no alarm: the next START dials at once (`RedialSpec.UnknownStatusDialsAtOnce`;
  `BacksOffIffDue`, `DueBefore`, `NextDial` and `SpacedIffBacksOff` give the condition).
- A modem reset clears the link state without stopping DHCP, so the client can be started twice in a row or
  never be stopped (`RedialSpec.ResetLosesDhcp`; `LoggedStartsAndStops` and `LinkAfterCheck` give the
  condition).
- After an MBIM client hangs up, a late answer to it goes to whoever takes its slot next
  (`MbimProxySpec.LateAnswerMisdelivered`; `HoldsIffStays` gives the condition). When a client's
  connection ends with a read of nothing, `proxy_loop` returns and `main` clears the whole table; the
  model's `Restarted` event stands for that.
- A tree with a payload or a nest too long for `nla_len`, or with a type that uses the two flag bits, does
  not read back (`NetlinkAttr.ReadsBackIffFits`).
- `qmi_find_tlv` and the registration walk take bytes trailing the TLVs for one more TLV, which `GetTLV`
  does not (`QmiTlv.SameVisits`, with a message in `LookupsDisagree`).

## Conditions on the environment

- QMI proxy: the operating system hands out descriptors whose low byte is not in use, messages come from
  connections, a connection closes only with no CTL request queued, and the modem emits CTL messages
  only to answer an outstanding request (`QmiProxyRuns.Orderly`). One owner per client id also needs a
  modem that does not grant an id again while it is held (`QmiProxyTables.NoRegrant`).
- QMI transport: one thread sends at a time, a request is sent with the id it was composed with, and a
  reply carries the id of the request it replies to (`QmiTransport.Enabled`).
- MBIM proxy: `accept` returns no descriptor the table still holds (`MbimProxySpec.Orderly`).
- Redial: the clock does not move within the handling of one event.

## Model

| member | source | states |
|---|---|---|
| `Sm3.HashChunks` | gm-test/gmalg_test/src/sm3.c:231-333 | for every message and every way of cutting it into chunks, empty ones included, starting, updating with each chunk and finishing yields the standard digest of the concatenation |
| `Sm3.Context.Update` | gm-test/gmalg_test/src/sm3.c:231-275 | afterwards counter = byte count mod 2^64, state = fold of the compression function over the complete blocks, buffer prefix = leftover bytes, for the old bytes followed by the chunk; an empty chunk returns -1 and changes nothing |
| `Sm3.Context.FillBuffer` | gm-test/gmalg_test/src/sm3.c:252-260 | a chunk that completes the partial block is consumed up to the block boundary, otherwise nothing is; the state is the fold over what is consumed |
| `Sm3.Context.Blocks` | gm-test/gmalg_test/src/sm3.c:262-267 | consumes exactly the whole blocks of the input, leaving fewer than 64 bytes |
| `Sm3.Context.KeepTail` | gm-test/gmalg_test/src/sm3.c:269-273 | the tail joins the pending bytes in the buffer and does not touch the fold |
| `Sm3.Context.Process` | gm-test/gmalg_test/src/sm3.c:61-226 | the in-place shifting computes the compression function of section 5.3.3 of GM/T 0004-2012 on every state and block |
| `Sm3.Context.RunRounds` | gm-test/gmalg_test/src/sm3.c:162-212 | the two register-shifting loops are the 64 rounds over the expanded schedule |
| `Sm3.Context.FeedForward` | gm-test/gmalg_test/src/sm3.c:214-221 | the registers are xored into the chaining value word by word |
| `Sm3.Expand` | gm-test/gmalg_test/src/sm3.c:82-150 | the arrays filled through Temp1..Temp5 are the message expansion of section 5.3.2 of GM/T 0004-2012 |
| `Sm3.RoundConstants` | gm-test/gmalg_test/src/sm3.c:77-80 | the table of the 64 round constants |
| `Sm3.Context.Starts` | gm-test/gmalg_test/src/sm3.c:44-59 | the context represents the empty message |
| `Sm3.Context.Pad` | gm-test/gmalg_test/src/sm3.c:299-310 | the two re-entrant updates append exactly the padding of section 5.2 of GM/T 0004-2012, whatever was pending |
| `Sm3.Context.Finish` | gm-test/gmalg_test/src/sm3.c:288-321 | writes exactly the digest of the absorbed message, and nothing behind its 32 bytes |
| `Sm3.Context.MessageLength` | gm-test/gmalg_test/src/sm3.c:299-304 | the two words built from the counter halves are 8 times the byte count mod 2^64, big-endian |
| `Sm3.Context.StoreState` | gm-test/gmalg_test/src/sm3.c:312-319 | the eight words of the state, big-endian, and nothing behind them |
| `Sm3.Context.Finup` | gm-test/gmalg_test/src/sm3.c:323-333 | outputs the digest of its own data alone, whatever was absorbed before, and leaves a context that has absorbed exactly that data and its padding |
| `Sm3.FinupContinues` | gm-test/gmalg_test/src/sm3.c:323-333 | what finup leaves absorbed is what updating and finishing the old context would have left if and only if nothing was absorbed before |
| `Sm3.CounterCarry` | gm-test/gmalg_test/src/sm3.c:246-250 | the wrap test keeps total[1]:total[0] a true 64-bit counter |
| `Sm3.CounterPending` | gm-test/gmalg_test/src/sm3.c:243 | the low six bits of total[0] are the number of pending bytes |
| `Sm3.LengthWords` | gm-test/gmalg_test/src/sm3.c:299-301 | the shifted counter halves are the two halves of 8 times the counter mod 2^64 |
| `Sm3.HighWordOr` | gm-test/gmalg_test/src/sm3.c:299-300 | the operands of the or that forms the high length word share no bit, so the or is their sum |
| `Sm3Spec.ZeroCountMinimal` | gm-test/gmalg_test/src/sm3.c:306-307 | the pad is the least that completes the last block |
| `Sm3Spec.PaddedWhole` | gm-test/gmalg_test/src/sm3.c:306-310 | a padded message is a whole number of blocks, with 1..64 pad bytes and 8 length bytes |
| `Sm3Spec.LengthFieldNumber` | gm-test/gmalg_test/src/sm3.c:299-304 | the eight bytes of the length field, most significant first, are 8 times the byte count mod 2^64 |
| `Sm3Spec.LengthFieldExact` | gm-test/gmalg_test/src/sm3.c:299-304 | those bytes are the true bit length if and only if the message is under 2^61 bytes |
| `Sm3Spec.PaddingShape` | gm-test/gmalg_test/src/sm3.c:277-310 | the padding is a byte 0x80, zeros, and eight bytes that are the bit length |
| `Sm3Spec.P0IsLinear` | gm-test/gmalg_test/src/sm3.c:120 | P0 by the laws that determine it: linear over xor, commuting with rotation, 1 to 0x00020201 |
| `Sm3Spec.P1IsLinear` | gm-test/gmalg_test/src/sm3.c:121 | P1 by the laws that determine it: linear over xor, commuting with rotation, 1 to 0x00808001 |
| `Sm3Spec.BooleanFunctions` | gm-test/gmalg_test/src/sm3.c:109-113 | parities in the first 16 rounds; afterwards FF is a majority and GG a choice by its first operand |
| `Sm3Spec.ScheduleByNumber` | gm-test/gmalg_test/src/sm3.c:123-150 | which bytes of the block and which earlier words an expanded word is made of, by number |
| `Sm3Example.Round0` | gm-test/gmalg_test/src/sm3.c:175-192 | the first round for "abc" as GM/T 0004-2012 lists it in appendix A |
| `Sm3Example.Round16` | gm-test/gmalg_test/src/sm3.c:194-212 | the first round with the second constant and functions, in figures |
| `Sm3Example.LaterWord` | gm-test/gmalg_test/src/sm3.c:123-135 | an expanded word of "abc", in figures |
| `Sm3Example.FeedForward` | gm-test/gmalg_test/src/sm3.c:214-221 | the registers after 64 rounds xored into the initial value are the hash of "abc" |
| `Sm3Spec.AbsorbSplit` | gm-test/gmalg_test/src/sm3.c:262-267 | absorbing whole blocks first and then the rest equals absorbing everything |
| `Sm3Spec.BlockFilled` | gm-test/gmalg_test/src/sm3.c:252-260 | completing the pending bytes to a block extends the fold by exactly that block |
| `Sm3Spec.TailKept` | gm-test/gmalg_test/src/sm3.c:269-273 | bytes that complete no block only lengthen the pending bytes |
| `Words.GetPut` | gm-test/gmalg_test/src/sm3.c:21-39 | loading a stored word gives it back |
| `Words.PutGet` | gm-test/gmalg_test/src/sm3.c:21-39 | storing a loaded word gives the bytes back |
| `Words.WordNumber` | gm-test/gmalg_test/src/sm3.c:31-38 | the bytes stored for a 32-bit number make up that number |
| `Words.TurnDoubles` | gm-test/gmalg_test/src/sm4.c:43-44 | rotation by 1 doubles a number below 2^31 and brings the top bit back at the bottom |
| `Sm4.SboxInverts` | gm-test/gmalg_test/src/sm4.c:52-98 | the whole substitution table by a law that does not mention it: between two copies of one affine map it takes inverses in the field of 256 elements |
| `Sm4.LIsLinear` | gm-test/gmalg_test/src/sm4.c:106-121 | the linear part of sm4Lt by the laws that determine it: linear over xor, commuting with rotation, 1 to 0x01040405 |
| `Sm4.LKeyIsLinear` | gm-test/gmalg_test/src/sm4.c:144-158 | the linear part of sm4CalciRK by the same laws, with 0x00802001 |
| `Sm4.CkFollows` | gm-test/gmalg_test/src/sm4.c:76-84 | byte j of CK[i] is 7 times 4 * i + j, mod 256 |
| `Sm4Example.FirstRoundKeys` | gm-test/gmalg_test/src/sm4.c:160-179 | the first four round keys of the key of sm4_test.c, in figures |
| `Sm4Example.FirstCipherWords` | gm-test/gmalg_test/src/sm4.c:185-204 | the first four cipher words of its block, in figures |
| `Sm4.RoundsInverted` | gm-test/gmalg_test/src/sm4.c:185-209 | for any function in place of sm4Lt, any number of rounds, any keys and block: the reversed keys on the word-reversed output give back the block |
| `Sm4.CipherInverted` | gm-test/gmalg_test/src/sm4.c:240-258 | bytes in, bytes out: the cipher under the reversed keys undoes the cipher, in both orders |
| `Sm4.InPlaceRoundTrip` | gm-test/gmalg_test/src/sm4.c:211-258 | after set_key with any key, encrypt then decrypt, or decrypt then encrypt, with input and output the same array, restores every block |
| `Sm4.OneRound` | gm-test/gmalg_test/src/sm4.c:185-209 | the loop over the 36-word buffer is the cipher on the first 16 bytes, also when input and output are the same array, and changes no other byte |
| `Sm4.StepUndone` | gm-test/gmalg_test/src/sm4.c:197-204 | a round on the swapped result of a round with the same key undoes it |
| `Sm4.SetKeyEnc` | gm-test/gmalg_test/src/sm4.c:160-179 | the loop over k and SK computes the key schedule of section 7.3 of GB/T 32907-2016 |
| `Sm4.ReverseInPlace` | gm-test/gmalg_test/src/sm4.c:217-220 | swapping the ends inwards reverses the array |
| `Sm4.Context.SetKey` | gm-test/gmalg_test/src/sm4.c:211-238 | sk_enc is the schedule and sk_dec its exact reverse; a key of any other length returns -1 and changes nothing |
| `Sm4.Context.Encrypt` | gm-test/gmalg_test/src/sm4.c:240-248 | the cipher under sk_enc, in place or not |
| `Sm4.Context.Decrypt` | gm-test/gmalg_test/src/sm4.c:250-258 | the cipher under sk_dec, in place or not |
| `Sm4.LastFourGiveKey` | gm-test/gmalg_test/src/sm4.c:160-179 | the last four round keys determine the 16-byte key: running the schedule backwards recovers it |
| `Sm4.ScheduleInjective` | gm-test/gmalg_test/src/sm4.c:160-179 | two keys with the same last four round keys are equal |
| `Sm4.RegisterIsLastFour` | gm-test/gmalg_test/src/sm4.c:174-178 | the schedule register holds the last four round keys |
| `QList.Init` | mobile/quectel-CM/src/quectel-qmi-proxy.c:484-488 | an initialised node is the head of the empty list |
| `QList.AddTail` | mobile/quectel-CM/src/quectel-qmi-proxy.c:490-496 | appends exactly the item to the list |
| `QList.Remove` | mobile/quectel-CM/src/quectel-qmi-proxy.c:498-502 | removes exactly that node; only the two neighbours' links change, so every other list is untouched |
| `QList.Front` | mobile/quectel-CM/src/quectel-qmi-proxy.c:460-462 | the emptiness test, head and tail macros agree with the represented sequence |
| `QList.Following` | mobile/quectel-CM/src/quectel-qmi-proxy.c:457-458 | next and prev walk the represented sequence and return to the head |
| `QList.Mutual` | mobile/quectel-CM/src/quectel-qmi-proxy.c:490-502 | next and prev are inverse on every node of a list |
| `QList.OneList` | mobile/quectel-CM/src/quectel-qmi-proxy.c:448-462 | the links determine the sequence: a head is the head of one list only |
| `QmiProxy.Proxy.Serve` | mobile/quectel-CM/src/quectel-qmi-proxy.c:1176-1318 | end to end, on the linked lists: over every run from a new proxy the state and all CTL traffic are those of the pure run, over every orderly run the CTL requests form the FIFO of FifoFromStart, the service messages written to the modem are those the clients sent, in order, and the service messages delivered are those the modem sent, routed |
| `QmiProxy.Proxy.Handle` | mobile/quectel-CM/src/quectel-qmi-proxy.c:1255-1302 | one turn of the loop takes the step of the pure system and writes exactly its output |
| `QmiProxy.Proxy.Accept` | mobile/quectel-CM/src/quectel-qmi-proxy.c:642-661 | adds one connection with an empty table at the tail; ClientFd keeps the low byte |
| `QmiProxy.Proxy.Close` | mobile/quectel-CM/src/quectel-qmi-proxy.c:663-696 | removes the first connection on the descriptor with its whole table, and the first queued request from it, and nothing else; every record stays on at most one list |
| `QmiProxy.Proxy.Find` | mobile/quectel-CM/src/quectel-qmi-proxy.c:666-669 | the first connection on the descriptor, or none |
| `QmiProxy.DropQueued` | mobile/quectel-CM/src/quectel-qmi-proxy.c:679-687 | drops the first queued message of the descriptor and no other |
| `QmiProxy.DrainClients` | mobile/quectel-CM/src/quectel-qmi-proxy.c:670-677 | the drain loop ends with the empty table |
| `QmiProxy.Proxy.DrainTable` | mobile/quectel-CM/src/quectel-qmi-proxy.c:670-677 | emptying one table leaves all others as they were |
| `QmiProxy.LearnClient` | mobile/quectel-CM/src/quectel-qmi-proxy.c:698-727 | get_client_id appends a granted id, release_client_id removes its first record, an unsuccessful response changes nothing |
| `QmiProxy.RemoveClient` | mobile/quectel-CM/src/quectel-qmi-proxy.c:716-725 | the remove-then-break loop removes the first equal record only |
| `QmiProxy.Proxy.Send` | mobile/quectel-CM/src/quectel-qmi-proxy.c:859-880 | a CTL request is queued, and written at once only when the queue was empty; a service message is written |
| `QmiProxy.Proxy.Recv` | mobile/quectel-CM/src/quectel-qmi-proxy.c:802-857 | a response goes to the head's connection and its table learns from it, the head leaves the queue and the next one is written; a service message goes to every client it addresses |
| `QmiProxy.Proxy.Respond` | mobile/quectel-CM/src/quectel-qmi-proxy.c:803-829 | the response branch of recv_qmi |
| `QmiProxy.Proxy.Deliver` | mobile/quectel-CM/src/quectel-qmi-proxy.c:807-824 | every connection on the head's descriptor gets the response and learns from it, the others do not |
| `QmiProxy.Proxy.KickHead` | mobile/quectel-CM/src/quectel-qmi-proxy.c:831-841 | the queue head is written once for every connection on its descriptor |
| `QmiProxy.Proxy.RouteMessage` | mobile/quectel-CM/src/quectel-qmi-proxy.c:843-856 | one copy for every registered client the message addresses, in list order |
| `QmiProxy.Proxy.Exit` | mobile/quectel-CM/src/quectel-qmi-proxy.c:1309-1313 | the drain loop terminates with no connection left |
| `QmiProxyRuns.FifoFromStart` | mobile/quectel-CM/src/quectel-qmi-proxy.c:802-880 | over every orderly run: at most one CTL request at the modem, and it is the queue head exactly when the queue is non-empty; requests reach the modem in arrival order; accepted = answered + queued; the k-th response goes to the k-th requester alone |
| `QmiProxyRuns.FifoOverRuns` | mobile/quectel-CM/src/quectel-qmi-proxy.c:802-880 | the FIFO property is kept by every orderly run from any state that has it |
| `QmiProxyRuns.OneOutstanding` | mobile/quectel-CM/src/quectel-qmi-proxy.c:831-841 | what the modem has not answered is the queue head, or nothing |
| `QmiProxyRuns.CloseKeepsFifo` | mobile/quectel-CM/src/quectel-qmi-proxy.c:663-696 | closing a connection keeps the FIFO if and only if that connection has no request queued |
| `QmiProxyRuns.IndicationKeepsFifo` | mobile/quectel-CM/src/quectel-qmi-proxy.c:802-841 | a CTL message that is not a response re-sends the head, so it keeps the FIFO if and only if the queue is empty |
| `QmiProxyRuns.ClosingEarlyMisdelivers` | mobile/quectel-CM/src/quectel-qmi-proxy.c:679-687 | a concrete run in which a client closes with its request in flight and another client gets the answer |
| `QmiProxyRuns.CloseMisdelivers` | mobile/quectel-CM/src/quectel-qmi-proxy.c:679-687 | after a close the next response reaches the client that asked if and only if that is not the one that closed; otherwise the next one in the queue that is still there gets it |
| `QmiProxyRuns.CloseLeavesOrphan` | mobile/quectel-CM/src/quectel-qmi-proxy.c:679-687 | a close leaves requests without a connection if and only if the client had two or more queued |
| `QmiProxyRuns.CloseStalls` | mobile/quectel-CM/src/quectel-qmi-proxy.c:663-696 | once the modem has answered, after a close, all the requests it has, nothing is outstanding and the queue is stuck if and only if a request of the closed connection was left behind the queue head |
| `QmiProxyRuns.DrainExists` | mobile/quectel-CM/src/quectel-qmi-proxy.c:803-841 | with one request at the modem, as after a close, there is a run in which the modem answers all it has |
| `QmiProxyRuns.DroppedUnsent` | mobile/quectel-CM/src/quectel-qmi-proxy.c:803-841 | when the connection that closed was the asker, the answer to its request removes the new queue head, which was never sent, and reaches nobody if that is its own |
| `QmiProxyRuns.CloseStallsRun` | mobile/quectel-CM/src/quectel-qmi-proxy.c:663-696 | a concrete run after which nothing is outstanding and the queue is stuck |
| `QmiProxyRuns.CloseLosesRequestRun` | mobile/quectel-CM/src/quectel-qmi-proxy.c:663-696 | a concrete run in which a request of a closed client is dropped unsent and the next client is served |
| `QmiProxyRuns.StuckForever` | mobile/quectel-CM/src/quectel-qmi-proxy.c:831-841 | a request without a connection at the head of the queue blocks the CTL requests of every client, over every run in which no response comes and nobody takes over its descriptor |
| `QmiProxyRuns.IndicationResends` | mobile/quectel-CM/src/quectel-qmi-proxy.c:831-841 | a concrete run in which an indication makes the proxy send a request twice |
| `QmiProxyRuns.ShutdownKeepsRequest` | mobile/quectel-CM/src/quectel-qmi-proxy.c:1309-1313 | a concrete run after which shutting down leaves a request queued |
| `QmiProxyRuns.RespondKeepsFifo` | mobile/quectel-CM/src/quectel-qmi-proxy.c:803-841 | a response keeps the FIFO |
| `QmiProxyRuns.SendKeepsFifo` | mobile/quectel-CM/src/quectel-qmi-proxy.c:859-880 | a request keeps the FIFO |
| `QmiProxyRuns.ServiceOverRuns` | mobile/quectel-CM/src/quectel-qmi-proxy.c:843-878 | over every run the service messages written to the modem are exactly those the clients sent, in order, and the service deliveries exactly those the modem sent, routed by the tables of the time |
| `QmiProxyRuns.ShutdownLeaves` | mobile/quectel-CM/src/quectel-qmi-proxy.c:1309-1313 | shutting down frees exactly one queued request for each connection that has any |
| `QmiProxyRuns.ShutdownEmptiesQueue` | mobile/quectel-CM/src/quectel-qmi-proxy.c:1309-1313 | the queue is empty after shutdown if and only if no connection had two requests queued and every request's connection was still there |
| `QmiProxyTables.TablesMatchLog` | mobile/quectel-CM/src/quectel-qmi-proxy.c:698-727 | over every run each table holds exactly what was credited to it less what was released or dropped with the connection |
| `QmiProxyTables.LogIsAskedLog` | mobile/quectel-CM/src/quectel-qmi-proxy.c:803-827 | over every orderly run an id is credited to the connection whose request the response answers |
| `QmiProxyTables.UnicastReachesAsker` | mobile/quectel-CM/src/quectel-qmi-proxy.c:698-856 | over every orderly run in which the modem grants no held id again, a service message for an id reaches exactly the connection that asked for the id and neither released it nor closed since, or nobody |
| `QmiProxyTables.UnicastFollowsLog` | mobile/quectel-CM/src/quectel-qmi-proxy.c:698-856 | over every run in which the modem grants no held id again, a service message for an id reaches exactly the descriptor the log says holds the id, or nobody when none does |
| `QmiProxyTables.AfterIsRun` | mobile/quectel-CM/src/quectel-qmi-proxy.c:1255-1302 | the runs of the table results are the runs of the FIFO results, hence those of the linked-list proxy |
| `QmiProxyTables.StepMatches` | mobile/quectel-CM/src/quectel-qmi-proxy.c:806-827 | one event changes the tables as it changes the ownership log |
| `QmiProxyTables.GrantAndRevoke` | mobile/quectel-CM/src/quectel-qmi-proxy.c:813-820 | a concrete run, with the message types and flags in figures |
| `QmiProxyTables.GrantIsOrderly` | mobile/quectel-CM/src/quectel-qmi-proxy.c:802-880 | a run of accept, request, grant and close meets the conditions of the FIFO and of the tables |
| `QmiProxyTables.ResetNoted` | mobile/quectel-CM/src/quectel-qmi-proxy.c:815-820 | a modem reset is noted if and only if a revocation answers a connected client |
| `QmiProxyTables.OneOwnerOverRuns` | mobile/quectel-CM/src/quectel-qmi-proxy.c:698-727 | if the modem never re-grants a held id, no (type, id) ever has two owners |
| `QmiProxyTables.Unicast` | mobile/quectel-CM/src/quectel-qmi-proxy.c:843-856 | with one owner per id, a message for an id reaches exactly its owner, or nobody |
| `QmiProxyTables.Broadcast` | mobile/quectel-CM/src/quectel-qmi-proxy.c:843-856 | a ClientId 0 message is delivered once per registered client of its type |
| `QmiTlv.GetTLV` | mobile/quectel-CM/src/QMIThread.c:72-91 | on every well-formed message: by type the first match, by 0x1000+i the i-th element, NULL when there is none |
| `QmiTlv.FirstTwo` | mobile/quectel-CM/src/QMIThread.c:77-84 | index 0x1001 is the first TLV, right behind the 13 header bytes, and 0x1002 the second |
| `QmiTlv.DumpTlv` | mobile/quectel-CM/src/MPQMUX.c:317-338 | asking index after index lists every TLV once, in order, and stops |
| `QmiTlv.QmiFindTlv` | mobile/quectel-CM/src/quectel-qmi-proxy.c:909-924 | the first TLV of the type, as GetTLV finds it; failing that the trailing bytes, if the first of them has the type; otherwise none |
| `QmiTlv.WalkRegistration` | mobile/quectel-CM/src/QMIThread.c:1445-1675 | the registration walk visits every TLV in order, by address, and then the trailing bytes, if any, as one more |
| `QmiTlv.SameVisits` | mobile/quectel-CM/src/QMIThread.c:72-91 | the walkers run on one message: both lookups agree except when only the first trailing byte has the type, and the registration walk visits what dump_tlv lists, and no more if and only if nothing trails |
| `QmiTlv.LookupsDisagree` | mobile/quectel-CM/src/QMIThread.c:72-91 | a concrete message, for every type, in which GetTLV finds nothing and qmi_find_tlv finds the trailing byte |
| `QmiTlv.WalksInsideIff` | mobile/quectel-CM/src/QMIThread.c:77-88 | over all bodies: the 16-bit remaining length never wraps, so that the cursor stays in the body, if and only if the body is TLVs followed by fewer bytes than a header |
| `QmiTlv.ParseEncode` | mobile/quectel-CM/src/QMIThread.c:72-91 | a TLV body has exactly one reading: parsing what was encoded gives it back |
| `QmiTlv.TlvAt` | mobile/quectel-CM/src/QMIThread.c:88-90 | where the k-th TLV of a body lies and what it holds |
| `QmiBuilder.ComposeAndLookUp` | mobile/quectel-CM/src/QMIThread.c:100-136 | round trip: composing a request and asking GetTLV for any type returns the value put in, and NULL for what the builder skipped |
| `QmiBuilder.ComposeQMUXMsg` | mobile/quectel-CM/src/QMIThread.c:100-136 | nothing without a client id; otherwise three headers followed by exactly the encoded TLVs, inside the 256-byte buffer |
| `QmiBuilder.ComposedIsWellFormed` | mobile/quectel-CM/src/QMIThread.c:105-126 | the QMUX and QMI length fields match the bytes, the header bytes are those of the service type, client id, transaction id and message type, and the body is a well-formed TLV sequence |
| `QmiBuilder.StartFitsIff` | mobile/quectel-CM/src/QMIThread.c:184-274 | a start-network request is composed for every profile whose message stays within 256 bytes |
| `QmiBuilder.AccountIs` | mobile/quectel-CM/src/QMIThread.c:198-203 | on a CDMA network without user and password the account is ctnet@mycdma.cn with vnet.mobi, else the profile's own |
| `QmiBuilder.PdpTypes` | mobile/quectel-CM/src/QMIThread.c:509-517 | the packet data type is 0 for IPv4, 2 for IPv6, 3 for both |
| `QmiBuilder.WdsStartNwInterfaceReq` | mobile/quectel-CM/src/QMIThread.c:184-274 | the bytes written are the encoding of the start-network TLVs, CDMA default account included |
| `QmiBuilder.WdsModifyProfileSettingsReq` | mobile/quectel-CM/src/QMIThread.c:494-560 | the bytes written are the encoding of the modify-profile TLVs |
| `QmiBuilder.StartLookup` | mobile/quectel-CM/src/QMIThread.c:184-274 | every type looked up in a start-network request: apn, user, password, auth, family and profile as put in, nothing for skipped parts |
| `QmiBuilder.ModifyLookup` | mobile/quectel-CM/src/QMIThread.c:494-560 | the same for a modify-profile request |
| `QmiBuilder.Qstrcpy` | mobile/quectel-CM/src/QMIThread.c:61-65 | copies the string and its terminator and nothing else |
| `QmiTransport.ResponseHandedBack` | mobile/quectel-CM/src/QMIThread.c:601-670 | every answered request gets its answer: sent, answered by a message of its service type (renamed if the device layer does), client id and transaction id, with any unrelated messages before and any messages after, the thread is handed exactly that message for that request; if it does not want it, it is freed |
| `QmiTransport.ComposedCanBeSent` | mobile/quectel-CM/src/QMIThread.c:93-118 | from every state with no request pending, the request just composed can be sent, so the runs spoken of exist |
| `QmiTransport.NothingHandedBack` | mobile/quectel-CM/src/QMIThread.c:625-660 | a request the device did not take, or one ended by a NULL, is handed nothing |
| `QmiTransport.RendezvousOverRuns` | mobile/quectel-CM/src/QMIThread.c:601-692 | over every interleaving: a response handed back has the service type, client id and transaction id of that very request; requests sent once are freed at most once, and only requests that were sent; no response copy is handed over or freed twice |
| `QmiTransport.IndicationsByNumber` | mobile/quectel-CM/src/QMIThread.c:671-688 | which messages are told to the main loop as what, by service type and message type |
| `QmiTransport.InvOverRuns` | mobile/quectel-CM/src/QMIThread.c:601-692 | the slot invariant over every interleaving, from any state that has it; every request sent is freed, overwritten or still in the slot |
| `QmiTransport.StepKeepsInv` | mobile/quectel-CM/src/QMIThread.c:601-692 | every send, arrival, NULL wake-up, wake and timeout keeps it |
| `QmiTransport.NoStaleReply` | mobile/quectel-CM/src/QMIThread.c:93-98 | over every interleaving, with ids taken from the counter: a reply handed back for a request replies to that very request or to one a multiple of 65535 away, so never to one of the 65534 before |
| `QmiTransport.IdsOverRuns` | mobile/quectel-CM/src/QMIThread.c:93-118 | over every interleaving each request and reply on record carries the id its request was composed with |
| `QmiTransport.TidCycle` | mobile/quectel-CM/src/QMIThread.c:93-98 | ids cycle through 1..65535 and are never 0 |
| `QmiTransport.SameTid` | mobile/quectel-CM/src/QMIThread.c:93-98 | two requests share an id if and only if their distance is a multiple of 65535 |
| `QmiTransport.Transport.GetQMUXTransactionId` | mobile/quectel-CM/src/QMIThread.c:93-98 | returns the next id of the cycle, between 1 and 65535 |
| `QmiTransport.Transport.SendBegin` | mobile/quectel-CM/src/QMIThread.c:601-628 | the send step up to the wait; the device layer renames WDS_IPV6 in the very object the slot points at; a NULL request changes nothing |
| `QmiTransport.Transport.SendEnd` | mobile/quectel-CM/src/QMIThread.c:629-644 | what is handed back after a wake-up or a timeout |
| `QmiTransport.Transport.Recv` | mobile/quectel-CM/src/QMIThread.c:650-692 | a matching message frees the request and fills the response slot, any other leaves both and is told to the main loop by its type; NULL frees the request |
| `NetlinkAttr.BuildAndRead` | mobile/quectel-CM/src/libmnl/attr.c:255-292 | any tree built by bracketed put, nest_start and nest_end calls, and read back with mnl_attr_parse and mnl_attr_parse_nested, is the same tree of types and payloads in order if and only if it fits |
| `NetlinkAttr.ReadsBackIffFits` | mobile/quectel-CM/src/libmnl/attr.c:395-410 | what the calls write for a forest reads back as that forest if and only if every type leaves the flag bits free and every length, of payloads and of nests, fits 16 bits |
| `NetlinkAttr.ReadMessage` | mobile/quectel-CM/src/libmnl/attr.c:255-266 | reading with the modelled parse functions gives the forest that the bytes of the message stand for |
| `NetlinkAttr.ReadTrees` | mobile/quectel-CM/src/libmnl/attr.c:282-292 | every attribute reported becomes its tree, nests by parsing them at the pointer the callback was given |
| `NetlinkAttr.DecodeIsTrees` | mobile/quectel-CM/src/libmnl/attr.c:313-324 | on any bytes the forest read consists of the trees of the attributes the iterators visit, one for one |
| `NetlinkAttr.DecodeSize` | mobile/quectel-CM/src/libmnl/attr.c:93-111 | the trees read from some bytes take no more room than those bytes, padding aside |
| `NetlinkAttr.DecodeEncode` | mobile/quectel-CM/src/libmnl/attr.c:255-292 | the wire form of every such tree reads back as the tree, at every depth |
| `NetlinkAttr.LeafSurvives` | mobile/quectel-CM/src/libmnl/attr.c:395-410 | a payload put with a 16-bit type reads back if and only if its length fits nla_len and the type leaves the flag bits free |
| `NetlinkAttr.WireByNumber` | mobile/quectel-CM/src/libmnl/attr.c:395-410 | a nest has type 0x8000 plus its type, 14 bits of which are reported, and payloads are filled up with zeros |
| `NetlinkAttr.EncodeAligned` | mobile/quectel-CM/src/libmnl/attr.c:395-410 | every attribute ends 4-aligned |
| `NetlinkAttr.Message.Put` | mobile/quectel-CM/src/libmnl/attr.c:395-410 | appends header, payload and zero padding; nlmsg_len stays 4-aligned and grows by the aligned 16-bit length |
| `NetlinkAttr.Message.PutCheck` | mobile/quectel-CM/src/libmnl/attr.c:540-548 | refuses exactly what does not fit and then changes nothing; never lets nlmsg_len pass buflen |
| `NetlinkAttr.Message.NestStart` | mobile/quectel-CM/src/libmnl/attr.c:514-524 | opens a nest at the tail, length still unset |
| `NetlinkAttr.Message.NestStartCheck` | mobile/quectel-CM/src/libmnl/attr.c:685-692 | refuses exactly what does not fit and then changes nothing |
| `NetlinkAttr.Message.NestEnd` | mobile/quectel-CM/src/libmnl/attr.c:701-705 | fills in the length and changes no other byte of the message |
| `NetlinkAttr.Message.NestCancel` | mobile/quectel-CM/src/libmnl/attr.c:714-718 | the message is as long as when the nest was started |
| `NetlinkAttr.Message.BuildAndCancel` | mobile/quectel-CM/src/libmnl/attr.c:714-718 | starting, filling and cancelling a nest restores the message |
| `NetlinkAttr.Message.Build` | mobile/quectel-CM/src/libmnl/attr.c:395-410 | the calls write exactly the wire form of the tree behind the message, truncated lengths included |
| `NetlinkAttr.ParsePayload` | mobile/quectel-CM/src/libmnl/attr.c:313-324 | on every byte buffer, malformed ones included, iteration ends, visits attributes in order until the callback refuses, and every visited attribute lies wholly inside the payload, even when the last step goes past the end |
| `NetlinkAttr.ParseNested` | mobile/quectel-CM/src/libmnl/attr.c:282-292 | the same inside an attribute |
| `NetlinkAttr.Parse` | mobile/quectel-CM/src/libmnl/attr.c:255-266 | the same for a message, from behind the headers to the tail |
| `NetlinkAttr.Rest` | mobile/quectel-CM/src/libmnl/attr.c:93-111 | the remaining length strictly decreases on every step |
| `NetlinkAttr.HeadOf` | mobile/quectel-CM/src/libmnl/attr.c:38-75 | type, length and payload read from an attribute are those written |
| `RedialSpec.FromStart` | mobile/quectel-CM/src/main.c:513-760 | over every run from the start: no dial before its allowed time; a round that backs off holds the next one back by 5, 10, 20, 40, 60, 60, ... seconds; if every failed round leaves an enabled family marked disconnected, which is so when each round finds the enabled families marked connected or disconnected, failed rounds with nothing in between are that far apart; DHCP starts and stops alternate except across a modem reset; and, unless a START was dropped while detached, no redial is lost |
| `RedialSpec.BacksOffIffDue` | mobile/quectel-CM/src/main.c:596-615 | a failed round backs off if and only if an enabled family is marked disconnected after it; a round that does not fail never does |
| `RedialSpec.DueBefore` | mobile/quectel-CM/src/main.c:564-597 | an enabled family is marked disconnected after a round if and only if it was before and the modem's answers do not connect it |
| `RedialSpec.DeterminedAllBackOff` | mobile/quectel-CM/src/main.c:564-615 | over every run in which each round finds the enabled families marked connected or disconnected, every failed round backs off |
| `RedialSpec.NextDial` | mobile/quectel-CM/src/main.c:559-615 | after a failed round a later START dials again if and only if the round left no family marked disconnected or its back-off is over |
| `RedialSpec.SpacedIffBacksOff` | mobile/quectel-CM/src/main.c:559-615 | two failed rounds in a row are spaced if and only if the first left an enabled family marked disconnected or the second happens to come late enough |
| `RedialSpec.UnknownStatusDialsAtOnce` | mobile/quectel-CM/src/main.c:596-615 | a concrete run in which two rounds fail in the same millisecond, with no failure counted and no alarm armed, because the status is unknown |
| `RedialSpec.RoundFailsIs` | mobile/quectel-CM/src/main.c:564-594 | by the modem's answers a round fails if and only if an enabled family is not connected after it |
| `RedialSpec.HeldIsSpaced` | mobile/quectel-CM/src/main.c:596-615 | over rounds that all back off, the back-off counts failed rounds since the last one that did not fail |
| `RedialSpec.RedialLost` | mobile/quectel-CM/src/main.c:556-557 | a concrete run from the start in which a due redial is dropped while detached, with nothing queued and no alarm |
| `RedialSpec.StepLosesNothing` | mobile/quectel-CM/src/main.c:556-558 | a step loses a redial if and only if it handles a START while detached and not looping back, with nothing else pending |
| `RedialSpec.LosesNothingOverRuns` | mobile/quectel-CM/src/main.c:553-753 | over every run without such a drop, a disconnected enabled family implies a queued START or CHECK or an armed alarm |
| `RedialSpec.AfterAttach` | mobile/quectel-CM/src/main.c:694-700 | after an attach a disconnected enabled family has a START queued |
| `RedialSpec.RecoveredByAttach` | mobile/quectel-CM/src/main.c:694-700 | a redial lost while detached is recovered by the next attach: from then on nothing is lost over every run that drops no other START |
| `RedialSpec.RedialRecovered` | mobile/quectel-CM/src/main.c:694-700 | the attach after the run of RedialLost queues the START again |
| `RedialReactions.BackOffInSeconds` | mobile/quectel-CM/src/main.c:596-607 | after a failed round that left a family disconnected a START dials again if and only if 5, 10, 20, 40, 60, 60, ... seconds have passed |
| `RedialReactions.PollRecovers` | mobile/quectel-CM/src/main.c:522-526 | fifteen quiet seconds and a CHECK that finds a family disconnected queue a START |
| `RedialReactions.CheckReads` | mobile/quectel-CM/src/main.c:624-654 | what a CHECK makes of each answer, the address check included |
| `RedialReactions.AlarmRedials` | mobile/quectel-CM/src/main.c:555-562 | an alarm dials if and only if dialling is allowed by then, and is armed again if not |
| `RedialReactions.TermStops` | mobile/quectel-CM/src/main.c:657-669 | SIGTERM ends the loop with the link down and each connected family the profile enables deactivated |
| `RedialReactions.CallChangeHolds` | mobile/quectel-CM/src/main.c:706-710 | after a call is lost the START dials if and only if a second has passed since the indication |
| `RedialReactions.DetachLiftsBackOff` | mobile/quectel-CM/src/main.c:694-704 | after a detach and an attach a queued START dials at once |
| `RedialReactions.LoopbackDials` | mobile/quectel-CM/src/main.c:741-753 | switching the loopback on dials although detached |
| `RedialReactions.AuthMode` | mobile/quectel-CM/src/main.c:564-576 | the auth mode changes if and only if the setup is refused, an account is set and the other mode works |
| `RedialReactions.ComesUp` | mobile/quectel-CM/src/main.c:564-594 | a family comes up if and only if it is dialled and both setup and address query succeed |
| `RedialReactions.DeviceGoneStopsDhcp` | mobile/quectel-CM/src/main.c:680-692 | a device that is gone takes the link and DHCP down, and the program starts over with a CHECK or ends |
| `RedialReactions.ResetStartsOver` | mobile/quectel-CM/src/main.c:712-740 | a modem reset starts over with a CHECK or ends the program |
| `RedialSpec.AfterCheck` | mobile/quectel-CM/src/main.c:618-655 | after a CHECK a disconnected enabled family has a START queued, whatever the modem answered |
| `RedialSpec.AfterStart` | mobile/quectel-CM/src/main.c:555-616 | after a START that is not dropped a disconnected enabled family has the alarm armed, for the first whole second at which dialling is allowed |
| `RedialSpec.PacedOverRuns` | mobile/quectel-CM/src/main.c:596-615 | pace and link order are kept by every run |
| `RedialSpec.StepKeepsPace` | mobile/quectel-CM/src/main.c:596-710 | every event keeps that a round which backed off holds back the next one, failed or not, for the delay that belongs to the back-offs before it |
| `RedialSpec.StepKeepsLink` | mobile/quectel-CM/src/main.c:135-160 | every event logs DHCP starts, stops and resets as the link state allows |
| `RedialSpec.LoggedStartsAndStops` | mobile/quectel-CM/src/main.c:135-160 | two DHCP commands in a row are equal if and only if both are starts and a modem reset cleared the link in between while it was up |
| `RedialSpec.ResetLosesDhcp` | mobile/quectel-CM/src/main.c:719-723 | a concrete run with two DHCP starts in a row after a modem reset, or with a DHCP client that nobody stops |
| `RedialSpec.LinkAfterCheck` | mobile/quectel-CM/src/main.c:644-649 | after a CHECK the link is up and DHCP runs if a family is connected; if both are disconnected the link is down, and DHCP is left running if and only if it ran while the link was already down |
| `Redial.Loop.HandleAll` | mobile/quectel-CM/src/main.c:513-760 | the loop over its mutable variables takes a run of events to the state of the pure run |
| `Redial.Loop.Live` | mobile/quectel-CM/src/main.c:513-760 | the promises of FromStart hold of the loop's own variables |
| `Redial.Loop.OnStart` | mobile/quectel-CM/src/main.c:555-616 | SIG_EVENT_START takes the pure step |
| `Redial.Loop.OnCheck` | mobile/quectel-CM/src/main.c:618-655 | SIG_EVENT_CHECK takes the pure step, deactivating IPv4 when its address is not the interface's |
| `Redial.Loop.OnStop` | mobile/quectel-CM/src/main.c:657-669 | SIG_EVENT_STOP deactivates each connected family the profile enables, takes the link down and ends the loop |
| `Redial.Loop.OnModemReset` | mobile/quectel-CM/src/main.c:712-740 | a modem reset clears the link state without a DHCP command, then restarts or quits |
| `Redial.Loop.OnNetworkChanged` | mobile/quectel-CM/src/main.c:694-704 | attaching queues a START when one is due, detaching lifts the back-off |
| `Redial.Loop.OnDataCallChanged` | mobile/quectel-CM/src/main.c:706-710 | a change of a connected call holds dialling for one second and queues a CHECK |
| `Redial.Loop.OnLoopback` | mobile/quectel-CM/src/main.c:741-753 | switching the loopback on queues a START |
| `Redial.Loop.OnDeviceGone` | mobile/quectel-CM/src/main.c:680-692 | a device that is gone takes the link down, then restarts or quits |
| `MbimProxySpec.AnswerReachesAsker` | mobile/quectel-CM/src/quectel-mbim-proxy.c:191-257 | the round trip: the id goes out non-zero and tagged with the slot, and the answer reaches that very connection, alone and with its low 24 id bits, if and only if the connection stayed; the id comes back whole if and only if it is below 2^24 |
| `MbimProxySpec.AnswerGoesToSlot` | mobile/quectel-CM/src/quectel-mbim-proxy.c:225-257 | an id rewritten for a slot goes to whoever holds the slot when the answer comes, or to nobody |
| `MbimProxySpec.RewriteInjective` | mobile/quectel-CM/src/quectel-mbim-proxy.c:210 | rewritten ids are equal if and only if slot and id mod 2^24 are |
| `MbimProxySpec.IdsByNumber` | mobile/quectel-CM/src/quectel-mbim-proxy.c:210 | an id below 2^24 goes out of slot i of 32 as (i + 1) * 2^24 more and comes back whole |
| `MbimProxySpec.RewriteTags` | mobile/quectel-CM/src/quectel-mbim-proxy.c:210 | a rewritten id is non-zero, fits 32 bits and carries slot and low bits |
| `MbimProxySpec.FromStart` | mobile/quectel-CM/src/quectel-mbim-proxy.c:150-257 | over every run live slot i carries index i+1 and every id sent to the modem is non-zero and names a slot |
| `MbimProxySpec.AnythingElseGoes` | mobile/quectel-CM/src/quectel-mbim-proxy.c:259-357 | the runs spoken of leave out nothing but descriptors in use twice and ids of more than 32 bits |
| `MbimProxySpec.InvOverRuns` | mobile/quectel-CM/src/quectel-mbim-proxy.c:150-257 | live slots keep distinct descriptors and connections over every run |
| `MbimProxySpec.HoldsIffStays` | mobile/quectel-CM/src/quectel-mbim-proxy.c:150-189 | a connection holds its slot after a run if and only if it neither hung up nor saw a restart |
| `MbimProxySpec.BroadcastToAll` | mobile/quectel-CM/src/quectel-mbim-proxy.c:231-237 | id 0 goes to every live client once and to nobody else |
| `MbimProxySpec.Admission` | mobile/quectel-CM/src/quectel-mbim-proxy.c:165-176 | a client is taken in if and only if a slot is free, and takes the lowest one |
| `MbimProxySpec.LateAnswerMisdelivered` | mobile/quectel-CM/src/quectel-mbim-proxy.c:178-257 | a concrete run in which a client that hung up leaves its slot, and its answer, to the next one |
| `MbimProxy.Proxy.HandleClientConnect` | mobile/quectel-CM/src/quectel-mbim-proxy.c:150-176 | takes the first slot with no descriptor, 0 on success and -1 when full |
| `MbimProxy.Proxy.HandleClientDisconnect` | mobile/quectel-CM/src/quectel-mbim-proxy.c:178-189 | frees the first slot with that descriptor, unless it is not positive |
| `MbimProxy.Proxy.HandleClientRequest` | mobile/quectel-CM/src/quectel-mbim-proxy.c:191-218 | rewrites the id in place and forwards it; refuses an unknown descriptor and leaves the id |
| `MbimProxy.Proxy.HandleDeviceResponse` | mobile/quectel-CM/src/quectel-mbim-proxy.c:225-257 | id 0 to all live clients, any other to the slot it names with the tag removed |
| `MbimProxy.Proxy.HandleAll` | mobile/quectel-CM/src/quectel-mbim-proxy.c:259-357 | the array keeps the invariant over every run and follows the pure run |
| `MbimConnect.PopulateConnectData` | mobile/quectel-CM/src/mbim-cm.c:1954-2006 | for all strings the request is exactly the specified layout, and the size returned is that of the first pass |
| `MbimConnect.PopulateAndRead` | mobile/quectel-CM/src/mbim-cm.c:1152-2006 | round trip: the three strings, up to 255 characters, read back through mbim_get_segment at the stored offsets and sizes |
| `MbimConnect.RegionsFit` | mobile/quectel-CM/src/mbim-cm.c:1953-2006 | the first pass reserves exactly the aligned extent the second one writes; regions are 4-aligned, one after another and inside the allocation |
| `MbimConnect.LayoutByNumber` | mobile/quectel-CM/src/mbim-cm.c:1974-1998 | the fields are at 8, 16 and 24, offset and size, and the first string starts at 60 |
| `MbimConnect.LayoutDetermines` | mobile/quectel-CM/src/mbim-cm.c:1954-2006 | the layout leaves no byte open |
| `MbimConnect.SizePass` | mobile/quectel-CM/src/mbim-cm.c:1956-1964 | the size, aligned after each string |
| `MbimConnect.FillPass` | mobile/quectel-CM/src/mbim-cm.c:1973-2003 | offsets, sizes and widened characters of all three strings, zero elsewhere |
| `MbimConnect.PutString` | mobile/quectel-CM/src/mbim-cm.c:1974-1983 | one string: fields, characters, and no other byte |
| `MbimConnect.GetSegment` | mobile/quectel-CM/src/mbim-cm.c:1152-1162 | copies every second byte and terminates the result |
| `MbimConnect.Align32` | mobile/quectel-CM/src/mbim-cm.c:1953 | the least multiple of 4 not below |

## Left out

- QmiTlv.GetTLV: stated for bodies of TLVs with at most two trailing bytes; those are exactly the bodies on which the 16-bit remaining length never wraps (`WalksInsideIff`), and a walk that leaves the message is not modelled.
- QmiTlv.QmiFindTlv: with trailing bytes it reads the rest of a header behind the body; the model needs that memory to exist.
- QmiTlv.WalkRegistration: which TLVs the switch gets to look at, not the network type it derives from their values.
- QmiProxy.Proxy.Serve: the initialisation exchange before the server socket exists (server descriptor not positive) and leaving the loop on a modem reset are not modelled; the run is what the loop gets to see.
- QmiProxySpec messages carry the fields the proxy reads and an uninterpreted rest, not their bytes.
- QmiBuilder.ComposeQMUXMsg: allocation failure is not modelled; of the message functions it can be given, the two with variable contents are, the others fill fixed structures.
- MbimConnect.PopulateConnectData: allocation failure is not modelled, and the sizes must fit an int.
- MbimConnect.GetSegment: requires a segment of at most 255 characters inside the message, which the caller must ensure since the code does not check.
- MbimProxySpec.FromStart: runs start when the server socket exists, that is after MBIM_OPEN_DONE; messages are their transaction ids.
- Redial.Loop.SettleAfterDial: the failure counter is unbounded, the program's wraps after 2^32 failures in a row.
- Redial.Loop.Live: the compile-time options that exit after a failed dial or go to the background are off.
- Redial.Loop.OnStop: shutting down the device thread and the threads' joins are I/O.
- NetlinkAttr.Message.Put: of the 16-byte message header only nlmsg_len is modelled; attribute validation and the fixed-size getters and putters are thin wrappers.
- Sockets, USB probing, DHCP helpers, process control, logging and argument parsing: I/O only.
- The vendor crypto card drivers, random number modules and kernel registration tables: nothing to prove without the hardware interface.
- Real malloc failure and big-endian hosts: not modelled.
- CDMA MCC/MNC conversion, mask and prefix helpers, enum-to-string tables: functions on small finite domains, without state or a law of their own.
- Strength of SM3 and SM4: no theorem here is about it. Whole digests and ciphertexts in figures: the laws and the single rounds fix the constants and functions instead.
