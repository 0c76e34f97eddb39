# Dropbear 2012.55, libdes 4.04b and scp in Dafny

A Dafny model of the hard parts of the SSH implementation under `apps/dropbear-2012.55`, of
the DES library under `apps/libdes-4.04b` and of the scp record protocol, with proofs about
whole runs. Verify everything with `dafny verify dfyconfig.toml`.

## What is modelled

* **Key exchange and the packet layer** (`Transport`, `Session`, `Network`, `Agreement`,
  `Runs`, `SafetyTheorems`, `History`, `HeldPackets`, `Overtaking`, `Progress`, `AnyPeer`,
  `Choices`, `KeyDerivation`). `Transport` gives every handler as a function on the session
  state; `Session` is the program's own mutable session, each method proved to do what the
  function says. `Network` joins a client and a server by two FIFO links
  and lets them step through their session loops in any interleaving, with any rekeys, any
  application packets and any random values. The theorems quantify over all such runs; `AnyPeer`
  faces one end with any packets at all.
* **Packets on the wire** (`PacketFormat`, `PacketStream`, `PacketReader`, `PacketIO`, `Queue`):
  padding, encryption, MAC, partial reads and writes of the socket, changes of keys, and what
  the reader makes of any bytes.
* **Channels** (`CircBuffer`, `ChannelSpec`, `Channel`, `FlowControl`, `ChannelEnds`): the circular
  buffer, the window accounting of one end, and the credit law between two ends over all runs,
  from opening, refusal or a failed connection to EOF, close and removal.
* **Signatures and key generation** (`NumberTheory`, `Rsa`, `Dss`, `SignKey`, `Verifying`), with
  Fermat's little theorem, Euclid's lemma and the bound on roots modulo a prime proved from
  scratch.
* **Encodings** (`Bytes`, `Memory`, `Buffer`, `KeyCodec`, `OpenSsh`, `AlgoMatch`, `AlgoList`,
  `WireLists`, `Encodings`).
* **DES** (`Des`, `DesReference`, `DesModes`, `ModesReference`): the permutations, the Feistel
  rounds for any round function, triple DES, CBC and CFB, each against FIPS 46-3 or FIPS 81.
  `apps/libdes-4.04b/des_locl.h` supplies the permutations bit by bit.
* **scp** (`Scp`, `ScpRun`, `ScpSafety`): sender and receiver of a directory tree, byte by byte,
  the two processes joined by pipes of any capacity, and the receiver facing any sender.

An exit (`dropbear_exit`, a failed `dropbear_assert`) is a terminal outcome: a value of a
reason type, `None`, or `false`. Clocks, random numbers, user answers, results of `read` and
`write`, the hash, the MAC, the ciphers and the primality test are inputs or parameters; big
integers are exact. Integers are unbounded; sequence numbers wrap at 2^32 explicitly.

## Where code and documentation differ

* `gen_random_mpint` promises `0 < rand`; zero is possible (`Dss.EveryValueDrawn`).
* `gen_rsa_priv_key` does not check that its primes differ; every number is recovered by
  verification if and only if they do (`Rsa.RecoversAllIffDistinct`).
* `buf_put_dss_sign` may emit `s = 0`, which verification rejects; it accepts exactly the
  others (`Dss.EmittedVerifiesIff`).
* `ber_read_id_len` misreads every tag from 31 up to 2^28 that `ber_write_id_len` writes
  (`OpenSsh.BerRoundTripIff`).
* A latent hazard of the buffer interface, which no caller in the program meets: `buf_putbyte`
  checks the length but not the position, and its store is outside the allocation exactly when
  the position is at the size and the length below it (`Buffer.OverrunIff`,
  `Buffer.OverrunReached`).
* scp clears the sticky bit of modes (`Scp.StickyLost`), cuts directory names at 1024 bytes, and
  lets times before 1970 arrive as the largest long; a copy is exact if and only if none of
  these occurs (`Scp.TransferCorrect`).
* `checkmac` takes the MAC size from the transmit direction; between two Dropbears both
  directions always use the same MAC (`SafetyTheorems.OneMacPerEnd`).
* A keepalive sent during a rekey overtakes packets held back before it
  (`Overtaking.KeepaliveOvertakes`); packets leave in the order they were made exactly in the
  runs where no permitted packet meets held ones before our NEWKEYS (`HeldPackets.OrderKeptIff`).

## Model

| member | source | states |
|---|---|---|
| `SafetyTheorems.NoProtocolExit` | apps/dropbear-2012.55/process-packet.c:43-121 | in no run of a client and a server, with any rekeys from either or both sides, does an end exit for a failed integrity check, an unexpected packet, a rejected key exchange value or signature, or missing exchange state |
| `SafetyTheorems.NextPacketOpens` | apps/dropbear-2012.55/packet.c:236-323 | in every run the next packet on each link was sealed with exactly the key context, chaining state and sequence number its receiver is about to use |
| `SafetyTheorems.DataAllowedExactly` | apps/dropbear-2012.55/common-kex.c:143-206 | in every run data is disallowed exactly while our KEXINIT is outstanding, sent NEWKEYS implies that, and nothing is held once it is allowed again and flushed |
| `SafetyTheorems.KeysAgree` | apps/dropbear-2012.55/common-kex.c:282-376 | in every run both ends derive the same secret, hash and session id, and each end's transmit cipher, IV, key and MAC key are the other's receive ones |
| `SafetyTheorems.OneMacPerEnd` | apps/dropbear-2012.55/packet.c:305-323 | in every run an end receives with the MAC it transmits with, so the size taken by checkmac is right |
| `SafetyTheorems.NoDeadlock` | apps/dropbear-2012.55/common-session.c:130-218 | in every run, with nothing in flight and the client at the top of its loop, no exchange is pending and both ends may send data in the same epoch |
| `Progress.EveryRunCompletes` | apps/dropbear-2012.55/common-session.c:130-218 | from every state of every run, with both ends alive, algorithms in common and every packet made so far one that its receiver handles, running the two loops on with nothing new asked for finishes every exchange under way and delivers every packet, the permitted and the others each in order |
| `AnyPeer.KeysVouched` | apps/dropbear-2012.55/cli-kex.c:60-113 | over every run of one end against any peer whatever, the keys in use, those about to be made and the session id come from an exchange in which the peer's value was in range and a client verified a signature over just that hash |
| `AnyPeer.ReplyAcceptedIff` | apps/dropbear-2012.55/cli-kex.c:60-113 | for every state and every reply, the client goes on if and only if KEXDH_INIT was sent, the key is accepted and of the agreed type, 0 < f < p, and the signature is over the hash it works out itself |
| `AnyPeer.ReplyAccepted` | apps/dropbear-2012.55/common-kex.c:582-646 | then secret, hash and session id are those of section 8 of RFC 4253, and NEWKEYS is sent |
| `AnyPeer.InitAcceptedIff` | apps/dropbear-2012.55/svr-kex.c:45-104 | for every state and value, the server goes on if and only if the KEXINITs are exchanged and 0 < e < p; its reply carries its key, g^y mod p and a signature over that hash |
| `AnyPeer.KexinitAcceptedIff` | apps/dropbear-2012.55/common-kex.c:453-523 | for any KEXINIT: taken if and only if ours is there and every pair of lists has a name in common; the choices are prescribed ones, client before server in the hash, and a wrongly guessed packet is to be ignored |
| `AnyPeer.UnknownAnswered` | apps/dropbear-2012.55/process-packet.c:107-145 | a packet without a handler is answered with UNIMPLEMENTED and its own sequence number |
| `AnyPeer.NewkeysEitherOrder` | apps/dropbear-2012.55/common-kex.c:150-206 | sending and receiving NEWKEYS in either order end in the same state, with fresh contexts and data allowed |
| `AnyPeer.TimeoutsDo` | apps/dropbear-2012.55/common-session.c:380-411 | a rekey due outside an exchange sends our KEXINIT with our lists, one due inside sends nothing, and a keepalive is an empty IGNORE |
| `KeyDerivation.KeysBySection72` | apps/dropbear-2012.55/common-kex.c:256-362 | in every run, what one end is about to transmit with and the other to receive with are the same strings, made with A, C, E or B, D, F as section 7.2 says |
| `Choices.ChoicesAre` | apps/dropbear-2012.55/common-kex.c:650-795 | for any peer's lists each of the eight choices is the first name of the client's list that is on the server's, each direction from its own lists |
| `Choices.ExitsIff` | apps/dropbear-2012.55/common-kex.c:650-795 | and there is an exit if and only if some pair of lists has nothing in common |
| `Choices.GroupSizes` | apps/dropbear-2012.55/common-kex.c:38-79 | the two groups have 1024 and 2048 bits and end in 64 ones |
| `Choices.OkayKexIs` | apps/dropbear-2012.55/packet.c:369-384 | what may be sent during an exchange is what section 7.1 of RFC 4253 allows |
| `History.StreamsWellFormed` | apps/dropbear-2012.55/packet.c:426-553 | over every run the i-th packet of a side has sequence number i mod 2^32, the epoch changes exactly after NEWKEYS, and KEXINIT, KEXDH and NEWKEYS come in turn with only permitted packets between |
| `HeldPackets.HeldPacketsInOrder` | apps/dropbear-2012.55/packet.c:384-456 | over every run, of the packets key exchange holds back and likewise of those it lets through, what was produced is what was sent followed by what is held: each is sent once and in order |
| `HeldPackets.OrderKeptIff` | apps/dropbear-2012.55/packet.c:384-456 | over every run and for each end, the packets sent followed by those held are the packets produced, in that order, if and only if no step handed encrypt_packet a permitted packet before our NEWKEYS while others were held |
| `Overtaking.KeepaliveOvertakes` | apps/dropbear-2012.55/common-session.c:380-411 | for any two ends with algorithms in common there is a run, up to an authenticated session and of packets that the handlers make at those points, in which the server starts a rekey, holds a channel confirmation, and sends a keepalive first |
| `HeldPackets.FlushInOrder` | apps/dropbear-2012.55/packet.c:402-422 | flushing sends the held packets whole and in order, and queues nothing again |
| `Agreement.NegotiationAgrees` | apps/dropbear-2012.55/common-kex.c:650-795 | from each other's lists both ends choose the same eight algorithms, mirrored by direction, or both fail |
| `WireLists.SamePick` | apps/dropbear-2012.55/svr-algo.c:35-100 | a list of at most 20 plain names in 160 bytes, written, received and split, gives the choice that the names themselves give |
| `WireLists.NegotiationOnWire` | apps/dropbear-2012.55/common-kex.c:650-795 | so the choice of all eight algorithms from the lists on the wire is the one the runs make |
| `NumberTheory.PowersCommute` | apps/dropbear-2012.55/common-kex.c:582-607 | the secret computed from the peer's value is the same on both sides |
| `Session.SshSession.constructor` | apps/dropbear-2012.55/common-session.c:55-127 | the session starts as the specification says, with KEXINIT sent |
| `Session.SshSession.EncryptOrHold` | apps/dropbear-2012.55/packet.c:426-553 | a packet is queued for writing under the current key and number, or held, exactly as specified |
| `Queue.PacketList.EnqueueReply` | apps/dropbear-2012.55/packet.c:384-400 | the packet becomes the last of the linked reply queue, whose other packets and their order stay |
| `Queue.PacketList.FlushReplies` | apps/dropbear-2012.55/packet.c:402-422 | walking the linked queue hands over every held packet once, oldest first, and leaves it empty |
| `Session.SshSession.FlushReplyQueue` | apps/dropbear-2012.55/packet.c:402-422 | the loop over the live queue refines sending every held packet in order |
| `Session.SshSession.SendKexinit` | apps/dropbear-2012.55/common-kex.c:94-148 | refines the specified effect of sending KEXINIT |
| `Session.SshSession.ReceiveKexinit` | apps/dropbear-2012.55/common-kex.c:453-523 | refines the specified effect of receiving KEXINIT, or exits for the same reason |
| `Session.SshSession.DeriveKeys` | apps/dropbear-2012.55/common-kex.c:282-362 | the IV, cipher key and MAC key of each context are the bytes that section 7.2 of RFC 4253 derives with A, C, E from client to server and B, D, F the other way, written out with the hash alone |
| `Session.SshSession.GenNewKeys` | apps/dropbear-2012.55/common-kex.c:282-376 | both contexts are replaced at once, and hold the bytes of section 7.2 for their direction |
| `Session.SshSession.Finish` | apps/dropbear-2012.55/common-kex.c:158-244 | whichever NEWKEYS comes second, new keys are taken into use, the exchange variables are reset and data is allowed, as specified |
| `Session.SshSession.SendNewkeys` | apps/dropbear-2012.55/common-kex.c:158-183 | refines the specified effect of sending NEWKEYS |
| `Session.SshSession.ReceiveNewkeys` | apps/dropbear-2012.55/common-kex.c:186-206 | refines the specified effect of receiving NEWKEYS |
| `Session.SshSession.CombineKey` | apps/dropbear-2012.55/common-kex.c:582-646 | refines the range check, shared secret, exchange hash and first session id |
| `Session.SshSession.SendKexdhInit` | apps/dropbear-2012.55/cli-kex.c:44-57 | refines the specified effect of KEXDH_INIT |
| `Session.SshSession.ReceiveKexdhReply` | apps/dropbear-2012.55/cli-kex.c:60-113 | refines the handling of KEXDH_REPLY, and goes on if and only if KEXDH_INIT was sent, the key accepted and of the agreed type, the value in range and the signature over the own hash verified |
| `Session.SshSession.ReceiveKexdhInit` | apps/dropbear-2012.55/svr-kex.c:45-104 | refines the handling of KEXDH_INIT and its reply, and goes on if and only if the KEXINITs have been exchanged and the value is in range |
| `Session.SshSession.Process` | apps/dropbear-2012.55/process-packet.c:43-121 | refines the dispatch with requirenext, ignorenext and the check for authentication |
| `Session.SshSession.TimeoutsDue` | apps/dropbear-2012.55/common-session.c:380-411 | refines the rekey and keepalive triggers |
| `Session.SshSession.ClientLoop` | apps/dropbear-2012.55/cli-session.c:148-186 | refines the client's key exchange driver |
| `PacketFormat.PaddingOK` | apps/dropbear-2012.55/packet.c:466-511 | padding is 4 to 255 bytes, the packet a whole number of blocks and at least 16 bytes, and the computed buffer size suffices |
| `PacketFormat.PaddingLeast` | apps/dropbear-2012.55/packet.c:466-485 | no shorter padding of at least 4 bytes would do |
| `PacketFormat.BlocksInverse` | apps/dropbear-2012.55/packet.c:252-261 | decrypting block by block inverts encryption and ends in the same chaining state |
| `PacketStream.WholePacket` | apps/dropbear-2012.55/packet.c:236-301 | a whole packet, its first block decrypted early, yields exactly the payload and the next chaining state and number |
| `PacketStream.ReadReads` | apps/dropbear-2012.55/packet.c:109-233 | at any point of any packet, a call of read_packet with any two short reads is part way through that packet or delivers its payload |
| `PacketStream.DeliversInOrder` | apps/dropbear-2012.55/packet.c:52-160 | for all payloads, any number of key changes with packets under the old keys still queued or on the way, and all partial writes and reads in any order, the payloads delivered are those sent, in order, and all of them once nothing is queued or on the link |
| `PacketReader.CallMeans` | apps/dropbear-2012.55/packet.c:109-323 | for any reader state and any bytes, a call that delivers has taken a packet whose last bytes are the MAC of its text under the due number and whose payload lies between padding length and padding; and each refusal has its one reason |
| `PacketReader.PiecesMean` | apps/dropbear-2012.55/packet.c:109-323 | the same for any number of calls and any short reads |
| `PacketReader.GenuineDelivered` | apps/dropbear-2012.55/packet.c:236-301 | every packet of that form is delivered, in whatever pieces it comes |
| `PacketReader.SealedGenuine` | apps/dropbear-2012.55/packet.c:458-553 | what encrypt_packet makes is of that form |
| `PacketReader.TamperedRefused` | apps/dropbear-2012.55/packet.c:305-323 | a sealed packet with any other MAC, in any pieces, ends in the integrity failure and nothing else |
| `PacketIO.Link.EncryptPacket` | apps/dropbear-2012.55/packet.c:458-553 | the linked write queue gets the sealed packet and its type byte at its end, and cipher and number move on |
| `PacketIO.BuildPacket` | apps/dropbear-2012.55/packet.c:458-553 | the writes into a buffer of the computed size are all in bounds and leave the sealed packet followed by its type byte |
| `PacketIO.Link.WritePacket` | apps/dropbear-2012.55/packet.c:52-104 | the bytes written are the next ones of the head packet, never its type byte, and a packet leaves the linked queue exactly when all of it is written |
| `PacketIO.Link.Read` | apps/dropbear-2012.55/packet.c:109-233 | refines the specified reader, whose verdict on any bytes is PacketReader.CallMeans |
| `Queue.Queue.Enqueue` | apps/dropbear-2012.55/queue.c:69-88 | the item goes to the end of the linked queue |
| `Queue.Queue.Dequeue` | apps/dropbear-2012.55/queue.c:41-61 | the oldest item leaves the linked queue |
| `Queue.Queue.Examine` | apps/dropbear-2012.55/queue.c:63-67 | the oldest item is returned |
| `CircBuffer.Circ.PositionsAgree` | apps/dropbear-2012.55/circbuffer.c:68-95 | the two modular assertions always hold, without overflow |
| `CircBuffer.Circ.ReadLen` | apps/dropbear-2012.55/circbuffer.c:68-83 | the longest run that can be read without wrapping, zero exactly when empty |
| `CircBuffer.Circ.WriteLen` | apps/dropbear-2012.55/circbuffer.c:85-101 | the longest run that can be written without wrapping, zero exactly when full |
| `CircBuffer.Circ.ReadPtr` | apps/dropbear-2012.55/circbuffer.c:103-109 | the bytes behind the pointer are the oldest of the queue |
| `CircBuffer.Circ.CopyIn` | apps/dropbear-2012.55/circbuffer.c:111-118 | filling the free space changes nothing in the queue |
| `CircBuffer.Circ.IncrWrite` | apps/dropbear-2012.55/circbuffer.c:120-128 | the bytes after the write position join the queue, or the call exits |
| `CircBuffer.Circ.IncrRead` | apps/dropbear-2012.55/circbuffer.c:131-139 | the oldest bytes leave the queue, or the call exits |
| `CircBuffer.Append` | apps/dropbear-2012.55/common-channel.c:711-733 | the copy loop appends exactly the message, in at most two passes |
| `FlowControl.NeverExits` | apps/dropbear-2012.55/common-channel.c:687-740 | in every run of two channel ends, opened, refused or failing to connect, no exit or assertion fires: oversize, window, data after EOF, use after close, unknown channel, unexpected reply |
| `FlowControl.CreditLaw` | apps/dropbear-2012.55/common-channel.c:621-757 | in every run the receiver's window equals what the sender may send plus data and adjustments in flight plus what was dropped |
| `FlowControl.SentWithinGrants` | apps/dropbear-2012.55/common-channel.c:621-661 | in every run data sent never exceeds the window granted |
| `FlowControl.WindowConserved` | apps/dropbear-2012.55/common-channel.c:431-445 | in every run window open, window due and bytes held add up to the configured window, and two thirds are open once the buffers are drained |
| `FlowControl.DataIntact` | apps/dropbear-2012.55/common-channel.c:687-740 | while nothing is dropped, both streams arrive complete and in order |
| `FlowControl.NoStarvation` | apps/dropbear-2012.55/common-channel.c:434-440 | with nothing in flight, held or dropped, the sender of an opened channel has at least two thirds of the window |
| `FlowControl.WroteWindows` | apps/dropbear-2012.55/common-channel.c:411-447 | the three assertions after each write hold |
| `FlowControl.CheckedClose` | apps/dropbear-2012.55/common-channel.c:264-337 | check_close never exits and sends EOF and CLOSE only in lawful order |
| `FlowControl.AdjustStep` | apps/dropbear-2012.55/common-channel.c:745-759 | the caps on window adjustments never bite between two Dropbears |
| `FlowControl.ConnectedStep` | apps/dropbear-2012.55/common-channel.c:343-364 | a deferred confirmation announces exactly the window held back, and the laws of both directions still hold |
| `FlowControl.ConnectFailedStep` | apps/dropbear-2012.55/common-channel.c:343-364 | a connection that fails tells the opener once, and the credit, order and stream laws of both directions still hold |
| `FlowControl.OpenFailureStep` | apps/dropbear-2012.55/common-channel.c:1041-1053 | the opener that is told was waiting, drops its entry, and the laws of both directions still hold |
| `ChannelEnds.EmptyRead` | apps/dropbear-2012.55/common-channel.c:630-650 | a read that ends the stream closes its descriptor and changes nothing else; an interrupted one changes nothing |
| `ChannelEnds.FullRead` | apps/dropbear-2012.55/common-channel.c:621-673 | a read with bytes sends the longest beginning that window, packet size and payload buffer have room for |
| `ChannelEnds.FailedWrite` | apps/dropbear-2012.55/common-channel.c:411-425 | a failed write closes its descriptor and changes nothing else |
| `ChannelEnds.DataFrom` | apps/dropbear-2012.55/common-channel.c:687-740 | data from any peer is stored, dropped or refused, each exactly when it should be |
| `ChannelEnds.WrittenOut` | apps/dropbear-2012.55/common-channel.c:411-447 | the window is given back in one message as soon as a third is due and not before |
| `ChannelEnds.CheckSends` | apps/dropbear-2012.55/common-channel.c:264-337 | what check_close sends: EOF if and only if the readers are closed and it has not been sent; CLOSE only when allowed and nothing is left to write, and always then; and when the entry goes |
| `ChannelEnds.FlushSends` | apps/dropbear-2012.55/common-channel.c:264-337 | when the program behind a channel has ended, what is left to read of it is sent first |
| `ChannelEnds.EndsInOrder` | apps/dropbear-2012.55/common-channel.c:264-390 | over every run, of all that an end sends CLOSE is one and last, EOF at most one, and no data follows it |
| `ChannelEnds.ClosesDown` | apps/dropbear-2012.55/common-channel.c:264-390 | from every state of every run in which the local readers of both ends have ended, delivering, writing out and checking removes both entries, each having sent one CLOSE |
| `Channel.Entry.constructor` | apps/dropbear-2012.55/common-channel.c:100-167 | a new entry is as specified |
| `Channel.Entry.SendChannelData` | apps/dropbear-2012.55/common-channel.c:602-673 | refines the specified send, whose effect for every kind of read is ChannelEnds.EmptyRead and ChannelEnds.FullRead |
| `Channel.Entry.ReceiveData` | apps/dropbear-2012.55/common-channel.c:687-740 | refines the specified receipt, with its exits and its drop |
| `Channel.Entry.WriteOut` | apps/dropbear-2012.55/common-channel.c:411-447 | refines the specified write with its window adjustment; its assertions follow from conservation |
| `Channel.Entry.ReceiveAdjust` | apps/dropbear-2012.55/common-channel.c:745-759 | refines the capped adjustment |
| `Channel.Entry.ReceiveConfirmation` | apps/dropbear-2012.55/common-channel.c:1006-1038 | refines the confirmation, or exits when none is awaited |
| `Channel.Entry.ReceiveOpenFailure` | apps/dropbear-2012.55/common-channel.c:1041-1053 | refines the failure of an opening, or exits when none is awaited |
| `Channel.Entry.CheckInProgress` | apps/dropbear-2012.55/common-channel.c:343-364 | refines both outcomes of a deferred connection |
| `Channel.Entry.SendCloseMsg` | apps/dropbear-2012.55/common-channel.c:368-390 | refines sending CLOSE and closing the descriptors |
| `Channel.Entry.CheckForClose` | apps/dropbear-2012.55/common-channel.c:264-337 | refines the close decision with its flushing reads |
| `Channel.Entry.CloseChanFd` | apps/dropbear-2012.55/common-channel.c:924-963 | refines which descriptors close |
| `Rsa.PaddedIsEncoded` | apps/dropbear-2012.55/rsa.c:367-422 | the padded message has the form of section 9.2.1 of RFC 2437 |
| `Rsa.EncodedUnique` | apps/dropbear-2012.55/rsa.c:367-422 | that form determines the padded message |
| `Rsa.PadEm` | apps/dropbear-2012.55/rsa.c:379-422 | the padding loop yields that number, and exits exactly for moduli under 38 bytes |
| `Rsa.Sign` | apps/dropbear-2012.55/rsa.c:273-365 | for every invertible blinding value the signature is em^d mod n padded to the size of n; otherwise an exit |
| `Rsa.BlindingCancels` | apps/dropbear-2012.55/rsa.c:297-331 | the blinded computation equals em^d mod n |
| `Rsa.Verify` | apps/dropbear-2012.55/rsa.c:216-264 | succeeds exactly when the size, the range and s^e mod n are right |
| `Rsa.EmittedAccepted` | apps/dropbear-2012.55/rsa.c:216-365 | an emitted signature that ends the buffer is accepted |
| `Rsa.RecoversAllIffDistinct` | apps/dropbear-2012.55/genrsa.c:65-88 | verification recovers every number below n if and only if the primes differ |
| `Rsa.GetRsaPrime` | apps/dropbear-2012.55/genrsa.c:92-131 | the first candidate prime whose predecessor is coprime to e, with its top bit set |
| `Rsa.GenRsaPrivKey` | apps/dropbear-2012.55/genrsa.c:40-89 | a generated key has inverse exponents modulo p-1 and q-1, and the inversion never fails |
| `Rsa.GeneratedSizeSuffices` | apps/dropbear-2012.55/genrsa.c:65-72 | a generated key of at least 36 bytes has room for the padding |
| `Rsa.SignThenVerify` | apps/dropbear-2012.55/rsa.c:216-365 | with distinct primes, signing and verifying succeeds for every message exactly when the blinding value is invertible |
| `Verifying.RsaAcceptsIff` | apps/dropbear-2012.55/rsa.c:216-264 | a string is accepted if and only if it announces the size of the modulus, is below it, and its e-th power is an encoded message for the digest |
| `Verifying.OneDigest` | apps/dropbear-2012.55/rsa.c:216-264 | no RSA signature is accepted for two digests |
| `NumberTheory.InverseMeansCoprime` | apps/dropbear-2012.55/rsa.c:309-312 | when mp_invmod fails there is no inverse |
| `NumberTheory.Fermat` | apps/dropbear-2012.55/rsa.c:297-331 | a^(p-1) is 1 modulo a prime p that does not divide a |
| `Dss.GetQ` | apps/dropbear-2012.55/gendss.c:71-87 | a prime above 2^159 |
| `Dss.GetP` | apps/dropbear-2012.55/gendss.c:89-146 | the first prime candidate, which is 1 mod 2q |
| `Dss.GetG` | apps/dropbear-2012.55/gendss.c:148-183 | the search always ends, with 1 < g < p and g^q = 1 mod p |
| `Dss.GenRandomMpint` | apps/dropbear-2012.55/random.c:204-231 | the first masked draw below the bound |
| `Dss.EveryValueDrawn` | apps/dropbear-2012.55/random.c:199-231 | every value from 0 to the bound can be drawn |
| `Dss.GenDssPrivKey` | apps/dropbear-2012.55/gendss.c:46-69 | a generated key meets section 4.6 of FIPS 186-4 |
| `Dss.DssSign` | apps/dropbear-2012.55/dss.c:295-411 | the blob holds r and s zero-padded to 20 bytes each, and the exits are exactly a k without inverse and an r or s over 20 bytes |
| `Dss.DssVerify` | apps/dropbear-2012.55/dss.c:164-258 | accepts exactly 40 bytes with s invertible, r and s below q, and v equal to r |
| `Dss.EmittedVerifiesIff` | apps/dropbear-2012.55/dss.c:164-411 | with q below 2^160 an emitted signature verifies if and only if s is not zero |
| `Dss.DssSignThenVerify` | apps/dropbear-2012.55/dss.c:295-411 | signing then verifying succeeds exactly when k is not 0 mod q and m + xr is not 0 mod q |
| `Verifying.DssAcceptsIff` | apps/dropbear-2012.55/dss.c:164-258 | a string is accepted if and only if it is 40 bytes r and s below q and the equations of section 4.7 of FIPS 186-4 hold with an inverse of s |
| `SignKey.RsaSignatureVerifies` | apps/dropbear-2012.55/signkey.c:366-434 | a wrapped RSA signature that ends the buffer verifies |
| `SignKey.DssSignatureVerifiesIff` | apps/dropbear-2012.55/signkey.c:366-434 | a wrapped DSS signature verifies if and only if s is not zero |
| `Verifying.AcceptedBySomeKey` | apps/dropbear-2012.55/signkey.c:390-434 | a wrapped signature is accepted only if one of the keys accepts what is in it |
| `Buffer.Buf.PutBytes` | apps/dropbear-2012.55/buffer.c:274-277 | the bytes are written at the position, or the call exits and nothing changes |
| `Buffer.Buf.PutByte` | apps/dropbear-2012.55/buffer.c:174-181 | one byte is stored at the position wherever that is within the allocation, or the call exits and nothing changes |
| `Buffer.OverrunIff` | apps/dropbear-2012.55/buffer.c:174-181 | the store is past the allocation exactly when the position is at the size and the length below it |
| `Buffer.OverrunReached` | apps/dropbear-2012.55/buffer.c:107-139 | two permitted calls lead to that state |
| `Buffer.Buf.SetLen` | apps/dropbear-2012.55/buffer.c:107-112 | the length is set within the size, the position untouched |
| `Buffer.Buf.SetPos` | apps/dropbear-2012.55/buffer.c:122-128 | the position is set within the length |
| `Buffer.Buf.IncrPos` | apps/dropbear-2012.55/buffer.c:143-150 | the position moves by a signed amount within the length |
| `Buffer.Buf.IncrWritePos` | apps/dropbear-2012.55/buffer.c:131-139 | the position moves within the size and the length follows |
| `Buffer.Buf.GetInt` | apps/dropbear-2012.55/buffer.c:248-255 | the big-endian word at the position |
| `Buffer.Buf.PutMpint` | apps/dropbear-2012.55/buffer.c:282-322 | length and padding computed from the bit count give the mpint encoding of section 5 of RFC 4251, from any position |
| `Buffer.Buf.GetMpint` | apps/dropbear-2012.55/buffer.c:327-352 | refines the specified decoder, failure and exit included |
| `Buffer.ReadBack` | apps/dropbear-2012.55/buffer.c:257-277 | what was written can be read from where it was put |
| `KeyCodec.MpintRoundTrip` | apps/dropbear-2012.55/buffer.c:282-352 | every number that fits the limit round-trips, whatever follows |
| `KeyCodec.MpintLimit` | apps/dropbear-2012.55/buffer.c:37-38 | the limit is 8239 bits exactly |
| `KeyCodec.MpintShortest` | apps/dropbear-2012.55/buffer.c:296-307 | the encoding is the shortest with a clear top bit |
| `KeyCodec.StringRoundTrip` | apps/dropbear-2012.55/buffer.c:206-224 | strings up to the limit round-trip |
| `Encodings.Examples` | apps/dropbear-2012.55/buffer.c:282-322 | the examples of section 5 of RFC 4251 |
| `Encodings.FirstByteHighest` | apps/dropbear-2012.55/buffer.c:327-352 | numbers are big-endian |
| `Encodings.MpintOfAny` | apps/dropbear-2012.55/buffer.c:327-352 | any bytes: a number exactly when the length is within the limit and there and the sign bit clear, a failure when too long or negative, else an exit |
| `KeyCodec.PrivKeyRoundTrip` | apps/dropbear-2012.55/signkey.c:149-250 | a storable private key round-trips as a whole blob exactly when it is a DSS key or an RSA key with both or neither prime |
| `KeyCodec.RsaBlobRoundTrip` | apps/dropbear-2012.55/rsa.c:87-211 | the RSA part, and the exit when one prime is missing |
| `KeyCodec.DssBlobRoundTrip` | apps/dropbear-2012.55/dss.c:46-160 | the DSS part |
| `Encodings.KeyLayout` | apps/dropbear-2012.55/rsa.c:169-211 | a private key blob is the public key of section 6.6 of RFC 4253 with the private numbers after it |
| `Encodings.LongEnoughIff` | apps/dropbear-2012.55/rsa.c:87-127 | the size check passes exactly from 512 bits on |
| `Encodings.ShortRefused` | apps/dropbear-2012.55/rsa.c:87-127 | a shorter modulus is refused whatever follows |
| `OpenSsh.BerRoundTripIff` | apps/dropbear-2012.55/keyimport.c:239-342 | headers of every class with tags below 2^28 and lengths below 2^24 read back, in 32 bits, exactly for tags up to 30 |
| `OpenSsh.BerWrite` | apps/dropbear-2012.55/keyimport.c:289-342 | with a destination the header is written, without one it is only counted, and the counts agree |
| `OpenSsh.WriteBlob` | apps/dropbear-2012.55/keyimport.c:869-920 | the sizing pass equals the writing pass, and the bytes are the DER sequence of the integers |
| `OpenSsh.AssembledIsOriginal` | apps/dropbear-2012.55/keyimport.c:601-656 | the blob put together from the written integers is the original Dropbear blob |
| `Encodings.RsaNumbers` | apps/dropbear-2012.55/keyimport.c:740-822 | the nine numbers of an RSA key are those of RSAPrivateKey, the derived ones by their congruences |
| `Encodings.DssNumbers` | apps/dropbear-2012.55/keyimport.c:824-862 | the six numbers of a DSS key |
| `Encodings.DerExamples` | apps/dropbear-2012.55/keyimport.c:289-342 | a sequence and a long length in DER |
| `OpenSsh.WrittenReadsBack` | apps/dropbear-2012.55/keyimport.c:585-920 | reading gives back every key that is written |
| `OpenSsh.OpensshRead` | apps/dropbear-2012.55/keyimport.c:585-673 | the interleaved loop refines the specified reader |
| `AlgoMatch.ScansAgree` | apps/dropbear-2012.55/cli-algo.c:72-93 | the two scans, nested in opposite orders, choose the same name or fail together |
| `AlgoList.PickIsFirst` | apps/dropbear-2012.55/svr-algo.c:73-94 | the choice is the first of the client's names that the server offers |
| `AlgoList.SplitJoined` | apps/dropbear-2012.55/common-algo.c:271-289 | splitting undoes joining for up to 20 names |
| `AlgoList.SplitInPlace` | apps/dropbear-2012.55/svr-algo.c:53-71 | the words are the C strings left in the array by the in-place split |
| `AlgoList.ServerMatch` | apps/dropbear-2012.55/svr-algo.c:73-95 | the nested loops find the specified row and guess flag |
| `AlgoList.ClientMatch` | apps/dropbear-2012.55/cli-algo.c:72-93 | the nested loops find the specified row and guess flag |
| `AlgoList.MatchAlgo` | apps/dropbear-2012.55/svr-algo.c:35-100 | the whole match on a received list, with the exit for a string over 1400 bytes, the length check and the stray zero byte |
| `AlgoList.PutAlgolist` | apps/dropbear-2012.55/common-algo.c:271-289 | the list is the usable names joined by commas, or an exit exactly when it exceeds 160 bytes |
| `AlgoList.WireAgreement` | apps/dropbear-2012.55/svr-algo.c:35-100 | for tables of at most 20 non-empty comma-free usable names both ends pick the same name from the lists on the wire, or both fail |
| `Des.FPInvertsIP` | apps/libdes-4.04b/des_locl.h:483-505 | the final permutation inverts the initial one, and conversely |
| `Des.RoundsUndo` | apps/libdes-4.04b/des_enc.c:88-151 | with the halves exchanged, the rounds of the other direction undo the rounds one by one |
| `Des.SingleInverts` | apps/libdes-4.04b/des_enc.c:61-160 | decryption inverts encryption for every round function, schedule and block |
| `Des.TripleIsThreeSingles` | apps/libdes-4.04b/des_enc.c:256-300 | the fused triple form equals three single operations |
| `Des.TripleInverts` | apps/libdes-4.04b/des_enc.c:256-300 | triple decryption inverts triple encryption |
| `DesReference.IPIsTable` | apps/libdes-4.04b/des_locl.h:483-494 | bit by bit, the five swaps are the initial permutation table of FIPS 46-3 |
| `DesReference.SingleIs` | apps/libdes-4.04b/des_enc.c:61-160 | DES is the recurrence L(i+1) = R(i), R(i+1) = L(i) xor f(R(i), K(i)), with the key words upwards to encrypt and downwards to decrypt, between the permutations |
| `DesReference.TripleIs` | apps/libdes-4.04b/des_enc.c:256-300 | triple DES is encrypt, decrypt, encrypt in that order, by that reference, and decryption the reverse |
| `Des.DesEncrypt` | apps/libdes-4.04b/des_enc.c:61-160 | the in-place routine computes single DES |
| `Des.DesEncrypt2` | apps/libdes-4.04b/des_enc.c:162-250 | the in-place rounds without permutations |
| `Des.DesEncrypt3` | apps/libdes-4.04b/des_enc.c:256-277 | the in-place routine computes the fused triple form |
| `Des.DesDecrypt3` | apps/libdes-4.04b/des_enc.c:279-300 | likewise for decryption |
| `DesModes.CbcRoundTrip` | apps/libdes-4.04b/cbc_enc.c:80-131 | for every length decryption returns the message and both sides keep the same chaining value |
| `DesModes.CbcSplit` | apps/libdes-4.04b/des_enc.c:323-346 | encrypting whole blocks and then the rest is encrypting the whole |
| `DesModes.CbcDecryptSplit` | apps/libdes-4.04b/des_enc.c:347-378 | likewise for decryption |
| `ModesReference.CbcEncryptIs` | apps/libdes-4.04b/des_enc.c:323-346 | cipher block i is the encryption of text block i xored with cipher block i-1 or the initial vector, byte for byte |
| `ModesReference.CbcDecryptIs` | apps/libdes-4.04b/des_enc.c:347-378 | text block i is the decryption of cipher block i xored with the one before, cut to the length |
| `DesModes.CbcEncryptLoop` | apps/libdes-4.04b/des_enc.c:323-346 | the block loop computes CBC encryption, the short last block padded with zeros |
| `DesModes.CbcDecryptLoop` | apps/libdes-4.04b/des_enc.c:347-378 | the block loop computes CBC decryption, the last block cut short |
| `DesModes.DesCbcEncrypt` | apps/libdes-4.04b/cbc_enc.c:61-131 | CBC that leaves ivec alone |
| `DesModes.DesNcbcEncrypt` | apps/libdes-4.04b/des_enc.c:304-381 | CBC that carries ivec from call to call |
| `DesModes.DesEde3CbcEncrypt` | apps/libdes-4.04b/des_enc.c:386-497 | the same over triple DES |
| `DesModes.CbcRoutinesRoundTrip` | apps/libdes-4.04b/des_enc.c:304-497 | the routines invert each other for both ciphers and every length |
| `DesModes.Cfb64Encrypt` | apps/libdes-4.04b/cfb64enc.c:66-127 | the byte loop with its resumable position |
| `DesModes.CfbCutting` | apps/libdes-4.04b/cfb64enc.c:81-126 | however a message is cut into calls, the output, ivec and position are those of one call |
| `DesModes.CfbRoundTrip` | apps/libdes-4.04b/cfb64ede.c:81-136 | from every offset decryption recovers the message, and both ends are left alike |
| `ModesReference.Cfb64Is` | apps/libdes-4.04b/cfb64enc.c:81-126 | output byte j is input byte j xored with the encryption of the eight cipher bytes before its block |
| `DesModes.CfbBitsRoundTrip` | apps/libdes-4.04b/cfb_enc.c:83-168 | for 1 to 64 feedback bits each whole unit is recovered up to its mask with equal final ivec |
| `DesModes.WholeBytesKept` | apps/libdes-4.04b/cfb_enc.c:84-99 | when the unit is whole bytes nothing is masked away |
| `ModesReference.ShiftsBytes` | apps/libdes-4.04b/cfb_enc.c:101-125 | with units of whole bytes the shift register is a queue of eight bytes |
| `DesModes.DesCfbEncrypt` | apps/libdes-4.04b/cfb_enc.c:67-168 | the unit loop with the shift register, and no effect above 64 bits |
| `Scp.TransferCorrect` | apps/dropbear-2012.55/scp.c:600-1104 | for every acceptable tree the receiver reads every byte sent, its reads and writes are the sender's in reverse, and what it makes is an exact copy if and only if no mode has the sticky bit, no directory name is over 1024 bytes and, with -p, no time is before 1970 |
| `Scp.MadeExactlyIff` | apps/dropbear-2012.55/scp.c:658-745 | for every tree, what is made of the records is a faithful copy if and only if no mode has the sticky bit, no directory name is over 1024 bytes and, with -p, no time is before 1970 |
| `Scp.MaskedIs` | apps/dropbear-2012.55/scp.c:658-660 | the mode mask takes away the sticky bit and nothing else |
| `Scp.FileModeSameIff` | apps/dropbear-2012.55/scp.c:1060-1085 | with -p or under any umask, a file gets the right mode if and only if it has no sticky bit |
| `Scp.StickyLost` | apps/dropbear-2012.55/scp.c:744-745 | a directory of mode 1777 arrives as 777 |
| `Scp.FileLineParses` | apps/dropbear-2012.55/scp.c:925-941 | masked mode, size and name of a file record read back |
| `Scp.DirLineParses` | apps/dropbear-2012.55/scp.c:744-745 | masked mode and name of a directory record read back, the name cut at 1024 bytes |
| `Scp.TimesLineParses` | apps/dropbear-2012.55/scp.c:893-910 | every pair of times arrives as printed unsigned and read back with saturation at the largest long |
| `ScpSafety.ReceiverStaysInside` | apps/dropbear-2012.55/scp.c:938-941 | whatever bytes a sender sends, no entry made at any depth has a slash in its name or is ".." |
| `ScpSafety.EntryRecord` | apps/dropbear-2012.55/scp.c:925-941 | what is taken for a file or directory record is a letter, four octal digits, a size and a name, and nothing else |
| `ScpSafety.RecordsAre` | apps/dropbear-2012.55/scp.c:658-745 | four records byte for byte |
| `ScpSafety.AcknowledgedByZero` | apps/dropbear-2012.55/scp.c:600-769 | every acknowledgement waited for is a zero byte |
| `ScpRun.NeverBothWait` | apps/dropbear-2012.55/scp.c:1111-1139 | for every tree, pipe capacity and schedule, unless both are done one of the two can go on |
| `ScpRun.StepAdvances` | apps/dropbear-2012.55/scp.c:1111-1139 | every step taken brings the end nearer, so every transfer ends |
| `ScpRun.SendNode` | apps/dropbear-2012.55/scp.c:600-769 | the sender's procedures make the specified sequence of writes and waits, modes masked and names cut |
| `ScpRun.ReceiveLoop` | apps/dropbear-2012.55/scp.c:826-1104 | the receiver's recursive loop refines the specified receiver |
| `ScpRun.SendContent` | apps/dropbear-2012.55/scp.c:679-699 | the block loop sends the content whole and in order |
| `ScpRun.ReceiveContent` | apps/dropbear-2012.55/scp.c:1004-1053 | the file gets exactly the announced bytes and no store leaves the buffer |
| `ScpRun.AllocBuf` | apps/dropbear-2012.55/scp.c:1223-1248 | the static buffer only grows, to a positive multiple of the unit that holds a block of the file system |

## Left out

- zlib streams, SHA-1, HMAC, AES, libtommath and base64: foreign code, present as parameters.
- The PEM lines of an OpenSSH key file, and encrypted key files, which the program refuses.
- First-packet guesses: `first_kex_packet_follows` is modelled when received but never sent, as in Dropbear itself.
- Identification lines, authentication and the retry counter: they only add packets and exits of their own, which the runs allow at any time.
- Channel requests, listeners, terminals, child processes and signals; several channels at once differ only in their index.
- `buf_resize`, `buf_newcopy` and public key blobs: easy variants of members that are there.
- I/O errors and error records in scp, overwriting of existing files, and the progress meter.
- The key schedule and the S-box tables of DES: the theorems hold for any.
- `des_3cbc_encrypt`, whose own comment warns against its use.
- OpenSsh.BerRoundTripIff: tags from 2^28 on, for which the writer's own shift is undefined in C, and lengths of more than three bytes, whose accumulation overflows.
- PacketStream.DeliversInOrder: the context of each exchange is given; that both ends derive the same ones is SafetyTheorems.KeysAgree, that the receiver has sent its own NEWKEYS before it gets one is SafetyTheorems.DataAllowedExactly, and that MAC sizes are equal in both directions is SafetyTheorems.OneMacPerEnd.
- PacketReader.CallMeans: asks that decrypting a block gives a block, which every cipher mode of the program does, and that MAC sizes are equal in both directions.
- Progress.EveryRunCompletes: asks that no packet made so far is one its receiver refuses (unknown types, disconnection, requests before authentication), since the program exits on those; handlers that would exit for reasons of their own are told not to.
- FlowControl.DataIntact: bytes that arrive while the local side is closed are dropped by the program, so the streams are only compared while nothing has been dropped.
- Rsa.GenRsaPrivKey: random buffers and the next prime are inputs, and the generator gives up only when the supply of buffers ends.
- Session.SshSession.FlushReplyQueue: asks that data not be allowed while our NEWKEYS is outstanding, which SafetyTheorems.DataAllowedExactly provides.
- OpenSsh.BerWrite: only the one-byte tags and the lengths below 2^24 that the program writes.
- Buffer.Buf.PutByte: leaves out only the positions where the program would store past its allocation, as Buffer.OverrunIff says exactly.
- Agreement.NegotiationAgrees: the runs negotiate on lists of names; that lists of at most 20 names in 160 bytes give the same choices on the wire is WireLists.NegotiationOnWire, and longer lists end in the exits of AlgoList.PutAlgolist and AlgoList.MatchAlgo.
- Session.SshSession.EncryptOrHold: keeps the reply queue as a sequence; the linked list of the program is Queue.PacketList.
- PacketStream.WholePacket: a context without MAC has 8-byte blocks, as the initial one has and no table entry changes; read_packet would take a complete one-block packet without MAC for a closed connection, which needs 16-byte blocks.
- Scp.TransferCorrect: paths fit the program's path buffers, file sizes an off_t and times a long of 64 bits; the target is a directory, and the file system keeps the modes it is given (some clear set-user-id bits on writing).
- DesModes.DesCfbEncrypt: for units that are not whole bytes the shift register's bit movement is modelled as the program computes it; for whole bytes ModesReference.ShiftsBytes says what it is.
