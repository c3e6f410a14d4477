# A verified model of the receiver's core

This project models, in Dafny, the parts of a USB DVB-S2 receiver's software that compute: its message
ciphers and card-server protocols, its transport stream and table handling, the scrambling algorithm it
undoes, the interpreter that uploads the demodulator's firmware patch, its calendars, and the structures its
threads share. It proves what those parts are for. `dafny verify dfyconfig.toml` checks all of it.

Code that changes buffers and fields step by step is modelled by classes and methods over arrays, each proved
against a function on values; the functions are then what the theorems are about. Code that only computes is
modelled by functions. There is one module a file:

| modules | what they model |
|---|---|
| `Bytes`, `Wire`, `Buffers`, `TsPacket`, `Tables`, `Wrappers` | bytes and their bits, big-endian words and section lengths, memcpy, the packet header, rows of tables |
| `DesTables`, `Des`, `TripleDes` | DES and two-key triple DES in CBC mode (FIPS 46-3) |
| `DesBoxes`, `DesStandard` | the S-boxes against their published criteria, and a published test vector |
| `GaloisField`, `AesTables`, `Aes`, `AesStandard` | AES-128 (FIPS-197), with the S-box tables and the column mixing as inverses; its S-box and example as published |
| `Md5`, `Md5Standard` | streaming MD5 (RFC 1321), and a digest printed there |
| `Newcamd`, `Cs378x` | the two card-server wire protocols built on the ciphers |
| `Crc`, `Crc32` | the MPEG-2 CRC and what errors it detects, and the mirrored CRC-32 against it |
| `PatchScript`, `PatchLoader`, `PatchFormat` | an abstract script language for firmware patches, the byte-code loader that runs its encoding, and that encoding and its effects in plain numbers |
| `TsFraming` | acquiring and keeping packet synchronisation over reads of any size |
| `EngineStream` | the receiver's loop: each read descrambled in the buffer, then framed |
| `Psi`, `SectionScan`, `SectionRelay` | sections into packets and back (engine), sections out of payloads (scanner), and the one reading the other |
| `PmtRewrite` | the program map table rewritten for the player |
| `Calendar`, `Mjd` | civil dates and ticks, and the two conversions of Modified Julian Days |
| `DvbCsaTables`, `DvbCsa` | the scrambling algorithm of libdvbcsa, packet by packet, with its tables |
| `DvbCsaWords`, `DvbCsaTranspose`, `DvbCsaBlockTranspose` | the words of its bit-sliced form, 128 bits each, and how packets get into their lanes and back |
| `DvbCsaLane`, `DvbCsaSlices`, `DvbCsaRegisters`, `DvbCsaBatch` | its circuits in one lane and on words, its block registers, and a batch, proved to do the same to every packet |
| `Csa`, `Scrambling` | descrambling in batches; and over libdvbcsa, as the inverse of scrambling |
| `EpgSeen`, `UsbRing`, `CamStore` | the table of events already sent, the USB ring, the store of keys and ECMs |

Bytes of ciphers, tables and streams are 8-bit vectors, words of ciphers and CRCs 32-bit ones,
words of the bit-sliced cipher sequences of 128 bits. Elsewhere
numbers are unbounded and every width the source relies on is written out: message ids wrap at 2^16, key
generations at 2^32, the byte count of MD5 at 2^64. Random padding and initialisation vectors, arriving bytes,
the demodulator's answers and the failures of sockets, the network and the two-wire bus are parameters or
oracles, and what leaves the program is a recorded sequence.

Results that are negative, or where code and comment part:

* A cs378x payload of 256 bytes is accepted by the sender, but its length byte wraps; the round trip holds
  exactly up to 255 bytes (`Cs378x.RoundTrip`).
* The formula of ETSI EN 300 468 annex C is wrong for every day from MJD 1 to 15078, and the two readings of
  an event's start agree exactly from 15079 on (`Mjd.AnnexIsWrong`, `Mjd.StartsAgree`). That the formula is
  computed in doubles never matters (`Mjd.RoundingPlaysNoPart`).
* `udp_ts_send_selected_pmt` tests the room for a stream entry before stripping it: a section over 1024 bytes
  can be refused although its stripped form would fit (`PmtRewrite.StrippableTableRefused`), and accepted
  although it is longer than the buffer (`PmtRewrite.LongTableFits`); `PmtRewrite.PassIsRewriting` says when. On the sections it
  is given in practice the test never fires (`PmtRewrite.SmallIsRewritable`).
* The engine looks for sync, descrambles from there and looks for sync again. Descrambling can bring out sync
  bytes where there were none, and the second search then stops short of the first (`EngineStream.FalseStart`);
  the packets come out as they should exactly while it does not (`EngineStream.StreamDescrambles`).
* `psi_assemble` starts afresh at every packet that starts a section, right behind the pointer: a section that
  ends in the packet in which the next one starts is lost, and so is every one that starts behind another in a
  packet (`Psi.GroupGives`).
* `dtv_utc_split` inverts `dtv_utc_ticks` exactly for times whose ticks fit 64 bits (`Calendar.SplitOfTicks`).
* Equal key generations mean equal keys only while fewer than 2^32 updates lie between two readings
  (`CamStore.GenerationWraps`).
* Never reached: the reset for an overfull buffer in the framing loop, the reset for a full section buffer in
  `psi_assemble`, the overflow tests of both descriptor loops in `udp_ts_send_selected_pmt` (the whole loop was
  found to fit before, `PmtRewrite.CopyLoop`), the last return of `epg_already_sent`, the flushes in
  `dtv_csa_set_keys`, and the size check in `cs378x_recv`.
* `udp_ts_send_selected_pmt` keeps the caller's list of pids until the table is rebuilt, as its comment says,
  but it writes the PCR pid and the teletext pid before, and leaves them written when a later stream entry is
  malformed (`PmtRewrite.SendSelectedPmt`).
* The comment above `recv_message` in `core/dtv_camd_newcamd.c` promises 0 for a protocol error; the code
  returns -1, and the model follows the code.
* The value a ping stores in a patch variable does not depend on the ping (`PatchLoader.Loader.RunPing`).

## Model

| member | source | states |
|---|---|---|
| `Des.RoundsInverse` | core/dtv_camd_crypt.c:190-215 | the Feistel rounds run on the swapped halves with the subkeys reversed undo themselves, for any number of rounds and any subkeys |
| `Des.PermutationsCancel` | core/dtv_camd_crypt.c:15-27 | the initial and final permutation tables are inverses of each other on every block, in both orders |
| `Des.CipherInverse` | core/dtv_camd_crypt.c:190-227 | deciphering undoes enciphering on every block under every list of 48-bit subkeys (FIPS 46-3) |
| `Des.ShiftsAccumulate` | core/dtv_camd_crypt.c:133-157 | the total rotation used for each subkey is the running sum of the table of shifts |
| `Des.Complementation` | core/dtv_camd_crypt.c:133-215 | complementing key and block complements the result: the standard's complementation property, for every key and block |
| `DesTables.InverseTables` | core/dtv_camd_crypt.c:15-27 | position by position, the final permutation undoes the initial one |
| `DesBoxes.RowsArePermutations` | core/dtv_camd_crypt.c:59-92 | in every row of every S-box each value comes once: with the outer input bits fixed, different inner bits give different outputs (the designers' criterion S-3) |
| `DesBoxes.InnerBitChangesTwo` | core/dtv_camd_crypt.c:59-92 | changing one of the four inner input bits of an S-box, or the middle two, changes at least two output bits (S-4 and S-5) |
| `DesBoxes.OuterBitChangesTwo` | core/dtv_camd_crypt.c:59-92 | so does changing one of the two outer ones |
| `DesBoxes.FirstTwoChangeOutput` | core/dtv_camd_crypt.c:59-92 | changing the first two input bits and not the last two changes the output, whatever becomes of the two between (S-6) |
| `DesStandard.CipherFunctionIs` | core/dtv_camd_crypt.c:161-188 | f(R, K) of every half and subkey, read off by digits: the boxes' words, the expansion and the round permutation as sums of single bits |
| `DesStandard.SubkeyIs` | core/dtv_camd_crypt.c:133-157 | every subkey of every key, read off in the same way |
| `DesStandard.KnownAnswer` | tests/camd_crypt_test.c:45-63 | the key 0123456789abcdef turns the block 4e6f772069732074 into 3fa40e8a984d4815, and back: the test vector of the standard |
| `TripleDes.BlockInverse` | core/dtv_camd_crypt.c:217-227 | on bytes, decrypting with a key undoes encrypting with it, and the other way round |
| `TripleDes.Block3Inverse` | core/dtv_camd_crypt.c:241-279 | the encrypt-decrypt-encrypt chain of two keys is undone by the decrypt-encrypt-decrypt chain |
| `TripleDes.EqualKeysAreOne` | tests/camd_crypt_test.c:132-142 | under one key twice, two-key triple DES is DES, for every key and block, in both directions |
| `TripleDes.CbcRoundTrip` | core/dtv_camd_crypt.c:241-279 | CBC decryption after encryption under the same keys and initialisation vector restores every buffer, whatever its length |
| `TripleDes.CbcRoundTripBack` | core/dtv_camd_crypt.c:241-279 | and encryption after decryption does too |
| `TripleDes.CbcOfConcat` | core/dtv_camd_crypt.c:241-279 | one call over x + y is two calls, the second with the vector the first leaves behind, when x is whole blocks; and the vector left at the end is the same |
| `TripleDes.CbcLeavesTail` | core/dtv_camd_crypt.c:241-279 | a tail of fewer than eight bytes is left as it was, in either direction |
| `TripleDes.BlocksWritten` | core/dtv_camd_crypt.c:241-279 | every block written is E(k1) D(k2) E(k1) of the plaintext mixed with the block written before it, the vector before the first |
| `TripleDes.BlocksRead` | core/dtv_camd_crypt.c:241-279 | and every block read is D(k1) E(k2) D(k1) of the ciphertext, mixed with the block of it before |
| `TripleDes.Permute` | core/dtv_camd_crypt.c:111-118 | the bit-by-bit copying loop leaves in the output exactly the bits the table selects |
| `TripleDes.Rotate28` | core/dtv_camd_crypt.c:122-131 | rotating a 28-bit half in place, bit by bit, is rotation of its bits by the count |
| `TripleDes.SetKey` | core/dtv_camd_crypt.c:133-157 | the schedule built in place holds, bit for bit, the standard's sixteen subkeys of the key |
| `TripleDes.CipherFunction` | core/dtv_camd_crypt.c:161-188 | the in-place round function computes f(R, K) of the standard |
| `TripleDes.SubstituteBox` | core/dtv_camd_crypt.c:161-188 | the nibble written for one S-box is the substitution's, and no other bit changes |
| `TripleDes.FeistelRound` | core/dtv_camd_crypt.c:190-215 | one in-place round is the round of the specification on the two halves |
| `TripleDes.CryptBlock` | core/dtv_camd_crypt.c:190-215 | the in-place block operation is the cipher of the specification, with the subkeys in either order |
| `TripleDes.EdeCbc` | core/dtv_camd_crypt.c:241-279 | the operation leaves the specified ciphertext or plaintext in the output range, nothing else changed, and the vector for the next call, input and output being different buffers |
| `TripleDes.EdeCbcInPlace` | core/dtv_camd_crypt.c:241-279 | and when they are the same place in one buffer |
| `Newcamd.XorSumOfChecked` | core/dtv_camd_newcamd.c:71-92 | data followed by its check byte has check sum zero, which is what a reader tests |
| `Newcamd.ReencodedWellFormed` | core/dtv_camd_newcamd.c:123-131 | re-encoding the length of a section whose length field was right changes nothing |
| `Newcamd.PlainParts` | core/dtv_camd_newcamd.c:79-163 | where header, section, padding and check byte lie in what is enciphered, and that its size is whole blocks |
| `Newcamd.ParseBodyOfPlain` | core/dtv_camd_newcamd.c:168-232 | what a reader makes of an honestly enciphered body: it passes every check and gives back the section |
| `Newcamd.Loopback` | core/dtv_camd_newcamd.c:79-232 | for every accepted section, key pair, padding, vector and message id, a reader with the same key gets the section back with its length re-encoded, and leaves the rest of the stream alone |
| `Newcamd.LoopbackExact` | core/dtv_camd_newcamd.c:79-232 | a section whose length field was right comes back exactly |
| `Newcamd.ServerReads` | core/dtv_camd_newcamd.c:100-163 | what a server reads at each place of an enciphered message: the number of the message, service, CA system and provider of the ECM in their widths, and the section behind them |
| `Newcamd.FrameRead` | core/dtv_camd_newcamd.c:140-163 | what it reads of the message as a whole: how many bytes follow, the ciphertext, and behind it the vector it was made with |
| `Newcamd.AcceptedSizes` | core/dtv_camd_newcamd.c:79-113 | a section is sent exactly when it has 3 to 373 bytes |
| `Newcamd.WordArrives` | core/dtv_camd_newcamd.c:346-397 | a control word comes back, exactly, through up to 64 messages that answer nothing, announcements and stale answers in any order; after one more the connection is given up |
| `Newcamd.ComputeXorSum` | core/dtv_camd_newcamd.c:71-77 | the loop computes the check sum of the specification |
| `Newcamd.PadMessage` | core/dtv_camd_newcamd.c:79-92 | padding in place makes the size whole blocks after the length prefix, adds the check byte, and fails exactly when the buffer is too small |
| `Newcamd.Connection.Send` | core/dtv_camd_newcamd.c:100-163 | sending puts on the wire the specified frame of the section under the next message id, or nothing when the section is not accepted, and reports a refusal or a socket that does not take it all |
| `Newcamd.Connection.Receive` | core/dtv_camd_newcamd.c:168-232 | reading in place classifies every byte stream, good or bad, as the specified parser does, and keeps what follows the message |
| `Newcamd.Connection.ReceiveWord` | core/dtv_camd_newcamd.c:346-397 | the loop that waits for an answer gives what the specification makes of every byte stream |
| `GaloisField.MulLinear` | core/dtv_camd_crypt.c:567-577 | multiplication by a constant distributes over exclusive or in the field |
| `GaloisField.ComputeMul` | core/dtv_camd_crypt.c:567-577 | the shift-and-add loop computes the field product |
| `GaloisField.PolynomialSums` | core/dtv_camd_crypt.c:567-577 | which multiples by powers of x remain when the inverse mixing coefficients meet the mixing ones |
| `GaloisField.MixInverse` | core/dtv_camd_crypt.c:615-684 | the inverse mixing matrix undoes the mixing matrix on every column (FIPS-197 section 5.3.3) |
| `AesTables.InvSBoxInverse` | core/dtv_camd_crypt.c:528-564 | the inverse table undoes the S-box on every byte |
| `AesTables.SBoxInverse` | core/dtv_camd_crypt.c:528-564 | and the S-box the inverse table |
| `AesStandard.SBoxAsPublished` | core/dtv_camd_crypt.c:528-545 | the S-box is that of FIPS-197 section 5.1.1: undoing its affine map gives, for every byte but zero, the inverse in the field of the AES polynomial, and zero for zero |
| `AesStandard.KnownAnswer` | tests/camd_crypt_test.c:188-205 | the example of FIPS-197 appendix C.1: the key 00 01 .. 0f enciphers 00 11 .. ff to 69c4e0d86a7b0430d8cdb78070b4c55a, key expansion included |
| `Aes.SubBytesInverse` | core/dtv_camd_crypt.c:615-684 | the substitutions of a whole state cancel |
| `Aes.ShiftRowsInverse` | core/dtv_camd_crypt.c:615-684 | the row shifts of a whole state cancel |
| `Aes.MixColumnsInverse` | core/dtv_camd_crypt.c:615-684 | the column mixings of a whole state cancel |
| `Aes.RoundsMeet` | core/dtv_camd_crypt.c:615-684 | after each step decryption stands where encryption stood that many steps before its end |
| `Aes.DecryptInvertsEncrypt` | core/dtv_camd_crypt.c:615-684 | decryption undoes encryption for every schedule and block (FIPS-197 sections 5.1 and 5.3) |
| `Aes.SetKey` | core/dtv_camd_crypt.c:579-604 | the in-place key expansion yields the 44 words of FIPS-197 section 5.2 |
| `Aes.Shift` | core/dtv_camd_crypt.c:615-647 | the in-place row shift is that of the specification |
| `Aes.Unshift` | core/dtv_camd_crypt.c:649-684 | the in-place inverse row shift is that of the specification |
| `Aes.MixInPlace` | core/dtv_camd_crypt.c:615-647 | the in-place mixing of the four columns is that of the specification |
| `Aes.UnmixInPlace` | core/dtv_camd_crypt.c:649-684 | the in-place inverse mixing is that of the specification |
| `Aes.EncryptBlock` | core/dtv_camd_crypt.c:615-647 | the in-place encryption writes the specified block into its place in the output and nothing else |
| `Aes.DecryptBlock` | core/dtv_camd_crypt.c:649-684 | the in-place decryption does |
| `Cs378x.DecryptAllInverts` | core/dtv_camd_cs378x.c:105-168 | deciphering block by block undoes enciphering block by block |
| `Crc32.ComputeChecksum` | core/dtv_camd_crypt.c:688-702 | the loop that shifts right computes the checksum as the register of module Crc gives it, mirrored, on bytes fed lowest bit first |
| `Crc32.MirrorBits` | core/dtv_camd_crypt.c:688-702 | bit k of the mirrored word is bit 31 - k of the word: the swaps of the model mean the order in which this code takes its bits |
| `Crc32.MirrorOfStep` | core/dtv_camd_crypt.c:699-700 | a step to the right under the polynomial 0xedb88320 is, in the mirror, a step to the left under 0x04c11db7 |
| `Crc32.ChecksumMirrorsCrc` | core/dtv_camd_crypt.c:688-702 | the checksum of a payload is the inverted mirror image of its MPEG-2 CRC, every byte reversed |
| `Crc32.ChecksumOfConcat` | core/dtv_camd_crypt.c:688-702 | the checksum of x + y is that of y seeded with that of x, for every seed |
| `Crc32.BurstShows` | core/dtv_camd_crypt.c:688-702 | two payloads of a size that differ only within 32 consecutive bits, lowest bit of each byte first, have different checksums, whatever the seed |
| `Crc32.FourBytesShow` | core/dtv_camd_crypt.c:688-702 | so have two that differ only inside four consecutive bytes |
| `Cs378x.ExpectedFits` | core/dtv_camd_cs378x.c:121-168 | whatever the first block says, the announced size fits the buffer: the overflow branch is never taken |
| `Cs378x.ParseOfFrame` | core/dtv_camd_cs378x.c:76-168 | what a reader makes of a frame, by the length byte the frame carries |
| `Cs378x.RoundTrip` | core/dtv_camd_cs378x.c:76-168 | header and payload come back exactly, the stream after them untouched, if and only if the payload is at most 255 bytes, of the 256 the sender accepts |
| `Cs378x.LengthByte` | core/dtv_camd_cs378x.c:84-97 | the length byte announces the message's real size unless the payload has 256 bytes, when it announces an empty one |
| `Cs378x.ServerReads` | core/dtv_camd_cs378x.c:76-116 | what a server reads at each place of a message: command, size, the checksum of the payload, service, CA system, provider, the number of the message and the ECM pid in their widths, the payload, and 0xff to the end |
| `Cs378x.FrameRead` | core/dtv_camd_cs378x.c:98-116 | and of the frame around it: the token of its user, and behind it, block by block, the AES of the message |
| `Cs378x.WordArrives` | core/dtv_camd_cs378x.c:176-214 | a control word arrives, exactly, through up to eight EMM requests; with a ninth the connection is given up |
| `Cs378x.Connection.constructor` | core/dtv_camd_cs378x.c:56-65 | token and key are the CRC of the user's MD5 digest and the MD5 digest of the password |
| `Cs378x.Connection.Send` | core/dtv_camd_cs378x.c:76-116 | sending writes the specified frame under the next message id, refuses only payloads over 256 bytes, and reports a refusal or a socket that does not take it all |
| `Cs378x.Connection.Receive` | core/dtv_camd_cs378x.c:121-168 | block-by-block reading agrees with the specified parser on every byte stream, short and foreign ones included |
| `Cs378x.Connection.ReceiveWord` | core/dtv_camd_cs378x.c:176-214 | the loop that waits for an answer gives what the specification makes of every byte stream |
| `Md5.StepIsOperation` | core/dtv_camd_crypt.c:314-343 | one turn of the loop that renames its variables is one operation of RFC 1321 section 3.4 on fixed registers |
| `Md5.StepsAreOperations` | core/dtv_camd_crypt.c:314-343 | so are any number of turns |
| `Md5.ProcessBySteps` | core/dtv_camd_crypt.c:314-343 | the block transform of the RFC is the loop's result added to the chaining state |
| `Md5.Transform` | core/dtv_camd_crypt.c:314-343 | the in-place transform is the RFC's |
| `Md5.CountInBlock` | core/dtv_camd_crypt.c:355-377 | the 64-bit byte count tells the fill of the block even after it wrapped |
| `Md5.CountInBits` | core/dtv_camd_crypt.c:379-388 | and eight times it is the low 64 bits of the length in bits |
| `Md5.Context.Update` | core/dtv_camd_crypt.c:355-377 | for every cut of the message into updates the context stands where feeding it at once would leave it |
| `Md5.Context.Final` | core/dtv_camd_crypt.c:379-400 | the digest is the fold of the block transform over the padded message of RFC 1321 sections 3.1 to 3.5, and the context is wiped |
| `Md5.Context.constructor` | core/dtv_camd_crypt.c:345-353 | a new context has been fed nothing |
| `Md5.Sum` | core/dtv_camd_crypt.c:402-408 | the one-call form gives the digest of its input |
| `Md5Standard.KnownAnswer` | tests/camd_crypt_test.c:145-155 | the digest of abc is 900150983cd24fb0d6963f7d28e17f72, as RFC 1321 appendix A.5 prints it |
| `Crc.AcceptsIffResidueZero` | core/ts_services.c:289-294 | a section passes the test exactly when the CRC over all of it, trailer included, is zero |
| `Crc.OwnCrcAccepted` | engine/ts_udp.c:311-315 | anything followed by its own CRC is accepted |
| `Crc.FeedBitsLinear` | core/ts_services.c:378-389 | the register after fed bits is linear in the start value and the bits, for any length |
| `Crc.BurstLeavesTrace` | core/ts_services.c:378-389 | an error pattern confined to 32 bits, anywhere, never leaves the register at zero |
| `Crc.BurstRefused` | core/ts_services.c:378-410 | of two sections of one size that differ only within 32 consecutive bits at most one is accepted |
| `Crc.FourBytesRefused` | core/ts_services.c:281-332 | if a section is accepted, every other of its size that differs only inside four consecutive bytes, in the trailer or across its edge too, is refused |
| `Crc.FeedByte` | core/ts_services.c:378-389 | one byte of the loop is eight bits fed to the register |
| `Crc.ComputeCrc` | engine/ts_udp.c:47-59 | the loop computes the CRC of the specification |
| `Crc.Check` | core/ts_services.c:479-497 | the entry test of a section is the specified acceptance |
| `PatchScript.PokeConcat` | core/avl62x1.c:180-205 | writing x and then y behind it is writing x + y, with the address space's wrap-around |
| `PatchScript.SentStep` | core/avl62x1.c:180-205 | one write as specified is its first packet, and then, if the bus carried it, the write of the rest |
| `PatchScript.SentModulo` | core/avl62x1.c:180-205 | only the low 24 bits of the address matter, to failed writes too |
| `PatchScript.PackedWritesChunks` | core/avl62x1.c:804-835 | interpreting a packed area writes the chunks it encodes, each at its offset |
| `PatchFormat.RecordWords` | core/avl62x1.c:1039-1100 | the words of a record in the file, its size first, and of each of the fourteen commands by number |
| `PatchFormat.TermMeans` | core/avl62x1.c:1052-1081 | what a term does, read off its two words: the operation, what is done to the operand first, and where it comes from |
| `PatchFormat.PokeShows` | core/avl62x1.c:180-205 | what is written can be read at every address it went to, and every other address reads as before, around the end of the address space too |
| `PatchFormat.StoresOnWorkingBus` | core/avl62x1.c:873-938 | behind a bus that works a part of the file is copied as it is, and the processor is held and let go by the one register |
| `PatchFormat.ImmediateOnWorkingBus` | core/avl62x1.c:883-892 | and a value in the script goes to memory most significant byte first, as many bytes as are asked for |
| `PatchFormat.CallsOnWorkingBus` | core/avl62x1.c:850-930 | and the firmware is called by its numbers, its arguments where the register says, the check comparing the word behind them |
| `PatchFormat.ReadsOnWorkingBus` | core/avl62x1.c:902-991 | and reads, polls and the hardware transfer see and change just what they name |
| `PatchLoader.FlatOfWords` | core/avl62x1.c:150-169 | the words of a file are its bytes four by four, most significant first |
| `PatchLoader.Loader.ReadWord` | core/avl62x1.c:162-169 | reading a word advances by four and fails, without moving, exactly at the end |
| `PatchLoader.Loader.SkipWords` | core/avl62x1.c:171-178 | skipping moves past the words and fails exactly when they are not all there |
| `PatchLoader.Loader.Write` | core/avl62x1.c:180-205 | a write of any size, cut into packets of 32 bytes, leaves the device as one write would; when a packet fails, as a write of the bytes before it, and with its error |
| `PatchLoader.Loader.Unpack` | core/avl62x1.c:804-835 | the packed area in the file is written out as the abstract chunks say, up to the first transfer that fails, and malformed ones end with the same result |
| `PatchLoader.Loader.RunCommand` | core/avl62x1.c:837-1003 | a command found in the file leaves device, variables, result and error as the abstract command's execution does, whichever transfers fail, with the reader behind all its words when none does; an unknown command is refused and changes nothing |
| `PatchLoader.Loader.RunValidateCrc` | core/avl62x1.c:858-871 | the check of the remote CRC stores the result the abstract command stores, or ends with the error of the exchange that failed |
| `PatchLoader.Loader.RunPing` | core/avl62x1.c:850-857 | the stored result does not depend on the ping, because the word read after it overwrites its code |
| `PatchLoader.Loader.RunLoadImmediate` | core/avl62x1.c:883-892 | data in the script itself is written and its words passed, or the write's error is returned |
| `PatchLoader.Loader.RunExtract` | core/avl62x1.c:922-931 | the extraction command's arguments reach the device, or the error of the transfer that failed is returned |
| `PatchLoader.Loader.RunSetVariable` | core/avl62x1.c:969-975 | setting a variable leaves the others alone |
| `PatchLoader.Loader.EvalTerm` | core/avl62x1.c:1052-1081 | one term of a condition changes accumulator and variables as the abstract term does; a word that is no term, or names no variable, is refused and changes nothing |
| `PatchLoader.Loader.EvalCondition` | core/avl62x1.c:1049-1083 | a condition of any number of terms evaluates to the abstract one's value, with its stores made |
| `PatchLoader.Loader.RunRecord` | core/avl62x1.c:1039-1100 | a record whose condition is false is skipped to exactly where its execution would have ended; the first error of a condition or command ends it |
| `PatchLoader.Loader.RunScript` | core/avl62x1.c:1039-1100 | the record loop over the encoding of a script is the run of that script, up to its first error |
| `PatchLoader.Loader.Load` | core/avl62x1.c:1005-1107 | loading the encoding of any abstract script leaves the device's memory, the 32 variables, the result and the error code as the script's evaluation gives, whichever bus transfers fail; a file whose header does not fit is refused and touches nothing |
| `PatchLoader.Loader.ParseHeader` | core/avl62x1.c:261-281 | the header's fields come out as the file states them; a file too short for one and one whose sizes do not fit it each have their code |
| `PatchLoader.Loader.CheckHeader` | core/avl62x1.c:1020-1022 | loading refuses a file with one code exactly when its header does not fit, or names another chip or format |
| `TsFraming.FeedConcat` | daemon/avl_tuner_probe.c:248-287 | feeding two reads one after the other emits the packets, and leaves the state, of feeding them joined |
| `TsFraming.FeedAllIsFeed` | daemon/avl_tuner_probe.c:248-287 | so does any number of reads |
| `TsFraming.BoundariesDoNotMatter` | daemon/avl_tuner_probe.c:248-287 | any two cuts of the same byte stream, noisy or not, into reads emit the same packets |
| `TsFraming.TailBounded` | daemon/avl_tuner_probe.c:276-287 | between reads at most four packets' worth of bytes are kept, so the defensive reset is never reached |
| `TsFraming.CleanStream` | daemon/avl_tuner_probe.c:248-287 | a stream of at least five packets comes out packet for packet, whatever the reads |
| `TsFraming.FindSync` | engine/ts_udp.c:5-15 | the search returns the first place from the start with five sync bytes a packet apart, and -1 exactly when there is none |
| `TsFraming.ScanWalks` | daemon/avl_tuner_probe.c:255-275 | a pass hands over, in order, every packet that comes and nothing else: in step the next 188 bytes if a sync byte leads them, and otherwise from the next place with five sync bytes a packet apart |
| `TsFraming.Capture.Frame` | daemon/avl_tuner_probe.c:255-275 | the loop over one buffer emits the packets of the specified scan and stops where it stops |
| `TsFraming.Capture.Read` | daemon/avl_tuner_probe.c:248-287 | one read changes the capture as the specification's step does |
| `TsFraming.TrimHarmless` | engine/usb_dvbs2_engine.c:1767-1771 | the bytes dropped without sync change nothing to come: whatever is read next, the packets, the sync and what is kept after the next trim are those without dropping |
| `EngineStream.ReadDescrambles` | engine/usb_dvbs2_engine.c:1481-1501 | a read of a buffer in step hands over the framer's packets, from the same places and each descrambled, and keeps what the framer keeps, if and only if sync is found where it was before descrambling |
| `EngineStream.StreamDescrambles` | engine/usb_dvbs2_engine.c:1481-1501 | so over any reads of a stream that is in step from where sync is first found, with the words of each read |
| `EngineStream.OnceUnderFixedWords` | engine/usb_dvbs2_engine.c:1422-1425 | under fixed words the packets handed over are those of the stream, each descrambled once, though the kept tails go through the descrambler again |
| `EngineStream.StartStays` | engine/usb_dvbs2_engine.c:1481-1485 | a stream that begins in step always meets the condition |
| `EngineStream.CleanStreamDescrambles` | engine/usb_dvbs2_engine.c:1481-1501 | five or more packets come out in order and descrambled once, however they are read, and nothing is kept |
| `EngineStream.FalseStart` | engine/usb_dvbs2_engine.c:1481-1485 | the condition can fail: a stray sync byte before packets whose last byte becomes the sync byte by descrambling makes the engine start a byte too early |
| `EngineStream.FalseStartHappens` | engine/usb_dvbs2_engine.c:1481-1485 | and there are a packet, a word and a cipher for which it does |
| `EngineStream.Receiver.Read` | engine/usb_dvbs2_engine.c:1481-1771 | a read into the buffer, descrambled there, framed and moved down, is the specified step |
| `Psi.GatherSound` | engine/ts_udp.c:115-131 | after any payload the collection is consistent and short of the buffer, so the branch for a full buffer is dead, and what is given out has the size its header announces |
| `Psi.FeedPiece` | engine/ts_udp.c:61-133 | one packet of a section is collected behind the pieces before it; the last one completes it and no other does |
| `Psi.SectionArrives` | engine/ts_udp.c:61-133 | a section of 3 to 1024 bytes with a correct length, sent as packets, comes out of an assembler, whatever it had collected, with its last packet and not before |
| `Psi.SectionsArrive` | engine/ts_udp.c:61-133 | any list of sections comes out again, in order and complete |
| `Psi.CounterIsModulo` | engine/ts_udp.c:81-82 | the counter after n packets is the first plus n, modulo 16 |
| `Psi.PacketsCounted` | engine/ts_udp.c:61-91 | the packets of a section carry its pid and consecutive continuity counters |
| `Psi.ContinuityRuns` | engine/ts_udp.c:61-91 | over any sequence of sections on a pid the counters run on without a gap |
| `Psi.GroupGives` | engine/ts_udp.c:93-133 | of packets broadcast with pointer fields, the end of one section and any number of others in each, exactly the section that starts first in a group comes out, if it ends in the group; one ending in the packet where the next starts is lost, and so are those starting behind another |
| `Psi.BroadcastGives` | engine/ts_udp.c:93-133 | so over any broadcast, whatever the assembler held before, with adaptation fields and pointers of any size |
| `Psi.Assembler.Assemble` | engine/ts_udp.c:93-133 | the in-place assembler is the specified step on every packet, well-formed or not |
| `Psi.Writer.Flush` | engine/ts_udp.c:17-36 | a flush hands over what waits and nothing else, to both ports when there are two, and reports exactly the first port's failure |
| `Psi.Writer.SendPacket` | engine/ts_udp.c:38-45 | datagrams and waiting bytes together are always the packets written, and a datagram of seven packets leaves as soon as it is full |
| `Psi.Writer.SendSection` | engine/ts_udp.c:61-91 | what is written are the section's packets up to the first failed datagram, and the counter has advanced by their number |
| `Psi.BuildPacket` | engine/ts_udp.c:68-86 | the packet built in a buffer is header, pointer, piece and stuffing of the specification |
| `SectionScan.AppendWhole` | core/ts_services.c:516-552 | a section that ends in the given bytes is handed on whole, and just its bytes are taken |
| `SectionScan.AppendPiece` | core/ts_services.c:516-552 | a piece that does not end it is only collected, wherever its header is split |
| `SectionScan.ScanLaid` | core/ts_services.c:572-579 | sections laid into a payload come out in order, and one cut off by its end is held |
| `SectionScan.ProcessLaid` | core/ts_services.c:554-580 | each payload hands on exactly what falls due by the layout, and the scanner stays in step with the sender |
| `SectionScan.SectionsArrive` | core/ts_services.c:509-580 | sections laid into payloads as ISO/IEC 13818-1 section 2.4.4 prescribes reach the parser once each, whole and in order, and nothing else does |
| `SectionScan.SectionsArriveAfterNoise` | core/ts_services.c:509-580 | and again after any payloads at all, from the next payload that starts a section |
| `SectionScan.OnlySectionsParsed` | core/ts_services.c:516-552 | on arbitrary payloads only byte strings of the size they announce, at most 4096, reach the parser |
| `SectionScan.Context.AppendSection` | core/ts_services.c:516-552 | the in-place loop is the specified append, for an empty input too, and its calls of the parser are recorded in order |
| `SectionScan.Context.CollectSome` | core/ts_services.c:525-544 | one turn takes one header byte or as much of the rest as is there |
| `SectionScan.Context.ProcessPayload` | core/ts_services.c:554-580 | processing a payload in place is the specified step, and the loop's break is never taken |
| `SectionRelay.SentIsLaidOut` | engine/ts_udp.c:61-91 | what the engine sends satisfies the layout the scanner is proved against |
| `SectionRelay.ScannerReadsEngine` | core/ts_services.c:611-633 | hence sections sent by the engine are read back by the scanner, all of them and in order |
| `PmtRewrite.ParseOfEncoded` | engine/ts_udp.c:217-235 | a descriptor loop is recovered from its encoding |
| `PmtRewrite.KeptTwice` | engine/ts_udp.c:217-235 | keeping descriptors of what was kept changes nothing |
| `PmtRewrite.ParseOfEntries` | engine/ts_udp.c:237-303 | so are the stream entries of a table |
| `PmtRewrite.ParseOfEncode` | engine/ts_udp.c:183-324 | a table is recovered from its section |
| `PmtRewrite.StripTakesOutCa` | engine/ts_udp.c:217-235 | stripping a loop removes its CA descriptors, keeps all others and, not stripping, keeps all |
| `PmtRewrite.RewritingKeepsTable` | engine/ts_udp.c:183-324 | rewriting the section of a well-formed table that the buffer has room for gives the section of the same table less its CA descriptors, of the length it states and with a valid CRC |
| `PmtRewrite.RewritingTwice` | engine/ts_udp.c:183-324 | rewriting a rewritten section changes nothing, for any source that is accepted, whatever its size, malformed loops included |
| `PmtRewrite.NoCandidatesLeft` | engine/usb_dvbs2_engine.c:136-164 | after stripping no CA candidate is collected, whatever accepted source it was |
| `PmtRewrite.CandidatesOfTable` | engine/usb_dvbs2_engine.c:100-164 | of a well-formed table exactly the pairs its CA descriptors name are collected, each once, in order, up to the capacity, and none for another service |
| `PmtRewrite.PlayerSeesStripped` | engine/ts_udp.c:61-133 | sent as packets, the stripped section of any accepted source is exactly what an assembler collects, whatever it had before: of the length it states, accepted by its CRC, without CA candidates |
| `PmtRewrite.PassIsRewriting` | engine/ts_udp.c:183-324 | a source of any size is accepted if and only if it has a table and, entry by entry, room for it before stripping; then what is sealed is the rewritten section, with the first pids and the last teletext pid |
| `PmtRewrite.SmallIsRewritable` | engine/ts_udp.c:183-324 | a source of up to 1024 bytes, all that the assembler gives out, is accepted if and only if it has a table: its buffer never overflows |
| `PmtRewrite.LongTableFits` | engine/ts_udp.c:183-324 | a longer one can be accepted too: with CA descriptors only, when they are stripped, and not otherwise |
| `PmtRewrite.StrippableTableRefused` | engine/ts_udp.c:183-324 | a longer one can be refused although its stripped form would fit: a loop of 1004 bytes or more of CA descriptors, all of which would go, leaving a section of 21 bytes |
| `PmtRewrite.CopyMeans` | engine/ts_udp.c:237-303 | the loop over the streams succeeds exactly when they are whole entries with room for each, and then writes the stripped entries and gathers their pids up to the capacity |
| `PmtRewrite.CopyFails` | engine/ts_udp.c:241-243 | an entry that runs past the end always fails the pass |
| `PmtRewrite.CopyLoop` | engine/ts_udp.c:217-235 | the in-place copying leaves exactly the descriptors to keep; where the whole loop has room its overflow test never fires |
| `PmtRewrite.FindTeletext` | engine/ts_udp.c:255-264 | the search finds a teletext descriptor exactly when the loop's whole descriptors have one |
| `PmtRewrite.CopyEntry` | engine/ts_udp.c:268-301 | an entry is copied with its loop stripped and its length rewritten, or as it is |
| `PmtRewrite.SendSelectedPmt` | engine/ts_udp.c:183-324 | a refused section changes and sends nothing; the caller's list of pids changes only when the whole table was rebuilt, and then that table is sent, all of it unless a datagram fails, which is the only reason for an error; the pcr pid, and the teletext pid, are already written when a later entry fails |
| `Calendar.FormulaCountsDays` | core/dtv_platform.c:13-23 | the era formula gives the days since 1601-01-01 by counting leap years and months, for every date from then on |
| `Calendar.DateOfInverts` | core/dtv_platform.c:33-52 | the split's date is the inverse of the day count, for every valid date from 1601 |
| `Calendar.DateOfIsValid` | core/dtv_platform.c:33-52 | every day number splits into a valid date from 1601 on that counts back to it |
| `Calendar.SplitOfTicks` | core/dtv_platform.c:25-52 | splitting the ticks of a valid time gives it back if and only if they fit 64 bits |
| `Calendar.TicksOfSplit` | core/dtv_platform.c:25-52 | the ticks of a split are the ticks floored to the second |
| `Calendar.NextDay` | core/dtv_platform.c:13-23 | the day after a date has the next number |
| `Calendar.DaysStrictlyOrdered` | core/dtv_platform.c:13-23 | an earlier date has a smaller number |
| `Calendar.SecondsStrictlyOrdered` | core/dtv_platform.c:25-31 | an earlier civil time has fewer seconds |
| `Calendar.TicksStrictlyOrdered` | core/dtv_platform.c:25-31 | and fewer ticks |
| `Calendar.ConsecutiveDays` | core/dtv_platform.c:25-31 | the same time a day later is 86400 seconds on |
| `Mjd.EngineDateIsLinear` | engine/usb_dvbs2_engine.c:366-379 | the engine's integer conversion gives a valid date whose day number is the MJD plus 94187, for every non-negative day |
| `Mjd.AnnexIsRight` | core/ts_epg.c:16-40 | the formula of ETSI EN 300 468 annex C, its constants and every operation rounded to doubles in any direction, names the same day as the calendar from MJD 15079 to the last day of the 16-bit field |
| `Mjd.AnnexIsWrong` | core/ts_epg.c:16-40 | and, rounded in any way, never from MJD 1 to 15078, before 1 March 1900: there it names no month at all, or a day two or three too late |
| `Mjd.RoundingPlaysNoPart` | core/ts_epg.c:16-40 | for every day number of 16 bits the formula in doubles, however they are rounded, gives what it gives in exact arithmetic |
| `Mjd.EngineStartIsLinear` | engine/usb_dvbs2_engine.c:413-426 | an event's start is linear in its MJD and its BCD time in the engine's reading |
| `Mjd.StartsAgree` | core/ts_epg.c:45-62 | the two readings of an event's start, the doubles of one rounded in any way, are the same instant if and only if its MJD is at least 15079 |
| `Mjd.PrintedExamples` | core/ts_epg.c:45-62 | the examples of ETSI EN 300 468: the day 45218 is 1982-09-06, and C0 79 12 45 00 is 12:45:00 on 1993-10-13, in ticks and in seconds |
| `EpgSeen.KeyInjective` | engine/usb_dvbs2_engine.c:476-477 | two events have the same key exactly when service, event and version modulo 32 agree |
| `EpgSeen.EmptySlotExists` | engine/usb_dvbs2_engine.c:482-485 | a table with fewer keys than slots has an empty slot, and the limit keeps it so |
| `EpgSeen.KeysCounted` | engine/usb_dvbs2_engine.c:482-494 | without duplicates there are as many keys as occupied slots, which is what the counter counts |
| `EpgSeen.EmptyMeansAbsent` | engine/usb_dvbs2_engine.c:486-497 | probing that reaches an empty slot proves the key is nowhere in the table |
| `EpgSeen.InsertKeepsGood` | engine/usb_dvbs2_engine.c:490-494 | filling that slot leaves probe chains without holes and every key stored once |
| `EpgSeen.PassedAllMeansFull` | engine/usb_dvbs2_engine.c:486-500 | probing cannot pass every slot, so the last return of the function is never reached |
| `EpgSeen.RemembersSinceCleared` | engine/usb_dvbs2_engine.c:472-500 | over any run of calls and channel changes an event is remembered exactly when it was passed since the table was last cleared, by a change or by filling up |
| `EpgSeen.NotClearedSince` | engine/usb_dvbs2_engine.c:472-500 | that last clearing is the last one: no channel change comes after it, and no call finds the table three quarters full |
| `EpgSeen.NothingForgotten` | engine/usb_dvbs2_engine.c:482-485 | without channel changes and while three quarters of the slots are never reached, nothing is ever cleared |
| `EpgSeen.AllOfChannelRemembered` | engine/usb_dvbs2_engine.c:472-500 | while fewer than 6144 distinct events of a channel were passed, all of them are remembered, however often each comes |
| `EpgSeen.ForgottenWhenFull` | engine/usb_dvbs2_engine.c:482-485 | once there are 6144, the next call forgets them all and remembers only its own |
| `EpgSeen.Seen.AlreadySent` | engine/usb_dvbs2_engine.c:472-500 | the call on the hash table refines membership and insertion in a set, with the clearing at three quarters full |
| `EpgSeen.Seen.Clear` | engine/usb_dvbs2_engine.c:1795-1799 | a channel change empties the table, which is the step of the runs |
| `Csa.DescrambleKeepsHeader` | core/dtv_csa.c:133-172 | descrambling leaves the header but for the scrambling bits, and the adaptation field, as they were |
| `TsPacket.PayloadFound` | core/dtv_csa.c:133-164 | in a packet of a header, a length byte with as many bytes behind it if the adaptation field is flagged, and a payload, the payload is found |
| `Csa.PayloadDeciphered` | core/dtv_csa.c:133-172 | of a scrambled packet of that layout exactly the payload is deciphered, with the word of the parity its header names, and only the scrambling bits change beside it |
| `Csa.OthersUntouched` | core/dtv_csa.c:133-147 | everything else, what is no packet, is in the clear or lacks its word, is left alone and not counted |
| `Csa.DescrambleTwice` | core/dtv_csa.c:133-172 | a handled packet is not handled again: a second pass changes and counts nothing |
| `Csa.RunTwice` | core/dtv_csa.c:126-182 | a second run over the same packets is a no-op |
| `Csa.RunConcat` | core/dtv_csa.c:126-182 | two runs one after the other are one run over both, in packets and in count |
| `Csa.BatchesCommute` | core/dtv_csa.c:178-181 | deciphering two batches that share no packet gives the same in either order |
| `Csa.BothEnqueued` | core/dtv_csa.c:169-173 | queueing a payload amounts to deciphering it, once the batches are flushed |
| `Csa.BothFlushed` | core/dtv_csa.c:173-174 | flushing a batch early, because it is full, changes nothing in the end |
| `Csa.Batch.Flush` | core/dtv_csa.c:52-62 | walking the slots to the end mark deciphers exactly what was queued |
| `Csa.Descrambler.SetKeys` | core/dtv_csa.c:89-109 | between calls nothing is queued, so its two flushes have nothing to do and only the words change |
| `Csa.Descrambler.ClearKeys` | core/dtv_csa.c:111-119 | clearing leaves no word installed and nothing queued |
| `Csa.Descrambler.HasKey` | core/dtv_csa.c:121-124 | a key is reported exactly when one of the words is installed |
| `Csa.Descrambler.Enqueue` | core/dtv_csa.c:169-174 | a queued packet counts as deciphered in what a flush will give, whichever batch fills up |
| `Csa.Descrambler.Visit` | core/dtv_csa.c:133-176 | after each packet a flush would give the first packets descrambled and the others as they came |
| `Csa.Descrambler.DecryptRun` | core/dtv_csa.c:126-182 | deferred descrambling equals descrambling each packet on sight, in the packets, in the count returned, and with both batches empty at the end |
| `DvbCsa.BlockInverse` | third_party/libdvbcsa/dvbcsa_block.c:77-137 | any number of rounds of the block cipher under any round bytes are undone by the same backwards, in both orders |
| `DvbCsa.ChainInverse` | third_party/libdvbcsa/dvbcsa_algo.c:39-66 | deciphering the chained blocks undoes enciphering them, for every length, whole blocks or not |
| `DvbCsa.ChainInverseBack` | third_party/libdvbcsa/dvbcsa_algo.c:39-66 | and enciphering undoes deciphering |
| `DvbCsa.ChainBlocks` | third_party/libdvbcsa/dvbcsa_algo.c:50-66 | every block of a scrambled payload is the enciphered mixture of its own plaintext and the scrambled block behind it, the last one unmixed, and what is less than a block stays |
| `DvbCsa.StreamedTwice` | third_party/libdvbcsa/dvbcsa_stream.c:305-345 | the stream cipher, started from the first block it leaves alone, undoes itself |
| `DvbCsa.DecryptUndoesEncrypt` | third_party/libdvbcsa/dvbcsa_algo.c:27-71 | dvbcsa_decrypt undoes dvbcsa_encrypt, and the other way round, for every key and every length |
| `DvbCsa.TurnsDecrypt` | third_party/libdvbcsa/dvbcsa_algo.c:42-46 | the loop that deciphers block after block and mixes each into the one before deciphers the chain; turns past the last whole block do nothing |
| `DvbCsa.BlockDecrypt` | third_party/libdvbcsa/dvbcsa_block.c:77-105 | the rounds in place are those of the specification, and only the block changes |
| `DvbCsa.BlockEncrypt` | third_party/libdvbcsa/dvbcsa_block.c:107-137 | so are those of enciphering |
| `DvbCsa.XorStream` | third_party/libdvbcsa/dvbcsa_stream.c:305-345 | the in-place loop mixes exactly the specified stream into all but the first block |
| `DvbCsa.DecryptInPlace` | third_party/libdvbcsa/dvbcsa_algo.c:27-48 | descrambling in place is the specified one, for data of any length |
| `DvbCsa.EncryptInPlace` | third_party/libdvbcsa/dvbcsa_algo.c:50-71 | so is scrambling |
| `DvbCsaLane.SubstitutedAgrees` | third_party/libdvbcsa/dvbcsa_bs_stream.c:28-143 | the seven circuits compute, on every state of the register, what the seven tables hold |
| `DvbCsaLane.ExtraAgrees` | third_party/libdvbcsa/dvbcsa_bs_stream.c:330-333 | so does the circuit that selects from the other register |
| `DvbCsaLane.LookedUp` | third_party/libdvbcsa/dvbcsa_stream.c:177-246 | what the table of 1024 entries is asked for, in terms of the nibbles and bits of the circuit |
| `DvbCsaLane.PartIsSum` | third_party/libdvbcsa/dvbcsa_bs_stream.c:376-402 | the circuit's addition with carry is that table |
| `DvbCsaLane.RoundAgrees` | third_party/libdvbcsa/dvbcsa_bs_stream.c:318-421 | one round of the circuit is one round of the table-driven cipher, in all registers |
| `DvbCsaLane.InitRoundAgrees` | third_party/libdvbcsa/dvbcsa_bs_stream.c:210-306 | so is one of the rounds that feed the first block |
| `DvbCsaLane.SlicedStreamIsStream` | third_party/libdvbcsa/dvbcsa_bs_stream.c:146-437 | for every control word and first block, the circuit in a lane of the words makes the stream of the tables, however long; that all lanes are such circuits is `DvbCsaSlices.StepInLane` |
| `DvbCsaRegisters.CircuitIsTable` | third_party/libdvbcsa/dvbcsa_bs_block.c:59-68 | the permutation by shifts and masks is that of the table, for every byte |
| `DvbCsaRegisters.BytePermuted` | third_party/libdvbcsa/dvbcsa_bs_block.c:59-68 | shifting and masking whole words does that to each of their sixteen bytes, nothing crossing between them |
| `DvbCsaRegisters.RoundAtEveryByte` | third_party/libdvbcsa/dvbcsa_bs_block.c:45-77 | a round on the eight words of a group is the round of the block cipher at every byte of them |
| `DvbCsaRegisters.SlideGroup` | third_party/libdvbcsa/dvbcsa_bs_block.c:45-77 | the round in place, registers moved instead of contents, leaves those words one place lower and touches no other group |
| `DvbCsaRegisters.Slide` | third_party/libdvbcsa/dvbcsa_bs_block.c:31-79 | all rounds leave at the bottom, for each of the 128 packets, the block at the top deciphered |
| `DvbCsaBatch.TurnInTwo` | third_party/libdvbcsa/dvbcsa_bs_block.c:102-113 | mixing first and deciphering then, both only where a packet has a whole block, is one turn of the packet's own loop |
| `DvbCsaTranspose.ExchangedBit` | third_party/libdvbcsa/dvbcsa_bs_transpose128.c:60-130 | an exchange of blocks between pairs of rows only exchanges a digit of the row's number with one of the bit's |
| `DvbCsaTranspose.CrossedBit` | third_party/libdvbcsa/dvbcsa_bs_transpose128.c:60-130 | the exchanges of all sizes together put a bit where row and column have changed places |
| `DvbCsaTranspose.ShuffleAt` | third_party/libdvbcsa/dvbcsa_bs_transpose128.c:175-189 | the three shuffles within a word turn eight bytes of eight bits around, in each half |
| `DvbCsaTranspose.HandedOut` | third_party/libdvbcsa/dvbcsa_bs_transpose128.c:191-206 | the byte of the row that a packet is handed is the one whose bits are in its lane of the eight words |
| `DvbCsaTranspose.StreamIn` | third_party/libdvbcsa/dvbcsa_bs_transpose128.c:35-131 | bit b of byte i of every packet with a first block comes into that packet's lane of word 8 i + b |
| `DvbCsaTranspose.StreamOut` | third_party/libdvbcsa/dvbcsa_bs_transpose128.c:135-208 | every packet that reaches so far gets the byte in its lane mixed in at the offset, and nothing else changes |
| `DvbCsaTranspose.BlocksComeBack` | third_party/libdvbcsa/dvbcsa_bs_transpose128.c:135-208 | what the one brings in the other hands out: the words of byte i give back byte i of every packet |
| `DvbCsaBlockTranspose.Columns` | third_party/libdvbcsa/dvbcsa_bs_transpose.c:47-71 | the exchanges bring the blocks loaded into the columns of the registers, and those of the columns, in the other order, to where they are stored |
| `DvbCsaBlockTranspose.BlocksComeBack` | third_party/libdvbcsa/dvbcsa_bs_transpose.c:80-103 | so out undoes in, for every packet |
| `DvbCsaBlockTranspose.BlockIn` | third_party/libdvbcsa/dvbcsa_bs_transpose.c:33-71 | every packet with a whole block at the offset has it in its column of the registers |
| `DvbCsaBlockTranspose.BlockOut` | third_party/libdvbcsa/dvbcsa_bs_transpose.c:73-111 | and gets it back from there, the others unchanged |
| `DvbCsaSlices.StepInLane` | third_party/libdvbcsa/dvbcsa_bs_stream.c:318-421 | a round on words is, in each of the 128 lanes, the round of one circuit: the substitutions, the selection, the rotation and the addition |
| `DvbCsaSlices.StartInLane` | third_party/libdvbcsa/dvbcsa_bs_key.c:39-40 | the words of the key hold, in every lane, the control word as the circuit is loaded with it |
| `DvbCsaSlices.FedInLane` | third_party/libdvbcsa/dvbcsa_bs_stream.c:201-310 | four rounds feed every lane its own byte, high and low nibble by turns |
| `DvbCsaSlices.ByteInLane` | third_party/libdvbcsa/dvbcsa_bs_stream.c:314-428 | four rounds put out eight words, in each lane of which is the byte its circuit puts out |
| `DvbCsaSlices.Registers.Step` | third_party/libdvbcsa/dvbcsa_bs_stream.c:318-421 | the round in place, both registers shifted up, is the one of the specification |
| `DvbCsaSlices.Registers.Generate` | third_party/libdvbcsa/dvbcsa_bs_stream.c:314-428 | the eight words are filled from the last pair down, as specified |
| `DvbCsaBatch.StartAll` | third_party/libdvbcsa/dvbcsa_bs_stream.c:173-310 | after loading and feeding, the lane of every packet with a first block stands where its own circuit would |
| `DvbCsaBatch.BlocksOfAll` | third_party/libdvbcsa/dvbcsa_bs_block.c:93-114 | the batch's blocks, brought into the registers and back offset by offset for all packets, leave each with its own chain deciphered |
| `DvbCsaBatch.StreamOfAll` | third_party/libdvbcsa/dvbcsa_bs_stream.c:146-437 | the batch's stream, made on words and handed out byte by byte, leaves each packet with its own stream mixed in, and those without a first block alone |
| `DvbCsaBatch.DecryptBatch` | third_party/libdvbcsa/dvbcsa_bs_algo.c:41-57 | every packet of a batch that is not longer than the maximum comes out as dvbcsa_decrypt alone would have left it, whatever the other packets |
| `Scrambling.DescramblingUndoesScrambling` | tests/csa_test.c:53-61 | a packet scrambled under either word comes back from the descrambler bit for bit, whatever its adaptation field |
| `Scrambling.RunRestores` | tests/csa_test.c:117-122 | a run of packets scrambled each under either word comes back packet by packet |
| `Scrambling.DecryptSlots` | core/dtv_csa.c:52-62 | the library's batch, with the maximum the descrambler passes, does to each queued payload what the cipher of the model does |
| `UsbRing.RunConserves` | core/usb_backend.c:222-241 | over every interleaving of stores, reads and flushes, what left and what is buffered are together the accepted stores in order, each all or nothing, and the dropped count is the total of the refused |
| `UsbRing.QueueIsLog` | core/usb_backend.c:222-241 | every run of the queue is that of a log which only grows, with a mark for what left: a store is taken exactly when it fits between the two, and after a flush nothing is there |
| `UsbRing.PeakIsMaximum` | core/usb_backend.c:232-236 | the peak is the most that was ever buffered: no moment of the run had more, and one had as much |
| `UsbRing.TakenAround` | core/usb_backend.c:358-380 | taking bytes at the tail of the ring leaves the rest of the queue, and the head where it was |
| `UsbRing.PiecesAround` | core/usb_backend.c:369-374 | the oldest bytes of the ring lie in one piece, or in one up to its end and one from its start |
| `UsbRing.Ring.StoreBytes` | core/usb_backend.c:222-241 | storing with wrap-around appends all of the data or drops all of it, and counts it |
| `UsbRing.Ring.ReadBytes` | core/usb_backend.c:358-380 | reading, after a wait in which other operations may run if nothing was there, gives the oldest bytes then present, in up to two pieces, and removes them |
| `UsbRing.Ring.FlushBytes` | core/usb_backend.c:387-394 | flushing empties the queue |
| `UsbRing.Ring.Stats` | core/usb_backend.c:396-408 | the statistics are those of the queue |
| `CamStore.EveryRunIsSound` | core/dtv_camd.c:259-313 | in every reachable store the counts and index are in range, and a waiting ECM differs from the last one taken |
| `CamStore.IndexInRange` | core/dtv_camd.c:259-274 | over every interleaving the candidate index names a candidate, and there are at most eight |
| `CamStore.GenerationCounts` | core/dtv_camd.c:276-297 | the generation counts updates modulo 2^32 |
| `CamStore.SameGenerationSameKeys` | core/dtv_camd.c:598-612 | two readings of equal generation are identical when fewer than 2^32 updates lie between, and the generations then differ exactly when there was an update |
| `CamStore.GenerationWraps` | core/dtv_camd.c:291-291 | the bound is exact: 2^32 updates bring back a generation with other keys |
| `CamStore.KeysAreNewest` | core/dtv_camd.c:276-297 | a parity's key is always the newest non-zero half published for it, even across services |
| `CamStore.ValidSinceService` | core/dtv_camd.c:530-567 | and is valid exactly when one was published since the service was selected |
| `CamStore.KeysRead` | core/dtv_camd.c:598-612 | so what a reader is handed are, even and odd, the newest halves published, and that they count exactly when one came since the service was selected |
| `CamStore.TriedInTurn` | core/dtv_camd.c:259-274 | of the candidates given for a service the first eight are kept, in order, and the one in use is the one that the rotations since come to, around the end |
| `CamStore.PendingIsNewest` | core/dtv_camd.c:576-596 | what waits for the worker is the newest ECM submitted since it last looked that differs from the one it took last |
| `CamStore.NeverTwiceRunning` | core/dtv_camd.c:300-313 | the worker never takes the same ECM twice running unless a rotation or service change came between |
| `CamStore.TakenWasSubmitted` | core/dtv_camd.c:300-313 | everything it takes was submitted since the last rotation or service change |
| `CamStore.EveryChangeTaken` | core/dtv_camd.c:576-596 | of any ECMs of 3 to 512 bytes, each looked for as it comes, the worker takes every change once and no repetition |
| `CamStore.OnlyEcmsTaken` | core/dtv_camd.c:576-596 | and it never takes anything else |
| `CamStore.Camd.SubmitEcm` | core/dtv_camd.c:576-596 | submitting in place is the specified step, for sections that are no ECMs too |
| `CamStore.Camd.TakePendingEcm` | core/dtv_camd.c:300-313 | taking copies the waiting ECM out, remembers it and clears it |
| `CamStore.Camd.PublishControlWords` | core/dtv_camd.c:276-297 | zero halves keep the old key, and the generation moves on either way |
| `CamStore.Camd.RotateCandidate` | core/dtv_camd.c:259-274 | rotating moves to the next candidate cyclically and forgets the ECMs of the pid left behind |
| `CamStore.Camd.SelectService` | core/dtv_camd.c:530-567 | a service change takes up to eight candidates, invalidates both keys and forgets the ECMs |
| `CamStore.Camd.ReadKeys` | core/dtv_camd.c:598-612 | reading the keys copies both and the generation and changes nothing |

## Left out

- PatchLoader.Loader.Load: for a file that is not the encoding of a script of the abstract language, only that reading stays inside the file, that the loader ends, and that a bad header touches nothing; which transfers of the two-wire bus fail and what a failed one leaves on the device, and the device's answers while it is waited for, are oracles of its state.
- Csa.Descrambler.DecryptRun: packets are the cells of the array, so that two slots never overlap is part of the data type; the cipher is any function of key and payload that keeps the length, applied to each slot on its own, which `Scrambling.DecryptSlots` proves of the library's batch.
- EngineStream.Receiver.Read: the reset on a change of channel is not modelled, and of the work on each packet only that it is handed over; the buffer's packets are copied into cells for the descrambler and back, which works in place in the source.
- DvbCsaBatch.DecryptBatch: words are sequences of 128 bits, with the operations of third_party/libdvbcsa/dvbcsa_bs_portable128.h by what they do to each bit; that the arithmetic on two 64-bit halves there, or the SSE instructions in its place, does that, is taken for granted. A batch has at most 128 packets, as the library demands.
- DvbCsa.DecryptUndoesEncrypt: how `dvbcsa_key_schedule_block` makes the 56 bytes of the rounds out of the control word is not modelled, they may be any; a length of 2^31 bytes or more, at which the source's loop counter overflows, is not either. The tables are those of the library; no published answer of the algorithm is compared with.
- `dvbcsa_bs_encrypt` and the variants of the key schedule for other ECMs: the receiver calls neither.
- Psi.Assembler.Assemble: a completed section is to be read from the buffer before the next packet is fed; a caller that kept the pointer would see it overwritten.
- PmtRewrite.SendSelectedPmt: null pointers for the in and out parameters are not modelled, and the capacity of the list of pids is the length of its array.
- Mjd.RoundingPlaysNoPart: rounding to doubles is any function that moves a number below 2^17 by less than the spacing of doubles there and keeps quarters; the bit layout of doubles is not modelled, and the day number is a 16-bit field, so the upper bound excludes nothing.
- Crc.FourBytesRefused: errors spread over more than 32 consecutive bits are not bounded, since the CRC does not detect all of them.
- The S-boxes, permutations and constants of DES, AES, MD5 and libdvbcsa are decision functions over rows of their tables instead of arrays.
- The DES key parity and the spreading of a 14-byte key over 16 bytes, `dtv_md5_crypt`, SHA-256 and the login exchange of newcamd: table shuffles and easier copies of what is here.
- `pat_lookup_pmt_pid` and `udp_ts_send_single_pat`, the parsers of PAT, PMT, SDT, NIT and EIT bodies, text decoding and name tables: they only pick fields out of sections proved complete here.
- Everything about sockets, USB transfers, named pipes, threads, sleeping and logging beyond whether a write or transfer failed; an operation under a lock is one step, but for the wait of `dtv_usb_stream_read`.
- Status counters and messages of the CAM client, the fields of its connection and the pid set outside the lock (`apply_candidate`); no claim is made that keys do not outlive a service change, since an answer in flight can still be published.
- `metadata_append`, the daemon's line protocol, tuning, DiSEqC and the firmware download of the bridge: hardware sequences with little to prove.
