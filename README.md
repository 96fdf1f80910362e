# Casper node: URefs, the Highway active validator and candidate blocks

This project models three parts of the Casper node in Dafny and proves what they promise.

- **URef** (`types/src/uref.rs`): an unforgeable reference made of a 32-byte
  global-state address and a set of access rights (READ = 1, WRITE = 2, ADD = 4).
  The model covers:
  - the rights-changing operations;
  - the text form `uref-<64 lower-case hex digits>-<3 octal digits>` and its parser, with
    every error the parser reports, in the order it checks them;
  - the 33-byte binary form;
  - the conversion from a global-state `Key`.

  The parser relies on two library routines, which are modelled as they behave:
  - `base16` decoding accepts digits of either case. It rejects an odd length before
    looking at the digits, and otherwise reports the first character that is not a digit.
  - `u8::from_str_radix(_, 8)` accepts one leading `+`. It reports an empty digit
    string as `Empty`, and otherwise fails left to right with `InvalidDigit` or
    `PosOverflow`, whichever comes first.
- **Highway active validator** (`highway_core/active_validator.rs`): the object that
  decides when a validator creates units. Rounds last `2^round_exp` milliseconds.
  - The round's leader proposes at the round's start.
  - The other validators confirm the proposal.
  - Everybody sends a witness unit two thirds into the round.

  `ActiveValidator` is a class with the source's three mutable fields:
  - `nextRoundExp`;
  - `nextTimer`;
  - `nextProposal`.

  Its methods change those fields and return the list of effects, as the source does.
  The protocol state is read through `StateView`. It holds the state's panorama, its
  units, its evidence and the citable panorama. It also holds, as functions, the
  state's own computations: cut-off, leader, fork choice, correct-proposal test,
  `sees_correct`, confirmation panorama and `new_hash_obs`.
- **Candidate block** (`consensus/candidate_block.rs`): the consensus value. It holds a
  proto block, a timestamp and a list of accused validators. The model covers its
  accessors, `needs_validation`, the conversion into a proto block, the
  `ConsensusValueT` delegation, and the hash. The hash function is a parameter.

Modules: `Wrappers` (Option, Result), `Base16`, `URefs`, `ActiveValidators`,
`ActiveValidatorTimeline` (the source's test scenario) and `CandidateBlocks`.

## Model

| member | source | states |
|---|---|---|
| Base16.EncodeLower | types/src/uref.rs:124 | the encoding has two lower-case hex digits per byte |
| Base16.Decode | types/src/uref.rs:138 | fails with `InvalidLength(n)` exactly when the length is odd; succeeds exactly when the length is even and every character is a hex digit of either case; otherwise `InvalidByte` names the first non-digit and its character |
| Base16.DecodePairs | types/src/uref.rs:138 | succeeds exactly when every character is a hex digit, with half as many bytes as characters; otherwise `InvalidByte` names the first non-digit and its character |
| Base16.DecodePairsValue | types/src/uref.rs:138 | byte k of a successful decoding is 16·(value of character 2k) + (value of character 2k+1) |
| Base16.DecodePairsEncodeLower | types/src/uref.rs:124-138 | reading the digit pairs of the lower-case encoding of any byte string gives it back |
| Base16.DecodeEncodeLower | types/src/uref.rs:124-138 | decoding the lower-case encoding of any byte string gives it back |
| Base16.EncodeLowerZeros | types/src/uref.rs:202-217 | n zero bytes encode as 2n `'0'` digits |
| Base16.DecodeStopsAtFirstNonDigit | types/src/uref.rs:247-249 | an even-length string whose first non-digit is at k fails with `InvalidByte(k, s[k])` |
| URefs.AccessRightsFromBits | types/src/uref.rs:140-141 | a rights byte is accepted exactly when it sets no bit besides READ, WRITE and ADD (value below 8) |
| URefs.RightsChangesKeepAddress | types/src/uref.rs:75-112 | the rights operations (`WithAccessRights`, `RemoveAccessRights`, `IntoRead`, `IntoReadAddWrite`) keep the address and set exactly NONE, READ, READ_ADD_WRITE or the given rights; `is_readable`, `is_writeable` and `is_addable` (`IsReadable`, `IsWriteable`, `IsAddable`) report the matching flag |
| URefs.FormatOctal3 | types/src/uref.rs:117-126 | `{:03o}` writes exactly three octal digits whose value is the rights bits |
| URefs.AccumulateOctal | types/src/uref.rs:139 | the digit loop succeeds exactly when every character is octal and the value stays within 255; it never reports `Empty`, and it reports `PosOverflow` exactly when the leading run of octal digits already exceeds 255, so a non-digit reached first gives `InvalidDigit` |
| URefs.FromStrRadix8 | types/src/uref.rs:139 | `Empty` exactly when nothing is left after an optional `+`; success exactly when the rest is octal and at most 255, with that value; `PosOverflow` exactly when the leading run of octal digits after the sign exceeds 255, otherwise a failure is `InvalidDigit` |
| URefs.FromStrRadix8FormatOctal3 | types/src/uref.rs:121-139 | parsing the three formatted octal digits gives the rights bits back |
| URefs.ToFormattedString | types/src/uref.rs:116-127 | the text has length 5 + 64 + 1 + 3: the `uref-` prefix, then the lower-case hex address, then `-`, then the octal rights |
| URefs.SplitAtFirst | types/src/uref.rs:134-137 | finds nothing exactly when `-` is absent; otherwise the input is the part before, `-`, then the part after, and the part before holds no `-` |
| URefs.SplitAtFirstUnique | types/src/uref.rs:134 | when the part before has no `-`, splitting `before + "-" + after` gives exactly those two parts |
| URefs.FromFormattedStr | types/src/uref.rs:130-143 | `InvalidPrefix` exactly when the input does not start with `uref-`; `MissingSuffix` exactly when no `-` follows the prefix; a success decodes the address part and parses the rights part to the returned URef |
| URefs.FromFormattedStrAddressErrors | types/src/uref.rs:138 | with prefix and separator present, a hex error is reported as `Hex(e)`, and a decoded address other than 32 bytes as `Address` |
| URefs.FromFormattedStrRightsErrors | types/src/uref.rs:139-142 | with a 32-byte address, a rights part that is not an octal `u8` gives `Int(kind)`, and a value of 8 or more gives `InvalidAccessRights`, and any other value gives `Ok` with the decoded address and those rights, so every outcome of the parser holds exactly when its condition does (upper-case hex, a `+` sign or extra leading zeros included) |
| URefs.FromFormattedStrRoundTrip | types/src/uref.rs:221-230 | parsing the text form of any URef returns that URef |
| URefs.ToFormattedStringInjective | types/src/uref.rs:114-116 | two URefs have the same text form exactly when they are equal, so the text is a unique name |
| URefs.RightsValues | types/src/uref.rs:139 | `from_str_radix(_, 8)` reads `abc` as `InvalidDigit`, `200` as 128, and both `+1` and `0001` as 1 |
| URefs.FromFormattedStrAcceptsPlusSign | types/src/uref.rs:139 | the rights part `+1` parses to READ although the text form of that URef is different, so the parser accepts more than the formatter writes |
| URefs.FromFormattedStrAcceptsLeadingZeros | types/src/uref.rs:139 | the rights part `0001`, longer than three digits, also parses to READ |
| URefs.ToFormattedStringExamples | types/src/uref.rs:198-219 | the zero address with READ, WRITE and removed rights formats as `...-001`, `...-002` and `...-000` |
| URefs.FromFormattedStrFramingExamples | types/src/uref.rs:232-253 | the test inputs `ref-...`, `uref0...` and `...:000` fail with `InvalidPrefix`, `InvalidPrefix` and `MissingSuffix` |
| URefs.ZeroRunWrongLength | types/src/uref.rs:138 | an address part of 2k zero digits, for any k other than 32, fails with `Address` |
| URefs.FromFormattedStrShortAddressExample | types/src/uref.rs:240-241 | the test input with 62 hex digits fails with `Address` |
| URefs.FromFormattedStrLongAddressExample | types/src/uref.rs:243-245 | the test input with 66 hex digits fails with `Address` |
| URefs.FromFormattedStrHexError | types/src/uref.rs:138 | an address part without `-` that fails to decode is reported with the decoder's own error |
| URefs.TrailingNonDigit | types/src/uref.rs:138 | 2k+1 zeros followed by `g` fail with `Hex(InvalidByte(2k+1, 'g'))`, for every k |
| URefs.FromFormattedStrBadHexExample | types/src/uref.rs:247-249 | 63 zeros followed by `g` fail with `Hex(InvalidByte(63, 'g'))` |
| URefs.FromFormattedStrNotOctalExample | types/src/uref.rs:255-257 | the rights part `abc` fails with `Int(InvalidDigit)` |
| URefs.FromFormattedStrBadRightsExample | types/src/uref.rs:259-261 | the rights part `200` (128) fails with `InvalidAccessRights` |
| URefs.AccessRightsFromBytes | types/src/uref.rs:176 | `EarlyEndOfStream` exactly on empty input; `Formatting` exactly when the first byte is 8 or more; on success the input is the rights byte followed by the remainder |
| URefs.ToBytes | types/src/uref.rs:160-170 | 33 bytes: the 32 address bytes, then the rights byte |
| URefs.FromBytes | types/src/uref.rs:173-179 | `EarlyEndOfStream` exactly when fewer than 33 bytes; `Formatting` exactly when byte 32 is not a valid rights set; on success the input is `ToBytes(u)` followed by the returned remainder |
| URefs.FromBytesToBytes | types/src/uref.rs:160-179 | `from_bytes(to_bytes(u) ++ rest)` returns `(u, rest)` |
| URefs.TryFromKey | types/src/uref.rs:181-191 | succeeds exactly for a `URef` key, returning its URef; every other key gives `UnexpectedKeyVariant` |
| ActiveValidators.RoundLen | node/src/components/consensus/highway_core/active_validator.rs:121 | a round lasts at least one millisecond |
| ActiveValidators.RoundStart | node/src/components/consensus/highway_core/active_validator.rs:120 | the latest multiple of the length at or before the time: `r <= t < r + len` and `r % len == 0` |
| ActiveValidators.RoundId | node/src/components/consensus/highway_core/active_validator.rs:120 | the round id is the latest round start at or before the timestamp: `id <= t < id + len`, and it is a multiple of the round length |
| ActiveValidators.DivModUnique | node/src/components/consensus/highway_core/active_validator.rs:120 | a decomposition `t = len·q + m` with `0 <= m < len` gives the quotient and the remainder |
| ActiveValidators.RoundIdSameRound | node/src/components/consensus/highway_core/active_validator.rs:120 | every timestamp from a round's start until the next round's start has that round's id |
| ActiveValidators.RoundIdIdempotent | node/src/components/consensus/highway_core/active_validator.rs:120 | a round id is its own round id |
| ActiveValidators.WitnessOffset | node/src/components/consensus/highway_core/active_validator.rs:383-385 | the offset is two thirds of the round length rounded down (`3r <= 2·len < 3r + 3`), and it lies inside the round |
| ActiveValidators.LatestUnit | node/src/components/consensus/highway_core/active_validator.rs:369-375 | present exactly when our panorama entry is a correct unit, and it is that unit |
| ActiveValidators.IsFaulty | node/src/components/consensus/highway_core/active_validator.rs:377-380 | we are faulty exactly when the state's `is_faulty` holds for our index |
| ActiveValidators.EarliestUnitTime | node/src/components/consensus/highway_core/active_validator.rs:358-366 | 0 with no own unit; the unit's timestamp with one unit; otherwise the later of the unit's timestamp and the end of the previous unit's round, so it is never before our latest unit |
| ActiveValidators.RoundExp | node/src/components/consensus/highway_core/active_validator.rs:391-400 | `nextRoundExp` with no own unit, or when the latest unit is before the round (of the longer exponent) containing the time; otherwise the latest unit's exponent |
| ActiveValidators.NextTimer | node/src/components/consensus/highway_core/active_validator.rs:335-354 | strictly after the timestamp. It is this round's witness point while that is ahead. Otherwise it is the next round's start when we lead that round, and that round's witness point when we do not. It is never later than the next round's witness point |
| ActiveValidators.UnitFor | node/src/components/consensus/highway_core/active_validator.rs:296-328 | the unit has our index, the time, the value and the round exponent at that time. It cites the given panorama, or the citable panorama when the given one's entry for us differs from the state's |
| ActiveValidators.Endorse | node/src/components/consensus/highway_core/active_validator.rs:416-423 | an endorsement of the given unit by us |
| ActiveValidators.ShouldSendConfirmation | node/src/components/consensus/highway_core/active_validator.rs:252-293 | true exactly when all of these hold: the time is not before our earliest unit time; the unit is not from the future; it is another validator's correct proposal; we are not faulty; our latest unit does not already see it; its timestamp is the start of our current round |
| ActiveValidators.ShouldEndorse | node/src/components/consensus/highway_core/active_validator.rs:406-413 | true exactly when the unit's creator is not faulty and, for some validator the state knows to be faulty, the unit cites a unit by that validator that is new to it |
| ActiveValidators.AnyNewFaultyObservation | node/src/components/consensus/highway_core/active_validator.rs:409-412 | the `any` over the panorama's indices holds exactly when some index below n is faulty and newly observed |
| ActiveValidators.ConfirmationInProposalRound | node/src/components/consensus/highway_core/active_validator.rs:282-291 | a confirmation is only sent for another validator's unit that sits exactly at a round start, while that round lasts |
| ActiveValidators.ActiveValidator.New | node/src/components/consensus/highway_core/active_validator.rs:78-93 | the new validator has the initial round exponent and no proposal, and exactly one `ScheduleTimer` effect, for a time after the start |
| ActiveValidators.ActiveValidator.SetRoundExp | node/src/components/consensus/highway_core/active_validator.rs:96-98 | sets the next round exponent and nothing else |
| ActiveValidators.ActiveValidator.ScheduleTimer | node/src/components/consensus/highway_core/active_validator.rs:335-354 | if a later timer is already set: no effects and no change. Otherwise the timer becomes `NextTimer` and the only effect is `ScheduleTimer` for it. Either way the timer never moves back and ends after the timestamp |
| ActiveValidators.ActiveValidator.NewUnit | node/src/components/consensus/highway_core/active_validator.rs:296-328 | cancels the pending proposal and returns `UnitFor` |
| ActiveValidators.ActiveValidator.RequestNewBlock | node/src/components/consensus/highway_core/active_validator.rs:188-213 | with a pending proposal: `None` and no change. After a terminal block: a value-less proposal unit. Otherwise: it stores `(timestamp, cut-off panorama)` and requests a block at the parent's height (0 without a parent) |
| ActiveValidators.ActiveValidator.Propose | node/src/components/consensus/highway_core/active_validator.rs:216-249 | an outdated context or a faulty validator gives nothing and keeps the proposal. Otherwise the proposal is consumed, and a unit carrying the value is emitted exactly when the pending proposal's time matches |
| ActiveValidators.TimerTick | node/src/components/consensus/highway_core/active_validator.rs:114-131 | what a timer does after rescheduling. Before the earliest unit time: nothing. At most one effect. A proposal is only stored when none was pending, and then a block is requested at the proposal tick for this time and the parent's height. Every emitted unit is ours, at this time, without a value, and clears the pending proposal. Only units and block requests are emitted |
| ActiveValidators.TimerTickSchedule | node/src/components/consensus/highway_core/active_validator.rs:114-131 | for every state, not before the earliest unit time: at a proposal tick without a pending proposal, exactly the block request for this time and the parent's height with the proposal stored, or after a terminal block exactly the value-less unit; at a witness tick that is no proposal tick, exactly the witness unit when the cut-off panorama sees a correct unit; at any other time nothing, with the pending proposal kept |
| ActiveValidators.ActiveValidator.HandleTimer | node/src/components/consensus/highway_core/active_validator.rs:102-132 | faulty: nothing changes. Otherwise the timer is rescheduled as by `NextTimer` unless a later one is set, and ends after the time. The effects are that timer's `ScheduleTimer` (when it changed) followed by `TimerTick`'s effects, and the pending proposal becomes `TimerTick`'s |
| ActiveValidators.ActiveValidator.ActOnTick | node/src/components/consensus/highway_core/active_validator.rs:114-131 | the effects and the new pending proposal are exactly `TimerTick`'s for the old pending proposal, and a pending proposal keeps an entry for us |
| ActiveValidators.ActiveValidator.OnNewUnit | node/src/components/consensus/highway_core/active_validator.rs:135-160 | evidence against us gives exactly `[WeEquivocated(e)]`. Otherwise: a confirmation unit when one should be sent and its panorama sees a correct unit, then an endorsement when the unit should be endorsed |
| ActiveValidatorTimeline.RoundArithmetic | node/src/components/consensus/highway_core/active_validator.rs:467-470 | with round exponent 4 a round lasts 16 and its witness point is 10 in; 410 and 415 lie in the round at 400, 416 to 426 in the round at 416; Alice leads at 416 and Bob at 432 |
| ActiveValidatorTimeline.Start | node/src/components/consensus/highway_core/active_validator.rs:471-475 | both validators start at 410 without a proposal; Alice's first timer is 416 and Bob's 426 |
| ActiveValidatorTimeline.AliceTooEarly | node/src/components/consensus/highway_core/active_validator.rs:477-479 | at 415 Alice emits nothing and keeps her timer |
| ActiveValidatorTimeline.AliceLeads | node/src/components/consensus/highway_core/active_validator.rs:481-490 | at 416 Alice schedules 426, requests a block at height 0, and keeps the proposal for 416 |
| ActiveValidatorTimeline.AliceProposes | node/src/components/consensus/highway_core/active_validator.rs:492-494 | the value becomes exactly one unit by Alice at 416 citing the empty panorama, and the proposal is consumed |
| ActiveValidatorTimeline.Confirmations | node/src/components/consensus/highway_core/active_validator.rs:497-503 | Alice emits nothing for her own proposal; Bob emits one confirmation unit at 419 citing the proposal |
| ActiveValidatorTimeline.BobWitnesses | node/src/components/consensus/highway_core/active_validator.rs:505-511 | at 426 Bob schedules 432 and emits his witness unit citing the proposal and the confirmation |
| ActiveValidatorTimeline.AliceWitnesses | node/src/components/consensus/highway_core/active_validator.rs:516-522 | at 426 Alice schedules 442 and emits her witness unit citing Bob's witness unit |
| ActiveValidatorTimeline.Timeline | node/src/components/consensus/highway_core/active_validator.rs:461-527 | the test scenario, with Alice leading at 416 and Bob at 432. Both start at 410, scheduling 416 and 426. Alice does nothing at 415. At 416 she schedules 426 and requests a block at height 0, then proposes. She ignores her own proposal; Bob confirms it at 419. At 426 Bob schedules 432 and Alice 442, and each sends a witness unit |
| CandidateBlocks.New | node/src/components/consensus/candidate_block.rs:44-72 | the accessors return exactly the arguments given to `new` |
| CandidateBlocks.NewInjective | node/src/components/consensus/candidate_block.rs:44-54 | two candidate blocks are equal exactly when built from equal proto block, timestamp and accusations |
| CandidateBlocks.HashDeterminedByInputs | node/src/components/consensus/candidate_block.rs:74-90 | for `Hash`, the hasher applied to the proto block's hash, the timestamp and the accusations: candidates agreeing on the proto block's hash, the timestamp and the accusations have equal hashes, whatever their deploys |
| CandidateBlocks.HashCollisionFree | node/src/components/consensus/candidate_block.rs:74-90 | with a collision-free hasher, equal candidate hashes mean equal proto block hashes, timestamps and accusations |
| CandidateBlocks.NeedsValidation | node/src/components/consensus/candidate_block.rs:92-94 | true exactly when the proto block has a wasm deploy or a transfer |
| CandidateBlocks.IntoProtoBlock | node/src/components/consensus/candidate_block.rs:97-101 | the conversion yields the wrapped proto block unchanged |
| CandidateBlocks.IntoProtoBlockOfNew | node/src/components/consensus/candidate_block.rs:44-101 | converting `new(p, t, a)` gives back `p` |
| CandidateBlocks.ConsensusValueHash | node/src/components/consensus/candidate_block.rs:106-108 | the `ConsensusValueT` hash is the candidate block's hash |
| CandidateBlocks.ConsensusValueNeedsValidation | node/src/components/consensus/candidate_block.rs:110-112 | the `ConsensusValueT` `needs_validation` is the candidate block's |

## Left out

- Timestamps and time differences are unbounded naturals. The `u64` arithmetic of `Timestamp` is not modelled, and neither is a shift overflow in `1 << round_exp` for exponents of 64 or more.
- `round_id` and `round_len` belong to the Highway state module (`state.rs`), which is not part of this model. They are defined here as `t - t % 2^e` and `2^e`.
- The Highway `State` and `Panorama` internals are not modelled. These are the leader sequence, the fork choice, the panorama cut-off, `confirmation_panorama`, `is_correct_proposal`, `sees_correct` and `new_hash_obs`. Each is a function supplied in `StateView`.
- `WellFormedFor` states what the source assumes without checking: our index is inside every panorama it indexes, and the units reachable from our own entry are in the state.
- Units carry only creator, panorama, timestamp, round exponent and the previous own unit. A `WireUnit` leaves out the instance id, the sequence number (`next_seq_num`) and the endorsed set (`seen_endorsed`).
- Signing is left out, together with the secret key, the RNG and `tracing` logging. A `SignedWireUnit` is modelled as its `WireUnit`, and an endorsement carries no signature.
- `on_new_evidence` is not modelled: it iterates over every correct unit of the state, and the state is not modelled.
- The `Debug` and `Display` implementations are not modelled, for both `ActiveValidator` and `URef`.
- `StateView` does not tie the evidence map to the panorama's `Faulty` entries: the state is not part of this model. The model reads the panorama for both `IsFaulty` and `StateIsFaulty`, and reads the evidence map in `OnNewUnit`.
- `Evidence` is a placeholder value; only its identity is passed through.
- URef text is handled as a sequence of characters, and `Decode` reports the offending `char` where `base16::decode` reports a UTF-8 byte. The two agree only on ASCII input. For a non-ASCII address part the length parity, the error variant, the index and the byte can all differ: `uref-é-000` is one character (odd, `InvalidLength(1)` here) but two bytes (even, an `InvalidByte` at index 0 in the source).
- `Key` is modelled with three variants (account, hash, URef); the other variants behave like the first two in `TryFromKey`. `ApiError` is reduced to the variant this conversion returns.
- `to_bytes` returns `Result` in the source, but it cannot fail for a URef; `ToBytes` returns the bytes directly. `unchecked_allocate_buffer` only reserves capacity.
- `FromStrError::Int` and `FromStrError::Address` carry the library error's kind (or nothing) rather than a `ParseIntError` or `TryFromSliceError` value.
- `u8::from_str_radix` follows the standard library of the time, in which a lone `+` is `Empty`. Later library versions report it as `InvalidDigit`.
- `ProtoBlock` is defined elsewhere and is not part of this model. Only its hash and its two deploy lists are kept.
- The Blake2b hasher and the bincode serialisation in `CandidateBlock::hash` are a parameter `hasher` applied to the proto block hash, the timestamp and the accusations. `HashCollisionFree` assumes that hasher is injective.
- `CandidateBlockHash` is the hasher's output, without a wrapper type.
