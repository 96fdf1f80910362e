/**
 * The two-validator schedule of the active validator's test: round length 16
 * (round exponent 4), Alice leads the round starting at 416 and Bob the one at 432.
 * Both start at 410; Alice proposes at 416, Bob confirms at 419, and both send their
 * witness units at 426 = 416 + 16 * 2 / 3.
 */
module ActiveValidatorTimeline {
  import opened Wrappers
  import opened ActiveValidators

  const ALICE: ValidatorIndex := 0
  const BOB: ValidatorIndex := 1

  const ROUND_EXP: nat := 4

  /** Hashes the example gives the three units added to the state. */
  const PROPOSAL_HASH: UnitHash := 1
  const CONFIRMATION_HASH: UnitHash := 2
  const BOB_WITNESS_HASH: UnitHash := 3

  const VALUE: ConsensusValue := 0xC0FFEE

  /** Leaders alternate between the rounds of length 16: Alice at 416, Bob at 432. */
  function Leader(t: Timestamp): ValidatorIndex {
    if (t / 16) % 2 == 0 then ALICE else BOB
  }

  /**
   * A state whose panorama is `p`, also used as the citable panorama, its cut-off at every
   * time and every confirmation's panorama. The only proposal is Alice's, a panorama sees
   * the units it names, no block is final yet and nobody is faulty.
   */
  function StateWith(p: Panorama, units: map<UnitHash, Unit>): StateView {
    StateView(p, units, map[], p, t => p, Leader, q => None, ROUND_EXP,
              h => h == PROPOSAL_HASH,
              (q: Panorama, h: UnitHash) => Correct(h) in q.entries,
              (v: ValidatorIndex, h: UnitHash) => p,
              (h: UnitHash, v: ValidatorIndex) => false)
  }

  const EMPTY: Panorama := Panorama([NotSeen, NotSeen])
  const AFTER_PROPOSAL: Panorama := Panorama([Correct(PROPOSAL_HASH), NotSeen])
  const AFTER_CONFIRMATION: Panorama := Panorama([Correct(PROPOSAL_HASH), Correct(CONFIRMATION_HASH)])
  const AFTER_BOB_WITNESS: Panorama := Panorama([Correct(PROPOSAL_HASH), Correct(BOB_WITNESS_HASH)])

  const PROPOSAL_UNIT: Unit := Unit(ALICE, EMPTY, 416, ROUND_EXP, None)
  const CONFIRMATION_UNIT: Unit := Unit(BOB, AFTER_PROPOSAL, 419, ROUND_EXP, None)
  const BOB_WITNESS_UNIT: Unit := Unit(BOB, AFTER_CONFIRMATION, 426, ROUND_EXP, Some(CONFIRMATION_HASH))

  const S0: StateView := StateWith(EMPTY, map[])
  const S1: StateView := StateWith(AFTER_PROPOSAL, map[PROPOSAL_HASH := PROPOSAL_UNIT])
  const S2: StateView := StateWith(AFTER_CONFIRMATION,
                                   map[PROPOSAL_HASH := PROPOSAL_UNIT, CONFIRMATION_HASH := CONFIRMATION_UNIT])
  const S3: StateView := StateWith(AFTER_BOB_WITNESS,
                                   map[PROPOSAL_HASH := PROPOSAL_UNIT, CONFIRMATION_HASH := CONFIRMATION_UNIT,
                                       BOB_WITNESS_HASH := BOB_WITNESS_UNIT])

  // The facts each step of the schedule relies on, computed once.

  lemma RoundArithmetic()
    ensures RoundLen(ROUND_EXP) == 16 && WitnessOffset(16) == 10
    ensures RoundId(410, ROUND_EXP) == 400 && RoundId(415, ROUND_EXP) == 400
    ensures RoundId(416, ROUND_EXP) == 416 && RoundId(419, ROUND_EXP) == 416 && RoundId(426, ROUND_EXP) == 416
    ensures RoundId(432, ROUND_EXP) == 432
    ensures Leader(416) == ALICE && Leader(432) == BOB
  {
    assert Pow2(2) == 4;
    DivModUnique(410, 16, 25, 10);
    DivModUnique(415, 16, 25, 15);
    DivModUnique(416, 16, 26, 0);
    DivModUnique(419, 16, 26, 3);
    DivModUnique(426, 16, 26, 10);
    DivModUnique(432, 16, 27, 0);
  }

  lemma StartFacts()
    ensures WellFormedFor(S0, ALICE) && WellFormedFor(S0, BOB)
    ensures NextTimer(S0, ALICE, ROUND_EXP, 410) == 416
    ensures NextTimer(S0, BOB, ROUND_EXP, 410) == 426
  {
    RoundArithmetic();
  }

  lemma AliceTooEarlyFacts()
    ensures WellFormedFor(S0, ALICE) && !IsFaulty(S0, ALICE) && EarliestUnitTime(S0, ALICE) == 0
    ensures TimerTick(S0, ALICE, ROUND_EXP, 415, None) == ([], None)
  {
    RoundArithmetic();
    assert !IsProposalTick(S0, ALICE, ROUND_EXP, 415) && !IsWitnessTick(S0, ALICE, ROUND_EXP, 415);
  }

  lemma AliceLeadFacts()
    ensures WellFormedFor(S0, ALICE) && !IsFaulty(S0, ALICE) && EarliestUnitTime(S0, ALICE) == 0
    ensures NextTimer(S0, ALICE, ROUND_EXP, 416) == 426
    ensures [Effect.ScheduleTimer(426)] + TimerTick(S0, ALICE, ROUND_EXP, 416, None).0
         == [ScheduleTimer(426), RequestNewBlock(BlockContext(416, 0))]
    ensures TimerTick(S0, ALICE, ROUND_EXP, 416, None).1 == Some(Proposal(416, EMPTY))
  {
    RoundArithmetic();
    assert IsProposalTick(S0, ALICE, ROUND_EXP, 416);
    assert !ParentIsTerminal(S0, 416) && ParentHeight(S0, 416) == 0 && S0.cutoff(416) == EMPTY;
  }

  lemma ProposeFacts()
    ensures WellFormedFor(S0, ALICE) && !IsFaulty(S0, ALICE) && EarliestUnitTime(S0, ALICE) == 0
    ensures UnitFor(S0, ALICE, ROUND_EXP, EMPTY, 416, Some(VALUE)) == WireUnit(EMPTY, ALICE, Some(VALUE), 416, ROUND_EXP)
  {
    RoundArithmetic();
  }

  lemma ConfirmationFacts()
    ensures WellFormedFor(S1, ALICE) && WellFormedFor(S1, BOB) && PROPOSAL_HASH in S1.units
    ensures ALICE !in S1.evidence && BOB !in S1.evidence && !ShouldEndorse(S1, PROPOSAL_HASH)
    ensures !ShouldSendConfirmation(S1, ALICE, ROUND_EXP, PROPOSAL_HASH, 417)
    ensures ShouldSendConfirmation(S1, BOB, ROUND_EXP, PROPOSAL_HASH, 419)
    ensures HasCorrect(S1.confirmationPanorama(BOB, PROPOSAL_HASH))
    ensures UnitFor(S1, BOB, ROUND_EXP, S1.confirmationPanorama(BOB, PROPOSAL_HASH), 419, None)
         == WireUnit(AFTER_PROPOSAL, BOB, None, 419, ROUND_EXP)
  {
    RoundArithmetic();
    assert S1.confirmationPanorama(BOB, PROPOSAL_HASH).entries[0].Correct?;
    assert !AnyNewFaultyObservation(S1, PROPOSAL_HASH, 2);
  }

  lemma BobWitnessFacts()
    ensures WellFormedFor(S2, BOB) && !IsFaulty(S2, BOB) && EarliestUnitTime(S2, BOB) == 419
    ensures NextTimer(S2, BOB, ROUND_EXP, 426) == 432
    ensures [Effect.ScheduleTimer(432)] + TimerTick(S2, BOB, ROUND_EXP, 426, None).0
         == [ScheduleTimer(432), NewVertex(UnitVertex(WireUnit(AFTER_CONFIRMATION, BOB, None, 426, ROUND_EXP)))]
    ensures TimerTick(S2, BOB, ROUND_EXP, 426, None).1 == None
  {
    RoundArithmetic();
    assert RoundExp(S2, BOB, ROUND_EXP, 426) == ROUND_EXP;
    assert !IsProposalTick(S2, BOB, ROUND_EXP, 426) && IsWitnessTick(S2, BOB, ROUND_EXP, 426);
    assert S2.cutoff(426).entries[0].Correct?;
    assert UnitFor(S2, BOB, ROUND_EXP, S2.cutoff(426), 426, None) == WireUnit(AFTER_CONFIRMATION, BOB, None, 426, ROUND_EXP);
  }

  lemma AliceWitnessFacts()
    ensures WellFormedFor(S3, ALICE) && !IsFaulty(S3, ALICE) && EarliestUnitTime(S3, ALICE) == 416
    ensures NextTimer(S3, ALICE, ROUND_EXP, 426) == 442
    ensures [Effect.ScheduleTimer(442)] + TimerTick(S3, ALICE, ROUND_EXP, 426, None).0
         == [ScheduleTimer(442), NewVertex(UnitVertex(WireUnit(AFTER_BOB_WITNESS, ALICE, None, 426, ROUND_EXP)))]
    ensures TimerTick(S3, ALICE, ROUND_EXP, 426, None).1 == None
  {
    RoundArithmetic();
    assert RoundExp(S3, ALICE, ROUND_EXP, 426) == ROUND_EXP && RoundExp(S3, ALICE, ROUND_EXP, 432) == ROUND_EXP;
    assert !IsProposalTick(S3, ALICE, ROUND_EXP, 426) && IsWitnessTick(S3, ALICE, ROUND_EXP, 426);
    assert S3.cutoff(426).entries[0].Correct?;
    assert UnitFor(S3, ALICE, ROUND_EXP, S3.cutoff(426), 426, None) == WireUnit(AFTER_BOB_WITNESS, ALICE, None, 426, ROUND_EXP);
  }

  /** Both validators start at 410: Alice wakes up for her proposal at 416, Bob for the witness point at 426. */
  method Start() returns (alice: ActiveValidator, bob: ActiveValidator, aliceStart: seq<Effect>, bobStart: seq<Effect>)
    ensures fresh(alice) && fresh(bob) && alice != bob && alice.Valid() && bob.Valid()
    ensures alice.vidx == ALICE && alice.nextRoundExp == ROUND_EXP && alice.nextProposal == None
    ensures bob.vidx == BOB && bob.nextRoundExp == ROUND_EXP && bob.nextProposal == None
    ensures alice.nextTimer == 416 && bob.nextTimer == 426
    ensures aliceStart == [ScheduleTimer(416)]
    ensures bobStart == [ScheduleTimer(426)]
  {
    StartFacts();
    alice, aliceStart := ActiveValidator.New(ALICE, 410, S0);
    bob, bobStart := ActiveValidator.New(BOB, 410, S0);
  }

  /** At 415 Alice's timer for 416 is still ahead and 415 is no tick: nothing happens. */
  method AliceTooEarly(alice: ActiveValidator) returns (effects: seq<Effect>)
    requires alice.vidx == ALICE && alice.nextRoundExp == ROUND_EXP && alice.nextProposal == None
    requires alice.nextTimer == 416
    modifies alice`nextTimer, alice`nextProposal
    ensures alice.nextProposal == None && alice.nextTimer == 416
    ensures effects == []
  {
    AliceTooEarlyFacts();
    effects := alice.HandleTimer(415, S0);
  }

  /** At 416 Alice schedules her witness point and asks for a value at height 0. */
  method AliceLeads(alice: ActiveValidator) returns (effects: seq<Effect>)
    requires alice.vidx == ALICE && alice.nextRoundExp == ROUND_EXP && alice.nextProposal == None
    requires alice.nextTimer == 416
    modifies alice`nextTimer, alice`nextProposal
    ensures alice.nextProposal == Some(Proposal(416, EMPTY)) && alice.nextTimer == 426
    ensures effects == [ScheduleTimer(426), RequestNewBlock(BlockContext(416, 0))]
  {
    AliceLeadFacts();
    effects := alice.HandleTimer(416, S0);
  }

  /** The value arrives and becomes Alice's proposal unit. */
  method AliceProposes(alice: ActiveValidator) returns (effects: seq<Effect>)
    requires alice.vidx == ALICE && alice.nextRoundExp == ROUND_EXP
    requires alice.nextProposal == Some(Proposal(416, EMPTY))
    modifies alice`nextProposal
    ensures alice.nextProposal == None
    ensures effects == [NewVertex(UnitVertex(WireUnit(EMPTY, ALICE, Some(VALUE), 416, ROUND_EXP)))]
  {
    ProposeFacts();
    effects := alice.Propose(VALUE, BlockContext(416, 0), S0);
  }

  /** Alice sends nothing for her own proposal; Bob confirms it at 419. */
  method Confirmations(alice: ActiveValidator, bob: ActiveValidator) returns (aliceOwn: seq<Effect>, bobConfirm: seq<Effect>)
    requires alice != bob
    requires alice.vidx == ALICE && alice.nextRoundExp == ROUND_EXP && alice.nextProposal == None
    requires bob.vidx == BOB && bob.nextRoundExp == ROUND_EXP && bob.nextProposal == None
    modifies alice`nextProposal, bob`nextProposal
    ensures alice.nextRoundExp == ROUND_EXP && alice.nextProposal == None && alice.nextTimer == old(alice.nextTimer)
    ensures bob.nextRoundExp == ROUND_EXP && bob.nextProposal == None && bob.nextTimer == old(bob.nextTimer)
    ensures aliceOwn == []
    ensures bobConfirm == [NewVertex(UnitVertex(WireUnit(AFTER_PROPOSAL, BOB, None, 419, ROUND_EXP)))]
  {
    ConfirmationFacts();
    aliceOwn := alice.OnNewUnit(PROPOSAL_HASH, 417, S1);
    bobConfirm := bob.OnNewUnit(PROPOSAL_HASH, 419, S1);
  }

  /** Bob's witness unit at 426; he leads the next round, so his next timer is its start. */
  method BobWitnesses(bob: ActiveValidator) returns (effects: seq<Effect>)
    requires bob.vidx == BOB && bob.nextRoundExp == ROUND_EXP && bob.nextProposal == None
    requires bob.nextTimer == 426
    modifies bob`nextTimer, bob`nextProposal
    ensures bob.nextTimer == 432
    ensures effects == [ScheduleTimer(432), NewVertex(UnitVertex(WireUnit(AFTER_CONFIRMATION, BOB, None, 426, ROUND_EXP)))]
  {
    BobWitnessFacts();
    effects := bob.HandleTimer(426, S2);
  }

  /** Alice's witness unit at 426, citing Bob's; her next timer is the witness point of Bob's round. */
  method AliceWitnesses(alice: ActiveValidator) returns (effects: seq<Effect>)
    requires alice.vidx == ALICE && alice.nextRoundExp == ROUND_EXP && alice.nextProposal == None
    requires alice.nextTimer == 426
    modifies alice`nextTimer, alice`nextProposal
    ensures alice.nextTimer == 442
    ensures effects == [ScheduleTimer(442), NewVertex(UnitVertex(WireUnit(AFTER_BOB_WITNESS, ALICE, None, 426, ROUND_EXP)))]
  {
    AliceWitnessFacts();
    effects := alice.HandleTimer(426, S3);
  }

  /** The schedule of both validators, from their creation to their witness units. */
  method Timeline()
    returns (aliceStart: seq<Effect>, bobStart: seq<Effect>, aliceEarly: seq<Effect>,
             aliceLead: seq<Effect>, aliceProposal: seq<Effect>, aliceOwn: seq<Effect>,
             bobConfirm: seq<Effect>, bobWitness: seq<Effect>, aliceWitness: seq<Effect>)
    ensures aliceStart == [ScheduleTimer(416)]
    ensures bobStart == [ScheduleTimer(426)]
    ensures aliceEarly == []
    ensures aliceLead == [ScheduleTimer(426), RequestNewBlock(BlockContext(416, 0))]
    ensures aliceProposal == [NewVertex(UnitVertex(WireUnit(EMPTY, ALICE, Some(VALUE), 416, ROUND_EXP)))]
    ensures aliceOwn == []
    ensures bobConfirm == [NewVertex(UnitVertex(WireUnit(AFTER_PROPOSAL, BOB, None, 419, ROUND_EXP)))]
    ensures bobWitness == [ScheduleTimer(432), NewVertex(UnitVertex(WireUnit(AFTER_CONFIRMATION, BOB, None, 426, ROUND_EXP)))]
    ensures aliceWitness == [ScheduleTimer(442), NewVertex(UnitVertex(WireUnit(AFTER_BOB_WITNESS, ALICE, None, 426, ROUND_EXP)))]
  {
    var alice, bob;
    alice, bob, aliceStart, bobStart := Start();
    aliceEarly := AliceTooEarly(alice);
    aliceLead := AliceLeads(alice);
    aliceProposal := AliceProposes(alice);
    aliceOwn, bobConfirm := Confirmations(alice, bob);
    bobWitness := BobWitnesses(bob);
    aliceWitness := AliceWitnesses(alice);
  }
}
