/**
 * The Highway active validator: the part of a consensus participant that decides
 * when to create units. Time is divided into rounds of `2^round_exp` milliseconds;
 * each round has a leader, who proposes a block at the round's start, and every
 * validator sends a witness unit two thirds into the round.
 *
 * The protocol state is not modelled; `StateView` holds what the validator reads
 * from it, and the state's own computations (fork choice, panorama cut-off,
 * leader selection) are functions stored in that view.
 */
module ActiveValidators {
  import opened Wrappers

  type Timestamp = nat
  type TimeDiff = nat
  type ValidatorIndex = nat
  type UnitHash = nat
  type ConsensusValue = nat

  /** Evidence that a validator equivocated; its contents do not matter here. */
  datatype Evidence = Evidence(perpetrator: ValidatorIndex, proof: nat)

  // ---------------------------------------------------------------- rounds

  function Pow2(n: nat): (r: nat)
    ensures r >= 1
  {
    if n == 0 then 1 else 2 * Pow2(n - 1)
  }

  /** `round_len(round_exp)`: a round lasts `1 << round_exp` milliseconds. */
  function RoundLen(roundExp: nat): (r: TimeDiff)
    ensures r >= 1
  {
    Pow2(roundExp)
  }

  /** `round_id(timestamp, round_exp)`: the start of the round containing `timestamp`. */
  function RoundId(timestamp: Timestamp, roundExp: nat): (r: Timestamp)
    ensures r <= timestamp < r + RoundLen(roundExp)
    ensures r % RoundLen(roundExp) == 0
  {
    RoundStart(timestamp, RoundLen(roundExp))
  }

  /** The latest multiple of `len` at or before `t`. */
  function RoundStart(t: nat, len: nat): (r: nat)
    requires len >= 1
    ensures r <= t < r + len
    ensures r % len == 0
  {
    DivModUnique(t - t % len, len, t / len, 0);
    t - t % len
  }

  /** Euclidean division is unique: a decomposition `t == len * q + m` gives the quotient and remainder. */
  lemma DivModUnique(t: int, len: int, q: int, m: int)
    requires len > 0 && 0 <= m < len && t == len * q + m
    ensures t / len == q && t % len == m
  {
    var d := q - t / len;
    assert len * d == t % len - m by {
      assert len * q - len * (t / len) == len * d;
    }
  }

  /** Every timestamp from a round's start until the next round's start has that round's id. */
  lemma RoundIdSameRound(t: Timestamp, t': Timestamp, roundExp: nat)
    requires RoundId(t, roundExp) <= t' < RoundId(t, roundExp) + RoundLen(roundExp)
    ensures RoundId(t', roundExp) == RoundId(t, roundExp)
  {
    var len := RoundLen(roundExp);
    var q := t / len;
    DivModUnique(t, len, q, t % len);
    assert RoundId(t, roundExp) == len * q;
    DivModUnique(t', len, q, t' - len * q);
  }

  /** A round's id is its own round's id. */
  lemma RoundIdIdempotent(t: Timestamp, roundExp: nat)
    ensures RoundId(RoundId(t, roundExp), roundExp) == RoundId(t, roundExp)
  {
    RoundIdSameRound(t, RoundId(t, roundExp), roundExp);
  }

  /** `witness_offset`: how far into a round the witness units are sent, two thirds rounded down. */
  function WitnessOffset(roundLen: TimeDiff): (r: TimeDiff)
    ensures 3 * r <= 2 * roundLen < 3 * r + 3
    ensures roundLen >= 1 ==> r < roundLen
  {
    roundLen * 2 / 3
  }

  // ---------------------------------------------------------------- the state as seen by a validator

  /** What a panorama records about one validator: nothing yet, its latest unit, or that it is faulty. */
  datatype Observation = NotSeen | Correct(hash: UnitHash) | Faulty

  /** A panorama: one observation per validator, by index. */
  datatype Panorama = Panorama(entries: seq<Observation>)

  predicate HasCorrect(p: Panorama) {
    exists i :: 0 <= i < |p.entries| && p.entries[i].Correct?
  }

  /** The fields of a unit the schedule depends on; `previous` is the creator's unit before it. */
  datatype Unit = Unit(creator: ValidatorIndex, panorama: Panorama, timestamp: Timestamp, roundExp: nat,
                       previous: Option<UnitHash>)

  /** A block chosen by the fork choice rule. */
  datatype Block = Block(height: nat, isTerminal: bool)

  /**
   * What the validator reads from the protocol state: the state's panorama, its units,
   * evidence by perpetrator, the citable panorama and its cut-off at a time, the
   * leader of each round, the fork choice for a panorama, and the initial round
   * exponent; and the state's own judgements: whether a unit is a correct proposal,
   * whether a panorama sees a unit, the panorama a validator's confirmation of a unit
   * would cite, and whether a unit cites a new unit by a given validator.
   */
  datatype StateView = StateView(
    panorama: Panorama,
    units: map<UnitHash, Unit>,
    evidence: map<ValidatorIndex, Evidence>,
    citablePanorama: Panorama,
    cutoff: Timestamp -> Panorama,
    leader: Timestamp -> ValidatorIndex,
    forkChoice: Panorama -> Option<Block>,
    initRoundExp: nat,
    isCorrectProposal: UnitHash -> bool,
    seesCorrect: (Panorama, UnitHash) -> bool,
    confirmationPanorama: (ValidatorIndex, UnitHash) -> Panorama,
    newHashObs: (UnitHash, ValidatorIndex) -> bool)

  /**
   * What the code relies on without checking: `vidx` indexes every panorama it looks
   * up, and the units it reaches from its own panorama entry are in the state.
   */
  ghost predicate WellFormedFor(s: StateView, vidx: ValidatorIndex) {
    && vidx < |s.panorama.entries|
    && (forall t :: vidx < |s.cutoff(t).entries|)
    && (forall h :: vidx < |s.confirmationPanorama(vidx, h).entries|)
    && (s.panorama.entries[vidx].Correct? ==>
          var h := s.panorama.entries[vidx].hash;
          h in s.units && (s.units[h].previous.Some? ==> s.units[h].previous.value in s.units))
  }

  /** `latest_unit`: our own latest unit, when the state's panorama has a correct one. */
  function LatestUnit(s: StateView, vidx: ValidatorIndex): (r: Option<Unit>)
    requires WellFormedFor(s, vidx)
    ensures r.Some? <==> s.panorama.entries[vidx].Correct?
    ensures r.Some? ==> r.value == s.units[s.panorama.entries[vidx].hash]
    ensures r.Some? && r.value.previous.Some? ==> r.value.previous.value in s.units
  {
    match s.panorama.entries[vidx]
    case Correct(h) => Some(s.units[h])
    case _ => None
  }

  /** `is_faulty`: the state's panorama marks us as faulty. */
  predicate IsFaulty(s: StateView, vidx: ValidatorIndex)
    requires WellFormedFor(s, vidx)
    ensures IsFaulty(s, vidx) <==> StateIsFaulty(s, vidx)
  {
    s.panorama.entries[vidx].Faulty?
  }

  /** The end of the round in which `u` was cast. */
  function RoundEnd(u: Unit): Timestamp {
    RoundId(u.timestamp, u.roundExp) + RoundLen(u.roundExp)
  }

  /**
   * `earliest_unit_time`: the next unit may not be earlier than our latest unit, nor
   * fall in the round of the unit before it (so no round holds three of our units).
   */
  function EarliestUnitTime(s: StateView, vidx: ValidatorIndex): (r: Timestamp)
    requires WellFormedFor(s, vidx)
    ensures LatestUnit(s, vidx).None? ==> r == 0
    ensures LatestUnit(s, vidx).Some? ==> r >= LatestUnit(s, vidx).value.timestamp
    ensures LatestUnit(s, vidx).Some? && LatestUnit(s, vidx).value.previous.None? ==>
      r == LatestUnit(s, vidx).value.timestamp
    ensures LatestUnit(s, vidx).Some? && LatestUnit(s, vidx).value.previous.Some? ==>
      var end := RoundEnd(s.units[LatestUnit(s, vidx).value.previous.value]);
      r >= end && (r == end || r == LatestUnit(s, vidx).value.timestamp)
  {
    match LatestUnit(s, vidx)
    case None => 0
    case Some(u) =>
      match u.previous
      case None => u.timestamp
      case Some(h2) =>
        var end := RoundEnd(s.units[h2]);
        if u.timestamp >= end then u.timestamp else end
  }

  function Max(a: nat, b: nat): nat {
    if a >= b then a else b
  }

  /**
   * `round_exp`: the exponent of our round containing `timestamp`. The pending
   * `nextRoundExp` applies once `timestamp` lies in a later round (measured with the
   * longer of the two exponents) than our latest unit; until then the latest unit's
   * exponent stays in force.
   */
  function RoundExp(s: StateView, vidx: ValidatorIndex, nextRoundExp: nat, timestamp: Timestamp): (r: nat)
    requires WellFormedFor(s, vidx)
    ensures LatestUnit(s, vidx).None? ==> r == nextRoundExp
    ensures LatestUnit(s, vidx).Some? ==>
      var u := LatestUnit(s, vidx).value;
      (u.timestamp < RoundId(timestamp, Max(nextRoundExp, u.roundExp)) ==> r == nextRoundExp)
      && (u.timestamp >= RoundId(timestamp, Max(nextRoundExp, u.roundExp)) ==> r == u.roundExp)
  {
    match LatestUnit(s, vidx)
    case None => nextRoundExp
    case Some(u) =>
      if u.timestamp < RoundId(timestamp, Max(nextRoundExp, u.roundExp)) then nextRoundExp else u.roundExp
  }

  /**
   * The time `schedule_timer` picks after `timestamp`: this round's witness point if it
   * is still ahead, else the next round's start if we lead it, else its witness point.
   */
  function NextTimer(s: StateView, vidx: ValidatorIndex, nextRoundExp: nat, timestamp: Timestamp): (r: Timestamp)
    requires WellFormedFor(s, vidx)
    ensures r > timestamp
    ensures
      var rExp := RoundExp(s, vidx, nextRoundExp, timestamp);
      var rId := RoundId(timestamp, rExp);
      var rLen := RoundLen(rExp);
      var nextRId := rId + rLen;
      && (timestamp < rId + WitnessOffset(rLen) ==> r == rId + WitnessOffset(rLen))
      && (timestamp >= rId + WitnessOffset(rLen) ==>
            (s.leader(nextRId) == vidx ==> r == nextRId)
            && (s.leader(nextRId) != vidx ==>
                  r == nextRId + WitnessOffset(RoundLen(RoundExp(s, vidx, nextRoundExp, nextRId)))))
      && r <= nextRId + WitnessOffset(RoundLen(RoundExp(s, vidx, nextRoundExp, nextRId)))
  {
    var rExp := RoundExp(s, vidx, nextRoundExp, timestamp);
    var rId := RoundId(timestamp, rExp);
    var rLen := RoundLen(rExp);
    if timestamp < rId + WitnessOffset(rLen) then
      rId + WitnessOffset(rLen)
    else
      var nextRId := rId + rLen;
      if s.leader(nextRId) == vidx then nextRId
      else nextRId + WitnessOffset(RoundLen(RoundExp(s, vidx, nextRoundExp, nextRId)))
  }

  /** `timestamp` is the start of our round and we lead it: time to propose. */
  predicate IsProposalTick(s: StateView, vidx: ValidatorIndex, nextRoundExp: nat, timestamp: Timestamp)
    requires WellFormedFor(s, vidx)
  {
    var rId := RoundId(timestamp, RoundExp(s, vidx, nextRoundExp, timestamp));
    timestamp == rId && s.leader(rId) == vidx
  }

  /** `timestamp` is the witness point of our round. */
  predicate IsWitnessTick(s: StateView, vidx: ValidatorIndex, nextRoundExp: nat, timestamp: Timestamp)
    requires WellFormedFor(s, vidx)
  {
    var rExp := RoundExp(s, vidx, nextRoundExp, timestamp);
    timestamp == RoundId(timestamp, rExp) + WitnessOffset(RoundLen(rExp))
  }

  /** The fork choice's parent at the cut-off panorama for `timestamp` is a terminal block. */
  predicate ParentIsTerminal(s: StateView, timestamp: Timestamp) {
    var parent := s.forkChoice(s.cutoff(timestamp));
    parent.Some? && parent.value.isTerminal
  }

  /** The height of that parent, or 0 when there is none. */
  function ParentHeight(s: StateView, timestamp: Timestamp): nat {
    var parent := s.forkChoice(s.cutoff(timestamp));
    if parent.Some? then parent.value.height else 0
  }

  // ---------------------------------------------------------------- units, vertices, effects

  /** The unit fields set here; sequence number, instance id, endorsements and signature are left out. */
  datatype WireUnit = WireUnit(
    panorama: Panorama,
    creator: ValidatorIndex,
    value: Option<ConsensusValue>,
    timestamp: Timestamp,
    roundExp: nat)

  datatype Endorsement = Endorsement(unit: UnitHash, creator: ValidatorIndex)

  datatype Vertex = UnitVertex(unit: WireUnit) | Endorsements(endorsement: Endorsement)

  datatype BlockContext = BlockContext(timestamp: Timestamp, height: nat)

  /** An action the validator asks its caller to take. */
  datatype Effect =
    | NewVertex(vertex: Vertex)
    | ScheduleTimer(at: Timestamp)
    | RequestNewBlock(context: BlockContext)
    | WeEquivocated(evidence: Evidence)

  /** A proposal waiting for a consensus value: its time and the panorama it will cite. */
  datatype Proposal = Proposal(timestamp: Timestamp, panorama: Panorama)

  /**
   * The unit `new_unit` builds. If the panorama's entry for us differs from the state's,
   * citing it could make us equivocate, so the citable panorama is used instead.
   */
  function UnitFor(s: StateView, vidx: ValidatorIndex, nextRoundExp: nat, panorama: Panorama,
                   timestamp: Timestamp, value: Option<ConsensusValue>): (u: WireUnit)
    requires WellFormedFor(s, vidx) && vidx < |panorama.entries|
    ensures u.creator == vidx && u.timestamp == timestamp && u.value == value
    ensures u.roundExp == RoundExp(s, vidx, nextRoundExp, timestamp)
    ensures panorama.entries[vidx] == s.panorama.entries[vidx] ==> u.panorama == panorama
    ensures panorama.entries[vidx] != s.panorama.entries[vidx] ==> u.panorama == s.citablePanorama
  {
    var cited := if panorama.entries[vidx] != s.panorama.entries[vidx] then s.citablePanorama else panorama;
    WireUnit(cited, vidx, value, timestamp, RoundExp(s, vidx, nextRoundExp, timestamp))
  }

  /** `endorse`: an endorsement of `vhash` by `vidx` (the signature is left out). */
  function Endorse(vidx: ValidatorIndex, vhash: UnitHash): (v: Vertex)
    ensures v.Endorsements? && v.endorsement.unit == vhash && v.endorsement.creator == vidx
  {
    Endorsements(Endorsement(vhash, vidx))
  }

  /**
   * `should_send_confirmation`: confirm a correct proposal by another validator, cast
   * at the start of our current round, not in the future, not earlier than our next
   * unit may be, and not already cited by our latest unit, unless we are faulty.
   */
  predicate ShouldSendConfirmation(s: StateView, vidx: ValidatorIndex, nextRoundExp: nat,
                                   vhash: UnitHash, timestamp: Timestamp)
    requires WellFormedFor(s, vidx) && vhash in s.units
    ensures ShouldSendConfirmation(s, vidx, nextRoundExp, vhash, timestamp) <==>
      var unit := s.units[vhash];
      && EarliestUnitTime(s, vidx) <= timestamp
      && unit.timestamp <= timestamp
      && unit.creator != vidx
      && !IsFaulty(s, vidx)
      && s.isCorrectProposal(vhash)
      && !(LatestUnit(s, vidx).Some? && s.seesCorrect(LatestUnit(s, vidx).value.panorama, vhash))
      && unit.timestamp == RoundId(timestamp, RoundExp(s, vidx, nextRoundExp, timestamp))
  {
    if timestamp < EarliestUnitTime(s, vidx) then false
    else
      var unit := s.units[vhash];
      if unit.timestamp > timestamp then false
      else if unit.creator == vidx || IsFaulty(s, vidx) || !s.isCorrectProposal(vhash) then false
      else if LatestUnit(s, vidx).Some? && s.seesCorrect(LatestUnit(s, vidx).value.panorama, vhash) then false
      else unit.timestamp == RoundId(timestamp, RoundExp(s, vidx, nextRoundExp, timestamp))
  }

  /** `State::is_faulty`: the state's panorama marks validator `v` as faulty. */
  predicate StateIsFaulty(s: StateView, v: ValidatorIndex) {
    v < |s.panorama.entries| && s.panorama.entries[v].Faulty?
  }

  /**
   * `should_endorse`: endorse a unit by a validator not known to be faulty if, for some
   * validator known to be faulty, it cites a unit by that validator that is new to it.
   */
  predicate ShouldEndorse(s: StateView, vhash: UnitHash)
    requires vhash in s.units
    ensures ShouldEndorse(s, vhash) <==>
      && !StateIsFaulty(s, s.units[vhash].creator)
      && exists v :: 0 <= v < |s.units[vhash].panorama.entries| && StateIsFaulty(s, v) && s.newHashObs(vhash, v)
  {
    var unit := s.units[vhash];
    !StateIsFaulty(s, unit.creator) && AnyNewFaultyObservation(s, vhash, |unit.panorama.entries|)
  }

  /** Whether some validator below `n` is faulty and observed anew by the unit `vhash`. */
  predicate AnyNewFaultyObservation(s: StateView, vhash: UnitHash, n: nat)
    ensures AnyNewFaultyObservation(s, vhash, n) <==>
      exists v :: 0 <= v < n && StateIsFaulty(s, v) && s.newHashObs(vhash, v)
  {
    if n == 0 then false
    else AnyNewFaultyObservation(s, vhash, n - 1) || (StateIsFaulty(s, n - 1) && s.newHashObs(vhash, n - 1))
  }

  /**
   * A confirmation is only sent for another validator's unit cast exactly at the start
   * of our current round, and only while that round lasts.
   */
  lemma ConfirmationInProposalRound(s: StateView, vidx: ValidatorIndex, nextRoundExp: nat,
                                    vhash: UnitHash, timestamp: Timestamp)
    requires WellFormedFor(s, vidx) && vhash in s.units
    requires ShouldSendConfirmation(s, vidx, nextRoundExp, vhash, timestamp)
    ensures
      var rExp := RoundExp(s, vidx, nextRoundExp, timestamp);
      var unit := s.units[vhash];
      && unit.creator != vidx
      && RoundId(unit.timestamp, rExp) == unit.timestamp
      && unit.timestamp <= timestamp < unit.timestamp + RoundLen(rExp)
  {
    RoundIdIdempotent(timestamp, RoundExp(s, vidx, nextRoundExp, timestamp));
  }

  /**
   * What `handle_timer` does once the next timer is scheduled, given the pending
   * proposal: the effects it adds and the pending proposal afterwards. Before our
   * earliest unit time nothing happens. At the start of a round we lead, a block is
   * requested (or, after a terminal block, the proposal unit made at once) unless a
   * proposal is already pending. At the round's witness point a witness unit is made
   * if the cut-off panorama sees a correct unit.
   */
  function TimerTick(s: StateView, vidx: ValidatorIndex, nextRoundExp: nat, timestamp: Timestamp,
                     pending: Option<Proposal>): (r: (seq<Effect>, Option<Proposal>))
    requires WellFormedFor(s, vidx)
    ensures EarliestUnitTime(s, vidx) > timestamp ==> r == ([], pending)
    ensures |r.0| <= 1
    ensures r.1 == pending || r.1 == None || (pending.None? && r.1 == Some(Proposal(timestamp, s.cutoff(timestamp))))
    ensures r.1 != pending ==> |r.0| == 1
    ensures forall e :: e in r.0 && e.NewVertex? ==>
      && e.vertex.UnitVertex?
      && e.vertex.unit.creator == vidx
      && e.vertex.unit.timestamp == timestamp
      && e.vertex.unit.value.None?
      && EarliestUnitTime(s, vidx) <= timestamp
      && r.1 == None
    ensures forall e :: e in r.0 && e.RequestNewBlock? ==>
      && IsProposalTick(s, vidx, nextRoundExp, timestamp)
      && pending.None?
      && e.context == BlockContext(timestamp, ParentHeight(s, timestamp))
      && r.1 == Some(Proposal(timestamp, s.cutoff(timestamp)))
    ensures forall e :: e in r.0 ==> e.NewVertex? || e.RequestNewBlock?
  {
    if EarliestUnitTime(s, vidx) > timestamp then ([], pending)
    else if IsProposalTick(s, vidx, nextRoundExp, timestamp) then
      if pending.Some? then ([], pending)
      else if ParentIsTerminal(s, timestamp) then
        ([NewVertex(UnitVertex(UnitFor(s, vidx, nextRoundExp, s.cutoff(timestamp), timestamp, None)))], None)
      else
        ([RequestNewBlock(BlockContext(timestamp, ParentHeight(s, timestamp)))], Some(Proposal(timestamp, s.cutoff(timestamp))))
    else if IsWitnessTick(s, vidx, nextRoundExp, timestamp) && HasCorrect(s.cutoff(timestamp)) then
      ([NewVertex(UnitVertex(UnitFor(s, vidx, nextRoundExp, s.cutoff(timestamp), timestamp, None)))], None)
    else ([], pending)
  }

  /**
   * The schedule a timer follows, for every state: at a proposal tick without a pending
   * proposal the leader requests a block (or, after a terminal block, makes its unit
   * at once); at the witness point a witness unit goes out when the cut-off panorama
   * sees a correct unit; at any other time nothing happens.
   */
  lemma TimerTickSchedule(s: StateView, vidx: ValidatorIndex, nextRoundExp: nat, timestamp: Timestamp,
                          pending: Option<Proposal>)
    requires WellFormedFor(s, vidx)
    ensures var r := TimerTick(s, vidx, nextRoundExp, timestamp, pending);
      EarliestUnitTime(s, vidx) <= timestamp && IsProposalTick(s, vidx, nextRoundExp, timestamp) ==>
        if pending.Some? then r == ([], pending)
        else if ParentIsTerminal(s, timestamp) then
          r == ([NewVertex(UnitVertex(UnitFor(s, vidx, nextRoundExp, s.cutoff(timestamp), timestamp, None)))], None)
        else
          r == ([RequestNewBlock(BlockContext(timestamp, ParentHeight(s, timestamp)))],
                Some(Proposal(timestamp, s.cutoff(timestamp))))
    ensures var r := TimerTick(s, vidx, nextRoundExp, timestamp, pending);
      EarliestUnitTime(s, vidx) <= timestamp && !IsProposalTick(s, vidx, nextRoundExp, timestamp)
      && IsWitnessTick(s, vidx, nextRoundExp, timestamp) ==>
        r == (if HasCorrect(s.cutoff(timestamp))
              then ([NewVertex(UnitVertex(UnitFor(s, vidx, nextRoundExp, s.cutoff(timestamp), timestamp, None)))], None)
              else ([], pending))
    ensures !IsProposalTick(s, vidx, nextRoundExp, timestamp) && !IsWitnessTick(s, vidx, nextRoundExp, timestamp) ==>
      TimerTick(s, vidx, nextRoundExp, timestamp, pending) == ([], pending)
  {
  }

  // ---------------------------------------------------------------- the validator

  class ActiveValidator {
    /** The index this validator signs its units with. */
    const vidx: ValidatorIndex
    /** The round exponent used from the next round on: rounds last `2^nextRoundExp` ms. */
    var nextRoundExp: nat
    /** When the pending timer fires; a reschedule never moves it earlier. */
    var nextTimer: Timestamp
    /** The proposal waiting for a consensus value. */
    var nextProposal: Option<Proposal>

    /** A pending proposal's panorama has an entry for us. */
    ghost predicate Valid()
      reads this
    {
      nextProposal.Some? ==> vidx < |nextProposal.value.panorama.entries|
    }

    constructor Init(vidx: ValidatorIndex, roundExp: nat)
      ensures this.vidx == vidx && nextRoundExp == roundExp
      ensures nextTimer == 0 && nextProposal == None && Valid()
    {
      this.vidx := vidx;
      nextRoundExp := roundExp;
      nextTimer := 0;
      nextProposal := None;
    }

    /** `ActiveValidator::new`: a validator with no timer yet, and the effect scheduling its first one. */
    static method New(vidx: ValidatorIndex, startTime: Timestamp, s: StateView)
      returns (av: ActiveValidator, effects: seq<Effect>)
      requires WellFormedFor(s, vidx)
      ensures fresh(av) && av.Valid()
      ensures av.vidx == vidx && av.nextRoundExp == s.initRoundExp && av.nextProposal == None
      ensures av.nextTimer == NextTimer(s, vidx, s.initRoundExp, startTime) && av.nextTimer > startTime
      ensures effects == [Effect.ScheduleTimer(av.nextTimer)]
    {
      av := new ActiveValidator.Init(vidx, s.initRoundExp);
      effects := av.ScheduleTimer(startTime, s);
    }

    /** `set_round_exp`. */
    method SetRoundExp(newRoundExp: nat)
      modifies this`nextRoundExp
      ensures nextRoundExp == newRoundExp
    {
      nextRoundExp := newRoundExp;
    }

    /**
     * `schedule_timer`: nothing to do while the timer already set lies after
     * `timestamp`; otherwise set and announce the next one. Either way the timer
     * is afterwards strictly later than `timestamp`.
     */
    method ScheduleTimer(timestamp: Timestamp, s: StateView) returns (effects: seq<Effect>)
      requires WellFormedFor(s, vidx)
      modifies this`nextTimer
      ensures old(nextTimer) > timestamp ==> effects == [] && nextTimer == old(nextTimer)
      ensures nextTimer >= old(nextTimer)
      ensures old(nextTimer) <= timestamp ==>
        nextTimer == NextTimer(s, vidx, nextRoundExp, timestamp) && effects == [Effect.ScheduleTimer(nextTimer)]
      ensures nextTimer > timestamp
    {
      if nextTimer > timestamp {
        return [];
      }
      var rExp := RoundExp(s, vidx, nextRoundExp, timestamp);
      var rId := RoundId(timestamp, rExp);
      var rLen := RoundLen(rExp);
      if timestamp < rId + WitnessOffset(rLen) {
        nextTimer := rId + WitnessOffset(rLen);
      } else {
        var nextRId := rId + rLen;
        if s.leader(nextRId) == vidx {
          nextTimer := nextRId;
        } else {
          var nextRExp := RoundExp(s, vidx, nextRoundExp, nextRId);
          nextTimer := nextRId + WitnessOffset(RoundLen(nextRExp));
        }
      }
      assert nextTimer == NextTimer(s, vidx, nextRoundExp, timestamp);
      effects := [Effect.ScheduleTimer(nextTimer)];
    }

    /** `new_unit`: cancels any pending proposal and builds the unit. */
    method NewUnit(panorama: Panorama, timestamp: Timestamp, value: Option<ConsensusValue>, s: StateView)
      returns (unit: WireUnit)
      requires WellFormedFor(s, vidx) && vidx < |panorama.entries|
      modifies this`nextProposal
      ensures nextProposal == None && Valid()
      ensures unit == UnitFor(s, vidx, nextRoundExp, panorama, timestamp, value)
    {
      nextProposal := None;
      var cited := panorama;
      if panorama.entries[vidx] != s.panorama.entries[vidx] {
        cited := s.citablePanorama;
      }
      unit := WireUnit(cited, vidx, value, timestamp, RoundExp(s, vidx, nextRoundExp, timestamp));
    }

    /**
     * `request_new_block`: while a proposal is pending, nothing. After a terminal
     * block the proposal unit is made at once, without a value; otherwise the
     * proposal is stored and a value is requested for the parent's height.
     */
    method RequestNewBlock(s: StateView, timestamp: Timestamp) returns (effect: Option<Effect>)
      requires WellFormedFor(s, vidx)
      modifies this`nextProposal
      ensures old(nextProposal).Some? ==> effect == None && nextProposal == old(nextProposal)
      ensures old(nextProposal).None? && ParentIsTerminal(s, timestamp) ==>
        && effect == Some(NewVertex(UnitVertex(UnitFor(s, vidx, nextRoundExp, s.cutoff(timestamp), timestamp, None))))
        && nextProposal == None
      ensures old(nextProposal).None? && !ParentIsTerminal(s, timestamp) ==>
        && effect == Some(Effect.RequestNewBlock(BlockContext(timestamp, ParentHeight(s, timestamp))))
        && nextProposal == Some(Proposal(timestamp, s.cutoff(timestamp)))
      ensures old(Valid()) ==> Valid()
    {
      if nextProposal.Some? {
        return None;
      }
      var panorama := s.cutoff(timestamp);
      var parent := s.forkChoice(panorama);
      if parent.Some? && parent.value.isTerminal {
        var unit := NewUnit(panorama, timestamp, None, s);
        return Some(NewVertex(UnitVertex(unit)));
      }
      var height := if parent.Some? then parent.value.height else 0;
      nextProposal := Some(Proposal(timestamp, panorama));
      effect := Some(Effect.RequestNewBlock(BlockContext(timestamp, height)));
    }

    /**
     * `propose`: turns the pending proposal into a unit carrying `value`. Outdated
     * contexts and faulty validators produce nothing and keep the proposal; past
     * that point the proposal is consumed even if its time does not match.
     */
    method Propose(value: ConsensusValue, blockContext: BlockContext, s: StateView) returns (effects: seq<Effect>)
      requires WellFormedFor(s, vidx) && Valid()
      modifies this`nextProposal
      ensures Valid()
      ensures EarliestUnitTime(s, vidx) > blockContext.timestamp || IsFaulty(s, vidx) ==>
        effects == [] && nextProposal == old(nextProposal)
      ensures EarliestUnitTime(s, vidx) <= blockContext.timestamp && !IsFaulty(s, vidx) ==>
        && nextProposal == None
        && (old(nextProposal).Some? && old(nextProposal).value.timestamp == blockContext.timestamp ==>
              effects == [NewVertex(UnitVertex(UnitFor(s, vidx, nextRoundExp, old(nextProposal).value.panorama,
                                                       blockContext.timestamp, Some(value))))])
        && (old(nextProposal).None? || old(nextProposal).value.timestamp != blockContext.timestamp ==>
              effects == [])
    {
      var timestamp := blockContext.timestamp;
      if EarliestUnitTime(s, vidx) > timestamp {
        return [];
      }
      if IsFaulty(s, vidx) {
        return [];
      }
      var pending := nextProposal;
      nextProposal := None;
      match pending {
        case None =>
          return [];
        case Some(proposal) =>
          if proposal.timestamp != timestamp {
            return [];
          }
          var unit := NewUnit(proposal.panorama, timestamp, Some(value), s);
          effects := [NewVertex(UnitVertex(unit))];
      }
    }

    /**
     * `handle_timer`: a faulty validator does nothing. Otherwise the next timer is
     * scheduled, and `TimerTick` says what follows.
     */
    method HandleTimer(timestamp: Timestamp, s: StateView) returns (effects: seq<Effect>)
      requires WellFormedFor(s, vidx) && Valid()
      modifies this`nextTimer, this`nextProposal
      ensures Valid()
      ensures IsFaulty(s, vidx) ==>
        effects == [] && nextTimer == old(nextTimer) && nextProposal == old(nextProposal)
      ensures !IsFaulty(s, vidx) ==>
        && nextTimer > timestamp
        && nextTimer == (if old(nextTimer) > timestamp then old(nextTimer) else NextTimer(s, vidx, nextRoundExp, timestamp))
        && effects == (if old(nextTimer) > timestamp then [] else [Effect.ScheduleTimer(nextTimer)])
                      + TimerTick(s, vidx, nextRoundExp, timestamp, old(nextProposal)).0
        && nextProposal == TimerTick(s, vidx, nextRoundExp, timestamp, old(nextProposal)).1
    {
      if IsFaulty(s, vidx) {
        return [];
      }
      effects := ScheduleTimer(timestamp, s);
      var tickEffects := ActOnTick(timestamp, s);
      effects := effects + tickEffects;
    }

    /**
     * The part of `handle_timer` after the timer is rescheduled: propose at the
     * start of a round we lead, make a witness unit at the round's witness point.
     */
    method ActOnTick(timestamp: Timestamp, s: StateView) returns (effects: seq<Effect>)
      requires WellFormedFor(s, vidx) && Valid()
      modifies this`nextProposal
      ensures Valid()
      ensures effects == TimerTick(s, vidx, nextRoundExp, timestamp, old(nextProposal)).0
      ensures nextProposal == TimerTick(s, vidx, nextRoundExp, timestamp, old(nextProposal)).1
    {
      if EarliestUnitTime(s, vidx) > timestamp {
        return [];
      }
      var rExp := RoundExp(s, vidx, nextRoundExp, timestamp);
      var rId := RoundId(timestamp, rExp);
      var rLen := RoundLen(rExp);
      if timestamp == rId && s.leader(rId) == vidx {
        assert IsProposalTick(s, vidx, nextRoundExp, timestamp);
        var request := RequestNewBlock(s, timestamp);
        effects := if request.Some? then [request.value] else [];
      } else if timestamp == rId + WitnessOffset(rLen) {
        assert !IsProposalTick(s, vidx, nextRoundExp, timestamp) && IsWitnessTick(s, vidx, nextRoundExp, timestamp);
        var panorama := s.cutoff(timestamp);
        if HasCorrect(panorama) {
          var witnessUnit := NewUnit(panorama, timestamp, None, s);
          effects := [NewVertex(UnitVertex(witnessUnit))];
        } else {
          effects := [];
        }
      } else {
        assert !IsProposalTick(s, vidx, nextRoundExp, timestamp) && !IsWitnessTick(s, vidx, nextRoundExp, timestamp);
        effects := [];
      }
    }

    /**
     * `on_new_unit`: if the state holds evidence against us, report that we
     * equivocated and nothing else. Otherwise confirm the unit if it is a proposal
     * to confirm and the confirmation panorama sees a correct unit, and endorse it
     * if it should be endorsed.
     */
    method OnNewUnit(vhash: UnitHash, now: Timestamp, s: StateView) returns (effects: seq<Effect>)
      requires WellFormedFor(s, vidx) && Valid() && vhash in s.units
      modifies this`nextProposal
      ensures Valid()
      ensures vidx in s.evidence ==>
        effects == [WeEquivocated(s.evidence[vidx])] && nextProposal == old(nextProposal)
      ensures vidx !in s.evidence ==>
        var confirm := ShouldSendConfirmation(s, vidx, nextRoundExp, vhash, now)
                       && HasCorrect(s.confirmationPanorama(vidx, vhash));
        var confirmation := UnitFor(s, vidx, nextRoundExp, s.confirmationPanorama(vidx, vhash), now, None);
        && effects == (if confirm then [NewVertex(UnitVertex(confirmation))] else [])
                      + (if ShouldEndorse(s, vhash) then [NewVertex(Endorse(vidx, vhash))] else [])
        && nextProposal == (if confirm then None else old(nextProposal))
    {
      if vidx in s.evidence {
        return [WeEquivocated(s.evidence[vidx])];
      }
      effects := [];
      if ShouldSendConfirmation(s, vidx, nextRoundExp, vhash, now) {
        var panorama := s.confirmationPanorama(vidx, vhash);
        if HasCorrect(panorama) {
          var confirmationUnit := NewUnit(panorama, now, None, s);
          effects := effects + [NewVertex(UnitVertex(confirmationUnit))];
        }
      }
      if ShouldEndorse(s, vhash) {
        effects := effects + [NewVertex(Endorse(vidx, vhash))];
      }
    }
  }
}
