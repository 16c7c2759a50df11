/**
 * One player's decoded state on one frame (tekken/bot_snapshot.py): the raw
 * values read from game memory, the decoding into enum members and flags, and
 * the derived predicates the frame-data and punish logic ask about.
 */
module BotSnapshots {
  import opened Wrappers
  import opened MoveInfoEnums

  /** The raw values of one player's data block, keyed as in the reader's
    * `data_dict`. Cancel-window and jump words are 32-bit memory words. */
  datatype RawPlayerData = RawPlayerData(
    moveId: int,
    simpleMoveState: int,
    attackType: int,
    attackStartup: int,
    attackStartupEnd: int,
    attackDamage: int,
    complexMoveState: int,
    damageTaken: int,
    moveTimer: int,
    recovery: int,
    charId: int,
    throwFlag: int,
    rageFlag: int,
    inputCounter: int,
    inputDirection: int,
    inputAttack: int,
    stunType: int,
    powerCrush: int,
    cancelWindow: bv32,
    throwTech: int,
    jumpFlags: bv32,
    hitOutcome: int,
    mysteryState: int,
    roundWins: int,
    displayComboCounter: int,
    displayComboDamage: int,
    displayJuggleDamage: int,
    useOpponentMovelist: bool)

  /** A decoded `BotSnapshot`. */
  datatype BotSnapshot = BotSnapshot(
    moveId: int,
    simpleState: SimpleMoveStates,
    attackType: AttackType,
    startup: int,
    startupEnd: int,
    attackDamage: int,
    complexState: ComplexMoveStates,
    damageTaken: int,
    moveTimer: int,
    recovery: int,
    charId: int,
    throwFlag: int,
    rageFlag: int,
    inputCounter: int,
    inputDirection: InputDirectionCodes,
    inputButton: InputAttackCodes,
    rageButtonFlag: bool,
    stunState: StunStates,
    powerCrushFlag: bool,
    isCancelable: bool,
    isBufferable: bool,
    isParry1: bool,
    isParry2: bool,
    throwTech: ThrowTechs,
    isJump: bool,
    hitOutcome: HitOutcome,
    mysteryState: int,
    wins: int,
    comboCounter: int,
    comboDamage: int,
    juggleDamage: int,
    useOpponentsMovelist: bool,
    characterName: string)
  {
    predicate IsBlocking() { complexState == ComplexMoveStates.BLOCK }

    predicate IsGettingCounterHit()
    {
      hitOutcome == HitOutcome.COUNTER_HIT_CROUCHING || hitOutcome == HitOutcome.COUNTER_HIT_STANDING
    }

    predicate IsGettingGroundHit()
    {
      hitOutcome == HitOutcome.GROUNDED_FACE_DOWN || hitOutcome == HitOutcome.GROUNDED_FACE_UP
    }

    predicate IsGettingWallSplatted()
    {
      simpleState == SimpleMoveStates.WALL_SPLAT_18 || simpleState == SimpleMoveStates.WALL_SPLAT_19
    }

    predicate IsGettingHit()
    {
      stunState == StunStates.BEING_PUNISHED || stunState == StunStates.GETTING_HIT
    }

    predicate IsHitting() { stunState == StunStates.DOING_THE_HITTING }

    predicate IsPunish() { stunState == StunStates.BEING_PUNISHED }

    predicate IsAttackMid() { attackType == AttackType.MID }

    predicate IsAttackUnblockable()
    {
      attackType in {AttackType.HIGH_UNBLOCKABLE, AttackType.LOW_UNBLOCKABLE, AttackType.MID_UNBLOCKABLE}
    }

    predicate IsAttackAntiair() { attackType == AttackType.ANTIAIR_ONLY }

    predicate IsAttackThrow() { throwFlag == 1 }

    predicate IsAttackLow() { attackType == AttackType.LOW }

    predicate IsInThrowing() { attackType == AttackType.THROW }

    function GetActiveFrames(): int { startupEnd - startup + 1 }

    predicate IsAttackWhiffing()
    {
      complexState in {ComplexMoveStates.END1, ComplexMoveStates.F_MINUS, ComplexMoveStates.RECOVERING,
                       ComplexMoveStates.UN17, ComplexMoveStates.SS, ComplexMoveStates.WALK}
    }

    predicate IsOnGround()
    {
      simpleState in {SimpleMoveStates.GROUND_FACEDOWN, SimpleMoveStates.GROUND_FACEUP}
    }

    predicate IsBeingJuggled() { simpleState == SimpleMoveStates.JUGGLED }

    predicate IsAirborne() { simpleState == SimpleMoveStates.AIRBORNE }

    predicate IsHoldingUp() { inputDirection == InputDirectionCodes.u }

    predicate IsHoldingUpBack() { inputDirection == InputDirectionCodes.ub }

    predicate IsTechnicalCrouch()
    {
      simpleState == SimpleMoveStates.CROUCH || simpleState == SimpleMoveStates.CROUCH_BACK
      || simpleState == SimpleMoveStates.CROUCH_FORWARD
    }

    predicate IsTechnicalJump() { isJump }

    predicate IsHoming1() { complexState == ComplexMoveStates.S_PLUS }

    predicate IsHoming2() { complexState == ComplexMoveStates.S }

    predicate IsPowerCrush() { powerCrushFlag }

    predicate IsBeingKnockedDown() { simpleState == SimpleMoveStates.KNOCKDOWN }

    predicate IsWhileStanding()
    {
      simpleState in {SimpleMoveStates.CROUCH, SimpleMoveStates.CROUCH_BACK, SimpleMoveStates.CROUCH_FORWARD}
    }

    predicate IsWallSplat() { moveId == 2396 || moveId == 2387 || moveId == 2380 || moveId == 2382 }

    predicate IsInRage() { rageFlag > 0 }

    predicate IsAbleToAct() { isCancelable }

    predicate IsParryable1() { isParry1 }

    predicate IsParryable2() { isParry2 }

    predicate IsBufferable() { isBufferable }

    /** In an attack's startup: a positive startup whose last frame has not passed. */
    predicate IsAttackStarting() { startup > 0 && moveTimer <= startup }

    /** The tracking type is the complex move state. */
    function GetTrackingType(): ComplexMoveStates { complexState }
  }

  // ---------------------------------------------------------------------------
  // Character names

  /** The character name exactly as bot_snapshot.py:147-152 computes it:
    * `CharacterCodes(char_id)` raises `ValueError` for an unlisted id, and the
    * `except KeyError` around it does not catch that, so the constructor fails
    * (`None`). */
  function CharacterNameAsWritten(charId: int): (r: Option<string>)
    ensures r.None? <==> CharacterCodeName(charId).None?
  {
    CharacterCodeName(charId)
  }

  /** The evidently intended name: the enum name, or "UNKNOWN" for an unlisted id. */
  function CharacterName(charId: int): (r: string)
    ensures CharacterCodeName(charId).Some? ==> r == CharacterCodeName(charId).value
    ensures r == "UNKNOWN" <==> CharacterCodeName(charId).None?
  {
    match CharacterCodeName(charId)
    case Some(name) => name
    case None => "UNKNOWN"
  }

  /** An id missing from the table (45 lies between NOCTIS 44 and LEI 46) makes
    * the code as written fail where the intended code yields "UNKNOWN". */
  lemma UnknownCharacterIdFinding()
    ensures CharacterNameAsWritten(45) == None
    ensures CharacterName(45) == "UNKNOWN"
  {
  }

  // ---------------------------------------------------------------------------
  // Decoding

  /** Every enum lookup `BotSnapshot.__init__` performs succeeds on `raw`. */
  predicate Decodable(raw: RawPlayerData)
  {
    SimpleMoveStatesOf(raw.simpleMoveState).Some?
    && AttackTypeOf(raw.attackType).Some?
    && ComplexMoveStatesOf(raw.complexMoveState).Some?
    && InputDirectionCodesOf(raw.inputDirection).Some?
    && InputAttackCodesOf(raw.inputAttack % InputAttackCodes.xRAGE.Code()).Some?
    && StunStatesOf(raw.stunType).Some?
    && ThrowTechsOf(raw.throwTech).Some?
    && HitOutcomeOf(raw.hitOutcome).Some?
  }

  /** `BotSnapshot(data_dict)` (bot_snapshot.py, lines 41-152). `None` stands
    * for the `ValueError` an unknown value of a move-state, attack, input, stun,
    * throw-tech or hit-outcome enum raises; the character name follows
    * `CharacterName`, so an unknown character id gives "UNKNOWN". */
  function Decode(raw: RawPlayerData): (r: Option<BotSnapshot>)
    ensures r.Some? <==> Decodable(raw)
    ensures r.Some? ==> (r.value.moveId == raw.moveId && r.value.damageTaken == raw.damageTaken
                         && r.value.moveTimer == raw.moveTimer && r.value.recovery == raw.recovery
                         && r.value.startup == raw.attackStartup
                         && r.value.comboCounter == raw.displayComboCounter)
    ensures r.Some? ==> (r.value.simpleState.Code() == raw.simpleMoveState
                         && r.value.complexState.Code() == raw.complexMoveState
                         && r.value.attackType.Code() == raw.attackType
                         && r.value.stunState.Code() == raw.stunType
                         && r.value.hitOutcome.Code() == raw.hitOutcome
                         && r.value.throwTech.Code() == raw.throwTech
                         && r.value.inputDirection.Code() == raw.inputDirection)
    ensures r.Some? ==> (r.value.startupEnd == raw.attackStartupEnd && r.value.attackDamage == raw.attackDamage
                         && r.value.charId == raw.charId && r.value.throwFlag == raw.throwFlag
                         && r.value.rageFlag == raw.rageFlag && r.value.inputCounter == raw.inputCounter
                         && r.value.mysteryState == raw.mysteryState && r.value.wins == raw.roundWins
                         && r.value.comboDamage == raw.displayComboDamage
                         && r.value.juggleDamage == raw.displayJuggleDamage
                         && r.value.useOpponentsMovelist == raw.useOpponentMovelist
                         && (r.value.powerCrushFlag <==> raw.powerCrush > 0))
    ensures r.Some? ==> (r.value.inputButton.Code() == raw.inputAttack % 8192
                         && (r.value.rageButtonFlag <==> raw.inputAttack >= 8192))
    ensures r.Some? ==> ((r.value.isCancelable <==> raw.cancelWindow & CANCELABLE != 0)
                         && (r.value.isBufferable <==> raw.cancelWindow & BUFFERABLE != 0)
                         && (r.value.isParry1 <==> raw.cancelWindow & PARRYABLE_1 != 0)
                         && (r.value.isParry2 <==> raw.cancelWindow & PARRYABLE_2 != 0))
    ensures r.Some? ==> (r.value.isJump <==> raw.jumpFlags & 0x0080_0000 != 0 && raw.jumpFlags & 0x0002_0000 != 0)
    ensures r.Some? ==> r.value.characterName == CharacterName(raw.charId)
  {
    if !Decodable(raw) then None
    else
      JumpNeedsBothBits(raw.jumpFlags);
      Some(BotSnapshot(
        moveId := raw.moveId,
        simpleState := SimpleMoveStatesOf(raw.simpleMoveState).value,
        attackType := AttackTypeOf(raw.attackType).value,
        startup := raw.attackStartup,
        startupEnd := raw.attackStartupEnd,
        attackDamage := raw.attackDamage,
        complexState := ComplexMoveStatesOf(raw.complexMoveState).value,
        damageTaken := raw.damageTaken,
        moveTimer := raw.moveTimer,
        recovery := raw.recovery,
        charId := raw.charId,
        throwFlag := raw.throwFlag,
        rageFlag := raw.rageFlag,
        inputCounter := raw.inputCounter,
        inputDirection := InputDirectionCodesOf(raw.inputDirection).value,
        inputButton := InputAttackCodesOf(raw.inputAttack % InputAttackCodes.xRAGE.Code()).value,
        rageButtonFlag := raw.inputAttack >= InputAttackCodes.xRAGE.Code(),
        stunState := StunStatesOf(raw.stunType).value,
        powerCrushFlag := raw.powerCrush > 0,
        isCancelable := HasFlags(raw.cancelWindow, CANCELABLE),
        isBufferable := HasFlags(raw.cancelWindow, BUFFERABLE),
        isParry1 := HasFlags(raw.cancelWindow, PARRYABLE_1),
        isParry2 := HasFlags(raw.cancelWindow, PARRYABLE_2),
        throwTech := ThrowTechsOf(raw.throwTech).value,
        isJump := HasFlags(raw.jumpFlags, JUMP),
        hitOutcome := HitOutcomeOf(raw.hitOutcome).value,
        mysteryState := raw.mysteryState,
        wins := raw.roundWins,
        comboCounter := raw.displayComboCounter,
        comboDamage := raw.displayComboDamage,
        juggleDamage := raw.displayJuggleDamage,
        useOpponentsMovelist := raw.useOpponentMovelist,
        characterName := CharacterName(raw.charId)))
  }

  /** A rage press decodes to the same button with the rage flag set: the
    * `% 8192` and `>= 8192` split of the input word are complementary. */
  lemma RageSplit(raw: RawPlayerData, a: InputAttackCodes)
    requires a != InputAttackCodes.xRAGE
    requires raw.inputAttack == a.Code() + 8192
    requires Decodable(raw)
    ensures Decode(raw).value.inputButton == a
    ensures Decode(raw).value.rageButtonFlag
  {
    AttackCodesBelowRage(a);
    assert raw.inputAttack % 8192 == a.Code();
    var d := Decode(raw).value;
    assert d.inputButton.Code() == a.Code();
    InputAttackCodesRoundTrip(a);
    InputAttackCodesRoundTrip(d.inputButton);
  }

  // ---------------------------------------------------------------------------
  // Relations between the predicates

  /** A punish is a kind of getting hit; while-standing is exactly a technical
    * crouch; a block is never a whiff; some pairs of states are disjoint. */
  lemma PredicateRelations(b: BotSnapshot)
    ensures b.IsPunish() ==> b.IsGettingHit()
    ensures b.IsWhileStanding() <==> b.IsTechnicalCrouch()
    ensures b.IsBlocking() ==> !b.IsAttackWhiffing()
    ensures !(b.IsGettingCounterHit() && b.IsGettingGroundHit())
    ensures b.IsAttackUnblockable() ==> !b.IsAttackMid() && !b.IsAttackLow() && !b.IsInThrowing()
    ensures b.IsHitting() ==> !b.IsGettingHit()
    ensures b.IsHoming1() ==> !b.IsHoming2()
  {
  }

  /** An attack's active window has `startup_end - startup + 1` frames, so it is
    * at least one frame long exactly when the window does not end before it opens. */
  lemma ActiveFramesPositive(b: BotSnapshot)
    ensures b.GetActiveFrames() >= 1 <==> b.startupEnd >= b.startup
  {
  }
}
