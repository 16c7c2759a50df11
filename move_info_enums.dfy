/**
 * The enumerations of MoveInfoEnums.py that the snapshots decode from raw
 * memory values. An enum member is a datatype constructor; `Code()` is its
 * value and `XOf(code)` is the lookup `X(code)`, which in Python raises
 * `ValueError` for a value the enum does not list (here: `None`).
 */
module MoveInfoEnums {
  import opened Wrappers

  /** `AttackType` (MoveInfoEnums.py, lines 3-22). */
  datatype AttackType =
    ANTIAIR_ONLY | THROW | LOW_UNBLOCKABLE | HIGH_UNBLOCKABLE | MID_UNBLOCKABLE | HIGH | SMID | PROJ | MID | LOW | NA
  {
    /** The member's value. */
    function Code(): int
    {
      match this
      case ANTIAIR_ONLY => 11
      case THROW => 10
      case LOW_UNBLOCKABLE => 9
      case HIGH_UNBLOCKABLE => 8
      case MID_UNBLOCKABLE => 7
      case HIGH => 5
      case SMID => 4
      case PROJ => 3
      case MID => 2
      case LOW => 1
      case NA => 0
    }

    /** The member's `.name`. */
    function Name(): string
    {
      match this
      case ANTIAIR_ONLY => "ANTIAIR_ONLY"
      case THROW => "THROW"
      case LOW_UNBLOCKABLE => "LOW_UNBLOCKABLE"
      case HIGH_UNBLOCKABLE => "HIGH_UNBLOCKABLE"
      case MID_UNBLOCKABLE => "MID_UNBLOCKABLE"
      case HIGH => "HIGH"
      case SMID => "SMID"
      case PROJ => "PROJ"
      case MID => "MID"
      case LOW => "LOW"
      case NA => "NA"
    }
  }

  /** `AttackType(code)`: `None` stands for the `ValueError` of an unknown value. */
  function AttackTypeOf(code: int): (r: Option<AttackType>)
    ensures r.Some? ==> r.value.Code() == code
  {
    match code
    case 11 => Some(AttackType.ANTIAIR_ONLY)
    case 10 => Some(AttackType.THROW)
    case 9 => Some(AttackType.LOW_UNBLOCKABLE)
    case 8 => Some(AttackType.HIGH_UNBLOCKABLE)
    case 7 => Some(AttackType.MID_UNBLOCKABLE)
    case 5 => Some(AttackType.HIGH)
    case 4 => Some(AttackType.SMID)
    case 3 => Some(AttackType.PROJ)
    case 2 => Some(AttackType.MID)
    case 1 => Some(AttackType.LOW)
    case 0 => Some(AttackType.NA)
    case _ => None
  }

  /** Every member is found again from its value, so values are pairwise distinct. */
  lemma AttackTypeRoundTrip(x: AttackType)
    ensures AttackTypeOf(x.Code()) == Some(x)
  {
  }

  /** `SimpleMoveStates` (MoveInfoEnums.py, lines 25-66). */
  datatype SimpleMoveStates =
    UNINITIALIZED | STANDING_FORWARD | STANDING_BACK | STANDING | STEVE | CROUCH_FORWARD | CROUCH_BACK | CROUCH | UNKNOWN_TYPE_9 | GROUND_FACEUP | GROUND_FACEDOWN | JUGGLED | KNOCKDOWN | OFF_AXIS_GETUP | UNKNOWN_10 | UNKNOWN_GETUP_11 | WALL_SPLAT_18 | WALL_SPLAT_19 | TECH_ROLL_OR_FLOOR_BREAK | UNKNOWN_23 | AIRBORNE_24 | AIRBORNE | AIRBORNE_26 | FLY
  {
    /** The member's value. */
    function Code(): int
    {
      match this
      case UNINITIALIZED => 0
      case STANDING_FORWARD => 1
      case STANDING_BACK => 2
      case STANDING => 3
      case STEVE => 4
      case CROUCH_FORWARD => 5
      case CROUCH_BACK => 6
      case CROUCH => 7
      case UNKNOWN_TYPE_9 => 9
      case GROUND_FACEUP => 12
      case GROUND_FACEDOWN => 13
      case JUGGLED => 14
      case KNOCKDOWN => 15
      case OFF_AXIS_GETUP => 8
      case UNKNOWN_10 => 10
      case UNKNOWN_GETUP_11 => 11
      case WALL_SPLAT_18 => 18
      case WALL_SPLAT_19 => 19
      case TECH_ROLL_OR_FLOOR_BREAK => 20
      case UNKNOWN_23 => 23
      case AIRBORNE_24 => 24
      case AIRBORNE => 25
      case AIRBORNE_26 => 26
      case FLY => 27
    }
  }

  /** `SimpleMoveStates(code)`: `None` stands for the `ValueError` of an unknown value. */
  function SimpleMoveStatesOf(code: int): (r: Option<SimpleMoveStates>)
    ensures r.Some? ==> r.value.Code() == code
  {
    match code
    case 0 => Some(SimpleMoveStates.UNINITIALIZED)
    case 1 => Some(SimpleMoveStates.STANDING_FORWARD)
    case 2 => Some(SimpleMoveStates.STANDING_BACK)
    case 3 => Some(SimpleMoveStates.STANDING)
    case 4 => Some(SimpleMoveStates.STEVE)
    case 5 => Some(SimpleMoveStates.CROUCH_FORWARD)
    case 6 => Some(SimpleMoveStates.CROUCH_BACK)
    case 7 => Some(SimpleMoveStates.CROUCH)
    case 9 => Some(SimpleMoveStates.UNKNOWN_TYPE_9)
    case 12 => Some(SimpleMoveStates.GROUND_FACEUP)
    case 13 => Some(SimpleMoveStates.GROUND_FACEDOWN)
    case 14 => Some(SimpleMoveStates.JUGGLED)
    case 15 => Some(SimpleMoveStates.KNOCKDOWN)
    case 8 => Some(SimpleMoveStates.OFF_AXIS_GETUP)
    case 10 => Some(SimpleMoveStates.UNKNOWN_10)
    case 11 => Some(SimpleMoveStates.UNKNOWN_GETUP_11)
    case 18 => Some(SimpleMoveStates.WALL_SPLAT_18)
    case 19 => Some(SimpleMoveStates.WALL_SPLAT_19)
    case 20 => Some(SimpleMoveStates.TECH_ROLL_OR_FLOOR_BREAK)
    case 23 => Some(SimpleMoveStates.UNKNOWN_23)
    case 24 => Some(SimpleMoveStates.AIRBORNE_24)
    case 25 => Some(SimpleMoveStates.AIRBORNE)
    case 26 => Some(SimpleMoveStates.AIRBORNE_26)
    case 27 => Some(SimpleMoveStates.FLY)
    case _ => None
  }

  /** Every member is found again from its value, so values are pairwise distinct. */
  lemma SimpleMoveStatesRoundTrip(x: SimpleMoveStates)
    ensures SimpleMoveStatesOf(x.Code()) == Some(x)
  {
  }

  /** `ComplexMoveStates` (MoveInfoEnums.py, lines 71-114). */
  datatype ComplexMoveStates =
    F_MINUS | S_PLUS | S | A | UN04 | C_MINUS | A_PLUS | C | END1 | BLOCK | WALK | SIDEROLL_GETUP | SIDEROLL_STAYDOWN | SS | RECOVERING | UN17 | UN18 | UN20 | UN22 | UN23 | SW | UNKN
  {
    /** The member's value. */
    function Code(): int
    {
      match this
      case F_MINUS => 0
      case S_PLUS => 1
      case S => 2
      case A => 3
      case UN04 => 4
      case C_MINUS => 5
      case A_PLUS => 6
      case C => 7
      case END1 => 10
      case BLOCK => 11
      case WALK => 12
      case SIDEROLL_GETUP => 13
      case SIDEROLL_STAYDOWN => 14
      case SS => 15
      case RECOVERING => 16
      case UN17 => 17
      case UN18 => 18
      case UN20 => 20
      case UN22 => 22
      case UN23 => 23
      case SW => 28
      case UNKN => 999999
    }

    /** The member's `.name`. */
    function Name(): string
    {
      match this
      case F_MINUS => "F_MINUS"
      case S_PLUS => "S_PLUS"
      case S => "S"
      case A => "A"
      case UN04 => "UN04"
      case C_MINUS => "C_MINUS"
      case A_PLUS => "A_PLUS"
      case C => "C"
      case END1 => "END1"
      case BLOCK => "BLOCK"
      case WALK => "WALK"
      case SIDEROLL_GETUP => "SIDEROLL_GETUP"
      case SIDEROLL_STAYDOWN => "SIDEROLL_STAYDOWN"
      case SS => "SS"
      case RECOVERING => "RECOVERING"
      case UN17 => "UN17"
      case UN18 => "UN18"
      case UN20 => "UN20"
      case UN22 => "UN22"
      case UN23 => "UN23"
      case SW => "SW"
      case UNKN => "UNKN"
    }
  }

  /** `ComplexMoveStates(code)`: `None` stands for the `ValueError` of an unknown value. */
  function ComplexMoveStatesOf(code: int): (r: Option<ComplexMoveStates>)
    ensures r.Some? ==> r.value.Code() == code
  {
    match code
    case 0 => Some(ComplexMoveStates.F_MINUS)
    case 1 => Some(ComplexMoveStates.S_PLUS)
    case 2 => Some(ComplexMoveStates.S)
    case 3 => Some(ComplexMoveStates.A)
    case 4 => Some(ComplexMoveStates.UN04)
    case 5 => Some(ComplexMoveStates.C_MINUS)
    case 6 => Some(ComplexMoveStates.A_PLUS)
    case 7 => Some(ComplexMoveStates.C)
    case 10 => Some(ComplexMoveStates.END1)
    case 11 => Some(ComplexMoveStates.BLOCK)
    case 12 => Some(ComplexMoveStates.WALK)
    case 13 => Some(ComplexMoveStates.SIDEROLL_GETUP)
    case 14 => Some(ComplexMoveStates.SIDEROLL_STAYDOWN)
    case 15 => Some(ComplexMoveStates.SS)
    case 16 => Some(ComplexMoveStates.RECOVERING)
    case 17 => Some(ComplexMoveStates.UN17)
    case 18 => Some(ComplexMoveStates.UN18)
    case 20 => Some(ComplexMoveStates.UN20)
    case 22 => Some(ComplexMoveStates.UN22)
    case 23 => Some(ComplexMoveStates.UN23)
    case 28 => Some(ComplexMoveStates.SW)
    case 999999 => Some(ComplexMoveStates.UNKN)
    case _ => None
  }

  /** Every member is found again from its value, so values are pairwise distinct. */
  lemma ComplexMoveStatesRoundTrip(x: ComplexMoveStates)
    ensures ComplexMoveStatesOf(x.Code()) == Some(x)
  {
  }

  /** `ThrowTechs` (MoveInfoEnums.py, lines 116-122). */
  datatype ThrowTechs =
    NONE | TE1 | TE2 | TE1_2
  {
    /** The member's value. */
    function Code(): int
    {
      match this
      case NONE => 0
      case TE1 => 1
      case TE2 => 2
      case TE1_2 => 3
    }

    /** The member's `.name`. */
    function Name(): string
    {
      match this
      case NONE => "NONE"
      case TE1 => "TE1"
      case TE2 => "TE2"
      case TE1_2 => "TE1_2"
    }
  }

  /** `ThrowTechs(code)`: `None` stands for the `ValueError` of an unknown value. */
  function ThrowTechsOf(code: int): (r: Option<ThrowTechs>)
    ensures r.Some? ==> r.value.Code() == code
  {
    match code
    case 0 => Some(ThrowTechs.NONE)
    case 1 => Some(ThrowTechs.TE1)
    case 2 => Some(ThrowTechs.TE2)
    case 3 => Some(ThrowTechs.TE1_2)
    case _ => None
  }

  /** Every member is found again from its value, so values are pairwise distinct. */
  lemma ThrowTechsRoundTrip(x: ThrowTechs)
    ensures ThrowTechsOf(x.Code()) == Some(x)
  {
  }

  /** `StunStates` (MoveInfoEnums.py, lines 124-134). */
  datatype StunStates =
    NONE | UNKNOWN_2 | BLOCK | GETTING_HIT | DOING_THE_HITTING | BEING_PUNISHED | BLOCK_NO_HIT
  {
    /** The member's value. */
    function Code(): int
    {
      match this
      case NONE => 0
      case UNKNOWN_2 => 2
      case BLOCK => 16777472
      case GETTING_HIT => 256
      case DOING_THE_HITTING => 65536
      case BEING_PUNISHED => 65792
      case BLOCK_NO_HIT => 16777216
    }
  }

  /** `StunStates(code)`: `None` stands for the `ValueError` of an unknown value. */
  function StunStatesOf(code: int): (r: Option<StunStates>)
    ensures r.Some? ==> r.value.Code() == code
  {
    match code
    case 0 => Some(StunStates.NONE)
    case 2 => Some(StunStates.UNKNOWN_2)
    case 16777472 => Some(StunStates.BLOCK)
    case 256 => Some(StunStates.GETTING_HIT)
    case 65536 => Some(StunStates.DOING_THE_HITTING)
    case 65792 => Some(StunStates.BEING_PUNISHED)
    case 16777216 => Some(StunStates.BLOCK_NO_HIT)
    case _ => None
  }

  /** Every member is found again from its value, so values are pairwise distinct. */
  lemma StunStatesRoundTrip(x: StunStates)
    ensures StunStatesOf(x.Code()) == Some(x)
  {
  }

  /** `HitOutcome` (MoveInfoEnums.py, lines 164-190). */
  datatype HitOutcome =
    NONE | BLOCKED_STANDING | BLOCKED_CROUCHING | JUGGLE | SCREW | UNKNOWN_SCREW_5 | UNKNOWN_6 | UNKNOWN_SCREW_7 | GROUNDED_FACE_DOWN | GROUNDED_FACE_UP | COUNTER_HIT_STANDING | COUNTER_HIT_CROUCHING | NORMAL_HIT_STANDING | NORMAL_HIT_CROUCHING | NORMAL_HIT_STANDING_LEFT | NORMAL_HIT_CROUCHING_LEFT | NORMAL_HIT_STANDING_BACK | NORMAL_HIT_CROUCHING_BACK | NORMAL_HIT_STANDING_RIGHT | NORMAL_HIT_CROUCHING_RIGHT
  {
    /** The member's value. */
    function Code(): int
    {
      match this
      case NONE => 0
      case BLOCKED_STANDING => 1
      case BLOCKED_CROUCHING => 2
      case JUGGLE => 3
      case SCREW => 4
      case UNKNOWN_SCREW_5 => 5
      case UNKNOWN_6 => 6
      case UNKNOWN_SCREW_7 => 7
      case GROUNDED_FACE_DOWN => 8
      case GROUNDED_FACE_UP => 9
      case COUNTER_HIT_STANDING => 10
      case COUNTER_HIT_CROUCHING => 11
      case NORMAL_HIT_STANDING => 12
      case NORMAL_HIT_CROUCHING => 13
      case NORMAL_HIT_STANDING_LEFT => 14
      case NORMAL_HIT_CROUCHING_LEFT => 15
      case NORMAL_HIT_STANDING_BACK => 16
      case NORMAL_HIT_CROUCHING_BACK => 17
      case NORMAL_HIT_STANDING_RIGHT => 18
      case NORMAL_HIT_CROUCHING_RIGHT => 19
    }
  }

  /** `HitOutcome(code)`: `None` stands for the `ValueError` of an unknown value. */
  function HitOutcomeOf(code: int): (r: Option<HitOutcome>)
    ensures r.Some? ==> r.value.Code() == code
  {
    match code
    case 0 => Some(HitOutcome.NONE)
    case 1 => Some(HitOutcome.BLOCKED_STANDING)
    case 2 => Some(HitOutcome.BLOCKED_CROUCHING)
    case 3 => Some(HitOutcome.JUGGLE)
    case 4 => Some(HitOutcome.SCREW)
    case 5 => Some(HitOutcome.UNKNOWN_SCREW_5)
    case 6 => Some(HitOutcome.UNKNOWN_6)
    case 7 => Some(HitOutcome.UNKNOWN_SCREW_7)
    case 8 => Some(HitOutcome.GROUNDED_FACE_DOWN)
    case 9 => Some(HitOutcome.GROUNDED_FACE_UP)
    case 10 => Some(HitOutcome.COUNTER_HIT_STANDING)
    case 11 => Some(HitOutcome.COUNTER_HIT_CROUCHING)
    case 12 => Some(HitOutcome.NORMAL_HIT_STANDING)
    case 13 => Some(HitOutcome.NORMAL_HIT_CROUCHING)
    case 14 => Some(HitOutcome.NORMAL_HIT_STANDING_LEFT)
    case 15 => Some(HitOutcome.NORMAL_HIT_CROUCHING_LEFT)
    case 16 => Some(HitOutcome.NORMAL_HIT_STANDING_BACK)
    case 17 => Some(HitOutcome.NORMAL_HIT_CROUCHING_BACK)
    case 18 => Some(HitOutcome.NORMAL_HIT_STANDING_RIGHT)
    case 19 => Some(HitOutcome.NORMAL_HIT_CROUCHING_RIGHT)
    case _ => None
  }

  /** Every member is found again from its value, so values are pairwise distinct. */
  lemma HitOutcomeRoundTrip(x: HitOutcome)
    ensures HitOutcomeOf(x.Code()) == Some(x)
  {
  }

  /** `InputDirectionCodes` (MoveInfoEnums.py, lines 198-212). */
  datatype InputDirectionCodes =
    NULL | N | u | ub | uf | f | b | d | df | db
  {
    /** The member's value. */
    function Code(): int
    {
      match this
      case NULL => 0
      case N => 32
      case u => 256
      case ub => 128
      case uf => 512
      case f => 64
      case b => 16
      case d => 4
      case df => 8
      case db => 2
    }
  }

  /** `InputDirectionCodes(code)`: `None` stands for the `ValueError` of an unknown value. */
  function InputDirectionCodesOf(code: int): (r: Option<InputDirectionCodes>)
    ensures r.Some? ==> r.value.Code() == code
  {
    match code
    case 0 => Some(InputDirectionCodes.NULL)
    case 32 => Some(InputDirectionCodes.N)
    case 256 => Some(InputDirectionCodes.u)
    case 128 => Some(InputDirectionCodes.ub)
    case 512 => Some(InputDirectionCodes.uf)
    case 64 => Some(InputDirectionCodes.f)
    case 16 => Some(InputDirectionCodes.b)
    case 4 => Some(InputDirectionCodes.d)
    case 8 => Some(InputDirectionCodes.df)
    case 2 => Some(InputDirectionCodes.db)
    case _ => None
  }

  /** Every member is found again from its value, so values are pairwise distinct. */
  lemma InputDirectionCodesRoundTrip(x: InputDirectionCodes)
    ensures InputDirectionCodesOf(x.Code()) == Some(x)
  {
  }

  /** `InputAttackCodes` (MoveInfoEnums.py, lines 214-231). */
  datatype InputAttackCodes =
    N | x1 | x2 | x3 | x4 | x1x2 | x1x3 | x1x4 | x2x3 | x2x4 | x3x4 | x1x2x3 | x1x2x4 | x1x3x4 | x2x3x4 | x1x2x3x4 | xRAGE
  {
    /** The member's value. */
    function Code(): int
    {
      match this
      case N => 0
      case x1 => 512
      case x2 => 1024
      case x3 => 2048
      case x4 => 4096
      case x1x2 => 1536
      case x1x3 => 2560
      case x1x4 => 4608
      case x2x3 => 3072
      case x2x4 => 5120
      case x3x4 => 6144
      case x1x2x3 => 3584
      case x1x2x4 => 5632
      case x1x3x4 => 6656
      case x2x3x4 => 7168
      case x1x2x3x4 => 7680
      case xRAGE => 8192
    }
  }

  /** `InputAttackCodes(code)`: `None` stands for the `ValueError` of an unknown value. */
  function InputAttackCodesOf(code: int): (r: Option<InputAttackCodes>)
    ensures r.Some? ==> r.value.Code() == code
  {
    match code
    case 0 => Some(InputAttackCodes.N)
    case 512 => Some(InputAttackCodes.x1)
    case 1024 => Some(InputAttackCodes.x2)
    case 2048 => Some(InputAttackCodes.x3)
    case 4096 => Some(InputAttackCodes.x4)
    case 1536 => Some(InputAttackCodes.x1x2)
    case 2560 => Some(InputAttackCodes.x1x3)
    case 4608 => Some(InputAttackCodes.x1x4)
    case 3072 => Some(InputAttackCodes.x2x3)
    case 5120 => Some(InputAttackCodes.x2x4)
    case 6144 => Some(InputAttackCodes.x3x4)
    case 3584 => Some(InputAttackCodes.x1x2x3)
    case 5632 => Some(InputAttackCodes.x1x2x4)
    case 6656 => Some(InputAttackCodes.x1x3x4)
    case 7168 => Some(InputAttackCodes.x2x3x4)
    case 7680 => Some(InputAttackCodes.x1x2x3x4)
    case 8192 => Some(InputAttackCodes.xRAGE)
    case _ => None
  }

  /** Every member is found again from its value, so values are pairwise distinct. */
  lemma InputAttackCodesRoundTrip(x: InputAttackCodes)
    ensures InputAttackCodesOf(x.Code()) == Some(x)
  {
  }

  /** `CharacterCodes(code).name` (MoveInfoEnums.py, lines 233-286); `None` is the
    * `ValueError` raised for a code the table does not list. */
  function CharacterCodeName(code: int): (r: Option<string>)
    ensures r.Some? ==> |r.value| > 0
  {
    match code
    case 0 => Some("PAUL")
    case 1 => Some("LAW")
    case 2 => Some("KING")
    case 3 => Some("YOSHIMITSU")
    case 4 => Some("HWOARANG")
    case 5 => Some("XIAOYU")
    case 6 => Some("JIN")
    case 7 => Some("BRYAN")
    case 8 => Some("HEIHACHI")
    case 9 => Some("KAZUYA")
    case 10 => Some("STEVE")
    case 11 => Some("JACK_7")
    case 12 => Some("ASUKA")
    case 13 => Some("DEVIL_JIN")
    case 14 => Some("FENG")
    case 15 => Some("LILI")
    case 16 => Some("DRAGUNOV")
    case 17 => Some("LEO")
    case 18 => Some("LARS")
    case 19 => Some("ALISA")
    case 20 => Some("CLAUDIO")
    case 21 => Some("KATARINA")
    case 22 => Some("LUCKY_CHLOE")
    case 23 => Some("SHAHEEN")
    case 24 => Some("JOSIE")
    case 25 => Some("GIGAS")
    case 26 => Some("KAZUMI")
    case 27 => Some("DEVIL_KAZUMI")
    case 28 => Some("NINA")
    case 29 => Some("MASTER_RAVEN")
    case 30 => Some("LEE")
    case 31 => Some("BOB")
    case 32 => Some("AKUMA")
    case 33 => Some("KUMA")
    case 34 => Some("PANDA")
    case 35 => Some("EDDY")
    case 36 => Some("ELIZA")
    case 37 => Some("MIGUEL")
    case 38 => Some("TEKKEN_FORCE")
    case 39 => Some("KID_KAZUYA")
    case 40 => Some("JACK_4")
    case 41 => Some("YOUNG_HEIHACHI")
    case 43 => Some("GEESE")
    case 42 => Some("TRAINING_DUMMY")
    case 44 => Some("NOCTIS")
    case 46 => Some("LEI")
    case 47 => Some("MARDUK")
    case 50 => Some("NEGAN")
    case 71 => Some("NOT_YET_LOADED")
    case 255 => Some("NO_SELECTION")
    case _ => None
  }

  // ---------------------------------------------------------------------------
  // Bit masks (MoveInfoEnums.py, lines 158-162 and 193-196)

  const CANCELABLE: bv32 := 0x0001_0000
  const BUFFERABLE: bv32 := 0x0100_0000
  const PARRYABLE_1: bv32 := 0x0000_0001
  const PARRYABLE_2: bv32 := 0x0000_0002
  const JUMP: bv32 := 0x0082_0000

  /** `(mask & bits) == mask`: every bit of the mask is set in `bits`. */
  predicate HasFlags(bits: bv32, mask: bv32)
  {
    bits & mask == mask
  }

  /** The jump mask has two bits: both must be set. */
  lemma JumpNeedsBothBits(bits: bv32)
    ensures HasFlags(bits, JUMP) <==> (bits & 0x0080_0000 != 0 && bits & 0x0002_0000 != 0)
  {
  }

  /** The attack-button value of every combination is below the rage bit,
    * so `raw % 8192` strips exactly the rage bit (MoveInfoEnums.py, lines 214-231). */
  lemma AttackCodesBelowRage(a: InputAttackCodes)
    ensures a != InputAttackCodes.xRAGE ==> 0 <= a.Code() < InputAttackCodes.xRAGE.Code()
    ensures a != InputAttackCodes.xRAGE ==> (a.Code() + 8192) % 8192 == a.Code()
    ensures a.Code() % 512 == 0
  {
  }

}
