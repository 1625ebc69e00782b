/** Vocabulary shared by every component: machine widths, `esp_err_t`, and power loss. */
module Esp {
  const U8_MAX: int := 0xFF
  const U32_MAX: int := 0xFFFF_FFFF
  const U64_MAX: int := 0xFFFF_FFFF_FFFF_FFFF

  // Values of these types are checked against their range wherever they are computed,
  // so arithmetic on them is proved never to wrap.
  type U8 = x: int | 0 <= x <= U8_MAX
  type U32 = x: int | 0 <= x <= U32_MAX
  type U64 = x: int | 0 <= x <= U64_MAX

  datatype Option<+T> = None | Some(value: T)

  datatype EspErr =
    | OK | FAIL | NO_MEM | INVALID_ARG | INVALID_STATE | INVALID_SIZE | NOT_FOUND
    | NOT_SUPPORTED | TIMEOUT | INVALID_RESPONSE | INVALID_CRC | NVS_NOT_FOUND | NVS_ERROR

  function ErrorCode(err: EspErr): int {
    match err
    case OK => 0
    case FAIL => -1
    case NO_MEM => 0x101
    case INVALID_ARG => 0x102
    case INVALID_STATE => 0x103
    case INVALID_SIZE => 0x104
    case NOT_FOUND => 0x105
    case NOT_SUPPORTED => 0x106
    case TIMEOUT => 0x107
    case INVALID_RESPONSE => 0x108
    case INVALID_CRC => 0x109
    case NVS_NOT_FOUND => 0x1102
    case NVS_ERROR => 0x1101
  }

  /** What the caller of an operation sees: an error code, or nothing, because power was lost in it. */
  datatype Outcome = Returned(err: EspErr) | PowerCut
  {
    predicate Ok() { this == Returned(OK) }
  }

  /** The environment decides how one NVS call ends; it is free to only when `faulty`. */
  method Environment(faulty: bool) returns (o: Outcome)
    ensures !faulty ==> o.Ok()
    ensures o == Returned(OK) || o == Returned(NVS_ERROR) || o == PowerCut
  {
    o := *;
    if !faulty || (o.Returned? && o.err != NVS_ERROR) { o := Returned(OK); }
  }

  /** Where power may be lost around one atomic write. */
  datatype Survival = Alive | CutBefore | CutAfter

  /** The environment decides whether power is lost; it never is on a `reliable` device. */
  method Power(reliable: bool) returns (s: Survival)
    ensures reliable ==> s.Alive?
  {
    s := *;
    if reliable { s := Alive; }
  }

  /** Memory or a lock an operation needs; it is there on a `reliable` device. */
  method Resource(reliable: bool) returns (o: Outcome)
    ensures o == Returned(OK) || o == Returned(NO_MEM)
    ensures reliable ==> o.Ok()
  {
    var available: bool := *;
    o := Returned(if reliable || available then OK else NO_MEM);
  }
}
