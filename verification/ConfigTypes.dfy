/** The configuration record and its two NVS slots and selector (components/pm_config/pm_config.c). */
module ConfigTypes {
  import opened Esp

  const SLOT_A: U8 := 65
  const SLOT_B: U8 := 66
  const SCHEMA: U32 := 1
  const SECRET_MAX: int := 32

  datatype Config = Config(
    schema: U32, generation: U32, deviceId: seq<U8>, name: string, ssid: string, password: string,
    staticIp: bool, address: U32, gateway: U32, netmask: U32, dns: U32, dnsSecondary: U32,
    origin: string, ca: string, timezone: string, ctRating: nat, classicMeter: bool,
    secret: seq<U8>, secretLength: U8, floor: U64, acknowledged: U64, resetGeneration: U32)

  /** `pm_config_validate` without the production gate, on a record whose CRC is right. */
  function Validate(c: Config): EspErr {
    if c.schema != SCHEMA then INVALID_CRC
    else if c.name == "" || c.ssid == "" || !("https://" <= c.origin) || c.ca == "" || c.timezone == ""
         || c.ctRating == 0 || c.ctRating > 100 || c.secretLength > SECRET_MAX || c.acknowledged > c.floor
    then INVALID_ARG
    else if c.staticIp && (c.address == 0 || c.gateway == 0 || c.netmask == 0 || c.dns == 0) then INVALID_ARG
    else OK
  }

  /** `Torn` stands for every blob of the wrong length or CRC. */
  datatype Blob = Missing | Torn | Stored(c: Config)

  datatype Nvs = Nvs(a: Blob, b: Blob, active: Option<U8>)

  predicate IsSlot(slot: U8) { slot == SLOT_A || slot == SLOT_B }

  function Other(slot: U8): U8 { if slot == SLOT_A then SLOT_B else SLOT_A }

  function At(n: Nvs, slot: U8): Blob { if slot == SLOT_A then n.a else n.b }

  function With(n: Nvs, slot: U8, blob: Blob): Nvs { if slot == SLOT_A then n.(a := blob) else n.(b := blob) }

  function ReadError(b: Blob): EspErr {
    match b
    case Missing => NVS_NOT_FOUND
    case Torn => INVALID_CRC
    case Stored(c) => Validate(c)
  }

  /** `pm_config_load`: only the slot the selector names is ever booted. */
  function Load(n: Nvs): Option<Config> {
    if n.active.Some? && IsSlot(n.active.value) && ReadError(At(n, n.active.value)) == OK
    then Some(At(n, n.active.value).c) else None
  }
}
