/** The chip: power state, the two latched fault states, and what wake, sleep and commands do
    to them. The rules are those the engine states where it parks the chip. */
module Chips {
  import opened Bytes

  /** ATCA_STATUS, as far as the engine tells values apart. */
  datatype Status =
    | Success | FuncFail | GenFail | BadParam | HealthTestError | CheckMacVerifyFailed
    | OtherFail(code: nat)

  datatype Power = Awake | Idle | Asleep

  /** health: latched RNG health-test failure; corrupt: the "corrupted idle" latch. */
  datatype Chip = Chip(power: Power, health: bool, corrupt: bool)

  /** Asleep with both latches clear. */
  const PARKED := Chip(Asleep, false, false)

  /** atcab_wakeup: the chip listens afterwards, latches stay. */
  function Wake(c: Chip): Chip {
    c.(power := Awake)
  }

  /** atcab_sleep: the sleep flag reaches only an awake chip, and a real sleep wipes the latches. */
  function Sleep(c: Chip): Chip {
    if c.power == Awake then PARKED else c
  }

  /** The status a wake may report: the response read fails in corrupted idle. */
  predicate WakeStatus(c: Chip, st: Status) {
    c.corrupt ==> st != Success
  }

  datatype Command =
    | ReadSerial
    | NonceRand
    | CheckMac(slot: Byte, password: string)
    | Sign(slot: Byte, digest: seq<Byte>)
    | GetPubkey(slot: Byte)
    | GenKey(slot: Byte)
    | VerifyExtern(digest: seq<Byte>, sig: seq<Byte>, pubkey: seq<Byte>)
    | Random

  datatype Reply = Reply(status: Status, data: seq<Byte>)

  /** Commands that draw on the random generator and so see its health latch. */
  predicate NeedsRng(cmd: Command) {
    cmd.NonceRand? || cmd.Sign? || cmd.GetPubkey? || cmd.GenKey? || cmd.Random?
  }

  function ReplyLen(cmd: Command): nat {
    match cmd
    case ReadSerial => 9
    case NonceRand => 32
    case CheckMac(_, _) => 0
    case Sign(_, _) => 64
    case GetPubkey(_) => 64
    case GenKey(_) => 64
    case VerifyExtern(_, _, _) => 1
    case Random => 32
  }

  /** One command on chip c may answer r and leave chip d. Idling after a command keeps latches,
      and so does an aborted command that leaves the chip awake; a corrupted chip cannot be
      woken for a command; a latched generator fails every command that needs it, and only the
      latch makes a command report it. */
  predicate Answers(c: Chip, cmd: Command, r: Reply, d: Chip) {
    && d.power != Asleep
    && (c.health ==> d.health)
    && (c.corrupt ==> d.corrupt && r.status.OtherFail?)
    && (c.health && !c.corrupt && NeedsRng(cmd) ==> r.status == HealthTestError)
    && (r.status == HealthTestError ==> d.health)
    && (r.status == Success ==> |r.data| == ReplyLen(cmd))
  }

  /** Wake then sleep parks the chip from every state. */
  lemma ParkAlwaysParks(c: Chip)
    ensures Sleep(Wake(c)) == PARKED
  {
  }

  /** No wake clears a latch: only a sleep that reaches an awake chip does. */
  lemma OnlySleepCures(c: Chip)
    ensures Wake(c) == Chip(Awake, c.health, c.corrupt)
    ensures Sleep(c) != c ==> c.power == Awake
  {
  }

  /** A bare sleep parks exactly an awake or already parked chip; on an idle one it is lost
      and every latch survives it. */
  lemma BareSleepParksOnlyAwake(c: Chip)
    ensures Sleep(c) == PARKED <==> c.power == Awake || c == PARKED
    ensures c.power == Idle ==> Sleep(c) == c
  {
  }
}
