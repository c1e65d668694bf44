/** The key token: a 32-octet struct that stands for a chip key, printed as a key id,
    scanned back, carried inside an EC_KEY as its private-key BIGNUM and unpacked when a
    session starts. */
module Token {
  import opened Bytes

  // Layout of eccx08_engine_key_t, all fields uint8_t and so without padding.
  const KEY_SIZE := 32
  const BUS_TYPE := 8
  const BUS_NUM := 9
  const DEVICE_NUM := 10
  const SLOT_NUM := 11
  const PASSWORD_ID := 12

  /** "ATECCx08" in ASCII. */
  const MAGIC: seq<Byte> := [0x41, 0x54, 0x45, 0x43, 0x43, 0x78, 0x30, 0x38]

  const NOPASSWD_ID: Byte := 255

  // Interface types of cryptoauthlib that the engine names.
  const ATCA_I2C_IFACE: Byte := 0
  const ATCA_UART_IFACE: Byte := 2
  const ATCA_HID_IFACE: Byte := 4

  type KeyStruct = b: seq<Byte> | |b| == KEY_SIZE witness Zeros(KEY_SIZE)

  // ------------------------------------------------------------------ key id text

  function HexDigit(d: nat): (c: char)
    requires d < 16
  {
    if d < 10 then (d + '0' as int) as char else (d - 10 + 'a' as int) as char
  }

  function HexValue(c: char): (v: Option<nat>)
    ensures v.Some? ==> v.value < 16
  {
    if '0' <= c <= '9' then Some((c as int) - ('0' as int))
    else if 'a' <= c <= 'f' then Some((c as int) - ('a' as int) + 10)
    else if 'A' <= c <= 'F' then Some((c as int) - ('A' as int) + 10)
    else None
  }

  function HexDigits(n: nat): string {
    (if n < 16 then "" else HexDigits(n / 16)) + [HexDigit(n % 16)]
  }

  /** printf's %02x. */
  function Print02x(n: nat): string {
    if n < 16 then "0" + HexDigits(n) else HexDigits(n)
  }

  /** The key id that get_key prints. */
  function PrintKeyId(busType: Byte, bus: Byte, device: Byte, slot: nat): string {
    "ATECCx08:" + Print02x(busType) + ":" + Print02x(bus) + ":" + Print02x(device) + ":" + Print02x(slot)
  }

  predicate IsSpace(c: char) {
    c == ' ' || '\U{9}' <= c <= '\U{D}'
  }

  function SkipSpace(s: string): string {
    if |s| > 0 && IsSpace(s[0]) then SkipSpace(s[1..]) else s
  }

  /** What scanf's %02hhx takes from s: at most two characters after leading white space, an
      optional sign among them; "0x" fills the field without a digit and so does not match
      (section 7.21.6.2 of ISO/IEC 9899:2011). Gives the octet stored and the text left. */
  function Scan02hhx(s: string): Option<(Byte, string)> {
    var t := SkipSpace(s);
    if |t| == 0 then None
    else if t[0] == '+' || t[0] == '-' then
      if |t| < 2 || HexValue(t[1]).None? then None
      else
        var v := HexValue(t[1]).value;
        Some((if t[0] == '-' then (256 - v) % 256 else v, t[2..]))
    else if HexValue(t[0]).None? then None
    else if |t| < 2 || HexValue(t[1]).None? then
      if |t| >= 2 && t[0] == '0' && (t[1] == 'x' || t[1] == 'X') then None
      else Some((HexValue(t[0]).value, t[1..]))
    else Some((HexValue(t[0]).value * 16 + HexValue(t[1]).value, t[2..]))
  }

  /** The octets that n fields "%02hhx", each behind its own literal, store from s; their
      number is what sscanf returns. */
  function ScanFields(s: string, literal: string, n: nat): (v: seq<Byte>)
    ensures |v| <= n
    decreases n
  {
    if n == 0 || !(literal <= s) then []
    else
      match Scan02hhx(s[|literal|..])
      case None => []
      case Some((octet, rest)) => [octet] + ScanFields(rest, ":", n - 1)
  }

  function ScanKeyId(s: string): (v: seq<Byte>)
    ensures |v| <= 4
  {
    ScanFields(s, "ATECCx08:", 4)
  }

  // ------------------------------------------------------------------ key struct

  /** eccx08_eckey_init as a function: password id and reserved octets keep what was there. */
  function InitStruct(b: KeyStruct, deviceKeySlot: Byte): KeyStruct {
    MAGIC + [0, 0, 0xC0, deviceKeySlot] + b[PASSWORD_ID..]
  }

  /** b with the octets v stored from bus_type onwards. */
  function StoreFields(b: KeyStruct, v: seq<Byte>): KeyStruct
    requires |v| <= 4
  {
    b[..BUS_TYPE] + v + b[BUS_TYPE + |v|..]
  }

  /** eccx08_eckey_string_to_struct as a function, on a struct that held b. */
  function StructFromString(b: KeyStruct, s: string, passwordId: Byte, deviceKeySlot: Byte): KeyStruct {
    var scanned := StoreFields(InitStruct(b, deviceKeySlot), ScanKeyId(s));
    if |ScanKeyId(s)| == 4 then scanned[PASSWORD_ID := passwordId] else scanned
  }

  method EckeyInit(cfg: array?<Byte>, deviceKeySlot: Byte) returns (ret: bool)
    requires cfg != null ==> cfg.Length == KEY_SIZE
    modifies cfg
    ensures ret == (cfg != null)
    ensures cfg != null ==> cfg[..] == InitStruct(old(cfg[..]), deviceKeySlot)
  {
    if cfg == null {
      return false;
    }
    cfg[0], cfg[1], cfg[2], cfg[3] := 0x41, 0x54, 0x45, 0x43;
    cfg[4], cfg[5], cfg[6], cfg[7] := 0x43, 0x78, 0x30, 0x38;
    cfg[BUS_TYPE] := 0;
    cfg[BUS_NUM] := 0;
    cfg[DEVICE_NUM] := 0xC0;
    cfg[SLOT_NUM] := deviceKeySlot;
    return true;
  }

  method EckeyStringToStruct(out: array?<Byte>, text: Option<string>, passwordId: Byte, deviceKeySlot: Byte)
    returns (ret: bool)
    requires out != null ==> out.Length == KEY_SIZE
    modifies out
    ensures ret == (out != null && text.Some? && |ScanKeyId(text.value)| == 4)
    ensures out != null && text.Some? ==>
              out[..] == StructFromString(old(out[..]), text.value, passwordId, deviceKeySlot)
    ensures out != null && text.None? ==> out[..] == old(out[..])
  {
    if out == null || text.None? {
      return false;
    }
    var _ := EckeyInit(out, deviceKeySlot);
    ghost var prepared: KeyStruct := out[..];
    var stored := ScanKeyId(text.value);
    CopyInto(out, BUS_TYPE, stored);
    assert out[..] == StoreFields(prepared, stored);
    if |stored| == 4 {
      out[PASSWORD_ID] := passwordId;
      return true;
    } else {
      return false;
    }
  }

  // ------------------------------------------------------------------ token integers

  /** The private-key integer of an engine key whose struct is b. */
  function Pack(b: KeyStruct): nat {
    OS2IP(b)
  }

  /** The recognizer's view of a private key: padded to the struct's width. */
  function Unpack(v: nat): KeyStruct {
    I2OSP(v, KEY_SIZE)
  }

  predicate IsToken(v: nat) {
    v < Pow256(KEY_SIZE) && Unpack(v)[..8] == MAGIC
  }

  /** eccx08_eckey_isx08key, for a private key that fits the 32-octet buffer. */
  method EckeyIsX08Key(priv: Option<nat>) returns (ret: bool, passwordId: Option<Byte>)
    requires priv.Some? ==> priv.value < Pow256(KEY_SIZE)
    ensures ret <==> priv.Some? && IsToken(priv.value)
    ensures passwordId == if ret then Some(Unpack(priv.value)[PASSWORD_ID]) else None
  {
    ret, passwordId := false, None;
    if priv.Some? {
      var buf := I2OSP(priv.value, KEY_SIZE);
      if buf[..8] == MAGIC {
        passwordId := Some(buf[PASSWORD_ID]);
        ret := true;
      }
    }
  }

  lemma PackedStructIsToken(b: KeyStruct)
    requires b[..8] == MAGIC
    ensures IsToken(Pack(b)) && Unpack(Pack(b)) == b
  {
    OS2IPBound(b);
    PaddedRoundTrip(b);
  }

  /** Every accepted integer has a minimal encoding of exactly 32 octets, so the unpadded
      decode at session start reads the very struct the recognizer read. */
  lemma AcceptedTokenIsFullWidth(v: nat)
    requires IsToken(v)
    ensures |MinBytes(v)| == KEY_SIZE
    ensures MinBytes(v) == Unpack(v)
    ensures Pack(Unpack(v)) == v
  {
    assert Unpack(v)[..8][0] == 0x41;
    LeadingOctetMeansFullWidth(v, KEY_SIZE);
    DecodeOfMinimal(v);
  }

  /** A private key is an engine key exactly if it is the integer of a struct that starts with the
      characters ATECCx08, and then that struct is what the recognizer reads. */
  lemma TokensAreStructs(v: nat)
    ensures IsToken(v) <==> exists b: KeyStruct :: StartsWithMagic(b) && OS2IP(b) == v
    ensures forall b: KeyStruct :: OS2IP(b) == v ==> Unpack(v) == b
  {
    forall b: KeyStruct | OS2IP(b) == v
      ensures Unpack(v) == b && v < Pow256(KEY_SIZE)
    {
      OS2IPBound(b);
      PaddedRoundTrip(b);
    }
    assert forall b: KeyStruct :: StartsWithMagic(b) <==> b[..8] == MAGIC;
    if IsToken(v) {
      AcceptedTokenIsFullWidth(v);
      assert StartsWithMagic(Unpack(v)) && OS2IP(Unpack(v)) == v;
    }
  }

  predicate StartsWithMagic(b: KeyStruct) {
    forall i :: 0 <= i < 8 ==> b[i] == "ATECCx08"[i] as int
  }

  /** Where the fields of a scanned key id go, octet by octet: those that did not scan keep the
      defaults, and the password id is stored only if all four did. */
  lemma StructLayout(b: KeyStruct, s: string, passwordId: Byte, deviceKeySlot: Byte)
    ensures var (k, v) := (StructFromString(b, s, passwordId, deviceKeySlot), ScanKeyId(s));
            && StartsWithMagic(k)
            && k[8] == (if |v| > 0 then v[0] else 0) && k[9] == (if |v| > 1 then v[1] else 0)
            && k[10] == (if |v| > 2 then v[2] else 0xC0) && k[11] == (if |v| > 3 then v[3] else deviceKeySlot)
            && k[12] == (if |v| > 3 then passwordId else b[12]) && k[13..] == b[13..]
  {
    hide ScanKeyId;
    var v, prepared := ScanKeyId(s), InitStruct(b, deviceKeySlot);
    var stored := StoreFields(prepared, v);
    assert forall i :: 0 <= i < 8 ==> stored[i] == MAGIC[i];
    assert forall i :: 0 <= i < |v| ==> stored[8 + i] == v[i];
    assert forall i :: 8 + |v| <= i < 32 ==> stored[i] == prepared[i];
    assert forall i :: 12 <= i < 32 ==> prepared[i] == b[i];
    assert MAGIC[0] == 'A' as int && MAGIC[1] == 'T' as int && MAGIC[2] == 'E' as int && MAGIC[3] == 'C' as int;
    assert MAGIC[4] == 'C' as int && MAGIC[5] == 'x' as int && MAGIC[6] == '0' as int && MAGIC[7] == '8' as int;
  }

  // ------------------------------------------------------------------ interface configuration

  /** ATCAIfaceCfg; "rest" stands for the settings the engine copies without looking. */
  datatype IfaceCfg =
    | I2cCfg(bus: Byte, slaveAddress: Byte, rest: nat)
    | KitCdcCfg(rest: nat)
    | KitHidCfg(rest: nat)

  /** The default configurations compiled into cryptoauthlib. */
  datatype IfaceDefaults = IfaceDefaults(bus: Byte, slaveAddress: Byte, i2c: nat, cdc: nat, hid: nat)

  class IfaceBuffer {
    var cfg: IfaceCfg
    constructor ()
    {
      cfg := KitCdcCfg(0);
    }
  }

  function IfaceDefault(busType: Byte, d: IfaceDefaults): Option<IfaceCfg> {
    if busType == ATCA_I2C_IFACE then Some(I2cCfg(d.bus, d.slaveAddress, d.i2c))
    else if busType == ATCA_UART_IFACE then Some(KitCdcCfg(d.cdc))
    else if busType == ATCA_HID_IFACE then Some(KitHidCfg(d.hid))
    else None
  }

  /** The default configuration of a bus type with, on I2C, its bus and address replaced. */
  function IfaceFor(busType: Byte, bus: Byte, device: Byte, d: IfaceDefaults): Option<IfaceCfg> {
    match IfaceDefault(busType, d)
    case Some(I2cCfg(_, _, rest)) => Some(I2cCfg(bus, device, rest))
    case other => other
  }

  /** The configuration a key struct, or a buffer that holds at least its named fields, selects. */
  function IfaceOf(key: seq<Byte>, d: IfaceDefaults): Option<IfaceCfg>
    requires |key| > SLOT_NUM
  {
    IfaceFor(key[BUS_TYPE], key[BUS_NUM], key[DEVICE_NUM], d)
  }

  /** The three bus types there are: 0, whose default gets the key's bus and address, and 2 and 4,
      whose defaults stay as they are. */
  lemma BusTypesSelect(busType: Byte, bus: Byte, device: Byte, d: IfaceDefaults)
    ensures IfaceFor(busType, bus, device, d) ==
            if busType == 0 then Some(I2cCfg(bus, device, d.i2c))
            else if busType == 2 then Some(KitCdcCfg(d.cdc))
            else if busType == 4 then Some(KitHidCfg(d.hid))
            else None
    ensures IfaceDefault(busType, d).Some? <==> busType in [0, 2, 4]
  {
  }

  method GetIfaceCfg(iface: IfaceBuffer?, key: Option<seq<Byte>>, d: IfaceDefaults) returns (ret: bool)
    requires key.Some? ==> |key.value| > SLOT_NUM
    modifies iface
    ensures ret == (iface != null && key.Some? && IfaceOf(key.value, d).Some?)
    ensures ret ==> iface.cfg == IfaceOf(key.value, d).value
    ensures iface != null && !ret ==> iface.cfg == old(iface.cfg)
  {
    ret := false;
    if iface != null && key.Some? {
      var def := IfaceDefault(key.value[BUS_TYPE], d);
      if def.Some? {
        iface.cfg := def.value;
        match iface.cfg {
          case I2cCfg(_, _, _) =>
            iface.cfg := iface.cfg.(bus := key.value[BUS_NUM]);
            iface.cfg := iface.cfg.(slaveAddress := key.value[DEVICE_NUM]);
          case _ =>   // no default configuration is of the single-wire type
        }
        ret := true;
      }
    }
  }

  // ------------------------------------------------------------------ round trip

  lemma HexDigitReads(d: nat)
    requires d < 16
    ensures HexValue(HexDigit(d)) == Some(d)
    ensures !IsSpace(HexDigit(d)) && HexDigit(d) !in "+-xX"
  {
  }

  lemma OctetScansBack(n: Byte, rest: string)
    ensures Print02x(n) == [HexDigit(n / 16), HexDigit(n % 16)]
    ensures Scan02hhx(Print02x(n) + rest) == Some((n, rest))
  {
    if n >= 16 {
      assert HexDigits(n / 16) == "" + [HexDigit(n / 16)];
    }
    HexDigitReads(n / 16);
    HexDigitReads(n % 16);
    var s := Print02x(n) + rest;
    assert s[0] == HexDigit(n / 16) && s[1] == HexDigit(n % 16) && s[2..] == rest;
  }

  /** A slot number above 255 prints with three or four digits, of which the scanner takes two. */
  lemma WideSlotScansShort(n: nat)
    requires 256 <= n < 0x1_0000
    ensures Scan02hhx(Print02x(n)).Some?
    ensures Scan02hhx(Print02x(n)).value.0 == if n < 0x1000 then n / 16 else n / 256
  {
    var m := if n < 0x1000 then n / 16 else n / 256;
    assert HexDigits(n) == HexDigits(n / 16) + [HexDigit(n % 16)];
    assert HexDigits(n / 16) == (if n / 16 < 16 then "" else HexDigits(n / 16 / 16)) + [HexDigit(n / 16 % 16)];
    var rest := if n < 0x1000 then [HexDigit(n % 16)] else [HexDigit(n / 16 % 16)] + [HexDigit(n % 16)];
    if n >= 0x1000 {
      assert n / 16 / 16 == m;
      assert HexDigits(n) == HexDigits(m) + rest;
    }
    assert Print02x(n) == Print02x(m) + rest;
    OctetScansBack(m, rest);
  }

  /** sscanf recovers from a printed key id the interface, bus and address always, and the
      slot exactly when it is an octet. */
  lemma KeyIdScansBack(busType: Byte, bus: Byte, device: Byte, slot: nat)
    requires slot < 0x1_0000
    ensures |ScanKeyId(PrintKeyId(busType, bus, device, slot))| == 4
    ensures ScanKeyId(PrintKeyId(busType, bus, device, slot))[..3] == [busType, bus, device]
    ensures ScanKeyId(PrintKeyId(busType, bus, device, slot))[3] == slot <==> slot < 256
  {
    var t4 := Print02x(slot);
    var t3 := Print02x(device) + (":" + t4);
    var t2 := Print02x(bus) + (":" + t3);
    var t1 := Print02x(busType) + (":" + t2);
    assert PrintKeyId(busType, bus, device, slot) == "ATECCx08:" + t1;
    SlotScans(slot);
    OctetScansBack(device, ":" + t4);
    OctetScansBack(bus, ":" + t3);
    OctetScansBack(busType, ":" + t2);
    FourFieldsScanBack(t1, t2, t3, t4, busType, bus, device);
  }

  lemma FourFieldsScanBack(t1: string, t2: string, t3: string, t4: string, a: Byte, b: Byte, c: Byte)
    requires Scan02hhx(t1) == Some((a, ":" + t2)) && Scan02hhx(t2) == Some((b, ":" + t3))
    requires Scan02hhx(t3) == Some((c, ":" + t4)) && Scan02hhx(t4).Some?
    ensures ScanKeyId("ATECCx08:" + t1) == [a, b, c, Scan02hhx(t4).value.0]
  {
    var (d, left) := Scan02hhx(t4).value;
    FieldScansBack(":", t4, d, left, 1);
    FieldScansBack(":", t3, c, ":" + t4, 2);
    FieldScansBack(":", t2, b, ":" + t3, 3);
    FieldScansBack("ATECCx08:", t1, a, ":" + t2, 4);
  }

  lemma SlotScans(slot: nat)
    requires slot < 0x1_0000
    ensures Scan02hhx(Print02x(slot)).Some?
    ensures Scan02hhx(Print02x(slot)).value.0 == slot <==> slot < 256
  {
    if slot < 256 {
      OctetScansBack(slot, "");
      assert Print02x(slot) + "" == Print02x(slot);
    } else {
      WideSlotScansShort(slot);
    }
  }

  lemma FieldScansBack(literal: string, t: string, octet: Byte, rest: string, n: nat)
    requires n > 0 && Scan02hhx(t) == Some((octet, rest))
    ensures ScanFields(literal + t, literal, n) == [octet] + ScanFields(rest, ":", n - 1)
  {
    assert (literal + t)[|literal|..] == t;
  }

  /** End to end: the integer made from a printed key id is an engine token, and what a session
      unpacks from it selects the printed bus and address, the password id given at load and,
      exactly for slots that are octets, the printed slot. Whatever the struct held before
      (b) and whatever the default slot is do not matter. */
  lemma TokenRoundTrip(b: KeyStruct, bus: Byte, device: Byte, slot: nat, passwordId: Byte,
                       deviceKeySlot: Byte, d: IfaceDefaults)
    requires slot < 0x1_0000
    ensures var s := PrintKeyId(ATCA_I2C_IFACE, bus, device, slot);
            var v := Pack(StructFromString(b, s, passwordId, deviceKeySlot));
            && IsToken(v)
            && |MinBytes(v)| == KEY_SIZE
            && IfaceOf(MinBytes(v), d) == Some(I2cCfg(bus, device, d.i2c))
            && (MinBytes(v)[SLOT_NUM] == slot <==> slot < 256)
            && Unpack(v)[PASSWORD_ID] == passwordId
  {
    var s := PrintKeyId(ATCA_I2C_IFACE, bus, device, slot);
    var k := StructFromString(b, s, passwordId, deviceKeySlot);
    KeyIdScansBack(ATCA_I2C_IFACE, bus, device, slot);
    var v := ScanKeyId(s);
    assert v[..3] == [ATCA_I2C_IFACE, bus, device];
    assert v[0] == v[..3][0] && v[1] == v[..3][1] && v[2] == v[..3][2];
    assert k[..8] == MAGIC;
    PackedStructIsToken(k);
    AcceptedTokenIsFullWidth(Pack(k));
    assert MinBytes(Pack(k)) == k;
  }

  /** Every key id the scanner accepts gives an engine token carrying the password id. */
  lemma ScannedStructIsToken(b: KeyStruct, s: string, passwordId: Byte, deviceKeySlot: Byte)
    requires |ScanKeyId(s)| == 4
    ensures var k := StructFromString(b, s, passwordId, deviceKeySlot);
            IsToken(Pack(k)) && Unpack(Pack(k)) == k && k[PASSWORD_ID] == passwordId
            && k[BUS_TYPE..PASSWORD_ID] == ScanKeyId(s)
  {
    var k := StructFromString(b, s, passwordId, deviceKeySlot);
    assert k[..8] == MAGIC;
    PackedStructIsToken(k);
  }
}
