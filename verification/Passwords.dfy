/** The password pool that key tokens index, and the binding of a key to the password it was
    loaded with. */
module Passwords {
  import opened Bytes
  import opened Token

  const MAX_PASSWORDS := 4

  /** eccx08_engine_key_password_t: the slot that authorizes, and the password. */
  datatype Cred = Cred(authSlot: nat, password: string)

  type Pool = p: seq<Cred> | |p| == MAX_PASSWORDS
    witness [Cred(0, ""), Cred(0, ""), Cred(0, ""), Cred(0, "")]

  // ------------------------------------------------------------------ parsing

  predicate IsDigit(c: char) {
    '0' <= c <= '9'
  }

  function DigitValue(c: char): nat
    requires IsDigit(c)
  {
    (c as int) - ('0' as int)
  }

  /** What scanf's %02hu takes from s: at most two characters, an optional sign among them. */
  function Scan02hu(s: string): Option<(nat, string)> {
    var t := SkipSpace(s);
    if |t| == 0 then None
    else if t[0] == '+' || t[0] == '-' then
      if |t| < 2 || !IsDigit(t[1]) then None
      else
        var v := DigitValue(t[1]);
        Some((if t[0] == '-' then (0x1_0000 - v) % 0x1_0000 else v, t[2..]))
    else if !IsDigit(t[0]) then None
    else if |t| < 2 || !IsDigit(t[1]) then Some((DigitValue(t[0]), t[1..]))
    else Some((DigitValue(t[0]) * 10 + DigitValue(t[1]), t[2..]))
  }

  function TakeWord(s: string): string {
    if |s| == 0 || IsSpace(s[0]) then "" else [s[0]] + TakeWord(s[1..])
  }

  /** eccx08_cbdata_to_password: callback data is a pointer to a string "slot:password", either
      of which may be NULL. */
  function ParsePassword(callbackData: Option<Option<string>>): Option<Cred> {
    match callbackData
    case Some(Some(s)) =>
      (match Scan02hu(s)
       case Some((slot, rest)) =>
         if |rest| > 0 && rest[0] == ':' && TakeWord(SkipSpace(rest[1..])) != ""
         then Some(Cred(slot, TakeWord(SkipSpace(rest[1..])))) else None
       case None => None)
    case _ => None
  }

  // ------------------------------------------------------------------ the pool

  class PasswordPool {
    const passwords: array<Cred>
    var currentId: nat

    ghost predicate Valid()
      reads this
    {
      passwords.Length == MAX_PASSWORDS && currentId <= MAX_PASSWORDS
    }

    ghost function View(): Pool
      reads this, passwords
      requires Valid()
    {
      passwords[..]
    }

    constructor ()
      ensures Valid() && currentId == 0 && fresh(passwords)
      ensures View() == [Cred(0, ""), Cred(0, ""), Cred(0, ""), Cred(0, "")]
    {
      passwords := new Cred[MAX_PASSWORDS](i => Cred(0, ""));
      currentId := 0;
    }

    /** Reserves the next entry; a full pool yields the id behind the last entry. */
    method MakePassword() returns (id: Byte)
      requires Valid()
      modifies this
      ensures Valid() && id == old(currentId)
      ensures currentId == if old(currentId) < MAX_PASSWORDS then old(currentId) + 1 else old(currentId)
    {
      if currentId < MAX_PASSWORDS {
        id := currentId;
        currentId := currentId + 1;
      } else {
        id := currentId;
      }
    }

    /** The entry an id points at, None for NULL. */
    function GetPassword(id: Byte): (entry: Option<nat>)
      ensures entry.Some? <==> id < MAX_PASSWORDS
      ensures entry.Some? ==> entry.value == id
    {
      if id >= MAX_PASSWORDS then None else Some(id)
    }

    /** The copy of a parsed password into the entry. */
    method Store(entry: nat, cred: Cred)
      requires Valid() && entry < MAX_PASSWORDS
      modifies passwords
      ensures View() == old(View())[entry := cred]
    {
      passwords[entry] := cred;
    }
  }

  // ------------------------------------------------------------------ binding

  /** The password that a signature with token v presents: none for an id of NOPASSWD_ID. */
  function CredOf(pool: Pool, v: nat): Option<Cred> {
    var id := Unpack(v)[PASSWORD_ID];
    if id < MAX_PASSWORDS then Some(pool[id]) else None
  }

  /** What a session shows the chip: if the password cannot be hashed, authentication is skipped
      as if it had succeeded. */
  function Shown(cred: Option<Cred>, hashed: bool): Option<Cred> {
    if hashed then cred else None
  }

  /** The token's password id is "none" or one that has been handed out. */
  predicate Filed(v: nat, currentId: nat) {
    var id := Unpack(v)[PASSWORD_ID];
    id == NOPASSWD_ID || id < currentId
  }

  /** Filing another password changes nothing for tokens filed before. */
  lemma FilingKeepsOthers(pool: Pool, currentId: nat, cred: Cred, v: nat)
    requires currentId < MAX_PASSWORDS && Filed(v, currentId)
    ensures CredOf(pool[currentId := cred], v) == CredOf(pool, v)
    ensures Filed(v, currentId + 1)
  {
  }
}
