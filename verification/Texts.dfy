/** The texts a caller writes, character by character, and what the scanners make of them: key
    ids and passwords. Each scanner takes exactly the texts spelled here. */
module Texts {
  import opened Bytes
  import opened Token
  import opened Passwords

  // ------------------------------------------------------------------ characters

  /** c is a digit for d in either case. */
  predicate HexChar(c: char, d: nat) {
    d < 16 && (c == "0123456789abcdef"[d] || c == "0123456789ABCDEF"[d])
  }

  predicate DecChar(c: char, d: nat) {
    d < 10 && c == "0123456789"[d]
  }

  predicate BlankChar(c: char) {
    c in " \t\n\U{B}\U{C}\r"
  }

  predicate IsHexChar(c: char) {
    c in "0123456789abcdefABCDEF"
  }

  predicate Blank(s: string) {
    forall i :: 0 <= i < |s| ==> BlankChar(s[i])
  }

  lemma CharactersDenote(c: char, d: nat)
    ensures HexValue(c) == Some(d) <==> HexChar(c, d)
    ensures IsDigit(c) && DigitValue(c) == d <==> DecChar(c, d)
    ensures d < 16 ==> HexDigit(d) == "0123456789abcdef"[d]
  {
  }

  lemma CharacterClasses(c: char)
    ensures IsSpace(c) <==> BlankChar(c)
    ensures HexValue(c).Some? <==> IsHexChar(c)
    ensures IsDigit(c) || IsHexChar(c) ==> !BlankChar(c) && c != '+' && c != '-' && c != ':' && c != 'x' && c != 'X'
    ensures c == '+' || c == '-' || c == ':' ==> !BlankChar(c)
  {
  }

  lemma {:induction false} BlanksAreSkipped(blank: string, t: string)
    requires Blank(blank) && (t == "" || !IsSpace(t[0]))
    ensures SkipSpace(blank + t) == t
  {
    if blank != "" {
      CharacterClasses(blank[0]);
      assert (blank + t)[1..] == blank[1..] + t;
      BlanksAreSkipped(blank[1..], t);
    } else {
      assert blank + t == t;
    }
  }

  lemma {:induction false} SkippedIsBlank(s: string) returns (blank: string)
    ensures s == blank + SkipSpace(s) && Blank(blank)
    ensures SkipSpace(s) == "" || !IsSpace(SkipSpace(s)[0])
  {
    blank := "";
    if |s| > 0 && IsSpace(s[0]) {
      var more := SkippedIsBlank(s[1..]);
      CharacterClasses(s[0]);
      blank := [s[0]] + more;
    }
  }

  // ------------------------------------------------------------------ one field of a key id

  /** A field worth v: one digit, two digits, or a signed digit. */
  predicate FieldText(t: string, v: nat) {
    || (|t| == 1 && HexChar(t[0], v))
    || (|t| == 2 && HexChar(t[0], v / 16) && HexChar(t[1], v % 16))
    || (|t| == 2 && t[0] == '+' && HexChar(t[1], v))
    || (|t| == 2 && t[0] == '-' && v < 256 && HexChar(t[1], (256 - v) % 256))
  }

  /** A field of one digit ends where no second digit follows; "0x" is no field. */
  predicate FieldEnds(t: string, rest: string) {
    |t| == 1 && rest != "" ==> !IsHexChar(rest[0]) && (t == "0" ==> rest[0] != 'x' && rest[0] != 'X')
  }

  /** A text whose first octet field is the character r[0], or is not. */
  lemma FrontDigit(r: string, v: Byte)
    requires r != "" && !IsSpace(r[0])
    ensures Scan02hhx(r) == Some((v, r[1..])) <==> HexChar(r[0], v) && FieldEnds([r[0]], r[1..])
  {
    hide HexChar, HexValue, IsSpace, BlankChar, IsHexChar;
    assert SkipSpace(r) == r && ([r[0]] == "0" <==> r[0] == '0');
    CharacterClasses(r[0]);
    HexDenotes(r[0], v);
    if |r| > 1 {
      assert r[1..][0] == r[1];
      CharacterClasses(r[1]);
    }
  }

  /** A text whose first octet field is the characters r[0] and r[1], or is not. */
  lemma FrontPair(r: string, v: Byte)
    requires |r| >= 2 && !IsSpace(r[0])
    ensures Scan02hhx(r) == Some((v, r[2..])) <==> FieldText(r[..2], v)
  {
    hide HexChar, HexValue, IsSpace, BlankChar, IsHexChar;
    assert SkipSpace(r) == r;
    CharacterClasses(r[0]);
    HexDenotes(r[0], v);
    HexDenotes(r[1], v);
    assert r[..2][0] == r[0] && r[..2][1] == r[1];
    if r[0] != '-' && r[0] != '+' && HexValue(r[0]).Some? && HexValue(r[1]).Some? {
      var h, l := HexValue(r[0]).value, HexValue(r[1]).value;
      assert 16 * h + l == v <==> h == v / 16 && l == v % 16;
    }
    if HexValue(r[1]).Some? {
      var d := HexValue(r[1]).value;
      assert (256 - d) % 256 == v <==> d == (256 - v) % 256;
    }
    assert |r[1..]| > |r[2..]|;
  }

  /** A text that starts with a field of n characters, or does not. */
  lemma FrontField(r: string, n: nat, v: Byte)
    requires 1 <= n <= 2 && n <= |r| && !IsSpace(r[0])
    ensures Scan02hhx(r) == Some((v, r[n..])) <==> FieldText(r[..n], v) && FieldEnds(r[..n], r[n..])
  {
    hide Scan02hhx, HexChar, IsSpace, IsHexChar;
    if n == 1 {
      FrontDigit(r, v);
      assert r[..1] == [r[0]];
    } else {
      FrontPair(r, v);
    }
  }

  lemma HexDenotes(c: char, v: nat)
    ensures HexValue(c).Some? ==> HexValue(c).value < 16
    ensures HexValue(c) == Some(v) <==> HexChar(c, v)
    ensures HexValue(c) == Some(v / 16) <==> HexChar(c, v / 16)
    ensures HexValue(c) == Some(v % 16) <==> HexChar(c, v % 16)
    ensures v < 256 && HexValue(c) == Some((256 - v) % 256) <==> v < 256 && HexChar(c, (256 - v) % 256)
  {
    hide HexChar;
    CharactersDenote(c, v);
    CharactersDenote(c, v / 16);
    CharactersDenote(c, v % 16);
    if v < 256 {
      CharactersDenote(c, (256 - v) % 256);
    }
  }

  lemma SkippingScans(s: string)
    ensures Scan02hhx(s) == Scan02hhx(SkipSpace(s)) && Scan02hu(s) == Scan02hu(SkipSpace(s))
  {
    var blank := SkippedIsBlank(s);
    hide HexValue, IsDigit, DigitValue;
    assert SkipSpace(SkipSpace(s)) == SkipSpace(s);
  }

  lemma FieldScans(blank: string, t: string, v: Byte, rest: string)
    requires Blank(blank) && FieldText(t, v) && FieldEnds(t, rest)
    ensures Scan02hhx(blank + t + rest) == Some((v, rest))
  {
    hide HexChar, IsSpace, BlankChar, IsHexChar, SkipSpace, Scan02hhx;
    var r := t + rest;
    assert r[..|t|] == t && r[|t|..] == rest && blank + t + rest == blank + r;
    FieldIsNoBlank(t, v);
    FrontField(r, |t|, v);
    BlanksAreSkipped(blank, r);
    SkippingScans(blank + r);
  }

  lemma FieldIsNoBlank(t: string, v: nat)
    requires FieldText(t, v)
    ensures 1 <= |t| <= 2 && !IsSpace(t[0])
  {
    hide HexChar, HexValue, IsSpace, BlankChar, IsHexChar;
    CharacterClasses(t[0]);
    CharactersDenote(t[0], v);
    CharactersDenote(t[0], v / 16);
  }

  lemma ScannedField(s: string) returns (blank: string, t: string)
    requires Scan02hhx(s).Some?
    ensures var (v, rest) := Scan02hhx(s).value;
            s == blank + t + rest && Blank(blank) && FieldText(t, v) && FieldEnds(t, rest)
  {
    hide HexChar, IsSpace, BlankChar, IsHexChar, SkipSpace, Scan02hhx, FieldText, FieldEnds;
    blank := SkippedIsBlank(s);
    SkippingScans(s);
    var r := SkipSpace(s);
    var (v, rest) := Scan02hhx(s).value;
    ScanTakesFront(r);
    t := r[..|r| - |rest|];
    FrontField(r, |t|, v);
    assert s == blank + (t + rest);
  }

  lemma ScanTakesFront(r: string)
    requires Scan02hhx(r).Some? && (r == "" || !IsSpace(r[0]))
    ensures var rest := Scan02hhx(r).value.1;
            r != "" && 1 <= |r| - |rest| <= 2 && rest == r[|r| - |rest|..]
  {
    hide HexValue, IsSpace;
    assert SkipSpace(r) == r;
  }

  // ------------------------------------------------------------------ key ids

  /** Every key id of four fields, in digits of either case, scans to what its fields denote. */
  lemma KeyIdDenotes(t1: string, t2: string, t3: string, t4: string, v1: Byte, v2: Byte, v3: Byte, v4: Byte,
                     tail: string)
    requires FieldText(t1, v1) && FieldText(t2, v2) && FieldText(t3, v3) && FieldText(t4, v4) && FieldEnds(t4, tail)
    ensures ScanKeyId("ATECCx08:" + t1 + ":" + t2 + ":" + t3 + ":" + t4 + tail) == [v1, v2, v3, v4]
  {
    hide HexChar, IsHexChar, Scan02hhx, FieldText;
    CharacterClasses(':');
    var s4 := t4 + tail;
    var s3 := t3 + (":" + s4);
    var s2 := t2 + (":" + s3);
    var s1 := t1 + (":" + s2);
    assert "ATECCx08:" + t1 + ":" + t2 + ":" + t3 + ":" + t4 + tail == "ATECCx08:" + s1;
    FieldScans("", t4, v4, tail);
    FieldScans("", t3, v3, ":" + s4);
    FieldScans("", t2, v2, ":" + s3);
    FieldScans("", t1, v1, ":" + s2);
    assert "" + t1 + (":" + s2) == s1 && "" + t2 + (":" + s3) == s2;
    assert "" + t3 + (":" + s4) == s3 && "" + t4 + tail == s4;
    FourFieldsScanBack(s1, s2, s3, s4, v1, v2, v3);
  }

  /** The text of a key id behind a field, or all of it: literal, field and what is left. */
  ghost predicate Piece(s: string, literal: string, v: Byte, rest: string) {
    exists blank, t :: s == literal + blank + t + rest && Blank(blank) && FieldText(t, v) && FieldEnds(t, rest)
  }

  lemma ScannedPiece(s: string, literal: string, n: nat) returns (rest: string)
    requires n > 0 && ScanFields(s, literal, n) != []
    ensures Piece(s, literal, ScanFields(s, literal, n)[0], rest)
    ensures ScanFields(s, literal, n)[1..] == ScanFields(rest, ":", n - 1)
  {
    var t := s[|literal|..];
    var blank, text := ScannedField(t);
    rest := Scan02hhx(t).value.1;
    assert s == literal + blank + text + rest;
  }

  lemma PieceScans(s: string, literal: string, v: Byte, rest: string, n: nat)
    requires n > 0 && Piece(s, literal, v, rest)
    ensures ScanFields(s, literal, n) == [v] + ScanFields(rest, ":", n - 1)
  {
    hide Scan02hhx, FieldText, FieldEnds, Blank;
    var blank, t :| s == literal + blank + t + rest && Blank(blank) && FieldText(t, v) && FieldEnds(t, rest);
    FieldScans(blank, t, v, rest);
    assert s == literal + (blank + t + rest);
    FieldScansBack(literal, blank + t + rest, v, rest, n);
  }

  /** A key id is accepted, and gives the octets v, exactly when it consists of these four pieces,
      white space allowed before each field and anything behind the last. */
  lemma KeyIdsAccepted(s: string, v: seq<Byte>)
    requires |v| == 4
    ensures ScanKeyId(s) == v <==>
            exists s1, s2, s3, tail :: Piece(s, "ATECCx08:", v[0], s1) && Piece(s1, ":", v[1], s2)
                                       && Piece(s2, ":", v[2], s3) && Piece(s3, ":", v[3], tail)
  {
    hide Piece, Scan02hhx;
    if ScanKeyId(s) == v {
      var s1 := ScannedPiece(s, "ATECCx08:", 4);
      var s2 := ScannedPiece(s1, ":", 3);
      var s3 := ScannedPiece(s2, ":", 2);
      var tail := ScannedPiece(s3, ":", 1);
    }
    if s1, s2, s3, tail :| Piece(s, "ATECCx08:", v[0], s1) && Piece(s1, ":", v[1], s2)
                           && Piece(s2, ":", v[2], s3) && Piece(s3, ":", v[3], tail) {
      PieceScans(s, "ATECCx08:", v[0], s1, 4);
      PieceScans(s1, ":", v[1], s2, 3);
      PieceScans(s2, ":", v[2], s3, 2);
      PieceScans(s3, ":", v[3], tail, 1);
      assert ScanKeyId(s) == [v[0], v[1], v[2], v[3]];
    }
  }

  // ------------------------------------------------------------------ passwords

  /** A slot worth n: one digit, two digits, or a signed digit. */
  predicate SlotText(t: string, n: nat) {
    || (|t| == 1 && DecChar(t[0], n))
    || (|t| == 2 && DecChar(t[0], n / 10) && DecChar(t[1], n % 10))
    || (|t| == 2 && t[0] == '+' && DecChar(t[1], n))
    || (|t| == 2 && t[0] == '-' && n < 0x1_0000 && DecChar(t[1], (0x1_0000 - n) % 0x1_0000))
  }

  /** A nonempty text without white space. */
  predicate Word(w: string) {
    w != "" && forall i :: 0 <= i < |w| ==> !BlankChar(w[i])
  }

  lemma {:induction false} WordIsTaken(w: string, tail: string)
    requires w == "" || Word(w)
    requires tail == "" || IsSpace(tail[0])
    ensures TakeWord(w + tail) == w
  {
    if w != "" {
      CharacterClasses(w[0]);
      assert (w + tail)[1..] == w[1..] + tail;
      WordIsTaken(w[1..], tail);
    } else {
      assert w + tail == tail;
    }
  }

  lemma {:induction false} TakenIsWord(s: string) returns (tail: string)
    ensures s == TakeWord(s) + tail && (tail == "" || IsSpace(tail[0]))
    ensures TakeWord(s) != "" ==> Word(TakeWord(s))
  {
    tail := s;
    if |s| > 0 && !IsSpace(s[0]) {
      tail := TakenIsWord(s[1..]);
      CharacterClasses(s[0]);
    }
  }

  lemma FrontSlot(r: string, n: nat, v: nat)
    requires 1 <= n <= 2 && n < |r| && !IsSpace(r[0]) && r[n] == ':'
    ensures Scan02hu(r) == Some((v, r[n..])) <==> SlotText(r[..n], v)
  {
    hide DecChar, IsDigit, DigitValue, IsSpace, BlankChar, IsHexChar;
    assert SkipSpace(r) == r && r[n..][0] == ':';
    CharacterClasses(r[0]);
    CharacterClasses(r[1]);
    CharacterClasses(':');
    DigitsDenote(r[0], v);
    DigitsDenote(r[1], v);
  }

  lemma DigitsDenote(c: char, v: nat)
    ensures IsDigit(c) ==> DigitValue(c) < 10
    ensures IsDigit(c) && DigitValue(c) == v <==> DecChar(c, v)
    ensures IsDigit(c) && DigitValue(c) == v / 10 <==> DecChar(c, v / 10)
    ensures IsDigit(c) && DigitValue(c) == v % 10 <==> DecChar(c, v % 10)
    ensures IsDigit(c) && v < 0x1_0000 && DigitValue(c) == (0x1_0000 - v) % 0x1_0000 <==>
            v < 0x1_0000 && DecChar(c, (0x1_0000 - v) % 0x1_0000)
  {
    hide DecChar;
    CharactersDenote(c, v);
    CharactersDenote(c, v / 10);
    CharactersDenote(c, v % 10);
    if v < 0x1_0000 {
      CharactersDenote(c, (0x1_0000 - v) % 0x1_0000);
    }
  }

  lemma SlotScans(blank: string, t: string, n: nat, rest: string)
    requires Blank(blank) && SlotText(t, n) && rest != "" && rest[0] == ':'
    ensures Scan02hu(blank + t + rest) == Some((n, rest))
  {
    hide DecChar, IsDigit, DigitValue, IsSpace, BlankChar, IsHexChar, SkipSpace, Scan02hu;
    var r := t + rest;
    assert r[..|t|] == t && r[|t|..] == rest && blank + t + rest == blank + r && r[|t|] == ':';
    CharacterClasses(t[0]);
    DigitsDenote(t[0], n);
    FrontSlot(r, |t|, n);
    BlanksAreSkipped(blank, r);
    SkippingScans(blank + r);
  }

  lemma ScannedSlotText(s: string) returns (blank: string, t: string)
    requires Scan02hu(s).Some? && Scan02hu(s).value.1 != "" && Scan02hu(s).value.1[0] == ':'
    ensures var (n, rest) := Scan02hu(s).value; s == blank + t + rest && Blank(blank) && SlotText(t, n)
  {
    hide DecChar, IsDigit, DigitValue, IsSpace, BlankChar, IsHexChar, SkipSpace, Scan02hu, SlotText;
    blank := SkippedIsBlank(s);
    SkippingScans(s);
    var r := SkipSpace(s);
    var (n, rest) := Scan02hu(s).value;
    SlotTakesFront(r);
    t := r[..|r| - |rest|];
    FrontSlot(r, |t|, n);
    assert s == blank + (t + rest);
  }

  lemma SlotTakesFront(r: string)
    requires Scan02hu(r).Some? && (r == "" || !IsSpace(r[0]))
    ensures var rest := Scan02hu(r).value.1;
            r != "" && 1 <= |r| - |rest| <= 2 && rest == r[|r| - |rest|..]
  {
    hide IsDigit, DigitValue, IsSpace;
    assert SkipSpace(r) == r;
  }

  /** s is a slot worth n, a colon and the word w, white space allowed before either and anything
      behind white space that follows. */
  ghost predicate PasswordText(s: string, n: nat, w: string) {
    exists blank, t, gap, tail ::
      && s == blank + t + ":" + gap + w + tail
      && Blank(blank) && SlotText(t, n) && Blank(gap) && Word(w)
      && (tail == "" || BlankChar(tail[0]))
  }

  lemma PasswordParses(blank: string, t: string, n: nat, gap: string, w: string, tail: string)
    requires Blank(blank) && SlotText(t, n) && Blank(gap) && Word(w)
    requires tail == "" || BlankChar(tail[0])
    ensures ParsePassword(Some(Some(blank + t + ":" + gap + w + tail))) == Some(Cred(n, w))
  {
    hide Scan02hu, SlotText;
    var rest := ":" + (gap + (w + tail));
    assert blank + t + ":" + gap + w + tail == blank + t + rest;
    SlotScans(blank, t, n, rest);
    assert rest[1..] == gap + (w + tail);
    if tail != "" {
      CharacterClasses(tail[0]);
    }
    CharacterClasses(w[0]);
    BlanksAreSkipped(gap, w + tail);
    WordIsTaken(w, tail);
  }

  lemma ParsedIsPasswordText(s: string)
    requires ParsePassword(Some(Some(s))).Some?
    ensures var cred := ParsePassword(Some(Some(s))).value; PasswordText(s, cred.authSlot, cred.password)
  {
    hide Scan02hu, SlotText, SkipSpace, IsSpace, TakeWord, BlankChar;
    var blank, t := ScannedSlotText(s);
    var (n, rest) := Scan02hu(s).value;
    var gap := SkippedIsBlank(rest[1..]);
    var tail := TakenIsWord(SkipSpace(rest[1..]));
    var w := TakeWord(SkipSpace(rest[1..]));
    if tail != "" {
      CharacterClasses(tail[0]);
    }
    assert rest == ":" + (gap + (w + tail));
    assert s == blank + t + ":" + gap + w + tail;
  }

  /** A callback text gives slot n and password w exactly when it spells them; a NULL gives none. */
  lemma PasswordsParsed(cb: Option<Option<string>>, n: nat, w: string)
    ensures ParsePassword(cb) == Some(Cred(n, w)) <==> cb.Some? && cb.value.Some? && PasswordText(cb.value.value, n, w)
  {
    hide ParsePassword;
    if cb.Some? && cb.value.Some? {
      var s := cb.value.value;
      if ParsePassword(cb).Some? {
        ParsedIsPasswordText(s);
      }
      if PasswordText(s, n, w) {
        var blank, t, gap, tail :|
          && s == blank + t + ":" + gap + w + tail
          && Blank(blank) && SlotText(t, n) && Blank(gap) && Word(w)
          && (tail == "" || BlankChar(tail[0]));
        PasswordParses(blank, t, n, gap, w, tail);
      }
    } else {
      NullIsNoPassword(cb);
    }
  }

  lemma NullIsNoPassword(cb: Option<Option<string>>)
    ensures cb.None? || cb.value.None? ==> ParsePassword(cb).None?
  {
  }

  /** The usual text, and one that cannot be a password. */
  lemma PlainPassword(t: string, n: nat, w: string)
    requires Word(w)
    ensures SlotText(t, n) ==> ParsePassword(Some(Some(t + ":" + w))) == Some(Cred(n, w))
    ensures ':' !in w ==> ParsePassword(Some(Some(w))) == None
  {
    if SlotText(t, n) {
      PasswordParses("", t, n, "", w, "");
      assert "" + t + ":" + "" + w + "" == t + ":" + w;
    }
    if ParsePassword(Some(Some(w))).Some? {
      ParsedIsPasswordText(w);
      var cred := ParsePassword(Some(Some(w))).value;
      var blank, t, gap, tail :|
        w == blank + t + ":" + gap + cred.password + tail && SlotText(t, cred.authSlot);
      assert w[|blank + t|] == ':';
    }
  }
}
