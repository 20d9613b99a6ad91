/**
 * app/api/auth/signup/route.ts: the sign-up endpoint. The request body is validated
 * (missing fields first, then the username and password lengths), the lower-cased
 * username is looked up, and a new user row with a fresh version-4 UUID is inserted.
 *
 * The database is a parameter: the set of usernames already stored and the reply of
 * the insert. The password hash (bcrypt), the signed token (JWT) and the random
 * nibbles of the UUID are parameters too.
 */
module SignupRoute {
  import opened Wrappers
  import Strings

  // ---------------------------------------------------------------------------
  // Validation, shared in wording and thresholds with the sign-up page

  const MissingMessage: string := "نام کاربری و رمز عبور الزامی است"
  const ShortUsernameMessage: string := "نام کاربری باید حداقل ۳ کاراکتر باشد"
  const ShortPasswordMessage: string := "رمز عبور باید حداقل ۶ کاراکتر باشد"
  const DuplicateMessage: string := "این نام کاربری قبلاً استفاده شده است"
  const InsertFailedMessage: string := "خطا در ایجاد کاربر"
  const ServerErrorMessage: string := "خطای سرور"

  const MinUsernameLength: nat := 3
  const MinPasswordLength: nat := 6

  /** A JSON field is truthy: present and not the empty text. */
  predicate Given(field: Option<string>) {
    field.Some? && field.value != ""
  }

  /**
   * The validation prefix of `POST`: the message of the first check that fails, or
   * `None` when the body may go on to the database.
   */
  function ValidationError(username: Option<string>, password: Option<string>): (r: Option<string>)
    ensures r.None? <==>
      username.Some? && password.Some?
      && |username.value| >= MinUsernameLength && |password.value| >= MinPasswordLength
    ensures !Given(username) || !Given(password) ==> r == Some(MissingMessage)
    ensures Given(username) && Given(password) && |username.value| < MinUsernameLength ==>
      r == Some(ShortUsernameMessage)
    ensures Given(username) && Given(password) && |username.value| >= MinUsernameLength ==>
      (|password.value| < MinPasswordLength ==> r == Some(ShortPasswordMessage))
  {
    if !Given(username) || !Given(password) then Some(MissingMessage)
    else if |username.value| < MinUsernameLength then Some(ShortUsernameMessage)
    else if |password.value| < MinPasswordLength then Some(ShortPasswordMessage)
    else None
  }

  // ---------------------------------------------------------------------------
  // generateUUID

  /** The template whose `x` and `y` characters are replaced, one random nibble each. */
  const UuidTemplate: string := "xxxxxxxx-xxxx-4xxx-yxxx-xxxxxxxxxxxx"

  predicate IsLowerHex(c: char) {
    '0' <= c <= '9' || 'a' <= c <= 'f'
  }

  /** `v.toString(16)` for a nibble. */
  function HexDigit(v: nat): (c: char)
    requires v < 16
    ensures IsLowerHex(c)
  {
    if v < 10 then ('0' as int + v) as char else ('a' as int + v - 10) as char
  }

  /** The value of a lower-case hexadecimal digit. */
  function HexValue(c: char): (v: nat)
    requires IsLowerHex(c)
    ensures v < 16
  {
    if c <= '9' then c as int - '0' as int else c as int - 'a' as int + 10
  }

  /** `r & 0x3 | 0x8`: the variant nibble of a `y` position. */
  function VariantNibble(r: nat): (v: nat)
    requires r < 16
    ensures 8 <= v <= 11 && v % 4 == r % 4
  {
    ((r as bv8 & 0x3) | 0x8) as nat
  }

  /** The number of template characters that consume a nibble. */
  function Slots(t: string): nat {
    if t == [] then 0 else (if t[0] == 'x' || t[0] == 'y' then 1 else 0) + Slots(t[1..])
  }

  predicate Nibbles(rs: seq<nat>) {
    forall i :: 0 <= i < |rs| ==> rs[i] < 16
  }

  /**
   * The template with every `x` and `y` replaced from left to right, each taking the
   * next nibble: `x` by the nibble, `y` by its variant nibble. Every other character
   * is kept.
   */
  function FillTemplate(t: string, rs: seq<nat>): (s: string)
    requires |rs| == Slots(t) && Nibbles(rs)
    ensures |s| == |t|
    ensures forall i :: 0 <= i < |t| && t[i] != 'x' && t[i] != 'y' ==> s[i] == t[i]
    ensures forall i :: 0 <= i < |t| && t[i] == 'x' ==> IsLowerHex(s[i])
    ensures forall i :: 0 <= i < |t| && t[i] == 'y' ==> s[i] in "89ab"
  {
    if t == [] then []
    else if t[0] == 'x' then [HexDigit(rs[0])] + FillTemplate(t[1..], rs[1..])
    else if t[0] == 'y' then
      var c := HexDigit(VariantNibble(rs[0]));
      assert c in "89ab" by {
        var v := VariantNibble(rs[0]);
        assert v == 8 || v == 9 || v == 10 || v == 11;
      }
      [c] + FillTemplate(t[1..], rs[1..])
    else [t[0]] + FillTemplate(t[1..], rs)
  }

  /** The shape of a version-4 UUID as the endpoint writes it. */
  predicate IsUuidV4(s: string) {
    && |s| == 36
    && (forall i :: 0 <= i < 36 && (i == 8 || i == 13 || i == 18 || i == 23) ==> s[i] == '-')
    && s[14] == '4'
    && s[19] in "89ab"
    && (forall i :: 0 <= i < 36 && i !in {8, 13, 14, 18, 19, 23} ==> IsLowerHex(s[i]))
  }

  /** The characters of the template, position by position. */
  function TemplateChar(i: int): char {
    if i == 8 || i == 13 || i == 18 || i == 23 then '-'
    else if i == 14 then '4'
    else if i == 19 then 'y'
    else 'x'
  }

  predicate IsSlot(c: char) {
    c == 'x' || c == 'y'
  }

  lemma {:induction false} SlotsAppend(a: string, b: string)
    ensures Slots(a + b) == Slots(a) + Slots(b)
  {
    if a == [] {
      assert a + b == b;
    } else {
      assert (a + b)[1..] == a[1..] + b;
      SlotsAppend(a[1..], b);
    }
  }

  /** A stretch of the template made only of slots, or with none, counts its length or 0. */
  lemma {:induction false} SlotsUniform(t: string, slot: bool)
    requires forall i :: 0 <= i < |t| ==> IsSlot(t[i]) == slot
    ensures Slots(t) == if slot then |t| else 0
  {
    if t != [] {
      SlotsUniform(t[1..], slot);
    }
  }

  /** Extending a prefix by a stretch of slots, or of other characters. */
  lemma SlotsExtend(t: string, lo: int, hi: int, slot: bool)
    requires 0 <= lo <= hi <= |t|
    requires forall i :: lo <= i < hi ==> IsSlot(t[i]) == slot
    ensures Slots(t[..hi]) == Slots(t[..lo]) + if slot then hi - lo else 0
  {
    assert t[..hi] == t[..lo] + t[lo..hi];
    SlotsAppend(t[..lo], t[lo..hi]);
    SlotsUniform(t[lo..hi], slot);
  }

  /** Any text shaped like the template has 31 slots. */
  lemma SlotsOfShape(t: string)
    requires |t| == 36 && forall i :: 0 <= i < 36 ==> t[i] == TemplateChar(i)
    ensures Slots(t) == 31
  {
    assert t[..0] == [];
    SlotsExtend(t, 0, 8, true);
    SlotsExtend(t, 8, 9, false);
    SlotsExtend(t, 9, 13, true);
    SlotsExtend(t, 13, 15, false);
    SlotsExtend(t, 15, 18, true);
    SlotsExtend(t, 18, 19, false);
    SlotsExtend(t, 19, 23, true);
    SlotsExtend(t, 23, 24, false);
    SlotsExtend(t, 24, 36, true);
    assert t[..36] == t;
  }

  lemma TemplateShape()
    ensures |UuidTemplate| == 36 && Slots(UuidTemplate) == 31
    ensures forall i :: 0 <= i < 36 ==> UuidTemplate[i] == TemplateChar(i)
  {
    assert forall i :: 0 <= i < 36 ==> UuidTemplate[i] == TemplateChar(i);
    SlotsOfShape(UuidTemplate);
  }

  /** Filling any template of the UUID's shape gives a version-4 UUID. */
  lemma FilledShape(t: string, rs: seq<nat>)
    requires |t| == 36 && forall i :: 0 <= i < 36 ==> t[i] == TemplateChar(i)
    requires |rs| == Slots(t) && Nibbles(rs)
    ensures IsUuidV4(FillTemplate(t, rs))
  {
    var id := FillTemplate(t, rs);
    assert t[14] == '4' && t[19] == 'y';
    forall i | 0 <= i < 36 && i !in {8, 13, 14, 18, 19, 23} ensures IsLowerHex(id[i]) {
      assert t[i] == 'x';
    }
  }

  /** `generateUUID`, given the 31 random nibbles its replacements draw. */
  function GenerateUuid(rs: seq<nat>): (id: string)
    requires |rs| == 31 && Nibbles(rs)
    ensures IsUuidV4(id)
  {
    TemplateShape();
    FilledShape(UuidTemplate, rs);
    FillTemplate(UuidTemplate, rs)
  }

  /** `s` is what filling `t` can give: slots hold their kind of digit, the rest is kept. */
  predicate Fits(t: string, s: string) {
    && |s| == |t|
    && forall i :: 0 <= i < |t| ==>
         if t[i] == 'x' then IsLowerHex(s[i])
         else if t[i] == 'y' then s[i] in "89ab"
         else s[i] == t[i]
  }

  /** The nibbles read back from the slots of a filled template. */
  function Unfill(t: string, s: string): (rs: seq<nat>)
    requires Fits(t, s)
    ensures |rs| == Slots(t) && Nibbles(rs)
  {
    if t == [] then []
    else
      assert Fits(t[1..], s[1..]) by {
        forall i | 0 <= i < |t| - 1 ensures t[1..][i] == t[i + 1] && s[1..][i] == s[i + 1] { }
      }
      if IsSlot(t[0]) then [HexValue(s[0])] + Unfill(t[1..], s[1..])
      else Unfill(t[1..], s[1..])
  }

  /**
   * Every string that fits the template is produced by filling it with the nibbles it
   * shows: together with FillTemplate's contract, the fitting strings are exactly the
   * possible outputs.
   */
  lemma {:induction false} FillUnfill(t: string, s: string)
    requires Fits(t, s)
    ensures FillTemplate(t, Unfill(t, s)) == s
  {
    if t != [] {
      assert Fits(t[1..], s[1..]) by {
        forall i | 0 <= i < |t| - 1 ensures t[1..][i] == t[i + 1] && s[1..][i] == s[i + 1] { }
      }
      FillUnfill(t[1..], s[1..]);
      if t[0] == 'x' {
        assert HexDigit(HexValue(s[0])) == s[0];
      } else if t[0] == 'y' {
        assert s[0] == '8' || s[0] == '9' || s[0] == 'a' || s[0] == 'b';
        assert VariantNibble(HexValue(s[0])) == HexValue(s[0]);
        assert HexDigit(HexValue(s[0])) == s[0];
      }
      assert s == [s[0]] + s[1..];
    }
  }

  /** A version-4 UUID fits any template of the UUID's shape. */
  lemma UuidFits(t: string, s: string)
    requires |t| == 36 && forall i :: 0 <= i < 36 ==> t[i] == TemplateChar(i)
    requires IsUuidV4(s)
    ensures Fits(t, s)
  {
  }

  /** Every version-4 UUID of the endpoint's shape is `generateUUID` of some nibbles. */
  lemma UuidOutputsExactly(s: string)
    requires IsUuidV4(s)
    ensures |Unfill(UuidTemplate, s)| == 31 && Nibbles(Unfill(UuidTemplate, s))
    ensures GenerateUuid(Unfill(UuidTemplate, s)) == s
  {
    TemplateShape();
    UuidFits(UuidTemplate, s);
    FillUnfill(UuidTemplate, s);
  }

  // ---------------------------------------------------------------------------
  // POST

  /** The JSON body, each field absent (`None`) or a text. */
  datatype SignupBody = SignupBody(username: Option<string>, password: Option<string>)

  /** The row the endpoint inserts into `users`. */
  datatype UserRow = UserRow(id: string, username: string, passwordHash: string)

  /** What the insert answers: an error, or the stored row's id and username. */
  datatype InsertReply = InsertFailed | Inserted(id: string, username: string)

  datatype SignupResponse =
    | Rejected(status: nat, error: string)
    | Created(userId: string, username: string, token: string)

  /** The response, the username looked up (if any) and the row inserted (if any). */
  datatype Exchange = Exchange(response: SignupResponse, lookedUp: Option<string>, inserted: Option<UserRow>)

  function Status(r: SignupResponse): nat {
    if r.Created? then 200 else r.status
  }

  /**
   * `POST`. A body that is not JSON (`None`) is a server error. A body failing
   * validation is rejected with 400 before the database is touched. Otherwise the
   * lower-cased username is looked up in `taken`, the usernames already stored; a hit
   * is rejected with 400 and nothing is inserted. Otherwise the row with a new UUID,
   * the lower-cased username and `passwordHash` is inserted; the insert's reply decides
   * between 500 and the created user with the token `sign` makes for it.
   */
  function Post(body: Option<SignupBody>, taken: set<string>, passwordHash: string, rs: seq<nat>,
                insert: InsertReply, sign: (string, string) -> string): (x: Exchange)
    requires |rs| == 31 && Nibbles(rs)
    ensures body.None? ==> x == Exchange(Rejected(500, ServerErrorMessage), None, None)
    ensures body.Some? && ValidationError(body.value.username, body.value.password).Some? ==>
      x == Exchange(Rejected(400, ValidationError(body.value.username, body.value.password).value), None, None)
    ensures body.Some? && ValidationError(body.value.username, body.value.password).None? ==>
      var name := Strings.ToLowerAscii(body.value.username.value);
      && x.lookedUp == Some(name)
      && (name in taken ==> x.response == Rejected(400, DuplicateMessage) && x.inserted == None)
      && (name !in taken ==>
            && x.inserted == Some(UserRow(GenerateUuid(rs), name, passwordHash))
            && x.response == match insert
                             case InsertFailed => Rejected(500, InsertFailedMessage)
                             case Inserted(id, stored) => Created(id, stored, sign(id, stored)))
    ensures Status(x.response) == 200 <==> x.inserted.Some? && insert.Inserted?
  {
    match body
    case None => Exchange(Rejected(500, ServerErrorMessage), None, None)
    case Some(SignupBody(username, password)) =>
      match ValidationError(username, password)
      case Some(message) => Exchange(Rejected(400, message), None, None)
      case None =>
        var name := Strings.ToLowerAscii(username.value);
        if name in taken then Exchange(Rejected(400, DuplicateMessage), Some(name), None)
        else
          var row := UserRow(GenerateUuid(rs), name, passwordHash);
          match insert
          case InsertFailed => Exchange(Rejected(500, InsertFailedMessage), Some(name), Some(row))
          case Inserted(id, stored) => Exchange(Created(id, stored, sign(id, stored)), Some(name), Some(row))
  }

  /** No ASCII capital letter. */
  predicate LowerCased(s: string) {
    forall i :: 0 <= i < |s| ==> !('A' <= s[i] <= 'Z')
  }

  /** Lower-casing leaves no capital and changes nothing the second time. */
  lemma LowerCasing(s: string)
    ensures LowerCased(Strings.ToLowerAscii(s))
    ensures Strings.ToLowerAscii(Strings.ToLowerAscii(s)) == Strings.ToLowerAscii(s)
  {
    var t := Strings.ToLowerAscii(s);
    assert forall i :: 0 <= i < |t| ==> t[i] == if 'A' <= s[i] <= 'Z' then (s[i] as int + 32) as char else s[i];
  }

  /** Every inserted row has a version-4 UUID, a valid body's password hash and a lower-case name. */
  lemma InsertedRowIsNormal(body: Option<SignupBody>, taken: set<string>, passwordHash: string, rs: seq<nat>,
                            insert: InsertReply, sign: (string, string) -> string)
    requires |rs| == 31 && Nibbles(rs)
    ensures var x := Post(body, taken, passwordHash, rs, insert, sign);
      x.inserted.Some? ==>
        && IsUuidV4(x.inserted.value.id)
        && x.inserted.value.passwordHash == passwordHash
        && LowerCased(x.inserted.value.username)
        && x.inserted.value.username !in taken
        && |x.inserted.value.username| >= MinUsernameLength
  {
    if body.Some? && body.value.username.Some? {
      LowerCasing(body.value.username.value);
    }
  }

  /**
   * Usernames are unique up to ASCII case: once a row is inserted, a later valid sign-up
   * with the same name in any case is rejected as a duplicate and inserts nothing.
   */
  lemma CaseInsensitiveDuplicate(first: SignupBody, later: SignupBody, taken: set<string>, hash1: string,
                                 hash2: string, rs1: seq<nat>, rs2: seq<nat>, insert1: InsertReply,
                                 insert2: InsertReply, sign: (string, string) -> string)
    requires |rs1| == 31 && Nibbles(rs1) && |rs2| == 31 && Nibbles(rs2)
    requires Post(Some(first), taken, hash1, rs1, insert1, sign).inserted.Some?
    requires ValidationError(later.username, later.password).None?
    requires Strings.ToLowerAscii(later.username.value) == Strings.ToLowerAscii(first.username.value)
    ensures var row := Post(Some(first), taken, hash1, rs1, insert1, sign).inserted.value;
      var x := Post(Some(later), taken + {row.username}, hash2, rs2, insert2, sign);
      x.response == Rejected(400, DuplicateMessage) && x.inserted.None?
  {
  }
}
