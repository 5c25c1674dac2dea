/**
 * The registration form of `src/components/auth/Register.tsx`. It keeps its
 * users in a local list seeded with two fixed users. On submit it rejects a
 * password that differs from its confirmation, then an email already in the
 * list; otherwise it derives the next user id on the client (the largest id
 * read by `parseInt` plus one, padded to five digits), appends the user,
 * mirrors the list into local storage and reports success.
 */
module Register {
  import opened Wrappers
  import opened Tables
  import CodeGen

  datatype DummyUser = DummyUser(id: string, email: string, password: string)

  const MismatchMessage: string := "パスワードが一致しません。"
  const DuplicateEmailMessage: string := "このメールアドレスは既に登録されています。"

  /** The list each render of the form starts from. */
  function DummyUsers(): seq<DummyUser> {
    [DummyUser("00001", "user1@example.com", "password1"),
     DummyUser("00002", "user2@example.com", "password2")]
  }

  function IdOf(u: DummyUser): string { u.id }
  function EmailOf(u: DummyUser): string { u.email }

  function Ids(users: seq<DummyUser>): (ids: seq<string>)
    ensures |ids| == |users| && forall i :: 0 <= i < |users| ==> ids[i] == users[i].id
  {
    seq(|users|, i requires 0 <= i < |users| => users[i].id)
  }

  /** `users.some(user => user.email === email)`. */
  predicate HasEmail(email: string, u: DummyUser) { u.email == email }

  predicate EmailTaken(users: seq<DummyUser>, email: string) {
    exists i :: 0 <= i < |users| && users[i].email == email
  }

  /** The position of the first user with that email, if any. */
  function FindEmail(users: seq<DummyUser>, email: string): (r: Option<nat>)
    ensures r.Some? <==> EmailTaken(users, email)
    ensures r.Some? ==> r.value < |users| && users[r.value].email == email
  {
    FindFirst(users, u => HasEmail(email, u))
  }

  /** `s` starts with a decimal digit, so that `parseInt` reads a number from it. */
  predicate Numeric(s: string) {
    s != [] && CodeGen.IsDigit(s[0])
  }

  /**
   * `parseInt(s, 10)`: the value of the leading decimal digits, or None (NaN)
   * when `s` does not start with a digit.
   */
  function ParseInt(s: string): (r: Option<nat>)
    ensures r.Some? <==> Numeric(s)
  {
    var d := CodeGen.LeadingDigits(s);
    if d == [] then None else Some(CodeGen.DigitsValue(d))
  }

  /** On a numeric string `parseInt` reads the same number as SQLite's CAST. */
  lemma ParseIntIsCast(s: string)
    requires Numeric(s)
    ensures ParseInt(s) == Some(CodeGen.CastInteger(s))
  {
  }

  /** `ids.map(id => parseInt(id, 10))`. */
  function Parsed(ids: seq<string>): (vals: seq<Option<nat>>)
    ensures |vals| == |ids| && forall i :: 0 <= i < |ids| ==> vals[i] == ParseInt(ids[i])
  {
    seq(|ids|, i requires 0 <= i < |ids| => ParseInt(ids[i]))
  }

  /** `Math.max(...vals)` on a non-empty list: NaN (None) as soon as one value is NaN. */
  function Max(vals: seq<Option<nat>>): (m: Option<nat>)
    requires vals != []
    ensures m.None? <==> exists i :: 0 <= i < |vals| && vals[i].None?
    ensures m.Some? ==> forall i :: 0 <= i < |vals| ==> vals[i].Some? && vals[i].value <= m.value
    ensures m.Some? ==> exists i :: 0 <= i < |vals| && vals[i] == m
  {
    if |vals| == 1 then vals[0]
    else
      var front := vals[..|vals| - 1];
      assert forall i :: 0 <= i < |front| ==> front[i] == vals[i];
      var m := Max(front);
      var last := vals[|vals| - 1];
      if m.None? || last.None? then None
      else if last.value > m.value then last
      else m
  }

  /** `Math.max(...ids.map(parseInt))` on a non-empty list. */
  function MaxParsed(ids: seq<string>): (m: Option<nat>)
    requires ids != []
    ensures m.None? <==> exists i :: 0 <= i < |ids| && ParseInt(ids[i]).None?
    ensures m.Some? ==> forall i :: 0 <= i < |ids| ==> ParseInt(ids[i]).Some? && ParseInt(ids[i]).value <= m.value
    ensures m.Some? ==> exists i :: 0 <= i < |ids| && ParseInt(ids[i]) == m
  {
    var vals := Parsed(ids);
    var m := Max(vals);
    assert m.None? ==> exists i :: 0 <= i < |ids| && ParseInt(ids[i]).None? by {
      if m.None? {
        var i :| 0 <= i < |vals| && vals[i].None?;
        assert ParseInt(ids[i]).None?;
      }
    }
    assert m.Some? ==> exists i :: 0 <= i < |ids| && ParseInt(ids[i]) == m by {
      if m.Some? {
        var i :| 0 <= i < |vals| && vals[i] == m;
        assert ParseInt(ids[i]) == m;
      }
    }
    m
  }

  /** `lastUserId`: 0 for an empty list, otherwise the maximum parsed id (possibly NaN). */
  function LastUserId(ids: seq<string>): (m: Option<nat>)
    ensures ids == [] ==> m == Some(0)
    ensures m.None? <==> exists i :: 0 <= i < |ids| && ParseInt(ids[i]).None?
    ensures m.Some? ==> forall i :: 0 <= i < |ids| ==> ParseInt(ids[i]).Some? && ParseInt(ids[i]).value <= m.value
    ensures m.Some? && ids != [] ==> exists i :: 0 <= i < |ids| && ParseInt(ids[i]) == m
  {
    if |ids| > 0 then MaxParsed(ids) else Some(0)
  }

  /** `String(lastUserId + 1)`, where NaN + 1 prints as "NaN". */
  function SuccessorText(last: Option<nat>): string {
    match last
    case None => "NaN"
    case Some(m) => CodeGen.Decimal(m + 1)
  }

  /** The successor of a number is its decimal digits, read back as that number plus one. */
  lemma SuccessorTextValue(last: Option<nat>)
    ensures last.None? ==> SuccessorText(last) == "NaN"
    ensures last.Some? ==> CodeGen.AllDigits(SuccessorText(last)) && CodeGen.DigitsValue(SuccessorText(last)) == last.value + 1
  {
    if last.Some? {
      CodeGen.DecimalValue(last.value + 1);
    }
  }

  /** `String(lastUserId + 1).padStart(5, '0')`. */
  function NewUserId(ids: seq<string>): string {
    CodeGen.PadStart(SuccessorText(LastUserId(ids)), CodeGen.UserIdWidth, '0')
  }

  /**
   * The new id is at least five characters; when every id parses it is the
   * digits of the largest id plus one behind zero padding, otherwise "00NaN".
   */
  lemma NewUserIdShape(ids: seq<string>)
    ensures |NewUserId(ids)| >= CodeGen.UserIdWidth
    ensures LastUserId(ids).None? ==> NewUserId(ids) == "00NaN"
    ensures LastUserId(ids).Some? ==>
              CodeGen.AllDigits(NewUserId(ids)) && CodeGen.DigitsValue(NewUserId(ids)) == LastUserId(ids).value + 1
  {
    var t := SuccessorText(LastUserId(ids));
    SuccessorTextValue(LastUserId(ids));
    if LastUserId(ids).None? {
      assert CodeGen.Repeat('0', 2) == "00";
    } else if |t| < CodeGen.UserIdWidth {
      CodeGen.LeadingZerosValue(CodeGen.UserIdWidth - |t|, t);
    }
  }

  /** One id that `parseInt` reads as NaN turns every new id into "00NaN". */
  lemma NaNUserId(ids: seq<string>, i: nat)
    requires i < |ids| && !Numeric(ids[i])
    ensures NewUserId(ids) == "00NaN"
  {
    assert CodeGen.Repeat('0', 2) == "00";
  }

  /**
   * When every id starts with a digit the form derives the same id as the
   * server's `generateNextUserId` would from the same ids.
   */
  lemma {:induction false} AgreesWithServer(ids: seq<string>)
    requires forall i :: 0 <= i < |ids| ==> Numeric(ids[i])
    ensures CodeGen.NextNumber(ids) == LastUserId(ids).value + 1
    ensures NewUserId(ids) == CodeGen.NextUserId(ids)
  {
    var m := LastUserId(ids).value;
    if ids != [] {
      var cast := CodeGen.MaxCast(ids);
      var k :| 0 <= k < |ids| && ParseInt(ids[k]) == Some(m);
      var j :| 0 <= j < |ids| && CodeGen.CastInteger(ids[j]) == cast.value;
      ParseIntIsCast(ids[j]);
      ParseIntIsCast(ids[k]);
      assert ParseInt(ids[j]).value <= m;
      assert cast.value == m by {
        assert CodeGen.CastInteger(ids[k]) <= cast.value;
      }
    }
    assert CodeGen.NextNumber(ids) == m + 1;
  }

  /**
   * When every id parses, the new id is five or more digits, parses to the
   * largest id plus one, and equals none of the ids.
   */
  lemma NewUserIdFresh(ids: seq<string>)
    requires forall i :: 0 <= i < |ids| ==> Numeric(ids[i])
    ensures CodeGen.AllDigits(NewUserId(ids)) && |NewUserId(ids)| >= CodeGen.UserIdWidth
    ensures ParseInt(NewUserId(ids)) == Some(LastUserId(ids).value + 1)
    ensures forall i :: 0 <= i < |ids| ==> ids[i] != NewUserId(ids)
  {
    AgreesWithServer(ids);
    var id := CodeGen.NextUserId(ids);
    assert NewUserId(ids) == id;
    ServerIdParses(ids, id);
  }

  /** The server's next user id is read by `parseInt` as the next number. */
  lemma ServerIdParses(ids: seq<string>, id: string)
    requires id == CodeGen.NextUserId(ids)
    ensures CodeGen.AllDigits(id) && |id| >= CodeGen.UserIdWidth
    ensures ParseInt(id) == Some(CodeGen.NextNumber(ids))
    ensures forall i :: 0 <= i < |ids| ==> ids[i] != id
  {
    assert CodeGen.IsDigit(id[0]);
    ParseIntIsCast(id);
  }

  /** A one-digit id padded with four zeros parses to its digit. */
  lemma ParsePadded(d: nat)
    requires 1 <= d <= 9
    ensures ParseInt(CodeGen.Repeat('0', 4) + [CodeGen.DigitChar(d)]) == Some(d)
  {
    var c := [CodeGen.DigitChar(d)];
    var s := CodeGen.Repeat('0', 4) + c;
    CodeGen.LeadingZerosValue(4, c);
    CodeGen.LeadingDigitsOfDigits(s);
    assert c[..0] == [];
  }

  /** The two fixed ids parse to 1 and 2. */
  lemma DummyIdsParse()
    ensures Parsed(Ids(DummyUsers())) == [Some(1), Some(2)]
  {
    var ids := Ids(DummyUsers());
    var zeros := CodeGen.Repeat('0', 4);
    assert zeros == "0000";
    assert CodeGen.DigitChar(1) == '1' && CodeGen.DigitChar(2) == '2';
    assert ids[0] == "00001" == zeros + [CodeGen.DigitChar(1)];
    assert ids[1] == "00002" == zeros + [CodeGen.DigitChar(2)];
    ParsePadded(1);
    ParsePadded(2);
  }

  /** The largest of the two fixed ids is 2. */
  lemma DummyLastUserId()
    ensures LastUserId(Ids(DummyUsers())) == Some(2)
  {
    var vals: seq<Option<nat>> := [Some(1), Some(2)];
    DummyIdsParse();
    assert vals[..1] == [Some(1)];
    assert Max(vals) == Some(2);
  }

  /** Registering against the two fixed users gives user id 00003. */
  lemma ThirdUserId()
    ensures NewUserId(Ids(DummyUsers())) == "00003"
  {
    DummyLastUserId();
    PaddedId(3);
  }

  /** A one-digit number becomes an id of four zeros and that digit. */
  lemma PaddedId(d: nat)
    requires d < 10
    ensures CodeGen.PadStart(CodeGen.Decimal(d), CodeGen.UserIdWidth, '0') == "0000" + [CodeGen.DigitChar(d)]
  {
    assert CodeGen.Repeat('0', 4) == "0000";
  }

  /** Ids and emails are distinct and every id is read by `parseInt` as a number. */
  ghost predicate ValidUsers(users: seq<DummyUser>) {
    UniqueBy(users, IdOf) && UniqueBy(users, EmailOf)
    && forall i :: 0 <= i < |users| ==> Numeric(users[i].id)
  }

  /** A registration with an unused email keeps the list valid. */
  lemma RegistrationKeepsValid(users: seq<DummyUser>, email: string, password: string)
    requires ValidUsers(users) && !EmailTaken(users, email)
    ensures ValidUsers(users + [DummyUser(NewUserId(Ids(users)), email, password)])
  {
    var ids := Ids(users);
    NewUserIdFresh(ids);
    var newUser := DummyUser(NewUserId(ids), email, password);
    AppendKeepsUnique(users, IdOf, newUser);
    AppendKeepsUnique(users, EmailOf, newUser);
  }

  /** What one submit of the form decides. */
  datatype Submission = Rejected(message: string) | Registered(user: DummyUser)

  /**
   * The decision of `handleRegister`: the confirmation is checked first, the
   * email second; otherwise the user with the derived id is registered
   * (`SubmitRegistersNewUserId`). On a valid list the registered user keeps
   * the list valid.
   */
  function Submit(users: seq<DummyUser>, email: string, password: string, confirmPassword: string): (s: Submission)
    ensures password != confirmPassword ==> s == Rejected(MismatchMessage)
    ensures password == confirmPassword && EmailTaken(users, email) ==> s == Rejected(DuplicateEmailMessage)
    ensures password == confirmPassword && !EmailTaken(users, email) ==>
              s.Registered? && s.user.email == email && s.user.password == password
    ensures s.Registered? && ValidUsers(users) ==> ValidUsers(users + [s.user])
  {
    if password != confirmPassword then Rejected(MismatchMessage)
    else if FindEmail(users, email).Some? then Rejected(DuplicateEmailMessage)
    else
      var user := DummyUser(NewUserId(Ids(users)), email, password);
      assert ValidUsers(users) ==> ValidUsers(users + [user]) by {
        if ValidUsers(users) {
          RegistrationKeepsValid(users, email, password);
        }
      }
      Registered(user)
  }

  /** A registration appends the user whose id the form derives from the ids of the current list. */
  lemma SubmitRegistersNewUserId(users: seq<DummyUser>, email: string, password: string, confirmPassword: string)
    ensures Submit(users, email, password, confirmPassword).Registered? ==>
              Submit(users, email, password, confirmPassword).user == DummyUser(NewUserId(Ids(users)), email, password)
  {
  }

  /** The state of the form component: its input fields, messages and user list. */
  class RegisterForm {
    var users: seq<DummyUser>
    var email: string
    var password: string
    var confirmPassword: string
    var error: string
    var success: bool
    var newUserId: string
    /** The `users` entry of local storage, None until the first registration. */
    var storedUsers: Option<seq<DummyUser>>

    ghost predicate Valid()
      reads this
    {
      ValidUsers(users)
    }

    /** The form as first shown: empty fields, no message, the two fixed users. */
    constructor ()
      ensures Valid()
      ensures users == DummyUsers() && email == "" && password == "" && confirmPassword == ""
      ensures error == "" && !success && newUserId == "" && storedUsers == None
    {
      users := DummyUsers();
      email := "";
      password := "";
      confirmPassword := "";
      error := "";
      success := false;
      newUserId := "";
      storedUsers := None;
    }

    /** The three `onChange` handlers. */
    method Enter(email': string, password': string, confirmPassword': string)
      modifies this`email, this`password, this`confirmPassword
      ensures email == email' && password == password' && confirmPassword == confirmPassword'
    {
      email := email';
      password := password';
      confirmPassword := confirmPassword';
    }

    /** A re-render rebuilds the user list from the two fixed users; the rest of the state is kept. */
    method Render()
      modifies this`users
      ensures users == DummyUsers()
    {
      users := DummyUsers();
    }

    /**
     * `handleRegister`: a rejection sets its message and changes nothing
     * else; a registration shows the new id, appends and stores the user,
     * clears the message and sets success. The list stays valid.
     */
    method HandleRegister()
      requires Valid()
      modifies this`users, this`error, this`success, this`newUserId, this`storedUsers
      ensures Valid()
      ensures match Submit(old(users), old(email), old(password), old(confirmPassword))
              case Rejected(message) =>
                error == message && users == old(users) && success == old(success)
                && newUserId == old(newUserId) && storedUsers == old(storedUsers)
              case Registered(user) =>
                newUserId == user.id && users == old(users) + [user]
                && storedUsers == Some(users) && success && error == ""
    {
      var submission := Submit(users, email, password, confirmPassword);
      match submission
      case Rejected(message) =>
        error := message;
      case Registered(user) =>
        newUserId := user.id;
        users := users + [user];
        storedUsers := Some(users);
        success := true;
        error := "";
    }
  }
}
