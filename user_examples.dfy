/**
 * The examples of the User model's test suite, stated over the model: the
 * example user, the addresses the suite tries, each attribute it changes on
 * a valid user and the exact errors that follow, and two runs through the
 * User and Store objects.
 */
module UserExamples {
  import opened Wrappers
  import opened Text
  import opened EmailFormat
  import opened Users

  /** `User.new(name: "Example User", email: "user@example.com", password: "foobar", password_confirmation: "foobar")`. */
  function ExampleUser(): Record {
    Record(None, "Example User", "user@example.com", Some("foobar"), Some("foobar"), true, "", false)
  }

  lemma ExampleEmailMatches()
    ensures Matches("user@example.com")
  {
    assert MatchesAt("user@example.com", 4, 12);
  }

  /** The example user is valid against any table that does not hold its email up to case, and is not an admin. */
  lemma ExampleUserValid(rows: seq<Row>)
    requires !Taken(rows, "user@example.com", None)
    ensures Valid(rows, ExampleUser())
    ensures !ExampleUser().admin
  {
    assert !IsSpace(ExampleUser().name[0]);
    assert !IsSpace(ExampleUser().email[0]);
    assert !IsSpace(ExampleUser().passwordConfirmation.value[0]);
    ExampleEmailMatches();
  }

  /** The addresses the suite expects to be refused. */
  lemma InvalidAddressesRejected()
    ensures !Matches("user@foo,com")
    ensures !Matches("user_at_foo.org")
    ensures !Matches("user@foo.")
  {
  }

  /** The addresses the suite expects to be accepted. */
  lemma ValidAddressesAccepted()
    ensures Matches("user@foo.com")
    ensures Matches("USER@foo.org")
    ensures Matches("first.last@foo.jp")
  {
    assert MatchesAt("user@foo.com", 4, 8);
    assert MatchesAt("USER@foo.org", 4, 8);
    assert MatchesAt("first.last@foo.jp", 10, 14);
  }

  /** The recogniser gives the suite's verdict on each of its addresses. */
  lemma RecogniserVectors()
    ensures ValidEmail("user@foo.com") && ValidEmail("USER@foo.org") && ValidEmail("first.last@foo.jp")
    ensures !ValidEmail("user@foo,com") && !ValidEmail("user_at_foo.org") && !ValidEmail("user@foo.")
  {
    ValidAddressesAccepted();
    InvalidAddressesRejected();
  }

  /** The names the suite tries, with the errors the name validations give each. */
  lemma NameVectors()
    ensures NameErrors(" ") == [NameBlank, NameTooShort]
    ensures NameErrors(Repeat('a', 51)) == [NameTooLong]
    ensures NameErrors(Repeat('a', 2)) == [NameTooShort]
  {
    assert !IsSpace(Repeat('a', 51)[0]);
    assert !IsSpace(Repeat('a', 2)[0]);
  }

  /** A name of three Mongolian vowel separators, white space to Unicode 6.0, is blank though long enough. */
  lemma VowelSeparatorNameBlank()
    ensures NameErrors("\U{180E}\U{180E}\U{180E}") == [NameBlank]
  {
  }

  /** A blank email fails presence and format; uniqueness depends on the table. */
  lemma BlankEmailVector(rows: seq<Row>, self: Option<nat>)
    requires !Taken(rows, " ", self)
    ensures EmailErrors(rows, " ", self) == [EmailBlank, EmailInvalid]
  {
  }

  /** The malformed addresses of the suite fail on format alone. */
  lemma InvalidEmailVector(rows: seq<Row>, self: Option<nat>, email: string)
    requires email in ["user@foo,com", "user_at_foo.org", "user@foo."]
    requires !Taken(rows, email, self)
    ensures EmailErrors(rows, email, self) == [EmailInvalid]
  {
    InvalidAddressesRejected();
    assert !IsSpace(email[0]);
    assert !ValidEmail(email);
  }

  /** The well-formed addresses of the suite pass every email validation. */
  lemma ValidEmailVector(rows: seq<Row>, self: Option<nat>, email: string)
    requires email in ["user@foo.com", "USER@foo.org", "first.last@foo.jp"]
    requires !Taken(rows, email, self)
    ensures EmailErrors(rows, email, self) == []
  {
    ValidAddressesAccepted();
    assert !IsSpace(email[0]);
    assert ValidEmail(email);
  }

  /** The passwords and confirmations the suite tries, on a record whose digest is set. */
  lemma PasswordVectors(r: Record)
    requires r.hasPasswordDigest
    ensures r.password == Some(" ") && r.passwordConfirmation == Some(" ") ==>
      SecurePasswordErrors(r) + PasswordErrors(r) == [PasswordTooShort, PasswordConfirmationBlank]
    ensures r.password == Some("foobar") && r.passwordConfirmation == Some("sth that doesn't quite match") ==>
      SecurePasswordErrors(r) + PasswordErrors(r) == [PasswordMismatch]
    ensures r.password == Some(Repeat('a', 5)) && r.passwordConfirmation == Some(Repeat('a', 5)) ==>
      SecurePasswordErrors(r) + PasswordErrors(r) == [PasswordTooShort]
  {
    assert !IsSpace("sth that doesn't quite match"[0]);
    assert !IsSpace(Repeat('a', 5)[0]);
  }

  /**
   * A missing and an empty confirmation of a long enough password: only the
   * empty one is compared with the password.
   */
  lemma ConfirmationVectors(r: Record)
    requires r.hasPasswordDigest && |AsString(r.password)| >= PasswordMinLength
    ensures r.passwordConfirmation == None ==>
      SecurePasswordErrors(r) + PasswordErrors(r) == [PasswordConfirmationBlank]
    ensures r.passwordConfirmation == Some("") ==>
      SecurePasswordErrors(r) + PasswordErrors(r) == [PasswordMismatch, PasswordConfirmationBlank]
  {
  }

  /*
   * Each example below starts, as the suite does, from a valid user (the
   * example user is one, by ExampleUserValid) and changes one attribute; the
   * lemma gives the exact errors `valid?` then collects.
   */

  /** A blank name is rejected both as absent and as too short. */
  lemma BlankNameRejected(rows: seq<Row>, r: Record)
    requires Valid(rows, r)
    ensures Errors(rows, r.(name := " ")) == [NameBlank, NameTooShort]
  {
  }

  lemma LongNameRejected(rows: seq<Row>, r: Record)
    requires Valid(rows, r)
    ensures Errors(rows, r.(name := Repeat('a', 51))) == [NameTooLong]
  {
    RenameErrors(rows, r, Repeat('a', 51));
    NameVectors();
  }

  lemma ShortNameRejected(rows: seq<Row>, r: Record)
    requires Valid(rows, r)
    ensures Errors(rows, r.(name := Repeat('a', 2))) == [NameTooShort]
  {
    RenameErrors(rows, r, Repeat('a', 2));
    NameVectors();
  }

  /** A blank email is rejected as absent and as malformed. */
  lemma BlankEmailRejected(rows: seq<Row>, r: Record)
    requires Valid(rows, r)
    requires !Taken(rows, " ", r.id)
    ensures Errors(rows, r.(email := " ")) == [EmailBlank, EmailInvalid]
  {
  }

  /** Each malformed address of the suite fails on format alone. */
  lemma InvalidAddressUserRejected(rows: seq<Row>, r: Record, email: string)
    requires email in ["user@foo,com", "user_at_foo.org", "user@foo."]
    requires Valid(rows, r)
    requires !Taken(rows, email, r.id)
    ensures Errors(rows, r.(email := email)) == [EmailInvalid]
  {
    ChangeEmailErrors(rows, r, email);
    InvalidEmailVector(rows, r.id, email);
  }

  /** Each well-formed address of the suite leaves the user valid. */
  lemma ValidAddressUserAccepted(rows: seq<Row>, r: Record, email: string)
    requires email in ["user@foo.com", "USER@foo.org", "first.last@foo.jp"]
    requires Valid(rows, r)
    requires !Taken(rows, email, r.id)
    ensures Errors(rows, r.(email := email)) == []
  {
    ChangeEmailErrors(rows, r, email);
    ValidEmailVector(rows, r.id, email);
  }

  /**
   * Once a user whose email is any user's email (one that fits the column)
   * upper-cased is in the table, that user can no longer be saved as new,
   * whatever else it holds.
   */
  lemma UpcasedDuplicateRejected(rows: seq<Row>, i: nat, r: Record)
    requires i < |rows| && rows[i].email == Upcase(r.email)
    requires |r.email| <= EmailColumnLimit
    requires r.id == None
    ensures EmailTaken in Errors(rows, r)
    ensures !Valid(rows, r)
  {
    UpcaseKeepsCaseClass(r.email);
    assert Some(rows[i].id) != r.id;
    assert Taken(rows, r.email, r.id);
  }

  /** A new user valid on an empty table fails on uniqueness alone once its upper-cased twin is saved. */
  lemma TakenEmailRejected(twin: Row, r: Record)
    requires Valid([], r) && r.id == None
    requires |r.email| <= EmailColumnLimit
    requires twin.email == Upcase(r.email)
    ensures Errors([twin], r) == [EmailTaken]
  {
    UpcaseKeepsCaseClass(r.email);
    assert [twin][0] == twin;
    assert Some(twin.id) != r.id;
    assert Taken([twin], r.email, r.id);
    assert EmailErrors([twin], r.email, r.id) == [EmailTaken];
  }

  /**
   * The uniqueness query compares only the first 255 characters: an address
   * longer than the column is taken by a row holding its first 255
   * characters, and not by a row holding the whole address.
   */
  lemma LongAddressComparedByPrefix(row: Row, email: string)
    requires |email| > EmailColumnLimit
    ensures row.email == email[..EmailColumnLimit] ==> Taken([row], email, None)
    ensures row.email == email ==> !Taken([row], email, None)
  {
    if row.email == email[..EmailColumnLimit] {
      assert [row][0] == row;
    }
    if row.email == email {
      assert |Downcase(row.email)| != |Downcase(ColumnValue(email))|;
    }
  }

  /** A password changed to blank keeps the old digest but fails on length and on its blank confirmation. */
  lemma BlankPasswordRejected(rows: seq<Row>, r: Record)
    requires Valid(rows, r)
    ensures Errors(rows, r.(password := Some(" "), passwordConfirmation := Some(" ")))
         == [PasswordTooShort, PasswordConfirmationBlank]
  {
  }

  lemma MismatchedConfirmationRejected(rows: seq<Row>, r: Record)
    requires Valid(rows, r) && r.password == Some("foobar")
    ensures Errors(rows, r.(passwordConfirmation := Some("sth that doesn't quite match"))) == [PasswordMismatch]
  {
    ChangePasswordErrors(rows, r, r.password, Some("sth that doesn't quite match"));
    PasswordVectors(r.(passwordConfirmation := Some("sth that doesn't quite match")));
  }

  /**
   * A confirmation that was never assigned is not compared with the
   * password: only its presence check fails.
   */
  lemma NilConfirmationRejected(rows: seq<Row>, r: Record)
    requires Valid(rows, r)
    ensures Errors(rows, r.(passwordConfirmation := None)) == [PasswordConfirmationBlank]
  {
    ChangePasswordErrors(rows, r, r.password, None);
    ConfirmationVectors(r.(passwordConfirmation := None));
  }

  /** An empty confirmation is compared, so it fails both as a mismatch and as blank. */
  lemma EmptyConfirmationRejected(rows: seq<Row>, r: Record)
    requires Valid(rows, r)
    ensures Errors(rows, r.(passwordConfirmation := Some(""))) == [PasswordMismatch, PasswordConfirmationBlank]
  {
    ChangePasswordErrors(rows, r, r.password, Some(""));
    ConfirmationVectors(r.(passwordConfirmation := Some("")));
  }

  lemma ShortPasswordRejected(rows: seq<Row>, r: Record)
    requires Valid(rows, r)
    ensures Errors(rows, r.(password := Some(Repeat('a', 5)), passwordConfirmation := Some(Repeat('a', 5))))
         == [PasswordTooShort]
  {
    ChangePasswordErrors(rows, r, Some(Repeat('a', 5)), Some(Repeat('a', 5)));
    PasswordVectors(r.(password := Some(Repeat('a', 5)), passwordConfirmation := Some(Repeat('a', 5))));
  }

  /** `User.new(..., admin: true)` is refused for its one protected key. */
  lemma AdminNotMassAssignable()
    ensures ProtectedKeys(map[Name := "Example User", Email := "user@example.com", Password := "foobar",
                              PasswordConfirmation := "foobar", Admin := "true"]) == {Admin}
  {
  }

  /** `User.new(..., admin: true)` raises, naming `admin` as the one refused key. */
  method AdminMassAssignmentRefused() returns (refused: bool, keys: set<Attribute>)
    ensures refused && keys == {Admin}
  {
    var p := map[Name := "Example User", Email := "user@example.com", Password := "foobar",
                 PasswordConfirmation := "foobar", Admin := "true"];
    assert Admin in p && !Accessible(Admin) && Admin != Id;
    AdminNotMassAssignable();
    var r := Build(p);
    refused := r.Failure?;
    keys := if r.Failure? then r.error else {};
  }

  /** `User.new(id: 5, ...)` is not refused: the sanitizer drops `id` without raising. */
  method BuildWithIdSucceeds() returns (built: bool, name: string)
    ensures built && name == "Example User"
  {
    var r := Build(map[Id := "5", Name := "Example User", Email := "user@example.com", Password := "foobar",
                       PasswordConfirmation := "foobar"]);
    built := r.Success?;
    name := if r.Success? then r.value.name else "";
  }

  /** Saving the example user into an empty table succeeds and leaves it a non-empty remember token. */
  method SaveExampleUser(token: string) returns (saved: bool, remembered: string)
    requires token != []
    ensures saved && remembered == token
  {
    var store := new Store();
    var user := new User("Example User", "user@example.com", Some("foobar"), Some("foobar"));
    ExampleUserValid([]);
    saved := user.Save(store, token);
    remembered := user.rememberToken;
  }

  /** Upper-casing the email of a user valid on an empty table keeps it valid there. */
  lemma UpcasedTwinValid(r: Record)
    requires Valid([], r)
    ensures Valid([], r.(email := Upcase(r.email)))
  {
    var e := Upcase(r.email);
    var i :| 0 <= i < |r.email| && !IsSpace(r.email[i]);
    assert !IsSpace(e[i]);
    UpcaseKeepsCaseClass(r.email);
    MatchesIgnoresCase(e, r.email);
  }

  /**
   * The set-up of the duplicate-email example: a copy of a user valid on an
   * empty table, with its email upper-cased, saves into a new table.
   */
  method SaveUpcasedTwin(name: string, email: string, password: string, token: string)
    returns (store: Store, twinSaved: bool)
    requires Valid([], Record(None, name, email, Some(password), Some(password), !Blank(password), "", false))
    requires |email| <= EmailColumnLimit
    requires token != []
    ensures fresh(store) && store.Valid()
    ensures twinSaved && |store.rows| == 1 && store.rows[0].email == Upcase(email)
  {
    store := new Store();
    var twin := new User(name, Upcase(email), Some(password), Some(password));
    UpcasedTwinValid(Record(None, name, email, Some(password), Some(password), !Blank(password), "", false));
    twinSaved := twin.Save(store, token);
  }

  /**
   * The duplicate-email example run through the objects, for any user valid
   * on an empty table (the example user is one): once its upper-cased copy
   * is saved, the user itself is no longer valid.
   */
  method DuplicateEmailScenario(name: string, email: string, password: string, token: string)
    returns (twinSaved: bool, userValid: bool)
    requires Valid([], Record(None, name, email, Some(password), Some(password), !Blank(password), "", false))
    requires |email| <= EmailColumnLimit
    requires token != []
    ensures twinSaved && !userValid
  {
    var store;
    store, twinSaved := SaveUpcasedTwin(name, email, password, token);
    var user := new User(name, email, Some(password), Some(password));
    userValid := user.Validate(store);
    UpcasedDuplicateRejected(store.rows, 0, user.View());
  }
}
