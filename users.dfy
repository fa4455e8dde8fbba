/**
 * The User model: the attributes a caller may mass-assign, the validations it
 * declares (with the two that `has_secure_password` adds), and `save`, which
 * validates, runs the `before_save` callback that stores a fresh remember
 * token, and then writes the row to the users table.
 *
 * The table is a `Store` object holding a sequence of rows; a `User` object
 * is the in-memory record, whose fields `save` updates in place.
 */
module Users {
  import opened Wrappers
  import opened Text
  import EmailFormat

  /** The messages `valid?` collects, by attribute and by the validator that adds them. */
  datatype Error =
    | PasswordMismatch           // password does not match its confirmation
    | PasswordDigestBlank        // no password digest: the password was never set to a non-blank value
    | NameBlank
    | NameTooShort
    | NameTooLong
    | EmailBlank
    | EmailInvalid
    | EmailTaken
    | PasswordTooShort
    | PasswordConfirmationBlank

  const NameMinLength := 3
  const NameMaxLength := 50
  const PasswordMinLength := 6

  /** The width of the `email` column, `string(255)`. */
  const EmailColumnLimit := 255

  /** The columns of the users table a row can be told apart by; the password itself is never stored. */
  datatype Row = Row(
    id: nat,
    name: string,
    email: string,
    hasPasswordDigest: bool,
    rememberToken: string,
    admin: bool)

  /**
   * Every attribute of a User object: the columns, the virtual `password` and
   * `password_confirmation`, which stay nil (`None`) until assigned, and
   * `id`, which is `None` until the first save.
   */
  datatype Record = Record(
    id: Option<nat>,
    name: string,
    email: string,
    password: Option<string>,
    passwordConfirmation: Option<string>,
    hasPasswordDigest: bool,
    rememberToken: string,
    admin: bool)

  /** The attributes a params hash may name. */
  datatype Attribute =
    | Id | Name | Email | Password | PasswordConfirmation
    | PasswordDigest | RememberToken | Admin | CreatedAt | UpdatedAt

  /** The `attr_accessible` whitelist. */
  predicate Accessible(a: Attribute) {
    a == Name || a == Email || a == Password || a == PasswordConfirmation
  }

  /**
   * The keys of a params hash that mass assignment refuses: every supplied
   * key outside the four whitelisted ones, so none when only those are given,
   * and `admin` whenever it is given.
   */
  function ProtectedKeys(params: map<Attribute, string>): (keys: set<Attribute>)
    ensures keys <= params.Keys
    ensures keys !! {Name, Email, Password, PasswordConfirmation}
    ensures params.Keys - keys <= {Name, Email, Password, PasswordConfirmation}
    ensures keys == {} <==> params.Keys <= {Name, Email, Password, PasswordConfirmation}
    ensures Admin in params ==> Admin in keys
  {
    set a | a in params && !Accessible(a)
  }

  /** The value a params hash gives an attribute; a missing key leaves it nil. */
  function Param(params: map<Attribute, string>, a: Attribute): Option<string> {
    if a in params then Some(params[a]) else None
  }

  /** `to_s` of an attribute that may be nil: nil reads as the empty string. */
  function AsString(v: Option<string>): string {
    if v.Some? then v.value else ""
  }

  /** The value the uniqueness query compares: the address cut to the column's width. */
  function ColumnValue(email: string): string {
    if |email| <= EmailColumnLimit then email else email[..EmailColumnLimit]
  }

  /**
   * `uniqueness: { case_sensitive: false }`: a row other than the record's
   * own holds, up to case, the address cut to the column's width.
   */
  predicate Taken(rows: seq<Row>, email: string, self: Option<nat>) {
    exists i :: 0 <= i < |rows| && Some(rows[i].id) != self && EqualIgnoringCase(rows[i].email, ColumnValue(email))
  }

  /** The rules the model declares, all at once. */
  ghost predicate Valid(rows: seq<Row>, r: Record) {
    && !Blank(r.name) && NameMinLength <= |r.name| <= NameMaxLength
    && !Blank(r.email) && EmailFormat.Matches(r.email) && !Taken(rows, r.email, r.id)
    && |AsString(r.password)| >= PasswordMinLength
    && !Blank(AsString(r.passwordConfirmation))
    && r.password == r.passwordConfirmation
    && r.hasPasswordDigest
  }

  /**
   * The validations `has_secure_password` declares: confirmation of the
   * password, which compares only when a confirmation was assigned (nil is
   * skipped, the empty string is not), and presence of its digest.
   */
  function SecurePasswordErrors(r: Record): (errs: seq<Error>)
    ensures errs == [] <==>
      (r.passwordConfirmation.None? || r.password == r.passwordConfirmation) && r.hasPasswordDigest
    ensures PasswordMismatch in errs <==> r.passwordConfirmation.Some? && r.password != r.passwordConfirmation
    ensures PasswordDigestBlank in errs <==> !r.hasPasswordDigest
  {
    (if r.passwordConfirmation.Some? && r.password != r.passwordConfirmation then [PasswordMismatch] else [])
    + (if r.hasPasswordDigest then [] else [PasswordDigestBlank])
  }

  /** `validates :name, presence: true, length: { within: 3..50 }`. */
  function NameErrors(name: string): (errs: seq<Error>)
    ensures errs == [] <==> !Blank(name) && NameMinLength <= |name| <= NameMaxLength
    ensures NameBlank in errs <==> Blank(name)
    ensures NameTooShort in errs <==> |name| < NameMinLength
    ensures NameTooLong in errs <==> |name| > NameMaxLength
  {
    (if Blank(name) then [NameBlank] else [])
    + (if |name| < NameMinLength then [NameTooShort]
       else if |name| > NameMaxLength then [NameTooLong]
       else [])
  }

  /** `validates :email, presence: true, format: { with: regex }, uniqueness: { case_sensitive: false }`. */
  function EmailErrors(rows: seq<Row>, email: string, self: Option<nat>): (errs: seq<Error>)
    ensures errs == [] <==> !Blank(email) && EmailFormat.Matches(email) && !Taken(rows, email, self)
    ensures EmailBlank in errs <==> Blank(email)
    ensures EmailInvalid in errs <==> !EmailFormat.Matches(email)
    ensures EmailTaken in errs <==> Taken(rows, email, self)
  {
    (if Blank(email) then [EmailBlank] else [])
    + (if EmailFormat.ValidEmail(email) then [] else [EmailInvalid])
    + (if Taken(rows, email, self) then [EmailTaken] else [])
  }

  /**
   * `validates :password, length: { minimum: 6 }` and
   * `validates :password_confirmation, presence: true`; a nil password has
   * length 0 and a nil confirmation is blank.
   */
  function PasswordErrors(r: Record): (errs: seq<Error>)
    ensures errs == [] <==>
      |AsString(r.password)| >= PasswordMinLength && r.passwordConfirmation.Some? && !Blank(r.passwordConfirmation.value)
    ensures PasswordTooShort in errs <==> |AsString(r.password)| < PasswordMinLength
    ensures PasswordConfirmationBlank in errs <==> r.passwordConfirmation.None? || Blank(r.passwordConfirmation.value)
  {
    (if |AsString(r.password)| < PasswordMinLength then [PasswordTooShort] else [])
    + (if Blank(AsString(r.passwordConfirmation)) then [PasswordConfirmationBlank] else [])
  }

  /**
   * The errors `valid?` finds, in the order the validators add them: every
   * validator runs, in declaration order, none short-circuits. (Rails files
   * the messages under their attribute; this list keeps them flat.)
   */
  function Errors(rows: seq<Row>, r: Record): (errs: seq<Error>)
    ensures errs == [] <==> Valid(rows, r)
  {
    var secure, name, email, password :=
      SecurePasswordErrors(r), NameErrors(r.name), EmailErrors(rows, r.email, r.id), PasswordErrors(r);
    assert |secure + name + email + password| == |secure| + |name| + |email| + |password|;
    secure + name + email + password
  }

  /** Every validation reads only its own attributes: renaming a valid user leaves only the name's errors. */
  lemma RenameErrors(rows: seq<Row>, r: Record, name: string)
    requires Valid(rows, r)
    ensures Errors(rows, r.(name := name)) == NameErrors(name)
  {
  }

  /** Changing the email of a valid user leaves only the email's errors. */
  lemma ChangeEmailErrors(rows: seq<Row>, r: Record, email: string)
    requires Valid(rows, r)
    ensures Errors(rows, r.(email := email)) == EmailErrors(rows, email, r.id)
  {
  }

  /** Changing the password and its confirmation of a valid user leaves only the password's errors. */
  lemma ChangePasswordErrors(rows: seq<Row>, r: Record, password: Option<string>, confirmation: Option<string>)
    requires Valid(rows, r)
    ensures var r' := r.(password := password, passwordConfirmation := confirmation);
      Errors(rows, r') == SecurePasswordErrors(r') + PasswordErrors(r')
  {
  }


  /**
   * No two rows hold, up to case, the same address that fits the column.
   * (The table keeps each address whole; two equal addresses longer than the
   * column both pass the uniqueness check, which compares only their first
   * 255 characters with the stored addresses.)
   */
  predicate EmailsUnique(rows: seq<Row>) {
    forall i, j :: 0 <= i < j < |rows| && |rows[j].email| <= EmailColumnLimit ==>
      !EqualIgnoringCase(rows[i].email, rows[j].email)
  }

  /** Row ids are positive, below the next id to hand out, and distinct. */
  predicate IdsFresh(rows: seq<Row>, nextId: nat) {
    && nextId > 0
    && (forall i :: 0 <= i < |rows| ==> 0 < rows[i].id < nextId)
    && (forall i, j :: 0 <= i < j < |rows| ==> rows[i].id != rows[j].id)
  }

  /** What every sequence of saves keeps true of the users table. */
  predicate TableInvariant(rows: seq<Row>, nextId: nat) {
    IdsFresh(rows, nextId) && EmailsUnique(rows)
  }

  /** The row a saved record is written as. */
  function RowOf(r: Record): Row
    requires r.id.Some?
  {
    Row(r.id.value, r.name, r.email, r.hasPasswordDigest, r.rememberToken, r.admin)
  }

  /**
   * An UPDATE by primary key: every id keeps its place, every row with
   * another id is kept, no row but `row` is new, and `row` is written when
   * its id is in the table.
   */
  function Replaced(rows: seq<Row>, row: Row): (r: seq<Row>)
    ensures |r| == |rows|
    ensures forall i :: 0 <= i < |r| ==> r[i].id == rows[i].id
    ensures forall i :: 0 <= i < |rows| && rows[i].id != row.id ==> r[i] == rows[i]
    ensures forall x :: x in r ==> x == row || x in rows
    ensures (exists i :: 0 <= i < |rows| && rows[i].id == row.id) ==> row in r
  {
    seq(|rows|, i requires 0 <= i < |rows| => if rows[i].id == row.id then row else rows[i])
  }

  /** Inserting a row that passed the uniqueness check under a fresh id keeps the table invariant. */
  lemma InsertKeepsInvariant(rows: seq<Row>, nextId: nat, row: Row)
    requires TableInvariant(rows, nextId)
    requires row.id == nextId
    requires !Taken(rows, row.email, None)
    ensures TableInvariant(rows + [row], nextId + 1)
  {
  }

  /** Updating a row that passed the uniqueness check, excluding itself, keeps the table invariant. */
  lemma UpdateKeepsInvariant(rows: seq<Row>, nextId: nat, row: Row)
    requires TableInvariant(rows, nextId)
    requires !Taken(rows, row.email, Some(row.id))
    ensures TableInvariant(Replaced(rows, row), nextId)
  {
  }

  /** The users table. */
  class Store {
    var rows: seq<Row>
    var nextId: nat

    ghost predicate Valid()
      reads this
    {
      TableInvariant(rows, nextId)
    }

    /** An empty table whose ids start at 1. */
    constructor ()
      ensures Valid()
      ensures rows == [] && nextId == 1
    {
      rows := [];
      nextId := 1;
    }

    /** INSERT of a row that passed the uniqueness check, under the next id. */
    method Insert(row: Row)
      requires Valid()
      requires row.id == nextId
      requires !Taken(rows, row.email, None)
      modifies this
      ensures Valid()
      ensures rows == old(rows) + [row]
      ensures nextId == old(nextId) + 1
    {
      InsertKeepsInvariant(rows, nextId, row);
      rows := rows + [row];
      nextId := nextId + 1;
    }

    /** UPDATE by primary key of a row that passed the uniqueness check. */
    method Update(row: Row)
      requires Valid()
      requires !Taken(rows, row.email, Some(row.id))
      modifies this
      ensures Valid()
      ensures rows == Replaced(old(rows), row)
      ensures nextId == old(nextId)
    {
      UpdateKeepsInvariant(rows, nextId, row);
      rows := Replaced(rows, row);
    }
  }

  /** A User object. */
  class User {
    var id: Option<nat>
    var name: string
    var email: string
    var password: Option<string>
    var passwordConfirmation: Option<string>
    var hasPasswordDigest: bool
    var rememberToken: string
    var admin: bool
    var errors: seq<Error>

    /** The object's attributes as one value. */
    function View(): Record
      reads this
    {
      Record(id, name, email, password, passwordConfirmation, hasPasswordDigest, rememberToken, admin)
    }

    /**
     * `User.new` with the four accessible attributes: not saved, no remember
     * token, not an admin; assigning a non-blank password sets its digest.
     */
    constructor (name: string, email: string, password: Option<string>, passwordConfirmation: Option<string>)
      ensures View() == Record(None, name, email, password, passwordConfirmation, !Blank(AsString(password)), "", false)
      ensures errors == []
    {
      this.id := None;
      this.name := name;
      this.email := email;
      this.password := password;
      this.passwordConfirmation := passwordConfirmation;
      this.hasPasswordDigest := !Blank(AsString(password));
      this.rememberToken := "";
      this.admin := false;
      this.errors := [];
    }

    /** The `password=` writer: a blank password leaves the digest as it was. */
    method SetPassword(p: string)
      modifies this`password, this`hasPasswordDigest
      ensures View() == old(View()).(password := Some(p), hasPasswordDigest := old(hasPasswordDigest) || !Blank(p))
    {
      password := Some(p);
      if !Blank(p) {
        hasPasswordDigest := true;
      }
    }

    /** `valid?`: runs every validation against the table, records the errors, reports whether there were none. */
    method Validate(store: Store) returns (ok: bool)
      modifies this`errors
      ensures errors == Errors(store.rows, View())
      ensures ok <==> Valid(store.rows, View())
    {
      errors := Errors(store.rows, View());
      ok := errors == [];
    }

    /** The `before_save` callback: assign the remember token (a fresh random value supplied by the caller). */
    method CreateRememberToken(token: string)
      modifies this`rememberToken
      ensures View() == old(View()).(rememberToken := token)
    {
      rememberToken := token;
    }

    /**
     * `save`: validate; on failure change nothing but `errors` and return
     * false; otherwise store the fresh `token` as the remember token, INSERT
     * the record under the next id (a new record) or UPDATE its row (a saved
     * one), and return true.
     */
    method Save(store: Store, token: string) returns (ok: bool)
      requires store.Valid()
      requires token != []
      modifies this, store
      ensures store.Valid()
      ensures errors == Errors(old(store.rows), old(View()))
      ensures ok <==> Valid(old(store.rows), old(View()))
      ensures !ok ==> View() == old(View()) && unchanged(store)
      ensures ok ==> rememberToken != []
      ensures ok && old(id).None? ==>
        && View() == old(View()).(rememberToken := token, id := Some(old(store.nextId)))
        && store.rows == old(store.rows) + [RowOf(View())]
        && store.nextId == old(store.nextId) + 1
      ensures ok && old(id).Some? ==>
        && View() == old(View()).(rememberToken := token)
        && store.rows == Replaced(old(store.rows), RowOf(View()))
        && store.nextId == old(store.nextId)
    {
      ghost var before := View();
      ok := Validate(store);
      assert View() == before;
      ghost var found := errors;
      assert found == Errors(old(store.rows), old(View()));
      if !ok {
        return;
      }
      assert !Taken(store.rows, email, id);
      Persist(store, token);
      assert errors == found;
    }

    /**
     * The part of `save` after validation: the `before_save` callback stores
     * the token, then the record is INSERTed under the next id (a new
     * record) or its row UPDATEd (a saved one).
     */
    method Persist(store: Store, token: string)
      requires store.Valid()
      requires !Taken(store.rows, email, id)
      modifies this`rememberToken, this`id, store
      ensures store.Valid()
      ensures old(id).None? ==>
        && View() == old(View()).(rememberToken := token, id := Some(old(store.nextId)))
        && store.rows == old(store.rows) + [RowOf(View())]
        && store.nextId == old(store.nextId) + 1
      ensures old(id).Some? ==>
        && View() == old(View()).(rememberToken := token)
        && store.rows == Replaced(old(store.rows), RowOf(View()))
        && store.nextId == old(store.nextId)
    {
      CreateRememberToken(token);
      if id.None? {
        id := Some(store.nextId);
        store.Insert(RowOf(View()));
      } else {
        store.Update(RowOf(View()));
      }
    }
  }

  /**
   * `User.new(params)` under the strict mass-assignment sanitizer: a params
   * hash naming any attribute outside the whitelist other than `id` is
   * refused with all the refused keys; `id` alone is dropped without
   * complaint. Otherwise the user gets exactly the four accessible values,
   * a missing one left nil.
   */
  method Build(params: map<Attribute, string>) returns (r: Result<User, set<Attribute>>)
    ensures r.Failure? <==> exists a :: a in params && !Accessible(a) && a != Id
    ensures r.Failure? ==> r.error == ProtectedKeys(params)
    ensures r.Success? ==>
      && fresh(r.value)
      && r.value.View() == Record(None, AsString(Param(params, Name)), AsString(Param(params, Email)),
                                  Param(params, Password), Param(params, PasswordConfirmation),
                                  !Blank(AsString(Param(params, Password))), "", false)
  {
    var refused := ProtectedKeys(params);
    if refused - {Id} != {} {
      return Failure(refused);
    }
    assert forall a :: a in params && !Accessible(a) && a != Id ==> a in refused - {Id};
    var u := new User(AsString(Param(params, Name)), AsString(Param(params, Email)),
                      Param(params, Password), Param(params, PasswordConfirmation));
    return Success(u);
  }
}
