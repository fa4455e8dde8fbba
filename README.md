# Katalog Miniatur — the User model

This project models the `User` model of the Katalog Miniatur Rails application
(`app/models/user.rb`) and its page-title helper `full_title`
(`spec/support/utilities.rb`), and proves properties of both.

The model covers:

- the mass-assignment whitelist (`attr_accessible`) and the strict sanitizer
  that rejects any other key except `id`, which it drops silently;
- `has_secure_password`, with the password digest modelled as "a digest is
  present";
- the validations of name, email and password, which run in declaration
  order and collect every failure;
- the email format `/\A[\w+\-.]+@[a-z\d\-.]+\.[a-z]+\z/i`;
- email uniqueness, case-insensitive and excluding the record itself;
- `save`, which validates first, then runs the `before_save` hook that sets
  the remember token, then inserts or updates the users table.

The files are:

- `wrappers.dfy`: `Option` and `Result`.
- `text.dfy`: Ruby's `blank?`, ASCII `downcase`/`upcase`, and string
  repetition.
- `email_format.dfy`: the email pattern as a regular-expression-shaped
  predicate (`Matches`), a recogniser (`ValidEmail`), and proofs that the two
  agree and that case does not matter.
- `users.dfy`:
  - the validation rules as functions (`Errors`, `Valid`);
  - the users table, a `Store` class with its invariant that ids are fresh
    and no two rows hold, ignoring case, the same address that fits the
    255-character `email` column;
  - the `User` object as a class with `Validate`, `Save` and the
    mass-assigning `Build`.
- `user_examples.dfy`: the examples of the model's test suite
  (`spec/models/user_spec.rb`), stated as lemmas and methods.
- `titles.dfy`: `full_title` and its inverse.

Notes on what the code does:

- `has_secure_password`'s two validations (confirmation of the password and
  presence of its digest) are declared first, so their errors come first.
- The password length is validated on every save.
- An email collision is one validation error among the others (`EmailTaken`).
  The uniqueness query compares the stored addresses with the new address
  cut to the width of the `email` column, `string(255)`, so an address
  longer than that is taken by a row holding its first 255 characters and
  not by a row holding the same whole address.
- The password confirmation is compared with the password only when one was
  assigned: a nil confirmation fails only its presence check.
- `admin` is a column the whitelist leaves out. Supplying it through mass
  assignment raises an error; supplying `id` alone is dropped without one.

## Model

| member | source | states |
|---|---|---|
| Text.UpcaseKeepsCaseClass | app/models/user.rb:26 | an upcased email is equal, ignoring case, to the original, so the uniqueness check treats the two as the same |
| EmailFormat.IndexOf | app/models/user.rb:22 | returns the first position of a character, or None exactly when the character is absent |
| EmailFormat.LastIndexOf | app/models/user.rb:22 | returns the last position of a character, or None exactly when the character is absent |
| EmailFormat.MatchAtFirstAtLastDot | app/models/user.rb:22 | in any match of the pattern, the `@` is the string's only `@` (so its first) and the separating dot is its last `.` |
| EmailFormat.MatchHasAtAndInnerDot | app/models/user.rb:22 | every matching string contains exactly one `@`, and a `.` that is not its final character |
| EmailFormat.ValidEmail | app/models/user.rb:22 | the recogniser accepts a string if and only if the pattern matches it |
| EmailFormat.MatchesIgnoresCase | app/models/user.rb:22 | under the `/i` flag, two strings equal ignoring case either both match or both fail |
| Users.Accessible | app/models/user.rb:15 | definition of the `attr_accessible` whitelist: exactly `name`, `email`, `password` and `password_confirmation` |
| EmailFormat.Matches | app/models/user.rb:22 | definition of the pattern's language: a non-empty local part over `[A-Za-z0-9_+.-]`, one `@`, a non-empty domain prefix over `[A-Za-z0-9.-]`, a `.` and a non-empty ASCII-letter suffix, anchored at both ends |
| Text.Downcase | app/models/user.rb:26 | definition of SQL `LOWER` on the default database: ASCII letters lowered, every other character kept |
| Text.Upcase | spec/models/user_spec.rb:98 | definition of Ruby 1.9's `String#upcase`: ASCII letters raised, every other character kept |
| Text.EqualIgnoringCase | app/models/user.rb:26 | definition of the `case_sensitive: false` comparison `LOWER(a) = LOWER(b)` |
| Text.CaseMapsAsciiLetters | app/models/user.rb:26 | both case maps keep the length, change only ASCII letters, and map each letter to the other case's letter that maps back to it |
| Text.EqualIgnoringCaseCharwise | app/models/user.rb:26 | two strings are equal ignoring case exactly when they have the same length and agree character by character after lowering |
| Users.ProtectedKeys | app/models/user.rb:15 | the refused keys are supplied keys disjoint from the four whitelisted names, every other supplied key is refused, none is refused exactly when only whitelisted keys are supplied, and `admin` is refused whenever supplied |
| Users.SecurePasswordErrors | app/models/user.rb:16 | no errors if and only if the confirmation is nil or equals the password, and a digest is present; a mismatch is reported only for an assigned confirmation; each failing rule yields its own error |
| Users.NameErrors | app/models/user.rb:19-20 | no errors if and only if the name is not blank and has 3 to 50 characters; blank, too-short and too-long each yield their error |
| Users.EmailErrors | app/models/user.rb:24-26 | no errors if and only if the email is not blank, matches the pattern and is not taken by another row ignoring case; each failing rule yields its error |
| Users.PasswordErrors | app/models/user.rb:28-29 | no errors if and only if the password (nil counting as empty) has at least 6 characters and the confirmation is assigned and not blank |
| Text.Blank | app/models/user.rb:19-29 | definition of `blank?`: every character is white space in Unicode 6.0's sense, U+180E included (so the empty string is blank) |
| Users.Taken | app/models/user.rb:7-26 | definition of the uniqueness check: a row other than the record's own holds, up to ASCII case, the email cut to the column's 255 characters |
| UserExamples.LongAddressComparedByPrefix | app/models/user.rb:7-26 | an address longer than 255 characters is taken by a row holding its first 255 characters and not by a row holding the whole address |
| Users.Valid | app/models/user.rb:16-29 | definition of all the rules at once; `Users.Errors` proves the error list empty exactly when it holds |
| Users.Errors | app/models/user.rb:16-29 | the collected error list is empty if and only if the record satisfies every validation |
| Users.RenameErrors | app/models/user.rb:19-20 | changing only the name of a valid record leaves exactly the name errors |
| Users.ChangeEmailErrors | app/models/user.rb:24-26 | changing only the email of a valid record leaves exactly the email errors |
| Users.ChangePasswordErrors | app/models/user.rb:16 | changing only the password and confirmation of a valid record leaves exactly the secure-password and password errors |
| Users.Replaced | app/models/user.rb:17 | an update keeps the table's length and every id in its place, keeps every row with another id, adds no row but the saved one, and writes the saved row when its id is in the table |
| Users.InsertKeepsInvariant | app/models/user.rb:26 | inserting a row with the next id and an untaken email keeps ids fresh and keeps any two rows from holding, ignoring case, the same address that fits the column |
| Users.UpdateKeepsInvariant | app/models/user.rb:26 | updating a row whose email no other row takes keeps the table invariant |
| Users.Store.constructor | app/models/user.rb:14 | a new table is empty and its next id is 1 |
| Users.Store.Insert | app/models/user.rb:17 | appends the row and advances the next id |
| Users.Store.Update | app/models/user.rb:17 | replaces the row with the same id |
| Users.User.constructor | app/models/user.rb:15-16 | a new user holds the four accessible attributes, has no id, token or admin flag, and has a digest exactly when the password is not blank |
| Users.User.SetPassword | app/models/user.rb:16 | sets the password and sets a digest only for a non-blank password |
| Users.User.Validate | app/models/user.rb:16-29 | sets the errors to the collected validation errors and answers whether the user is valid |
| Users.User.CreateRememberToken | app/models/user.rb:33-34 | sets the remember token and nothing else |
| Users.User.Save | app/models/user.rb:16-34 | an invalid user changes nothing but its errors; a valid one gets a non-empty remember token and is inserted with a fresh id or updated in place; the table invariant is kept |
| Users.User.Persist | app/models/user.rb:17 | after validation: stores the token, then inserts the record under the next id or updates its row, keeping the table invariant |
| Users.Build | app/models/user.rb:15 | fails, reporting all the refused keys, exactly when a key outside the whitelist other than `id` is supplied; otherwise builds a new user from the accessible keys, a missing one left nil |
| UserExamples.ExampleEmailMatches | spec/models/user_spec.rb:19 | the example user's email matches the pattern |
| UserExamples.ExampleUserValid | spec/models/user_spec.rb:19-43 | the example user is valid against any table without its email, and is not an admin |
| UserExamples.AdminNotMassAssignable | spec/models/user_spec.rb:45-51 | supplying `admin` is refused, with `admin` as the only protected key |
| UserExamples.AdminMassAssignmentRefused | spec/models/user_spec.rb:45-51 | `User.new` with `admin: true` raises, and `admin` is the one refused key |
| UserExamples.BuildWithIdSucceeds | app/models/user.rb:15 | building from the example attributes plus `id` succeeds, with the given name |
| UserExamples.NameVectors | spec/models/user_spec.rb:59-77 | the exact name errors for `" "`, 51 letters and 2 letters |
| UserExamples.VowelSeparatorNameBlank | app/models/user.rb:19-20 | a name of three U+180E characters gets exactly the blank error |
| UserExamples.BlankNameRejected | spec/models/user_spec.rb:59-62 | a valid user renamed `" "` gets exactly the blank and too-short errors |
| UserExamples.LongNameRejected | spec/models/user_spec.rb:69-72 | a valid user renamed to 51 letters gets exactly the too-long error |
| UserExamples.ShortNameRejected | spec/models/user_spec.rb:74-77 | a valid user renamed to 2 letters gets exactly the too-short error |
| UserExamples.BlankEmailVector | spec/models/user_spec.rb:64-67 | the email `" "`, when untaken, yields exactly the blank and format errors |
| UserExamples.BlankEmailRejected | spec/models/user_spec.rb:64-67 | a valid user whose email becomes `" "` is invalid with exactly those errors |
| UserExamples.InvalidAddressesRejected | spec/models/user_spec.rb:79-85 | none of the three invalid addresses matches the pattern |
| UserExamples.InvalidEmailVector | spec/models/user_spec.rb:79-85 | each invalid address that no other row takes yields exactly the format error |
| UserExamples.InvalidAddressUserRejected | spec/models/user_spec.rb:79-85 | a valid user given an invalid, untaken address gets exactly the format error |
| UserExamples.ValidAddressesAccepted | spec/models/user_spec.rb:87-93 | each of the three valid addresses matches the pattern |
| UserExamples.RecogniserVectors | spec/models/user_spec.rb:79-93 | the recogniser accepts the three valid addresses and rejects the three invalid ones |
| UserExamples.ValidEmailVector | spec/models/user_spec.rb:87-93 | each valid address that no other row takes yields no email error |
| UserExamples.ValidAddressUserAccepted | spec/models/user_spec.rb:87-93 | a valid user given a valid, untaken address stays valid |
| UserExamples.UpcasedDuplicateRejected | spec/models/user_spec.rb:95-103 | a new user whose email fits the column is invalid, with the taken error, once a row holds its email upcased |
| UserExamples.TakenEmailRejected | spec/models/user_spec.rb:95-103 | a valid new user whose email fits the column gets exactly the taken error against a table holding its email upcased |
| UserExamples.UpcasedTwinValid | spec/models/user_spec.rb:96-100 | the upcased duplicate of a valid user is itself valid, so it can be saved |
| UserExamples.SaveUpcasedTwin | spec/models/user_spec.rb:96-100 | the upcased copy of a user valid on an empty table, its email fitting the column, saves into a new table, which then holds exactly that one row |
| UserExamples.DuplicateEmailScenario | spec/models/user_spec.rb:95-103 | for an email that fits the column, saving the upcased twin succeeds and the original user is then invalid |
| UserExamples.ConfirmationVectors | app/models/user.rb:16-29 | for a long enough password with a digest, a nil confirmation gives only the blank-confirmation error and an empty one also the mismatch |
| UserExamples.NilConfirmationRejected | app/models/user.rb:16-29 | a valid user whose confirmation becomes nil gets exactly the blank-confirmation error |
| UserExamples.EmptyConfirmationRejected | app/models/user.rb:16-29 | a valid user whose confirmation becomes empty gets exactly the mismatch and blank-confirmation errors |
| UserExamples.PasswordVectors | spec/models/user_spec.rb:105-118 | the exact password errors for a blank password, a mismatched confirmation and a 5-character password |
| UserExamples.BlankPasswordRejected | spec/models/user_spec.rb:105-108 | a valid user whose password and confirmation become `" "` is invalid |
| UserExamples.MismatchedConfirmationRejected | spec/models/user_spec.rb:110-113 | a valid user whose confirmation stops matching is invalid |
| UserExamples.ShortPasswordRejected | spec/models/user_spec.rb:115-118 | a valid user with a 5-character password is invalid |
| UserExamples.SaveExampleUser | spec/models/user_spec.rb:135-138 | saving the example user succeeds and leaves it with the non-empty token the hook produced |
| Titles.FullTitle | spec/support/utilities.rb:1-8 | always starts with the base title; an empty page title gives the base title alone; otherwise the base title, the separator (space, vertical bar, space) and the page title |
| Titles.PageTitleOfFullTitle | spec/support/utilities.rb:1-8 | the page title can be recovered from the full title |
| Titles.FullTitleInjective | spec/support/utilities.rb:1-8 | different page titles give different full titles |

## Left out

- Password hashing with bcrypt and `authenticate` (user_spec.rb:120-133): the digest is modelled only as present or absent, so "authenticate with the right password returns the user" is not modelled.
- Users.User.CreateRememberToken: `SecureRandom.urlsafe_base64` becomes a caller-supplied token, so "the token changes on every save" holds only when the caller supplies a fresh one; the model proves only that the token is non-empty after a save.
- Persistence beyond the users table: timestamps, `find_by_email`, the database default of `admin` and `toggle!` (user_spec.rb:53-57). The table is a sequence of rows in memory. An UPDATE writes every column of the row, where Rails 3.2's partial updates write only the changed ones; the two differ only when two objects in memory hold the same row.
- Microposts, the feed, relationships, follow/unfollow and destroy cascades: the code of those associations and of the feed is not in the modelled files (only `app/models/user.rb` of the models is).
- `sign_in`, `sign_out` and `signed_in?` (utilities.rb:10-28), the controllers, request specs, factories and configuration: they drive a browser or a cookie jar, not the model.
- Users.EmailErrors: uniqueness compares emails lowered with ASCII case mapping only, as SQL `LOWER` does on the default database; Unicode case folding is not modelled. The table keeps every address whole, as SQLite does; a database that refuses or cuts an address longer than the column is not modelled.
- EmailFormat.Matches: the classes `[a-z]` under `/i` are ASCII letters only, so `Matches` and `ValidEmail` refuse an address whose domain or suffix holds the Kelvin sign or the long s, which Ruby's Unicode-aware matching accepts.
- EmailFormat.MatchesIgnoresCase: the `/i` flag is modelled with ASCII case mapping only. The Kelvin sign and the long s, which Ruby's Unicode-aware matching folds to `k` and `s`, are not modelled.
- A nil name or email is modelled as the empty string; their validations give nil and `""` the same errors, since every saved row has a non-blank email. The password and its confirmation keep nil apart, as the confirmation check needs.
- Users.Errors: the errors come as one flat list in the order the validators run. Rails files them by attribute, so a too-short password message is listed next to a mismatch message, before the name errors; whether the list is empty is the same either way.
- The logging mass-assignment sanitizer used outside tests is not modelled; only the strict one, which raises, is.
- Concurrent saves and the race in uniqueness validation are not modelled; saves are sequential.
