# Account models: national-ID checksum, user manager, soft delete and OTPs

This project models the logic of the `account` app of a Django boilerplate and
proves properties of it in Dafny. It covers:

- **The national-ID validator** (`validate_national_id`). This is the Iranian
  kod-e melli rule: exactly ten ASCII digits; the first nine are weighted 10
  down to 2 and summed; the sum modulo 11 is mapped to a check digit (0 and 1
  stay, 2..10 become 11 − rem); the tenth digit must equal it. The source's
  `for` loop is modelled as the method `NationalId.ValidateNationalId`. A loop
  invariant ties it to the recursive `WeightedSum`.
- **The soft-delete layer** (`BaseModel`, `BaseModelManager`). Each table is a
  map from primary key to a row holding the `date_created`, `date_modified`
  and `deleted_at` columns. `objects` returns the live rows; `all_objects`
  returns every row. `delete()` sets `deleted_at` and `date_modified` to now.
  `delete(hard_delete=True)` removes the row.
- **The user manager** (`CustomUserManager`). `create_user` rejects a falsy
  e-mail. It stores the e-mail exactly as passed and the hashed password. A
  duplicate e-mail is refused by the unique constraint, which also covers
  soft-deleted users. `create_superuser` defaults both flags to True. It then
  requires each flag to be the value True, checking `is_staff` first.
- **The OTP lifecycle** (`Otp.generate`, `Otp.validate`). `generate`
  bulk-removes the user's live OTPs and saves a fresh one. `validate` is
  modelled twice: as written (it raises, see Findings) and as intended.
- **The `on_delete` rules**. A hard delete of a user is refused while any
  organization names that user as owner (PROTECT). Otherwise the user's OTPs
  and payments go with the user (CASCADE). A hard delete of an organization
  takes its invites and payments with it. The deletion collector reads every
  row, so soft-deleted rows protect and cascade too. A soft delete only saves
  one row and touches no other table.

The stateful operations are methods of the class `Store.Store`. Its map fields
are the five tables, plus one primary-key counter. `Valid()` states that keys
are below the counter, e-mails are unique, and every foreign key names an
existing row. The pure functions and lemmas in `SoftDelete`, `Accounts` and
`Otps` specify what the methods do.

The inputs from outside the code are parameters:

- `timezone.now()` is a `Time` in seconds.
- `get_random_string` is a `token` argument that must be 8 ASCII digits.
- Password hashing is a `hasher` function argument.

In three places the code does something other than what its names suggest;
the model follows the code:

- `create_user` does not normalise the e-mail.
- `create_superuser` rejects any flag value other than True, not only False.
- `validate` raises instead of answering.

## Model

| member | source | states |
|---|---|---|
| `NationalId.ValidateNationalId` | account/models/validators.py:6-19 | Raises ValidationError unless the input is ten ASCII digits; returns normally iff the tenth digit equals the check digit of the weighted sum of the first nine; ValidationError is the only outcome besides a normal return |
| `NationalId.WeightedSum` | account/models/validators.py:11-13 | For digits and at most ten positions, the weighted sum lies between 0 and 9 times the total of the weights |
| `NationalId.CheckDigit` | account/models/validators.py:14-16 | The check value is always a single digit 0..9, and at least 1 when the remainder is 2..10 |
| `NationalId.CheckValue` | account/models/validators.py:11-16 | The check digit derived from nine digits is 0..9 |
| `NationalId.SumRange` | account/models/validators.py:11-13 | With weights 10..2 on nine digits the weighted sum lies in 0..486, so the modulo needs no sign handling |
| `NationalId.WeightedSumOfPrefix` | account/models/validators.py:12-13 | The weighted sum of the first n digits depends only on those n digits |
| `NationalId.ExactlyOneLastDigit` | account/models/validators.py:14-19 | For every nine-digit prefix, a final digit is accepted iff it equals the prefix's check value, so exactly one is accepted |
| `NationalId.LastDigitChangeDetected` | account/models/validators.py:18-19 | Changing only the last digit of a valid ID always makes it invalid |
| `NationalId.CheckDigitCollision` | account/models/validators.py:15-16 | Two remainders give the same check digit iff they are 1 and 10 |
| `NationalId.SingleDigitChangeUndetected` | account/models/validators.py:11-19 | 0000000061 and 0100000061 differ in one of the first nine digits and are both accepted, so single-digit errors are not always detected |
| `NationalId.KnownValidId` | account/models/validators.py:11-19 | 0084575948 is accepted |
| `SoftDelete.Objects` | account/models/managers.py:6-7 | The default manager returns exactly the rows whose `deleted_at` is None, unchanged |
| `SoftDelete.AllObjects` | account/models/base.py:21 | `all_objects` returns every row unchanged, soft-deleted ones included, so it holds every row `objects` returns |
| `SoftDelete.Inserted` | account/models/base.py:16-18 | A saved row has both timestamps equal to now, is live, and leaves the other rows unchanged |
| `SoftDelete.SoftDeleted` | account/models/base.py:29-31 | A soft delete keeps the row, sets `deleted_at` and `date_modified` to now, keeps `date_created` and the model's fields, and leaves every other row unchanged |
| `SoftDelete.HardDeleted` | account/models/base.py:27-28 | A hard delete removes exactly that row |
| `SoftDelete.SoftDeleteHides` | account/models/base.py:20-31 | After a soft delete the row is absent from `objects`, present in `all_objects`, and `objects` lost only that row |
| `SoftDelete.HardDeleteRemoves` | account/models/base.py:27-28 | After a hard delete the row is in neither accessor and `objects` lost only that row |
| `SoftDelete.InsertShows` | account/models/managers.py:6-7 | A freshly saved row appears in `objects`, which otherwise is unchanged |
| `SoftDelete.ObjectsIdempotent` | account/models/managers.py:6-7 | Filtering on `deleted_at=None` twice is the same as once |
| `Accounts.SetDefault` | account/models/managers.py:21-22 | `setdefault` leaves the dict unchanged when the key is present, and otherwise adds the key with the given value and keeps every other entry |
| `Accounts.SuperuserFields` | account/models/managers.py:21-26 | Succeeds iff each flag is omitted or exactly True; a bad `is_staff` is reported before a bad `is_superuser`; on success both flags are True and every other field is as passed |
| `Accounts.IntegerOneIsNotTrue` | account/models/managers.py:23-24 | `is_staff=1` is refused, because 1 is not True |
| `Accounts.NewUser` | account/models/managers.py:15-16 | The new user holds the e-mail as passed, the hasher's output as password, and the other keyword fields unchanged |
| `Accounts.UserObjects` | account/models/base.py:48 | `CustomUser.objects` returns every user row, soft-deleted ones included |
| `Accounts.SoftDeletedUserStillListed` | account/models/base.py:48 | A soft-deleted user is still returned by `CustomUser.objects` but not by the soft-delete filter |
| `Accounts.LastAt` | account/models/managers.py:14 | The split point of `rsplit("@", 1)`: an index holding '@' with no '@' after it, or none when the address holds no '@' |
| `Accounts.NormalizeEmail` | account/models/managers.py:14 | Normalisation keeps the length and the part before the last '@' and replaces the domain after it by its lower-cased form, which holds no upper-case letter; without '@' the address is unchanged |
| `Accounts.NormalizeEmailIdempotent` | account/models/managers.py:14 | Normalising twice is the same as normalising once |
| `Accounts.NormalizeEmailIgnoresDomainCase` | account/models/managers.py:14 | Addresses differing only in the case of the domain normalise to the same address |
| `Accounts.EmailStoredUnnormalized` | account/models/managers.py:14-15 | As written, "a@B" is stored as passed although it normalises to "a@b", and "a@b" is then not taken |
| `Otps.LiveOtpsOf` | account/models/base.py:75 | Selects exactly the user's rows whose `deleted_at` is None |
| `Otps.WithoutLiveOtpsOf` | account/models/base.py:75 | The bulk queryset delete removes exactly the user's live rows and keeps every other row unchanged |
| `Otps.Generated` | account/models/base.py:74-83 | After `generate` the user has exactly one live OTP, the new row with the token and expiration now + ttl minutes; the user's soft-deleted OTPs and all other users' OTPs are unchanged; nothing else is added |
| `Otps.ValidateAsWritten` | account/models/base.py:86-87 | Raises FieldError for `expire_date` on every call, whatever the table holds |
| `Otps.ValidateAsWrittenFails` | account/models/base.py:71-87 | `expiration_date` is a field of `Otp` and `expire_date` is not, so as written `validate` raises FieldError for `expire_date` even right after `generate`, where the intended query is true |
| `Otps.Validate` | account/models/base.py:86-87 | The intended `validate`: true iff some row returned by `objects` belongs to the user, holds the token and expires strictly after now, so soft-deleted rows never validate; a true answer implies the user has a live OTP |
| `Otps.ExpirationFor` | account/models/base.py:77 | The stored expiration lies after now iff the ttl is positive, and equals now iff the ttl is 0 |
| `Otps.ValidateAfterGenerate` | account/models/base.py:74-87 | Right after `generate`, the intended `validate` is true iff the token is the returned one and the clock is strictly before the expiration |
| `Otps.SecondGenerateSupersedesFirst` | account/models/base.py:74-87 | After a second `generate`, the first token validates only if both random tokens are equal, and only before the second expiration |
| `Otps.GenerateKeepsOtherUsers` | account/models/base.py:75-82 | `generate` for one user does not change what `validate` answers for any other user |
| `Store.OwnsOrganization` | account/models/base.py:57 | The PROTECT test: an owner of any organization is protected, whether the organization is live or soft-deleted |
| `Store.OtpsNotOf` | account/models/base.py:69 | CASCADE from a user removes exactly the OTP rows of that user |
| `Store.PaymentsNotOfUser` | account/models/base.py:107 | CASCADE from a user removes exactly the payment rows of that user |
| `Store.PaymentsNotOfOrganization` | account/models/base.py:106 | CASCADE from an organization removes exactly its payment rows |
| `Store.InvitesNotOf` | account/models/base.py:95 | CASCADE from an organization removes exactly its invite rows |
| `Store.Store.CreateUser` | account/models/managers.py:11-18 | A falsy e-mail raises ValueError and saves nothing; a taken e-mail raises IntegrityError and saves nothing; otherwise one new user is saved with the e-mail as passed, the hashed password and the extra fields, and no other table changes |
| `Store.Store.CreateSuperuser` | account/models/managers.py:20-27 | A refused flag raises its ValueError before anything else and saves nothing; otherwise a falsy e-mail raises ValueError and a taken e-mail IntegrityError, saving nothing, and success saves one user under the next key with both flags defaulted; every user it returns has both flags exactly True |
| `Store.Store.DeleteUser` | account/models/base.py:26-31 | Raises ProtectedError iff the delete is hard and the user owns an organization, and then changes nothing; a soft delete changes only the user's row; a hard delete removes the user with its OTPs and payments |
| `Store.Store.DeleteOrganization` | account/models/base.py:26-31 | A soft delete changes only the organization row; a hard delete removes it with its invites and payments |
| `Store.Store.DeleteOtp` | account/models/base.py:26-31 | Soft or hard delete of one OTP row; no other table changes |
| `Store.Store.DeleteInvite` | account/models/base.py:26-31 | Soft or hard delete of one invite row; no other table changes |
| `Store.Store.DeletePayment` | account/models/base.py:26-31 | Soft or hard delete of one payment row; no other table changes |
| `Store.Store.GenerateOtp` | account/models/base.py:73-83 | Returns the 8-digit random token, which is the token stored; the table becomes `Generated` of the old one, so the user has exactly one live OTP; no other table changes |

## Findings

| source | as written | input that shows it | evidently intended | confidence | as-written member | corrected member |
|---|---|---|---|---|---|---|
| account/models/base.py:87 | `validate` filters on `expire_date__gt`; the field is `expiration_date` (line 71) | any call, e.g. right after `generate` with ttl 10 | filter on `expiration_date__gt` | high; not executed | `Otps.ValidateAsWrittenFails` | `Otps.ValidateAfterGenerate` |
| account/models/managers.py:14 | the result of `normalize_email(email)` is discarded | `create_user("a@B", ...)` stores "a@B"; "a@b" can then be registered as a second user | `email = self.normalize_email(email)` | high; not executed | `Accounts.EmailStoredUnnormalized` | `Accounts.NormalizeEmailIgnoresDomainCase` |
| account/models/base.py:48 | `CustomUser.objects` is `CustomUserManager`, which does not filter `deleted_at` | a soft-deleted user is still returned by `CustomUser.objects` | a user manager that also filters `deleted_at=None` | medium; not executed | `Accounts.SoftDeletedUserStillListed` | `SoftDelete.SoftDeleteHides` |

The OTP lemmas use the corrected `Otps.Validate`. `Store.Store.CreateUser`
and `Accounts.UserObjects` keep the code's behaviour: the stored e-mail is
exactly the one passed, and the user accessor is unfiltered. So the effects of
the last two rows stay visible in the model. The corrected definitions stand
beside them.

## Left out

- account/admin.py: admin list, search and read-only configuration. It is UI glue with no logic of its own.
- ORM persistence, transactions and `save()` mechanics. They are replaced by in-memory maps. Primary keys come from one shared counter, not one sequence per table.
- The `uuid` column and UUID generation are not modelled. `BaseModel.uuid` (account/models/base.py:15) is declared non-null with no default, and only `Organization` gives it one (account/models/base.py:55). As declared, `user.save()` in `create_user` (without a `uuid` keyword) and `Otp.objects.create` in `generate` would therefore write NULL into a non-null column and fail. In `generate` that failure comes after the bulk delete has already removed the user's live OTPs. The model treats both inserts as succeeding; the actual outcome depends on the database schema, which is not part of this model.
- `auto_now` and `auto_now_add`: they are modelled only by setting timestamps from the `now` parameter.
- Encryption of `Otp.token` is treated as the identity. Lookups compare plaintext tokens.
- `get_random_string` and `timezone.now` are parameters. Randomness and real time are not modelled. Time is whole seconds, and a ttl of n minutes adds 60·n.
- Password hashing internals are left out: the hash is the `hasher` argument. Salting, and `set_password(None)` making an unusable password, are not modelled.
- Store.Store.CreateUser: keyword arguments that are not fields of `CustomUser` raise TypeError in Django's model constructor. This is not modelled; `extra` is stored as given. Keyword arguments that name `BaseModel` columns or the key are also kept in `extra` rather than applied to the row. So `deleted_at=t` would really save an already soft-deleted user, and `date_created` or `date_modified` would set those columns. An `id` or `pk` keyword would make `save()` overwrite an existing row. The model instead saves a fresh live row with timestamps `now`. AbstractUser's default field values (`is_active`, `date_joined`, ...) are not added either.
- Accounts.NormalizeEmail: Django's `strip()` of surrounding whitespace is not modelled, and lower-casing covers ASCII letters only.
- NationalId.ValidateNationalId: the input is modelled as a string of characters checked against ASCII '0'..'9'. Python's `\d` also matches non-ASCII decimal digits. `$` also matches before a trailing newline, which then makes `int('\n')` raise ValueError. Neither regex subtlety is modelled.
- Store.Store.GenerateOtp: two error paths of `generate` are not modelled. It requires the user's row to exist; in Django, for a user instance whose row is gone, the bulk delete at account/models/base.py:75 still runs and `create` then fails on the foreign key with IntegrityError. `ExpirationFor` is unbounded, whereas `timedelta(minutes=ttl)` and `now + timedelta` raise OverflowError outside the datetime range (account/models/base.py:77).
- Store.Store.DeleteUser and the other delete methods require that the instance's row exists. Soft-deleting an instance whose row has been hard-deleted would make Django's `save()` insert it again, and that case is not modelled.
- `Organization.members`: it filters on a `team` field that does not exist, so there is no behaviour to specify.
- `__str__` of `CustomUser` and `Organization`: display only.
- Creating organizations, invites and payments: no core code does it. The store's methods accept any state that satisfies `Valid()`.
- The race between concurrent `generate` calls for one user: concurrency is not modelled.
- `Payment.authority_data`, field maximum lengths, and choices used only for form validation.
