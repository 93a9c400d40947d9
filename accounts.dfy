/** The value-level rules of `CustomUserManager`: the falsy-email check,
    the `setdefault` and `is True` rules of `create_superuser`, the record
    `create_user` builds, the e-mail normalisation the manager calls but
    does not use, and the unfiltered `CustomUser.objects` accessor. */
module Accounts {
  import opened Common
  import opened SoftDelete

  /** A Python value passed as a keyword argument. */
  datatype Value = PyNone | PyBool(b: bool) | PyInt(i: int) | PyStr(s: string)

  const True: Value := PyBool(true)

  /** A `CustomUser` row: the login e-mail, the stored password (always the
      output of the hasher) and every other field passed in `extra_fields`. */
  datatype User = User(email: string, password: string, extra: map<string, Value>)

  const StaffKey := "is_staff"
  const SuperuserKey := "is_superuser"
  const NoEmailMessage := "Users must have an email address"
  const StaffMessage := "Superuser must have is_staff=True."
  const SuperuserMessage := "Superuser must have is_superuser=True."

  /** `not email`, for the e-mail argument: None or the empty string. */
  predicate IsFalsy(email: Option<string>) {
    email.None? || email.value == ""
  }

  /** `dict.setdefault(key, value)`, as its effect on the dict. */
  function SetDefault(m: map<string, Value>, key: string, value: Value): (r: map<string, Value>)
    ensures key in r
    ensures key in m ==> r == m
    ensures key !in m ==> r == m[key := value]
    ensures r.Keys == m.Keys + {key}
  {
    if key in m then m else m[key := value]
  }

  /** A flag that `create_superuser` lets through: omitted (then defaulted
      to True) or given as exactly the value True. */
  predicate FlagAccepted(extra: map<string, Value>, key: string) {
    key !in extra || extra[key] == True
  }

  /** The flag logic of `create_superuser`: both flags are defaulted to True,
      then `is_staff` and after it `is_superuser` must be `is True`. */
  function SuperuserFields(extra: map<string, Value>): (r: Result<map<string, Value>>)
    ensures r.Ok? <==> FlagAccepted(extra, StaffKey) && FlagAccepted(extra, SuperuserKey)
    ensures !FlagAccepted(extra, StaffKey) ==> r == Err(ValueError(StaffMessage))
    ensures FlagAccepted(extra, StaffKey) && !FlagAccepted(extra, SuperuserKey) ==>
              r == Err(ValueError(SuperuserMessage))
    ensures r.Ok? ==> r.value == extra[StaffKey := True][SuperuserKey := True]
  {
    var fields := SetDefault(SetDefault(extra, StaffKey, True), SuperuserKey, True);
    if fields[StaffKey] != True then Err(ValueError(StaffMessage))
    else if fields[SuperuserKey] != True then Err(ValueError(SuperuserMessage))
    else Ok(fields)
  }

  /** Python 1 == True, but 1 is not True: a flag passed as 1 is refused. */
  lemma IntegerOneIsNotTrue(extra: map<string, Value>)
    requires StaffKey in extra && extra[StaffKey] == PyInt(1)
    ensures SuperuserFields(extra) == Err(ValueError(StaffMessage))
  {
  }

  /** The user `create_user` saves: e-mail as passed, the password hashed by
      `set_password`, every other keyword argument as passed. */
  function NewUser(email: string, password: string, extra: map<string, Value>,
                   hasher: string -> string): (u: User)
    ensures u.email == email && u.password == hasher(password) && u.extra == extra
  {
    var user := User(email, "", extra);
    user.(password := hasher(password))
  }

  /** The unique constraint on `email`, which spans soft-deleted rows too. */
  predicate EmailTaken(users: Table<User>, email: string) {
    exists pk :: pk in users && users[pk].fields.email == email
  }

  /** `CustomUser.objects` is the user manager, not the soft-delete manager:
      every row is returned. */
  function UserObjects(users: Table<User>): (r: Table<User>)
    ensures forall pk :: pk in users ==> pk in r && r[pk] == users[pk]
    ensures r.Keys <= users.Keys
  {
    AllObjects(users)
  }

  /** The discrepancy: a soft-deleted user is still returned by
      `CustomUser.objects`, though `objects` of any other model hides it. */
  lemma SoftDeletedUserStillListed(users: Table<User>, pk: Pk, now: Time)
    requires pk in users
    ensures pk in UserObjects(SoftDeleted(users, pk, now))
    ensures pk !in Objects(SoftDeleted(users, pk, now))
  {
  }

  // ---- e-mail normalisation (what `normalize_email` would return) ----

  /** Index of the last '@', as `rsplit("@", 1)` finds it. */
  function LastAt(s: string): (r: Option<nat>)
    ensures r.Some? ==> r.value < |s| && s[r.value] == '@' &&
                        forall j :: r.value < j < |s| ==> s[j] != '@'
    ensures r.None? ==> forall j :: 0 <= j < |s| ==> s[j] != '@'
  {
    if |s| == 0 then None
    else if s[|s| - 1] == '@' then Some(|s| - 1)
    else LastAt(s[..|s| - 1])
  }

  function LowerChar(c: char): (d: char)
    ensures 'A' <= c <= 'Z' ==> 'a' <= d <= 'z'
    ensures !('A' <= c <= 'Z') ==> d == c
  {
    if 'A' <= c <= 'Z' then (c as int - 'A' as int + 'a' as int) as char else c
  }

  /** `str.lower()` on ASCII letters. */
  function Lower(s: string): (r: string)
    ensures |r| == |s|
    ensures forall i :: 0 <= i < |s| ==> r[i] == LowerChar(s[i])
  {
    seq(|s|, i requires 0 <= i < |s| => LowerChar(s[i]))
  }

  predicate HasNoUpper(s: string) {
    forall i :: 0 <= i < |s| ==> !('A' <= s[i] <= 'Z')
  }

  /** `BaseUserManager.normalize_email`: the domain part after the last '@'
      is lower-cased, the local part kept. */
  function NormalizeEmail(email: string): (r: string)
    ensures |r| == |email|
    ensures LastAt(email).None? ==> r == email
    ensures LastAt(email).Some? ==>
              var i := LastAt(email).value;
              r[..i] == email[..i] && r[i] == '@' && HasNoUpper(r[i + 1..]) &&
              r[i + 1..] == Lower(email[i + 1..])
  {
    match LastAt(email)
    case None => email
    case Some(i) => email[..i] + "@" + Lower(email[i + 1..])
  }

  /** The corrected rule: normalising twice is normalising once. */
  lemma NormalizeEmailIdempotent(email: string)
    ensures NormalizeEmail(NormalizeEmail(email)) == NormalizeEmail(email)
  {
  }

  /** The last '@' is the one after which no '@' follows. */
  lemma LastAtIs(s: string, i: nat)
    requires i < |s| && s[i] == '@' && forall j :: i < j < |s| ==> s[j] != '@'
    ensures LastAt(s) == Some(i)
  {
  }

  /** The corrected rule makes addresses that differ only in the case of the
      domain equal, so the unique constraint would treat them as one. */
  lemma NormalizeEmailIgnoresDomainCase(local: string, d1: string, d2: string)
    requires '@' !in d1 && '@' !in d2 && Lower(d1) == Lower(d2)
    ensures NormalizeEmail(local + "@" + d1) == NormalizeEmail(local + "@" + d2)
  {
    var e1, e2 := local + "@" + d1, local + "@" + d2;
    LastAtIs(e1, |local|);
    LastAtIs(e2, |local|);
    assert e1[..|local|] == local && e1[|local| + 1..] == d1;
    assert e2[..|local|] == local && e2[|local| + 1..] == d2;
  }

  /** As written, the result of `normalize_email` is discarded: the upper-case
      domain is stored as passed, and the same address with a lower-case
      domain counts as a different e-mail for the unique constraint. */
  lemma EmailStoredUnnormalized(hasher: string -> string)
    ensures NewUser("a@B", "pw", map[], hasher).email == "a@B"
    ensures NormalizeEmail("a@B") == "a@b"
    ensures !EmailTaken(map[0 := Row(Meta(0, 0, None), NewUser("a@B", "pw", map[], hasher))], "a@b")
  {
  }
}
