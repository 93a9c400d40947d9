/** The account app's tables as one in-memory store, and the operations
    that change them: `CustomUserManager.create_user` / `create_superuser`,
    `BaseModel.delete` on each model (soft by default, hard on request,
    with the `on_delete` rules of the foreign keys), and `Otp.generate`.
    Primary keys come from one counter; the clock, the random token and
    the password hasher are parameters. */
module Store {
  import opened Common
  import opened SoftDelete
  import opened Accounts
  import opened Otps

  datatype Organization = Organization(name: string, owner: Pk, balance: int)

  datatype InviteStatus = InvitePending | InviteAccepted
  datatype OrganizationInvite = OrganizationInvite(organization: Pk, email: string, status: InviteStatus)

  datatype PaymentStatus = Canceled | PaymentPending | Paid
  datatype Payment = Payment(organization: Pk, user: Option<Pk>, amount: int, status: PaymentStatus)

  /** Some organization row, soft-deleted or not, has `user` as owner. The
      deletion collector reads every row, so soft-deleted organizations
      protect their owner too. */
  predicate OwnsOrganization(organizations: Table<Organization>, user: Pk)
    ensures (exists pk :: pk in Objects(organizations) && Objects(organizations)[pk].fields.owner == user) ==>
              OwnsOrganization(organizations, user)
    ensures (exists pk :: pk in organizations && !IsLive(organizations[pk]) && organizations[pk].fields.owner == user) ==>
              OwnsOrganization(organizations, user)
  {
    exists pk :: pk in organizations && organizations[pk].fields.owner == user
  }

  /** Rows that `Otp.user` (on_delete=CASCADE) removes with `user`. */
  function OtpsNotOf(otps: Table<Otp>, user: Pk): (r: Table<Otp>)
    ensures forall pk :: pk in r <==> pk in otps && otps[pk].fields.user != user
    ensures forall pk :: pk in r ==> r[pk] == otps[pk]
  {
    map pk | pk in otps && otps[pk].fields.user != user :: otps[pk]
  }

  /** Rows that `Payment.user` (on_delete=CASCADE) removes with `user`. */
  function PaymentsNotOfUser(payments: Table<Payment>, user: Pk): (r: Table<Payment>)
    ensures forall pk :: pk in r <==> pk in payments && payments[pk].fields.user != Some(user)
    ensures forall pk :: pk in r ==> r[pk] == payments[pk]
  {
    map pk | pk in payments && payments[pk].fields.user != Some(user) :: payments[pk]
  }

  /** Rows that `Payment.organization` (on_delete=CASCADE) removes with `org`. */
  function PaymentsNotOfOrganization(payments: Table<Payment>, org: Pk): (r: Table<Payment>)
    ensures forall pk :: pk in r <==> pk in payments && payments[pk].fields.organization != org
    ensures forall pk :: pk in r ==> r[pk] == payments[pk]
  {
    map pk | pk in payments && payments[pk].fields.organization != org :: payments[pk]
  }

  /** Rows that `OrganizationInvite.organization` (on_delete=CASCADE) removes
      with `org`. */
  function InvitesNotOf(invites: Table<OrganizationInvite>, org: Pk): (r: Table<OrganizationInvite>)
    ensures forall pk :: pk in r <==> pk in invites && invites[pk].fields.organization != org
    ensures forall pk :: pk in r ==> r[pk] == invites[pk]
  {
    map pk | pk in invites && invites[pk].fields.organization != org :: invites[pk]
  }

  ghost predicate KeysBelow<T>(t: Table<T>, n: Pk) {
    forall pk :: pk in t ==> pk < n
  }

  ghost predicate UniqueEmails(users: Table<User>) {
    forall a, b :: a in users && b in users && users[a].fields.email == users[b].fields.email ==> a == b
  }

  ghost predicate OwnersExist(organizations: Table<Organization>, users: Table<User>) {
    forall pk :: pk in organizations ==> organizations[pk].fields.owner in users
  }

  ghost predicate OtpUsersExist(otps: Table<Otp>, users: Table<User>) {
    forall pk :: pk in otps ==> otps[pk].fields.user in users
  }

  ghost predicate InviteOrganizationsExist(invites: Table<OrganizationInvite>, organizations: Table<Organization>) {
    forall pk :: pk in invites ==> invites[pk].fields.organization in organizations
  }

  ghost predicate PaymentReferencesExist(payments: Table<Payment>, organizations: Table<Organization>,
                                         users: Table<User>) {
    forall pk :: pk in payments ==>
      payments[pk].fields.organization in organizations &&
      (payments[pk].fields.user.Some? ==> payments[pk].fields.user.value in users)
  }

  class Store {
    var users: Table<User>
    var organizations: Table<Organization>
    var otps: Table<Otp>
    var invites: Table<OrganizationInvite>
    var payments: Table<Payment>
    var nextPk: Pk

    /** Keys come from the counter, e-mails are unique, and every foreign
        key names an existing row (soft-deleted rows still exist). */
    ghost predicate Valid()
      reads this
    {
      && KeysBelow(users, nextPk) && KeysBelow(organizations, nextPk) && KeysBelow(otps, nextPk)
      && KeysBelow(invites, nextPk) && KeysBelow(payments, nextPk)
      && UniqueEmails(users)
      && OwnersExist(organizations, users)
      && OtpUsersExist(otps, users)
      && InviteOrganizationsExist(invites, organizations)
      && PaymentReferencesExist(payments, organizations, users)
    }

    constructor ()
      ensures Valid()
      ensures users == map[] && organizations == map[] && otps == map[]
      ensures invites == map[] && payments == map[]
    {
      users, organizations, otps, invites, payments := map[], map[], map[], map[], map[];
      nextPk := 0;
    }

    /** `create_user(email, password, **extra_fields)`. Python binds `email`
        and `password` to the named parameters, so `extra` never holds them. */
    method CreateUser(email: Option<string>, password: string, extra: map<string, Value>,
                      hasher: string -> string, now: Time) returns (r: Result<Pk>)
      requires Valid()
      requires "email" !in extra && "password" !in extra
      modifies this
      ensures Valid()
      ensures IsFalsy(email) ==> r == Err(ValueError(NoEmailMessage))
      ensures !IsFalsy(email) && EmailTaken(old(users), email.value) ==> r == Err(IntegrityError)
      ensures r.Ok? <==> !IsFalsy(email) && !EmailTaken(old(users), email.value)
      ensures r.Err? ==> unchanged(this)
      ensures r.Ok? ==>
                && r.value == old(nextPk) && r.value !in old(users)
                && users == Inserted(old(users), r.value, NewUser(email.value, password, extra, hasher), now)
                && users[r.value].fields.email == email.value
                && users[r.value].fields.password == hasher(password)
                && users[r.value].fields.extra == extra
                && nextPk == old(nextPk) + 1
      ensures organizations == old(organizations) && otps == old(otps)
      ensures invites == old(invites) && payments == old(payments)
    {
      if email.None? || email.value == "" {
        return Err(ValueError(NoEmailMessage));
      }
      // `self.normalize_email(email)` is called and its result dropped.
      var user := NewUser(email.value, password, extra, hasher);
      if EmailTaken(users, user.email) {
        return Err(IntegrityError);
      }
      var pk := nextPk;
      users := users[pk := Row(Meta(now, now, None), user)];
      nextPk := nextPk + 1;
      r := Ok(pk);
    }

    /** `create_superuser(email, password, **extra_fields)`: both flags are
        defaulted to True, each must then be exactly True (is_staff checked
        first), and the user is created with the completed fields. */
    method CreateSuperuser(email: Option<string>, password: string, extra: map<string, Value>,
                           hasher: string -> string, now: Time) returns (r: Result<Pk>)
      requires Valid()
      requires "email" !in extra && "password" !in extra
      modifies this
      ensures Valid()
      ensures SuperuserFields(extra).Err? ==> r == Err(SuperuserFields(extra).error) && unchanged(this)
      ensures SuperuserFields(extra).Ok? && IsFalsy(email) ==> r == Err(ValueError(NoEmailMessage))
      ensures SuperuserFields(extra).Ok? && !IsFalsy(email) && EmailTaken(old(users), email.value) ==>
                r == Err(IntegrityError)
      ensures r.Err? ==> unchanged(this)
      ensures r.Ok? <==>
                SuperuserFields(extra).Ok? && !IsFalsy(email) && !EmailTaken(old(users), email.value)
      ensures r.Ok? ==>
                && r.value == old(nextPk) && r.value !in old(users)
                && nextPk == old(nextPk) + 1
                && users == Inserted(old(users), r.value,
                                     NewUser(email.value, password, SuperuserFields(extra).value, hasher), now)
                && users[r.value].fields.extra[StaffKey] == True
                && users[r.value].fields.extra[SuperuserKey] == True
      ensures organizations == old(organizations) && otps == old(otps)
      ensures invites == old(invites) && payments == old(payments)
    {
      var fields := extra;
      fields := SetDefault(fields, StaffKey, True);
      fields := SetDefault(fields, SuperuserKey, True);
      if fields[StaffKey] != True {
        return Err(ValueError(StaffMessage));
      }
      if fields[SuperuserKey] != True {
        return Err(ValueError(SuperuserMessage));
      }
      assert fields == SuperuserFields(extra).value;
      r := CreateUser(email, password, fields, hasher, now);
    }

    /** `user.delete(hard_delete)`. A soft delete only saves the row. A hard
        delete is refused while any organization names the user as owner
        (PROTECT); otherwise the user's OTPs and payments go with it (CASCADE). */
    method DeleteUser(pk: Pk, hardDelete: bool, now: Time) returns (r: Outcome)
      requires Valid() && pk in users
      modifies this
      ensures Valid()
      ensures r.Fail? <==> hardDelete && OwnsOrganization(old(organizations), pk)
      ensures r.Fail? ==> r.error == ProtectedError && unchanged(this)
      ensures !hardDelete ==>
                && users == SoftDeleted(old(users), pk, now)
                && organizations == old(organizations) && otps == old(otps)
                && invites == old(invites) && payments == old(payments)
      ensures hardDelete && r.Pass? ==>
                && users == HardDeleted(old(users), pk)
                && otps == OtpsNotOf(old(otps), pk)
                && payments == PaymentsNotOfUser(old(payments), pk)
                && organizations == old(organizations) && invites == old(invites)
      ensures nextPk == old(nextPk)
    {
      if hardDelete {
        if OwnsOrganization(organizations, pk) {
          return Fail(ProtectedError);
        }
        otps := OtpsNotOf(otps, pk);
        payments := PaymentsNotOfUser(payments, pk);
        users := HardDeleted(users, pk);
      } else {
        users := SoftDeleted(users, pk, now);
      }
      r := Pass;
    }

    /** `organization.delete(hard_delete)`. A hard delete takes the
        organization's invites and payments with it (CASCADE). */
    method DeleteOrganization(pk: Pk, hardDelete: bool, now: Time)
      requires Valid() && pk in organizations
      modifies this
      ensures Valid()
      ensures !hardDelete ==>
                && organizations == SoftDeleted(old(organizations), pk, now)
                && invites == old(invites) && payments == old(payments)
      ensures hardDelete ==>
                && organizations == HardDeleted(old(organizations), pk)
                && invites == InvitesNotOf(old(invites), pk)
                && payments == PaymentsNotOfOrganization(old(payments), pk)
      ensures users == old(users) && otps == old(otps) && nextPk == old(nextPk)
    {
      if hardDelete {
        invites := InvitesNotOf(invites, pk);
        payments := PaymentsNotOfOrganization(payments, pk);
        organizations := HardDeleted(organizations, pk);
      } else {
        organizations := SoftDeleted(organizations, pk, now);
      }
    }

    /** `otp.delete(hard_delete)`: nothing refers to an OTP. */
    method DeleteOtp(pk: Pk, hardDelete: bool, now: Time)
      requires Valid() && pk in otps
      modifies this
      ensures Valid()
      ensures otps == (if hardDelete then HardDeleted(old(otps), pk) else SoftDeleted(old(otps), pk, now))
      ensures users == old(users) && organizations == old(organizations)
      ensures invites == old(invites) && payments == old(payments) && nextPk == old(nextPk)
    {
      if hardDelete {
        otps := HardDeleted(otps, pk);
      } else {
        otps := SoftDeleted(otps, pk, now);
      }
    }

    /** `invite.delete(hard_delete)`: nothing refers to an invite. */
    method DeleteInvite(pk: Pk, hardDelete: bool, now: Time)
      requires Valid() && pk in invites
      modifies this
      ensures Valid()
      ensures invites == (if hardDelete then HardDeleted(old(invites), pk) else SoftDeleted(old(invites), pk, now))
      ensures users == old(users) && organizations == old(organizations)
      ensures otps == old(otps) && payments == old(payments) && nextPk == old(nextPk)
    {
      if hardDelete {
        invites := HardDeleted(invites, pk);
      } else {
        invites := SoftDeleted(invites, pk, now);
      }
    }

    /** `payment.delete(hard_delete)`: nothing refers to a payment. */
    method DeletePayment(pk: Pk, hardDelete: bool, now: Time)
      requires Valid() && pk in payments
      modifies this
      ensures Valid()
      ensures payments == (if hardDelete then HardDeleted(old(payments), pk) else SoftDeleted(old(payments), pk, now))
      ensures users == old(users) && organizations == old(organizations)
      ensures otps == old(otps) && invites == old(invites) && nextPk == old(nextPk)
    {
      if hardDelete {
        payments := HardDeleted(payments, pk);
      } else {
        payments := SoftDeleted(payments, pk, now);
      }
    }

    /** `Otp.generate(user, ttl)`: the user's live OTPs are bulk-deleted, a
        new row with the random `token` and expiration now + ttl minutes is
        saved, and the token is returned. */
    method GenerateOtp(user: Pk, token: string, now: Time, ttl: int := 10) returns (t: string)
      requires Valid() && user in users && IsOtpToken(token)
      modifies this
      ensures Valid()
      ensures t == token && IsOtpToken(t)
      ensures otps == Generated(old(otps), user, token, now, ttl, old(nextPk))
      ensures LiveOtpsOf(otps, user) == {old(nextPk)}
      ensures otps[old(nextPk)].fields == Otp(user, t, ExpirationFor(now, ttl))
      ensures nextPk == old(nextPk) + 1
      ensures users == old(users) && organizations == old(organizations)
      ensures invites == old(invites) && payments == old(payments)
    {
      otps := WithoutLiveOtpsOf(otps, user);
      t := token;
      var expirationDate := ExpirationFor(now, ttl);
      var pk := nextPk;
      otps := otps[pk := Row(Meta(now, now, None), Otp(user, t, expirationDate))];
      nextPk := nextPk + 1;
    }
  }
}
