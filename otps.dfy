/** The one-time-password table: `Otp.generate` as a transition of the
    table, and `Otp.validate` both as written (its filter names a field the
    model does not have) and as evidently intended. The random token and
    the clock are parameters. */
module Otps {
  import opened Common
  import opened SoftDelete

  /** An `Otp` row: its user, the 8-digit token (stored encrypted, which is
      transparent to callers) and the expiration instant. */
  datatype Otp = Otp(user: Pk, token: string, expirationDate: Time)

  const TokenLength: nat := 8

  /** What `get_random_string(length=8, allowed_chars="0123456789")` returns. */
  predicate IsOtpToken(t: string) {
    |t| == TokenLength && forall i :: 0 <= i < |t| ==> '0' <= t[i] <= '9'
  }

  /** The field names an `Otp` filter may use. */
  const OtpFieldNames: set<string> :=
    {"id", "uuid", "date_created", "date_modified", "deleted_at", "user", "token", "expiration_date"}

  /** The keyword `validate` filters on, and the one it evidently meant. */
  const WrittenExpiryField := "expire_date"
  const ExpiryField := "expiration_date"

  predicate IsLiveOtpOf(otps: Table<Otp>, pk: Pk, user: Pk)
    requires pk in otps
  {
    IsLive(otps[pk]) && otps[pk].fields.user == user
  }

  /** The user's rows that `Otp.objects.filter(user=user)` selects. */
  function LiveOtpsOf(otps: Table<Otp>, user: Pk): (r: set<Pk>)
    ensures forall pk :: pk in r <==> pk in otps && IsLiveOtpOf(otps, pk, user)
  {
    set pk | pk in otps && IsLiveOtpOf(otps, pk, user)
  }

  /** `Otp.objects.filter(user=user).delete()`: a bulk queryset delete, which
      removes the rows rather than soft-deleting them. */
  function WithoutLiveOtpsOf(otps: Table<Otp>, user: Pk): (r: Table<Otp>)
    ensures r.Keys == otps.Keys - LiveOtpsOf(otps, user)
    ensures forall pk :: pk in r ==> r[pk] == otps[pk]
  {
    map pk | pk in otps && !IsLiveOtpOf(otps, pk, user) :: otps[pk]
  }

  /** The expiration `generate` stores: now + ttl minutes. It lies in the
      future exactly when the ttl is positive. */
  function ExpirationFor(now: Time, ttl: int): (r: Time)
    ensures r > now <==> ttl > 0
    ensures r == now <==> ttl == 0
  {
    now + ttl * SecondsPerMinute
  }

  /** The table after `Otp.generate(user, ttl)` with clock value `now`, random
      token `token`, and `pk` the key the new row is saved under. */
  function Generated(otps: Table<Otp>, user: Pk, token: string, now: Time, ttl: int, pk: Pk): (r: Table<Otp>)
    requires pk !in otps
    ensures LiveOtpsOf(r, user) == {pk}
    ensures r[pk] == Row(Meta(now, now, None), Otp(user, token, ExpirationFor(now, ttl)))
    ensures forall k :: k in otps && !IsLiveOtpOf(otps, k, user) ==> k in r && r[k] == otps[k]
    ensures r.Keys == otps.Keys - LiveOtpsOf(otps, user) + {pk}
  {
    var cleared := WithoutLiveOtpsOf(otps, user);
    var r := Inserted(cleared, pk, Otp(user, token, ExpirationFor(now, ttl)), now);
    assert forall k :: k in r && k != pk ==> k in cleared && !IsLiveOtpOf(otps, k, user);
    r
  }

  /** `validate` as evidently intended: a live row of `user` holds `token`
      and expires strictly after `now`. The query goes through `objects`, so
      a soft-deleted row never validates. */
  predicate Validate(otps: Table<Otp>, user: Pk, token: string, now: Time)
    ensures Validate(otps, user, token, now) <==>
              exists pk :: pk in Objects(otps) &&
                           var otp := Objects(otps)[pk].fields;
                           otp.user == user && otp.token == token && otp.expirationDate > now
    ensures Validate(otps, user, token, now) ==> LiveOtpsOf(otps, user) != {}
  {
    exists pk :: pk in otps && IsLiveOtpOf(otps, pk, user) &&
                 otps[pk].fields.token == token && otps[pk].fields.expirationDate > now
  }

  /** `validate` as written: the queryset filter resolves `expire_date__gt`
      against the model's fields before any row is read. */
  function ValidateAsWritten(otps: Table<Otp>, user: Pk, token: string, now: Time): (r: Result<bool>)
    ensures r == Err(FieldError(WrittenExpiryField))
  {
    if WrittenExpiryField in OtpFieldNames then Ok(Validate(otps, user, token, now))
    else Err(FieldError(WrittenExpiryField))
  }

  /** The discrepancy: `expire_date` is not a field of `Otp` while
      `expiration_date` is, so as written `validate` raises FieldError whatever
      the table holds, even right after `generate` handed out the token, where
      the intended query answers true. */
  lemma ValidateAsWrittenFails(otps: Table<Otp>, user: Pk, token: string, now: Time, ttl: int, pk: Pk)
    requires pk !in otps && ttl > 0
    ensures ValidateAsWritten(Generated(otps, user, token, now, ttl, pk), user, token, now)
            == Err(FieldError("expire_date"))
    ensures ExpiryField in OtpFieldNames && WrittenExpiryField !in OtpFieldNames
    ensures Validate(Generated(otps, user, token, now, ttl, pk), user, token, now)
  {
  }

  /** Right after `generate`, the intended `validate` accepts exactly the
      returned token, and only while the clock is before the expiration. */
  lemma ValidateAfterGenerate(otps: Table<Otp>, user: Pk, token: string, now: Time, ttl: int, pk: Pk,
                              t: string, later: Time)
    requires pk !in otps
    ensures Validate(Generated(otps, user, token, now, ttl, pk), user, t, later) <==>
              t == token && later < ExpirationFor(now, ttl)
  {
  }

  /** After a second `generate`, the first token validates only if the two
      random tokens happen to be equal. */
  lemma SecondGenerateSupersedesFirst(otps: Table<Otp>, user: Pk,
                                      token1: string, now1: Time, ttl1: int, pk1: Pk,
                                      token2: string, now2: Time, ttl2: int, pk2: Pk,
                                      later: Time)
    requires pk1 !in otps && pk2 != pk1 && pk2 !in otps
    ensures var once := Generated(otps, user, token1, now1, ttl1, pk1);
            Validate(Generated(once, user, token2, now2, ttl2, pk2), user, token1, later) <==>
              token1 == token2 && later < ExpirationFor(now2, ttl2)
  {
  }

  /** `generate` for one user leaves every other user's tokens answering as
      before. */
  lemma GenerateKeepsOtherUsers(otps: Table<Otp>, user: Pk, token: string, now: Time, ttl: int, pk: Pk,
                                other: Pk, t: string, later: Time)
    requires pk !in otps && other != user
    ensures Validate(Generated(otps, user, token, now, ttl, pk), other, t, later) <==>
              Validate(otps, other, t, later)
  {
  }
}
