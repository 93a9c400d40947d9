/** Shared vocabulary of the account models: primary keys, instants, the
    errors the managers and validators raise, and the Option / Result
    wrappers used in place of Python's None and exceptions. */
module Common {

  /** Primary key of a row (Django's auto-increment `id`). */
  type Pk = nat

  /** An instant as returned by `timezone.now()`, in whole seconds. */
  type Time = int

  const SecondsPerMinute: int := 60

  /** The exceptions the modelled code raises (or lets the framework raise). */
  datatype Error =
    | ValidationError               // django.core.exceptions.ValidationError
    | ValueError(message: string)   // raised by the user manager
    | IntegrityError                // unique constraint on CustomUser.email
    | ProtectedError                // on_delete=PROTECT refuses a deletion
    | FieldError(keyword: string)   // a queryset filter names an unknown field

  datatype Option<T> = None | Some(value: T)

  /** A call that either returns a value or raises. */
  datatype Result<T> = Ok(value: T) | Err(error: Error)

  /** A call that either returns normally (with nothing) or raises. */
  datatype Outcome = Pass | Fail(error: Error)
}
