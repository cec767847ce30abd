/**
  The admin login form (src/components/AdminLogin.tsx): the `credentials` and `isLoading`
  state, the two field handlers, `handleSubmit` and the deferred credential check it
  schedules with `setTimeout`, which reports its outcome through `onLogin`.
 */
module AdminLoginForm {
  import Services

  datatype Credentials = Credentials(username: string, password: string)

  /** The toast each check shows: "ACCESS GRANTED" or "ACCESS DENIED". */
  datatype LoginToast = AccessGranted | AccessDenied

  /** The hardcoded comparison of the deferred check. */
  predicate IsAdmin(c: Credentials)
  {
    c.username == Services.AdminUsername && c.password == Services.AdminPassword
  }

  /** The form's own check and the service's `authenticate` accept the same pairs. */
  lemma IsAdminAgreesWithService(c: Credentials)
    ensures IsAdmin(c) <==> Services.Authenticate(c.username, c.password).success
  {
  }

  class AdminLogin {
    var credentials: Credentials
    var isLoading: bool
    /**
      The checks scheduled and not yet run, oldest first. Each one holds the credentials
      of the render in which the form was submitted: the callback closes over them, so
      edits made while it waits do not reach it.
     */
    var pending: seq<Credentials>

    ghost predicate Valid()
      reads this
    {
      isLoading ==> pending != []
    }

    constructor ()
      ensures Valid()
      ensures credentials == Credentials("", "") && !isLoading && pending == []
    {
      credentials := Credentials("", "");
      isLoading := false;
      pending := [];
    }

    method SetUsername(value: string)
      requires Valid()
      modifies this
      ensures Valid()
      ensures credentials == old(credentials).(username := value)
      ensures isLoading == old(isLoading) && pending == old(pending)
    {
      credentials := credentials.(username := value);
    }

    method SetPassword(value: string)
      requires Valid()
      modifies this
      ensures Valid()
      ensures credentials == old(credentials).(password := value)
      ensures isLoading == old(isLoading) && pending == old(pending)
    {
      credentials := credentials.(password := value);
    }

    /** `handleSubmit`: starts loading and schedules one check of the current credentials. */
    method HandleSubmit()
      requires Valid()
      modifies this
      ensures Valid()
      ensures isLoading
      ensures pending == old(pending) + [old(credentials)]
      ensures credentials == old(credentials)
    {
      isLoading := true;
      pending := pending + [credentials];
    }

    /**
      The deferred check: takes the oldest scheduled credentials, returns the one value it
      passes to `onLogin` together with its toast, and stops loading on either branch.
     */
    method Complete() returns (granted: bool, toast: LoginToast)
      requires Valid() && pending != []
      modifies this
      ensures Valid()
      ensures granted <==> IsAdmin(old(pending)[0])
      ensures toast == (if granted then AccessGranted else AccessDenied)
      ensures !isLoading
      ensures pending == old(pending)[1..]
      ensures credentials == old(credentials)
    {
      var captured := pending[0];
      pending := pending[1..];
      if IsAdmin(captured) {
        toast := AccessGranted;
        granted := true;
      } else {
        toast := AccessDenied;
        granted := false;
      }
      isLoading := false;
    }
  }

  /**
    One submission yields exactly one `onLogin` call, whose value is decided by the
    credentials at submit time, whatever the user types while the check waits.
   */
  method SubmitEditComplete(form: AdminLogin, typed: string) returns (granted: bool)
    requires form.Valid() && form.pending == []
    modifies form
    ensures form.Valid() && !form.isLoading && form.pending == []
    ensures granted <==> IsAdmin(old(form.credentials))
  {
    form.HandleSubmit();
    form.SetPassword(typed);
    var toast;
    granted, toast := form.Complete();
  }
}
