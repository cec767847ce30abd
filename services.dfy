/**
  The gateway to the hosted backend (src/utils/supabase.ts), reduced to what it computes
  itself: the row that `termsAcceptanceService.create` hands to the insert, and the
  fixed-pair check of `adminService.authenticate`. The insert, the queries and the
  client set-up run in the backend and are not part of this model.
 */
module Services {
  import opened Wrappers
  import opened Text

  /** The `Insert` shape of the `terms_acceptances` table (src/types/database.ts), with the
      columns `create` fills; `id`, `created_at` and `updated_at` are left to the store. */
  datatype TermsAcceptanceInsert = TermsAcceptanceInsert(
    name: string,
    email: string,
    mobile: string,
    accepted_at: string)

  /** What the form passes to `create`. */
  datatype NewAcceptance = NewAcceptance(name: string, email: string, mobile: string)

  /** The demo administrator pair that both the service and the login form compare against. */
  const AdminUsername: string := "admin"
  const AdminPassword: string := "admin123"

  /** A row whose name has no lower-case letter and whose email has no upper-case letter. */
  predicate IsNormalised(row: TermsAcceptanceInsert)
  {
    (forall i :: 0 <= i < |row.name| ==> !IsAsciiLower(row.name[i])) &&
    (forall i :: 0 <= i < |row.email| ==> !IsAsciiUpper(row.email[i]))
  }

  /**
    The row `create` inserts. `now` stands for `new Date().toISOString()`, read at the
    moment of the call. The name and the email keep their letters, case aside, and the
    mobile number is stored exactly as given.
   */
  function NewRow(data: NewAcceptance, now: string): (row: TermsAcceptanceInsert)
    ensures IsNormalised(row)
    ensures |row.name| == |data.name| && Lower(row.name) == Lower(data.name)
    ensures |row.email| == |data.email| && Lower(row.email) == Lower(data.email)
    ensures row.mobile == data.mobile
    ensures row.accepted_at == now
  {
    LowerOfUpper(data.name);
    LowerIdempotent(data.email);
    TermsAcceptanceInsert(Upper(data.name), Lower(data.email), data.mobile, now)
  }

  /** The normalisation is determined by its contract: any normalised row that agrees
      with the input case-insensitively is the one `create` builds. */
  lemma NewRowUnique(data: NewAcceptance, now: string, row: TermsAcceptanceInsert)
    requires IsNormalised(row) && row.mobile == data.mobile && row.accepted_at == now
    requires |row.name| == |data.name| && Lower(row.name) == Lower(data.name)
    requires |row.email| == |data.email| && Lower(row.email) == Lower(data.email)
    ensures row == NewRow(data, now)
  {
    UpperUnique(data.name, row.name);
    LowerUnique(data.email, row.email);
  }

  /** Creating from an already stored row's fields builds that same row again. */
  lemma NewRowIdempotent(data: NewAcceptance, now: string)
    ensures var row := NewRow(data, now);
            NewRow(NewAcceptance(row.name, row.email, row.mobile), now) == row
  {
    UpperIdempotent(data.name);
    LowerIdempotent(data.email);
  }

  datatype AdminUser = AdminUser(username: string)

  datatype AuthResult = AuthResult(success: bool, user: Option<AdminUser>)

  /** `adminService.authenticate`: always resolves, never throws, and does not say which
      of the two fields was wrong. */
  function Authenticate(username: string, password: string): (r: AuthResult)
    ensures r.success <==> username == AdminUsername && password == AdminPassword
    ensures r.success ==> r.user == Some(AdminUser(AdminUsername))
    ensures !r.success ==> r.user == None
  {
    if username == AdminUsername && password == AdminPassword then
      AuthResult(true, Some(AdminUser(AdminUsername)))
    else
      AuthResult(false, None)
  }
}
