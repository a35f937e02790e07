/** The access decorators of the user app: each decides, from the session alone,
    whether the wrapped view runs or the caller is redirected. */
module Decorators {
  import opened Common
  import opened Sessions

  /** What a decorator decides: run the view, or answer with a redirect. */
  datatype Gate = Admit | Deny(reply: Reply)

  /** `cliente_required`: any logged-in user, client or staff, may pass. */
  function ClientRequired(ses: SessionData): (g: Gate)
    ensures g == Admit <==> ses.LoggedIn()
    ensures g != Admit ==> g == Deny(ToLogin)
  {
    if !ses.LoggedIn() then Deny(ToLogin) else Admit
  }

  /** `staff_required`: only a logged-in staff user may pass; the login test comes
      first, so an anonymous caller goes to the login page whatever `is_staff` says. */
  function StaffRequired(ses: SessionData): (g: Gate)
    ensures g == Admit <==> ses.LoggedIn() && ses.isStaff
    ensures !ses.LoggedIn() ==> g == Deny(ToLogin)
    ensures ses.LoggedIn() && !ses.isStaff ==> g == Deny(ToClientDashboard)
  {
    if !ses.LoggedIn() then Deny(ToLogin)
    else if !ses.isStaff then Deny(ToClientDashboard)
    else Admit
  }

  /** `admin_required`: documented as admitting administrators only, it tests
      `is_staff` exactly as `staff_required` does and never reads `is_superuser`. */
  function AdminRequired(ses: SessionData): (g: Gate)
    ensures g == Admit ==> ses.LoggedIn()
    ensures !ses.LoggedIn() ==> g == Deny(ToLogin)
  {
    if !ses.LoggedIn() then Deny(ToLogin)
    else if !ses.isStaff then Deny(ToClientDashboard)
    else Admit
  }

  /** `admin_required` decides exactly as `staff_required` for every session: a
      staff user who is not a superuser passes it. */
  lemma AdminRequiredIsStaffRequired(ses: SessionData)
    ensures AdminRequired(ses) == StaffRequired(ses)
    ensures ses.LoggedIn() && ses.isStaff && !ses.isSuperuser ==> AdminRequired(ses) == Admit
  {
  }

  /** Whatever passes the staff gate passes the client gate. */
  lemma StaffGateIsNarrower(ses: SessionData)
    ensures StaffRequired(ses) == Admit ==> ClientRequired(ses) == Admit
  {
  }
}
