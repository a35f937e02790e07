/** The keys the application keeps in `request.session`. */
module Sessions {
  import opened Common

  /** The session as a value. A missing `is_staff` or `is_superuser` key is read
      as false: the code only ever tests their truth. */
  datatype SessionData = SessionData(
    userId: Option<Id>, username: Option<string>, isStaff: bool, isSuperuser: bool)
  {
    /** `request.session.get('user_id')` is truthy. */
    predicate LoggedIn() {
      userId.Some? && userId.value != 0
    }
  }

  /** A session with no keys set, as `session.flush()` leaves it. */
  const Anonymous: SessionData := SessionData(None, None, false, false)

  /** The session object that views read and write in place. */
  class Session {
    var userId: Option<Id>
    var username: Option<string>
    var isStaff: bool
    var isSuperuser: bool

    /** The session's keys as one value. */
    function Data(): SessionData
      reads this
    {
      SessionData(userId, username, isStaff, isSuperuser)
    }

    constructor (d: SessionData)
      ensures Data() == d
    {
      userId, username, isStaff, isSuperuser := d.userId, d.username, d.isStaff, d.isSuperuser;
    }

    /** `session.flush()`: every key is removed. */
    method Flush()
      modifies this
      ensures Data() == Anonymous
    {
      userId, username, isStaff, isSuperuser := None, None, false, false;
    }

    /** Replaces every key by those of `d`. */
    method Store(d: SessionData)
      modifies this
      ensures Data() == d
    {
      userId, username, isStaff, isSuperuser := d.userId, d.username, d.isStaff, d.isSuperuser;
    }
  }
}
