/** The profile endpoints (src/controllers/user.profile.Controllers.ts): read
    the caller's user row, and change its name and image. */
module ProfileController {
  import opened Common
  import opened Schema
  import opened Store

  /** getUserProfile: the caller's row, or 404. */
  function GetUserProfile(us: seq<User>, user: Option<UserId>): (r: Response<User>)
    ensures r.status == 401 <==> user.None?
    ensures r.status == 404 <==> user.Some? && !(exists u :: u in us && u.id == user.value)
    ensures r.status == 200 <==> user.Some? && exists u :: u in us && u.id == user.value
    ensures r.status == 200 ==> r.data.Some? && r.data.value in us && r.data.value.id == user.value
    ensures r.status != 200 ==> r.data.None?
  {
    if user.None? then Response(401, None)
    else
      match First(us, (u: User) => u.id == user.value)
      case None => Response(404, None)
      case Some(u) => Response(200, Some(u))
  }

  /** The body of updateUserProfile: None when the key is absent or null. */
  datatype ProfileBody = ProfileBody(name: Option<string>, image: Option<string>)

  /** The updatedFields object applied to one row: a truthy name or image
      replaces the column, updatedAt is always set. */
  function Profiled(u: User, body: ProfileBody, now: Time): User {
    u.(name := if Truthy(body.name) then body.name.value else u.name,
       image := if Truthy(body.image) then body.image else u.image,
       updatedAt := now)
  }

  /** UPDATE "user" SET ... WHERE id = uid */
  function ProfileRows(us: seq<User>, uid: UserId, body: ProfileBody, now: Time): seq<User> {
    Update(us, (u: User) => u.id == uid, (u: User) => Profiled(u, body, now))
  }

  // ----------------------------------------------------------------------
  // Properties

  /** A profile update sets exactly the truthy fields and updatedAt; the id,
      the email, its verification and the creation time are kept. */
  lemma ProfiledSetsTruthyFields(u: User, body: ProfileBody, now: Time)
    ensures var r := Profiled(u, body, now);
      && r.id == u.id && r.email == u.email && r.emailVerified == u.emailVerified
      && r.createdAt == u.createdAt && r.updatedAt == now
      && (Truthy(body.name) ==> r.name == body.name.value)
      && (!Truthy(body.name) ==> r.name == u.name)
      && (Truthy(body.image) ==> r.image == body.image)
      && (!Truthy(body.image) ==> r.image == u.image)
  {
  }

  /** Sending the same update twice leaves the row as once. */
  lemma ProfiledIdempotent(u: User, body: ProfileBody, now: Time)
    ensures Profiled(Profiled(u, body, now), body, now) == Profiled(u, body, now)
  {
  }

  /** The update touches only the caller's row. */
  lemma ProfileRowsShape(us: seq<User>, uid: UserId, body: ProfileBody, now: Time)
    ensures |ProfileRows(us, uid, body, now)| == |us|
    ensures forall i :: 0 <= i < |us| && us[i].id != uid ==> ProfileRows(us, uid, body, now)[i] == us[i]
    ensures forall i :: 0 <= i < |us| && us[i].id == uid ==> ProfileRows(us, uid, body, now)[i] == Profiled(us[i], body, now)
  {
  }

  /** Emails are not touched, so they stay unique. */
  lemma ProfileKeepsEmailsUnique(us: seq<User>, uid: UserId, body: ProfileBody, now: Time)
    requires EmailsUnique(us)
    ensures EmailsUnique(ProfileRows(us, uid, body, now))
  {
    ProfileRowsShape(us, uid, body, now);
  }

  // ----------------------------------------------------------------------
  // Endpoints

  /** The update answers 200 whether or not a row matched. */
  method UpdateUserProfile(db: Db, user: Option<UserId>, body: ProfileBody, now: Time) returns (status: int)
    requires db.Valid()
    modifies db`users
    ensures db.Valid()
    ensures user.None? ==> status == 401 && db.users == old(db.users)
    ensures user.Some? && !Truthy(body.name) && !Truthy(body.image) ==> status == 400 && db.users == old(db.users)
    ensures user.Some? && (Truthy(body.name) || Truthy(body.image)) ==>
      status == 200 && db.users == ProfileRows(old(db.users), user.value, body, now)
  {
    if user.None? {
      return 401;
    }
    if !Truthy(body.name) && !Truthy(body.image) {
      return 400;
    }
    ProfileKeepsEmailsUnique(db.users, user.value, body, now);
    db.users := ProfileRows(db.users, user.value, body, now);
    return 200;
  }
}
