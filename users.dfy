/** The user table with the two write paths of the core: registration (with its
    duplicate checks) and the partial profile update, plus the password-free
    view of a user that both profile handlers return. */
module Users {
  import opened Common
  import opened Entities

  type UserTable = map<UserId, User>

  /** The fields of a sign-up request that registration reads. */
  datatype SignupRequest = SignupRequest(
    email: string,
    password: string,
    firstName: string,
    lastName: string,
    phoneNumber: Option<string>,
    dateOfBirth: Option<string>,
    address: Option<string>,
    panNumber: Option<string>,
    aadharNumber: Option<string>)

  /** The fields of a profile-update body that the update reads; any other field
      the body carries is ignored. */
  datatype ProfileUpdate = ProfileUpdate(
    firstName: Option<string>,
    lastName: Option<string>,
    phoneNumber: Option<string>,
    address: Option<string>)

  predicate EmailInUse(users: UserTable, email: string)
  {
    exists id :: id in users && users[id].email == email
  }

  predicate PanInUse(users: UserTable, pan: string)
  {
    exists id :: id in users && users[id].panNumber == Some(pan)
  }

  predicate AadharInUse(users: UserTable, aadhar: string)
  {
    exists id :: id in users && users[id].aadharNumber == Some(aadhar)
  }

  /** No two users share an email, a (non-null) PAN or a (non-null) Aadhar number. */
  ghost predicate UniqueIdentities(users: UserTable)
  {
    && (forall a, b :: a in users && b in users && users[a].email == users[b].email ==> a == b)
    && (forall a, b ::
          a in users && b in users && users[a].panNumber.Some? && users[a].panNumber == users[b].panNumber
          ==> a == b)
    && (forall a, b ::
          a in users && b in users && users[a].aadharNumber.Some? && users[a].aadharNumber == users[b].aadharNumber
          ==> a == b)
  }

  /** The error `registerUser` throws, if any: email first, then a non-null PAN,
      then a non-null Aadhar number. */
  function RegistrationConflict(users: UserTable, req: SignupRequest): (e: Option<Error>)
    ensures e == Some(EmailTaken) <==> EmailInUse(users, req.email)
    ensures e == Some(PanTaken) <==>
      !EmailInUse(users, req.email) && req.panNumber.Some? && PanInUse(users, req.panNumber.value)
    ensures e == Some(AadharTaken) <==>
      && !EmailInUse(users, req.email)
      && !(req.panNumber.Some? && PanInUse(users, req.panNumber.value))
      && req.aadharNumber.Some? && AadharInUse(users, req.aadharNumber.value)
    ensures e.None? || e == Some(EmailTaken) || e == Some(PanTaken) || e == Some(AadharTaken)
  {
    if EmailInUse(users, req.email) then Some(EmailTaken)
    else if req.panNumber.Some? && PanInUse(users, req.panNumber.value) then Some(PanTaken)
    else if req.aadharNumber.Some? && AadharInUse(users, req.aadharNumber.value) then Some(AadharTaken)
    else None
  }

  /** A request without PAN and Aadhar numbers can only clash on its email. */
  lemma NullIdentitiesNeverConflict(users: UserTable, req: SignupRequest)
    requires req.panNumber.None? && req.aadharNumber.None?
    ensures RegistrationConflict(users, req).None? <==> !EmailInUse(users, req.email)
  {
  }

  /** The user `registerUser` saves: fields copied from the request, the encoded
      password, role CUSTOMER and active. */
  function NewUser(req: SignupRequest, id: UserId, encodedPassword: string): (u: User)
    ensures u.id == id && u.email == req.email && u.password == Some(encodedPassword)
    ensures u.firstName == req.firstName && u.lastName == req.lastName
    ensures u.phoneNumber == req.phoneNumber && u.dateOfBirth == req.dateOfBirth && u.address == req.address
    ensures u.panNumber == req.panNumber && u.aadharNumber == req.aadharNumber
    ensures u.role == CUSTOMER && u.isActive
  {
    User(id, req.email, Some(encodedPassword), req.firstName, req.lastName, req.phoneNumber,
         req.dateOfBirth, req.address, req.panNumber, req.aadharNumber, CUSTOMER, true)
  }

  /** A registration that passes the checks keeps emails, PANs and Aadhar numbers unique. */
  lemma RegistrationKeepsIdentitiesUnique(users: UserTable, req: SignupRequest, id: UserId, encodedPassword: string)
    requires UniqueIdentities(users)
    requires id !in users
    requires RegistrationConflict(users, req).None?
    ensures UniqueIdentities(users[id := NewUser(req, id, encodedPassword)])
  {
  }

  /** The field merge of `updateUserProfile`: first name, last name, phone number
      and address are overwritten by the non-null values of the update. */
  function MergeProfile(u: User, upd: ProfileUpdate): (r: User)
    ensures r.firstName == if upd.firstName.Some? then upd.firstName.value else u.firstName
    ensures r.lastName == if upd.lastName.Some? then upd.lastName.value else u.lastName
    ensures r.phoneNumber == if upd.phoneNumber.Some? then upd.phoneNumber else u.phoneNumber
    ensures r.address == if upd.address.Some? then upd.address else u.address
    ensures r.(firstName := u.firstName, lastName := u.lastName, phoneNumber := u.phoneNumber,
               address := u.address) == u
  {
    var r := u;
    var r := if upd.firstName.Some? then r.(firstName := upd.firstName.value) else r;
    var r := if upd.lastName.Some? then r.(lastName := upd.lastName.value) else r;
    var r := if upd.phoneNumber.Some? then r.(phoneNumber := upd.phoneNumber) else r;
    var r := if upd.address.Some? then r.(address := upd.address) else r;
    r
  }

  /** Applying the same update twice gives the same user as applying it once. */
  lemma MergeIdempotent(u: User, upd: ProfileUpdate)
    ensures MergeProfile(MergeProfile(u, upd), upd) == MergeProfile(u, upd)
  {
  }

  /** An update with every field null leaves the user as it was. */
  lemma EmptyMergeIsIdentity(u: User)
    ensures MergeProfile(u, ProfileUpdate(None, None, None, None)) == u
  {
  }

  /** A profile update never touches the identity fields registration checks. */
  lemma MergeKeepsIdentitiesUnique(users: UserTable, id: UserId, upd: ProfileUpdate)
    requires UniqueIdentities(users) && id in users
    ensures UniqueIdentities(users[id := MergeProfile(users[id], upd)])
  {
    var after := users[id := MergeProfile(users[id], upd)];
    assert forall k :: k in after ==>
      after[k].email == users[k].email && after[k].panNumber == users[k].panNumber &&
      after[k].aadharNumber == users[k].aadharNumber;
  }

  /** The user as the profile handlers return it: the password nulled out. */
  function Redacted(u: User): (r: User)
    ensures r.password.None?
    ensures r.(password := u.password) == u
  {
    u.(password := None)
  }

  /** The user table. Ids are handed out in increasing order, as an identity column does. */
  class UserDirectory {
    var users: UserTable
    var nextId: UserId

    ghost predicate Valid()
      reads this
    {
      && (forall id :: id in users ==> users[id].id == id && id < nextId)
      && UniqueIdentities(users)
    }

    constructor ()
      ensures Valid() && users == map[] && nextId == 1
    {
      users := map[];
      nextId := 1;
    }

    /** `registerUser`: the duplicate checks in order, then one new user saved. */
    method RegisterUser(req: SignupRequest, encode: string -> string) returns (r: Result<User>)
      requires Valid()
      modifies this
      ensures Valid()
      ensures r.Failure? <==> RegistrationConflict(old(users), req).Some?
      ensures r.Failure? ==> Some(r.error) == RegistrationConflict(old(users), req)
      ensures r.Failure? ==> users == old(users) && nextId == old(nextId)
      ensures r.Success? ==> old(nextId) !in old(users)
      ensures r.Success? ==> r.value == NewUser(req, old(nextId), encode(req.password))
      ensures r.Success? ==> users == old(users)[old(nextId) := r.value] && nextId == old(nextId) + 1
    {
      if EmailInUse(users, req.email) {
        return Failure(EmailTaken);
      }
      if req.panNumber.Some? && PanInUse(users, req.panNumber.value) {
        return Failure(PanTaken);
      }
      if req.aadharNumber.Some? && AadharInUse(users, req.aadharNumber.value) {
        return Failure(AadharTaken);
      }
      var user := User(nextId, req.email, Some(encode(req.password)), req.firstName, req.lastName,
                       req.phoneNumber, req.dateOfBirth, req.address, req.panNumber, req.aadharNumber,
                       CUSTOMER, true);
      RegistrationKeepsIdentitiesUnique(users, req, nextId, encode(req.password));
      users := users[nextId := user];
      nextId := nextId + 1;
      r := Success(user);
    }

    /** `getUserProfile`: the stored user without its password. */
    function UserProfile(id: UserId): (r: Result<User>)
      reads this
      ensures r.Failure? <==> id !in users
      ensures r.Failure? ==> r.error == UserNotFound
      ensures r.Success? ==> r.value == Redacted(users[id])
    {
      if id !in users then Failure(UserNotFound) else Success(Redacted(users[id]))
    }

    /** `updateUserProfile`: merge the update into the stored user, save it, and
        return it without its password. */
    method UpdateUserProfile(id: UserId, upd: ProfileUpdate) returns (r: Result<User>)
      requires Valid()
      modifies this
      ensures Valid()
      ensures r.Failure? <==> id !in old(users)
      ensures r.Failure? ==> r.error == UserNotFound && users == old(users) && nextId == old(nextId)
      ensures r.Success? ==> users == old(users)[id := MergeProfile(old(users)[id], upd)]
      ensures r.Success? ==> nextId == old(nextId) && r.value == Redacted(users[id])
    {
      if id !in users {
        return Failure(UserNotFound);
      }
      var user := users[id];
      if upd.firstName.Some? {
        user := user.(firstName := upd.firstName.value);
      }
      if upd.lastName.Some? {
        user := user.(lastName := upd.lastName.value);
      }
      if upd.phoneNumber.Some? {
        user := user.(phoneNumber := upd.phoneNumber);
      }
      if upd.address.Some? {
        user := user.(address := upd.address);
      }
      MergeKeepsIdentitiesUnique(users, id, upd);
      users := users[id := user];
      r := Success(user.(password := None));
    }
  }
}
