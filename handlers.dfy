/**
 * The HTTP handlers for register, list and get-by-email, reduced to the map
 * from the outcome of their store call to the response they send. The store
 * call's outcome is a parameter; the lemmas at the end feed in the outcomes
 * the user store model produces.
 */
module Handlers {
  import opened Wrappers
  import opened UserSchema
  import opened UserStore

  /** The parts of an error thrown by a store call that the handlers look at. */
  datatype StoreError = StoreError(code: Option<int>, name: string, message: string)

  /** The driver's error code for a unique-index violation. */
  const DuplicateKeyCode: int := 11000

  const RegisteredMessage := "User registered successfully!"
  const DuplicateMessage := "Email or Login ID already exists"
  const NotFoundMessage := "User not found"

  /** A user read with `.select('-password')`: every field but the password. */
  datatype SafeUser = SafeUser(
    id: UserId,
    firstName: string,
    lastName: string,
    mobileNo: string,
    emailId: string,
    address: Address,
    loginId: string)

  datatype Body =
    | Message(text: string)
    | Registered(message: string, userId: UserId)
    | UserList(users: seq<SafeUser>)
    | OneUser(user: SafeUser)

  datatype Response = Response(status: int, body: Body)

  function WithoutPassword(u: User): SafeUser {
    SafeUser(u.id, u.firstName, u.lastName, u.mobileNo, u.emailId, u.address, u.loginId)
  }

  /** Two users read alike exactly when they differ in nothing but the password. */
  lemma WithoutPasswordHidesOnlyPassword(u: User, v: User)
    ensures WithoutPassword(u) == WithoutPassword(v) <==> u.(password := v.password) == v
  {
  }

  /** `User.find().select('-password')`: every stored user, in order, without the password. */
  function ProjectAll(users: seq<User>): (r: seq<SafeUser>)
    ensures |r| == |users|
    ensures forall k :: 0 <= k < |users| ==> r[k] == WithoutPassword(users[k])
  {
    if users == [] then [] else [WithoutPassword(users[0])] + ProjectAll(users[1..])
  }

  /** The register handler: 201 on success; a caught error is checked for code 11000 first, then for a ValidationError. */
  function RegisterResponse(outcome: Result<UserId, StoreError>): (resp: Response)
    ensures resp.status == 201 <==> outcome.Success?
    ensures resp.status == 400 <==>
      outcome.Failure? && (outcome.error.code == Some(DuplicateKeyCode) || outcome.error.name == "ValidationError")
    ensures resp.status in {201, 400, 500}
    ensures outcome.Success? ==> resp.body == Registered(RegisteredMessage, outcome.value)
    ensures outcome.Failure? && outcome.error.code == Some(DuplicateKeyCode) ==> resp.body == Message(DuplicateMessage)
    ensures outcome.Failure? && outcome.error.code != Some(DuplicateKeyCode) ==> resp.body == Message(outcome.error.message)
  {
    match outcome
    case Success(id) => Response(201, Registered(RegisteredMessage, id))
    case Failure(err) =>
      if err.code == Some(DuplicateKeyCode) then Response(400, Message(DuplicateMessage))
      else if err.name == "ValidationError" then Response(400, Message(err.message))
      else Response(500, Message(err.message))
  }

  /** The list handler: 200 with every user minus the password, or 500 with the error's message. */
  function ListResponse(outcome: Result<seq<User>, StoreError>): (resp: Response)
    ensures resp.status == 200 <==> outcome.Success?
    ensures outcome.Success? ==> resp.body.UserList? && |resp.body.users| == |outcome.value|
    ensures outcome.Success? ==> forall k :: 0 <= k < |outcome.value| ==> resp.body.users[k] == WithoutPassword(outcome.value[k])
    ensures outcome.Failure? ==> resp == Response(500, Message(outcome.error.message))
  {
    match outcome
    case Success(users) => Response(200, UserList(ProjectAll(users)))
    case Failure(err) => Response(500, Message(err.message))
  }

  /** The get-by-email handler: 404 on a miss, 200 with the user minus the password, 500 on an error. */
  function GetByEmailResponse(outcome: Result<Option<User>, StoreError>): (resp: Response)
    ensures resp.status == 404 <==> outcome == Success(None)
    ensures resp.status == 404 ==> resp.body == Message(NotFoundMessage)
    ensures resp.status == 200 <==> outcome.Success? && outcome.value.Some?
    ensures resp.status == 200 ==> resp.body == OneUser(WithoutPassword(outcome.value.value))
    ensures outcome.Failure? ==> resp == Response(500, Message(outcome.error.message))
  {
    match outcome
    case Success(None) => Response(404, Message(NotFoundMessage))
    case Success(Some(u)) => Response(200, OneUser(WithoutPassword(u)))
    case Failure(err) => Response(500, Message(err.message))
  }

  // ---------------------------------------------------------------------------
  // The handlers over the user store model

  /** The error `save()` throws for a refusal: a ValidationError, or a server error with code 11000. */
  function Thrown(e: SaveError, message: string): StoreError {
    match e
    case ValidationFailed(_) => StoreError(None, "ValidationError", message)
    case DuplicateKey => StoreError(Some(DuplicateKeyCode), "MongoServerError", message)
  }

  function SaveOutcome(r: Result<seq<User>, SaveError>, id: UserId, message: string): Result<UserId, StoreError> {
    match r
    case Success(_) => Success(id)
    case Failure(e) => Failure(Thrown(e, message))
  }

  /**
   * Registering against the store: 201 exactly when the submission is valid and
   * clashes with no stored id, email or login id, otherwise 400. A refused save
   * never yields 500; store failures other than a refusal are not part of `Save`.
   */
  lemma RegisterAgainstStore(users: seq<User>, f: UserFields, id: UserId, message: string)
    ensures var resp := RegisterResponse(SaveOutcome(Save(users, f, id), id, message));
      && (resp.status == 201 <==>
            IsValidUser(f) && forall k :: 0 <= k < |users| ==>
              users[k].id != id && users[k].emailId != f.emailId.value && users[k].loginId != f.loginId.value)
      && (resp.status == 201 || resp.status == 400)
      && (resp.status == 201 ==> resp.body == Registered(RegisteredMessage, id))
      && (!IsValidUser(f) ==> resp.body == Message(message))
      && (Save(users, f, id) == Failure(DuplicateKey) ==> resp.body == Message(DuplicateMessage))
  {
  }

  /** Looking an email up in a store with unique keys: 404 exactly when no user has it, else that user minus the password. */
  lemma GetByEmailAgainstStore(users: seq<User>, email: string)
    requires UniqueKeys(users)
    ensures var resp := GetByEmailResponse(Success(FindByEmail(users, email)));
      && (resp.status == 404 <==> forall k :: 0 <= k < |users| ==> users[k].emailId != email)
      && (forall k :: 0 <= k < |users| && users[k].emailId == email ==> resp == Response(200, OneUser(WithoutPassword(users[k]))))
  {
    forall k | 0 <= k < |users| && users[k].emailId == email
      ensures FindByEmail(users, email) == Some(users[k])
    {
      FindByEmailUnique(users, k);
    }
  }

  /** A registered user fetched by email comes back with every submitted field except the password. */
  lemma RegisteredUserReadBack(users: seq<User>, f: UserFields, id: UserId)
    requires UniqueKeys(users) && Save(users, f, id).Success?
    ensures GetByEmailResponse(Success(FindByEmail(Save(users, f, id).value, f.emailId.value)))
         == Response(200, OneUser(SafeUser(id, f.firstName.value, f.lastName.value, f.mobileNo.value,
                                           f.emailId.value, f.address, f.loginId.value)))
  {
    SaveThenFind(users, f, id);
  }
}
