/**
 * The user collection as the handlers see it: a sequence of stored documents
 * in insertion order. Saving runs the schema's validators first and only then
 * inserts, where the unique indexes on emailId and loginId can refuse it.
 */
module UserStore {
  import opened Wrappers
  import opened UserSchema

  /** A document's `_id`: generated for a new document, or taken from the submission when it carries one. */
  type UserId = nat

  /** A stored document. Only validated documents are stored, so its required fields hold values. */
  datatype User = User(
    id: UserId,
    firstName: string,
    lastName: string,
    mobileNo: string,
    emailId: string,
    address: Address,
    loginId: string,
    password: string)

  /** Why a save was refused: the schema's validators failed, or a unique index (error code 11000) did. */
  datatype SaveError = ValidationFailed(paths: set<Path>) | DuplicateKey

  /** The document built from a validated submission under the id the store gave it. */
  function Document(f: UserFields, id: UserId): User
    requires IsValidUser(f)
  {
    User(id, f.firstName.value, f.lastName.value, f.mobileNo.value, f.emailId.value, f.address, f.loginId.value, f.password.value)
  }

  /** Two documents clash on one of the unique indexes: the built-in one on `_id`, or those on emailId and loginId. */
  predicate Clash(a: User, b: User) {
    a.id == b.id || a.emailId == b.emailId || a.loginId == b.loginId
  }

  /** No two stored users share an id, no two share an emailId, and no two share a loginId. */
  predicate UniqueKeys(users: seq<User>) {
    forall i, j :: 0 <= i < j < |users| ==> !Clash(users[i], users[j])
  }

  predicate ClashesWithStored(users: seq<User>, u: User) {
    exists k :: 0 <= k < |users| && Clash(users[k], u)
  }

  /** `save()` of a new document: validation first, then the insert that the unique indexes guard. */
  function Save(users: seq<User>, f: UserFields, id: UserId): (r: Result<seq<User>, SaveError>)
    ensures r.Success? <==>
      IsValidUser(f) && forall k :: 0 <= k < |users| ==>
        users[k].id != id && users[k].emailId != f.emailId.value && users[k].loginId != f.loginId.value
    ensures r.Success? ==> |r.value| == |users| + 1 && r.value[..|users|] == users && r.value[|users|] == Document(f, id)
    ensures r.Success? && UniqueKeys(users) ==> UniqueKeys(r.value)
    ensures r == Failure(DuplicateKey) <==>
      && IsValidUser(f)
      && exists k :: 0 <= k < |users| && (users[k].id == id || users[k].emailId == f.emailId.value || users[k].loginId == f.loginId.value)
    ensures r.Failure? && r.error.ValidationFailed? ==> r.error.paths == InvalidPaths(f) != {}
  {
    var bad := InvalidPaths(f);
    if bad != {} then
      Failure(ValidationFailed(bad))
    else
      var u := Document(f, id);
      if ClashesWithStored(users, u) then Failure(DuplicateKey) else Success(users + [u])
  }

  /** The store after a series of registrations, each (submission, id) in turn; a refused one leaves it as it was. */
  function Replay(users: seq<User>, submissions: seq<(UserFields, UserId)>): seq<User>
    decreases |submissions|
  {
    if submissions == [] then users
    else
      var r := Save(users, submissions[0].0, submissions[0].1);
      Replay(if r.Success? then r.value else users, submissions[1..])
  }

  /** Starting from unique keys (the empty collection, say), no series of registrations ever stores a duplicate id, email or login id. */
  lemma {:induction false} ReplayKeepsKeysUnique(users: seq<User>, submissions: seq<(UserFields, UserId)>)
    requires UniqueKeys(users)
    ensures UniqueKeys(Replay(users, submissions))
    decreases |submissions|
  {
    if submissions != [] {
      var r := Save(users, submissions[0].0, submissions[0].1);
      ReplayKeepsKeysUnique(if r.Success? then r.value else users, submissions[1..]);
    }
  }

  /** `findOne({ emailId: email })`: the first stored user with that email, in insertion order. */
  function FindByEmail(users: seq<User>, email: string): (r: Option<User>)
    ensures r.None? <==> forall k :: 0 <= k < |users| ==> users[k].emailId != email
    ensures r.Some? ==> exists k :: 0 <= k < |users| && users[k] == r.value && r.value.emailId == email
  {
    if users == [] then None
    else if users[0].emailId == email then Some(users[0])
    else
      var r := FindByEmail(users[1..], email);
      assert forall k :: 1 <= k < |users| ==> users[k] == users[1..][k - 1];
      r
  }

  /** With unique emails, the lookup finds the one user that has it. */
  lemma FindByEmailUnique(users: seq<User>, k: nat)
    requires UniqueKeys(users) && k < |users|
    ensures FindByEmail(users, users[k].emailId) == Some(users[k])
  {
    var r := FindByEmail(users, users[k].emailId);
    var m :| 0 <= m < |users| && users[m] == r.value && r.value.emailId == users[k].emailId;
    assert m == k;
  }

  /** A registration that succeeded is found again by its email. */
  lemma SaveThenFind(users: seq<User>, f: UserFields, id: UserId)
    requires UniqueKeys(users) && Save(users, f, id).Success?
    ensures FindByEmail(Save(users, f, id).value, f.emailId.value) == Some(Document(f, id))
  {
    var after := Save(users, f, id).value;
    FindByEmailUnique(after, |users|);
  }

  /** A registration that reuses a stored `_id` is refused like one that reuses an email or login id. */
  lemma DuplicateIdRefused(users: seq<User>, k: nat, f: UserFields, id: UserId)
    requires k < |users| && IsValidUser(f) && users[k].id == id
    ensures Save(users, f, id) == Failure(DuplicateKey)
  {
  }

  /** A second registration with a stored email is refused and the first user stays findable. */
  lemma DuplicateEmailRefused(users: seq<User>, k: nat, f: UserFields, id: UserId)
    requires UniqueKeys(users) && k < |users|
    requires IsValidUser(f) && f.emailId.value == users[k].emailId
    ensures Save(users, f, id) == Failure(DuplicateKey)
    ensures FindByEmail(users, f.emailId.value) == Some(users[k])
  {
    FindByEmailUnique(users, k);
  }
}
