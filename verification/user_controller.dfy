/** The user handlers of controllers/user.controller.js that shape or change data:
    the `updateProfile` whitelist, the `updateUser` field stripping, the password
    removal and error mapping of `createUser`, and the soft delete of `deleteUser`.
    A request body or user document is a map from field name to value; `V` stands for
    the JSON values, which the handlers never inspect. `findByIdAndUpdate` does inspect
    them: a top-level key that starts with '$' is an update operator, and `asObject`
    reads a JSON value as an object (None for any other value).

    As written, `updateUser` passes such operator keys of the body on to the update
    (`SetOperatorOverwritesPassword`); `StripForUpdate` drops them as well, which is
    what the handler evidently intends (`UpdateUserKeepsSecrets`). */
module UserController {
  import opened Common
  import Auth

  /** The fields a user may change about themselves. */
  const ProfileFields: set<string> := {"name", "phone", "address", "avatar"}

  /** The fields `updateUser` never takes from the body. */
  const ProtectedFields: set<string> := {"password", "resetPasswordToken", "resetPasswordExpire"}

  const PasswordField := "password"

  /** The update document of `updateProfile`: exactly the four profile keys, each
      holding the body's value or nothing (`undefined`) when the body lacks it. */
  function ProfileUpdate<V>(body: map<string, V>): (r: map<string, Option<V>>)
    ensures r.Keys == ProfileFields
    ensures forall k :: k in r && k in body ==> r[k] == Some(body[k])
    ensures forall k :: k in r && k !in body ==> r[k] == None
  {
    map k | k in ProfileFields :: if k in body then Some(body[k]) else None
  }

  /** What an update document sets: its keys with a defined value. */
  function Defined<V>(update: map<string, Option<V>>): (r: map<string, V>)
    ensures r.Keys <= update.Keys
    ensures forall k :: k in r ==> update[k] == Some(r[k])
    ensures forall k :: k in update && update[k].Some? ==> k in r
  {
    map k | k in update && update[k].Some? :: update[k].value
  }

  /** The update document of `updateUser`: the body without the protected fields,
      every other key kept with its value. */
  function StripProtected<V>(body: map<string, V>): (r: map<string, V>)
    ensures r.Keys == body.Keys - ProtectedFields
    ensures forall k :: k in r ==> r[k] == body[k]
  {
    body - ProtectedFields
  }

  /** The update document `updateUser` evidently intends: the body without the
      protected fields and without update operators. */
  function StripForUpdate<V>(body: map<string, V>): (r: map<string, V>)
    ensures forall k :: k in r <==> k in body && k !in ProtectedFields && !IsOperator(k)
    ensures forall k :: k in r ==> r[k] == body[k]
  {
    map k | k in body && k !in ProtectedFields && !IsOperator(k) :: body[k]
  }

  /** Update operators are the keys that start with '$'. */
  predicate IsOperator(k: string) {
    |k| > 0 && k[0] == '$'
  }

  const SetOperator := "$set"

  /** The fields an update sets, as Mongoose reads it: the object under `$set`, with the
      update's plain keys merged over it, so a plain key wins over the same key under
      `$set`. An update without operators sets exactly its own keys. */
  function SetFields<V>(update: map<string, V>, asObject: V -> Option<map<string, V>>): (r: map<string, V>)
    ensures forall k :: k in update && !IsOperator(k) ==> k in r && r[k] == update[k]
    ensures (forall k :: k in update ==> !IsOperator(k)) ==> r == update
    ensures SetOperator !in update ==> forall k :: k in r <==> k in update && !IsOperator(k)
  {
    var fromSet :=
      if SetOperator in update && asObject(update[SetOperator]).Some? then asObject(update[SetOperator]).value
      else map[];
    fromSet + map k | k in update && !IsOperator(k) :: update[k]
  }

  /** The document `findByIdAndUpdate` leaves: the stored fields overwritten by those
      the update sets. */
  function Apply<V>(doc: map<string, V>, update: map<string, V>, asObject: V -> Option<map<string, V>>): (r: map<string, V>)
    ensures forall k :: k in r <==> k in doc || k in SetFields(update, asObject)
    ensures forall k :: k in SetFields(update, asObject) ==> r[k] == SetFields(update, asObject)[k]
    ensures forall k :: k in doc && k !in SetFields(update, asObject) ==> r[k] == doc[k]
  {
    doc + SetFields(update, asObject)
  }

  /** Whatever the body holds, `updateProfile` changes no field outside the four
      profile fields (the role, the password and `isActive` among them), and sets each
      profile field the body supplies. */
  lemma {:induction false} ProfileUpdateConfined<V>(doc: map<string, V>, body: map<string, V>,
                                                    asObject: V -> Option<map<string, V>>)
    ensures var after := Apply(doc, Defined(ProfileUpdate(body)), asObject);
      && (forall k :: k !in ProfileFields ==> (k in after <==> k in doc))
      && (forall k :: k in doc && k !in ProfileFields ==> k in after && after[k] == doc[k])
      && (forall k :: k in ProfileFields && k in body ==> k in after && after[k] == body[k])
      && (forall k :: k in ProfileFields && k !in body && k in doc ==> k in after && after[k] == doc[k])
  {
    var u := Defined(ProfileUpdate(body));
    assert forall k :: k in u ==> !IsOperator(k) by {
      assert "name"[0] == 'n' && "phone"[0] == 'p' && "address"[0] == 'a' && "avatar"[0] == 'a';
    }
    PlainUpdate(doc, u, asObject);
  }

  /** An update without operators sets exactly its own keys. */
  lemma {:induction false} PlainUpdate<V>(doc: map<string, V>, update: map<string, V>,
                                          asObject: V -> Option<map<string, V>>)
    requires forall k :: k in update ==> !IsOperator(k)
    ensures Apply(doc, update, asObject) == doc + update
  {
  }

  /** With operators dropped as well, whatever the body holds, `updateUser` leaves the
      password and the reset token fields as they were, takes every other plain body
      field, and changes nothing else. */
  lemma {:induction false} UpdateUserKeepsSecrets<V>(doc: map<string, V>, body: map<string, V>,
                                                     asObject: V -> Option<map<string, V>>)
    ensures var after := Apply(doc, StripForUpdate(body), asObject);
      && (forall k :: k in ProtectedFields ==> (k in after <==> k in doc))
      && (forall k :: k in ProtectedFields && k in doc ==> k in after && after[k] == doc[k])
      && (forall k :: k in body && k !in ProtectedFields && !IsOperator(k) ==> k in after && after[k] == body[k])
      && (forall k :: k !in body ==> (k in after <==> k in doc))
      && (forall k :: k !in body && k in doc ==> k in after && after[k] == doc[k])
  {
    PlainUpdate(doc, StripForUpdate(body), asObject);
  }

  /** As written, the body's `$set` key survives the stripping and reaches
      `findByIdAndUpdate` as an operator: when it holds an object naming the password,
      the stored password becomes that value, whatever it was. */
  lemma {:induction false} SetOperatorOverwritesPassword<V>(doc: map<string, V>, body: map<string, V>,
                                                            asObject: V -> Option<map<string, V>>, p: V)
    requires SetOperator in body && asObject(body[SetOperator]) == Some(map[PasswordField := p])
    ensures var after := Apply(doc, StripProtected(body), asObject);
      PasswordField in after && after[PasswordField] == p
  {
    var u := StripProtected(body);
    assert SetOperator in u && u[SetOperator] == body[SetOperator];
    assert PasswordField !in u;
  }

  /** The `createUser` response body: the created document without its password. */
  function SafeUser<V>(doc: map<string, V>): (r: map<string, V>)
    ensures PasswordField !in r
    ensures r.Keys == doc.Keys - {PasswordField}
    ensures forall k :: k in r ==> r[k] == doc[k]
  {
    doc - {PasswordField}
  }

  /** A handler's answer: a status code and, on success, the document returned. */
  datatype Reply<V> = Reply(status: int, data: Option<map<string, V>>)

  const DuplicateKeyCode := 11000

  /** `createUser`'s answer to the outcome of `User.create`: the created document
      answers 201 without its password; a duplicate key (code 11000) answers 400;
      any other failure answers 500. */
  function CreateUserReply<V>(created: Result<map<string, V>, Option<int>>): (r: Reply<V>)
    ensures r.status == 201 <==> created.Ok?
    ensures created.Ok? ==> r.data == Some(SafeUser(created.value))
    ensures created.Err? ==> r.data == None
    ensures created.Err? ==> (r.status == 400 <==> created.error == Some(DuplicateKeyCode))
    ensures created.Err? && created.error != Some(DuplicateKeyCode) ==> r.status == 500
    ensures r.data.Some? ==> PasswordField !in r.data.value
  {
    match created
    case Ok(doc) => Reply(201, Some(SafeUser(doc)))
    case Err(code) => if code == Some(DuplicateKeyCode) then Reply(400, None) else Reply(500, None)
  }

  /** The user collection, as the access gate reads it. */
  class UserDirectory {
    var users: map<UserId, Auth.User>

    constructor (initial: map<UserId, Auth.User>)
      ensures users == initial
    {
      users := initial;
    }

    /** `deleteUser`: a soft delete. A missing user answers 404; otherwise only
        `isActive` becomes false. */
    method DeleteUser(id: UserId) returns (found: bool)
      modifies this
      ensures found <==> id in old(users)
      ensures !found ==> users == old(users)
      ensures found ==> users == old(users)[id := old(users)[id].(isActive := false)]
    {
      if id !in users {
        return false;
      }
      users := users[id := users[id].(isActive := false)];
      found := true;
    }
  }

  /** A soft-deleted user is locked out: whatever valid token names them, `protect`
      answers 403. */
  lemma {:induction false} DeletedUserLockedOut(users: map<UserId, Auth.User>, id: UserId, authorization: Option<string>,
                             verify: string -> Option<UserId>)
    requires id in users
    requires Auth.BearerToken(authorization).Some?
    requires verify(Auth.BearerToken(authorization).value) == Some(id)
    ensures var locked := users[id := users[id].(isActive := false)];
      Auth.Protect(true, authorization, verify, locked) == Auth.Deny(403, Auth.AccountLocked)
  {
  }
}
