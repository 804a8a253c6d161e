/**
 The two identity stores: Firestore's transactions applied in place, and the in-memory store that
 claims to be a faithful fake of their login behaviour.
 */
module IdentityStores {
  import opened Wrappers
  import opened Email
  import opened IdentityBinding

  /** Each method is one transaction: writes take effect together on return, and not at all on an error. */
  class FirestoreIdentityStore {
    var users: map<string, UserDoc>
    var bindings: map<Key, BindingDoc>

    constructor ()
      ensures Collections() == Database(map[], map[]) && Consistent(Collections())
    {
      users, bindings := map[], map[];
    }

    ghost function Collections(): Database
      reads this
    {
      Database(users, bindings)
    }

    method ResolveOrBind(identity: VerifiedIdentity) returns (r: Result<UserContext, AuthError>)
      modifies this
      ensures (Collections(), r) == IdentityBinding.ResolveOrBind(old(Collections()), identity)
    {
      hide RecordFromData, NormalizeEmail;
      var key := (identity.issuer, identity.subject);
      if key in bindings {
        var binding := bindings[key];
        if binding.NoBindingData?
           || (binding.issuer, binding.subject) != (Text(identity.issuer), Text(identity.subject))
           || !binding.email.Text? {
          return Err(ConfigurationError);
        }
        var reference := NormalizeEmail(binding.email.text);
        if reference.None? {
          return Err(InvalidValue);
        }
        if reference.value !in users {
          return Err(ConfigurationError);
        }
        var bound := RecordFromData(binding.email.text, users[reference.value]);
        if bound.Err? {
          return Err(bound.error);
        }
        if binding.userId != Text(bound.value.userId) {
          return Err(ConfigurationError);
        }
        return Context(bound.value, identity);
      }
      r := BindOnFirstLogin(identity);
    }

    method BindOnFirstLogin(identity: VerifiedIdentity) returns (r: Result<UserContext, AuthError>)
      modifies this
      ensures (Collections(), r) == BindFirst(old(Collections()), identity)
    {
      hide NormalizeEmail;
      var email := FirstLoginEmail(identity);
      if email.Err? {
        return Err(email.error);
      }
      if email.value !in users {
        return Err(UserNotAllowed);
      }
      var user := RecordFromData(email.value, users[email.value]);
      if user.Err? {
        return Err(user.error);
      }
      if user.value.status != Active {
        return Err(UserDisabled);
      }
      var next := users;
      if user.value.issuer.Some? || user.value.subject.Some? {
        if (user.value.issuer, user.value.subject) != (Some(identity.issuer), Some(identity.subject)) {
          return Err(IdentityMismatch);
        }
      } else {
        next := next[email.value := BoundDoc(users[email.value], identity)];
      }
      r := Context(user.value.(issuer := Some(identity.issuer), subject := Some(identity.subject)), identity);
      if r.Ok? {
        var binding :=
          BindingDoc(Text(identity.issuer), Text(identity.subject), Text(email.value), Text(user.value.userId));
        users, bindings := next, bindings[(identity.issuer, identity.subject) := binding];
      }
    }

    method EnsureInvitation(email: string, userId: string, datasetId: string)
      returns (r: Result<AllowedUser, AuthError>)
      modifies this`users
      ensures (Collections(), r) == IdentityBinding.EnsureInvitation(old(Collections()), email, userId, datasetId)
    {
      hide RecordFromData, NormalizeEmail;
      var key := NormalizeEmail(email);
      if key.None? {
        return Err(InvalidValue);
      }
      if key.value in users {
        return RecordFromData(key.value, users[key.value]);
      }
      users := users[key.value := NewUserDoc(userId, datasetId)];
      return Ok(AllowedUser(key.value, userId, datasetId, Disabled, None, None));
    }

    method SetStatus(email: string, status: Status) returns (r: Result<AllowedUser, AuthError>)
      modifies this`users
      ensures (Collections(), r) == IdentityBinding.SetStatus(old(Collections()), email, status)
    {
      hide NormalizeEmail;
      var key := NormalizeEmail(email);
      if key.None? {
        return Err(InvalidValue);
      }
      if key.value !in users {
        return Err(UserNotAllowed);
      }
      var user := RecordFromData(key.value, users[key.value]);
      if user.Err? {
        return Err(user.error);
      }
      users := users[key.value := users[key.value].(status := StatusField(status))];
      return Ok(user.value.(status := status));
    }

    method ResetIdentity(email: string, expectedUserId: string) returns (r: Result<AllowedUser, AuthError>)
      modifies this
      ensures (Collections(), r) == IdentityBinding.ResetIdentity(old(Collections()), email, expectedUserId)
    {
      hide NormalizeEmail;
      var key := NormalizeEmail(email);
      if key.None? {
        return Err(InvalidValue);
      }
      if key.value !in users {
        return Err(UserNotAllowed);
      }
      var user := RecordFromData(key.value, users[key.value]);
      if user.Err? {
        return Err(user.error);
      }
      if user.value.userId != expectedUserId {
        return Err(InvalidValue);
      }
      if user.value.issuer.Some? && user.value.subject.Some? {
        bindings := bindings - {(user.value.issuer.value, user.value.subject.value)};
      }
      users := users[key.value := users[key.value].(issuer := Absent, subject := Absent)];
      return Ok(user.value.(issuer := None, subject := None));
    }
  }

  // ---------------------------------------------------------------------------------------------
  // The in-memory store

  /** Records by address, addresses by identity. */
  datatype Fake = Fake(users: map<string, AllowedUser>, bindings: map<Key, string>)

  predicate CompletelyBound(user: AllowedUser) {
    user.issuer.None? == user.subject.None?
  }

  function FakeContext(user: AllowedUser, identity: VerifiedIdentity): Result<UserContext, AuthError> {
    if !CompletelyBound(user) then Err(ConfigurationError)
    else if user.status != Active then Err(UserDisabled)
    else if user.userId == "" || user.datasetId == "" then Err(ConfigurationError)
    else if (user.issuer, user.subject) != (Some(identity.issuer), Some(identity.subject)) then Err(IdentityMismatch)
    else Ok(UserContext(user.userId, user.datasetId, identity.issuer, identity.subject))
  }

  function FakeBind(fake: Fake, identity: VerifiedIdentity): (Fake, Result<UserContext, AuthError>) {
    var key := (identity.issuer, identity.subject);
    match FirstLoginEmail(identity)
    case Err(e) => (fake, Err(e))
    case Ok(email) =>
      if email !in fake.users then (fake, Err(UserNotAllowed))
      else
        var user := fake.users[email];
        if !CompletelyBound(user) then (fake, Err(ConfigurationError))
        else if user.status != Active then (fake, Err(UserDisabled))
        else if user.issuer.Some? || user.subject.Some? then
          if (user.issuer, user.subject) != (Some(key.0), Some(key.1)) then (fake, Err(IdentityMismatch))
          else (fake, FakeContext(user, identity))
        else
          var bound := user.(issuer := Some(key.0), subject := Some(key.1));
          (Fake(fake.users[email := bound], fake.bindings[key := email]), FakeContext(bound, identity))
  }

  function FakeResolve(fake: Fake, identity: VerifiedIdentity): (Fake, Result<UserContext, AuthError>) {
    var key := (identity.issuer, identity.subject);
    if key in fake.bindings then
      var email := fake.bindings[key];
      (fake, if email in fake.users then FakeContext(fake.users[email], identity) else Err(MissingKey))
    else
      FakeBind(fake, identity)
  }

  class InMemoryIdentityStore {
    var users: map<string, AllowedUser>
    var bindings: map<Key, string>

    ghost function State(): Fake
      reads this
    {
      Fake(users, bindings)
    }

    /** Indexes the given records; a later record under the same address replaces an earlier one. */
    constructor (records: seq<AllowedUser>)
      requires forall u :: u in records ==> NormalizeEmail(u.email).Some?
      ensures users == IndexUsers(records)
      ensures forall k :: k in bindings ==> BoundRecord(users, bindings[k], k)
      ensures forall e, k :: BoundRecord(users, e, k) ==> k in bindings
    {
      hide NormalizeEmail;
      users, bindings := map[], map[];
      new;
      for i := 0 to |records|
        invariant users == IndexUsers(records[..i]) && bindings == map[]
      {
        assert records[i] in records && records[..i + 1][..i] == records[..i];
        users := users[NormalizeEmail(records[i].email).value := records[i]];
      }
      assert records[..|records|] == records;
      var remaining := users.Keys;
      while remaining != {}
        invariant remaining <= users.Keys && users == IndexUsers(records)
        invariant forall k :: k in bindings ==> BoundRecord(users, bindings[k], k)
        invariant forall e, k :: BoundRecord(users, e, k) ==> e in remaining || k in bindings
        decreases |remaining|
      {
        var email :| email in remaining;
        var user := users[email];
        if user.issuer.Some? && user.subject.Some? {
          assert BoundRecord(users, email, (user.issuer.value, user.subject.value));
          bindings := bindings[(user.issuer.value, user.subject.value) := email];
        }
        remaining := remaining - {email};
      }
    }

    method ResolveOrBind(identity: VerifiedIdentity) returns (r: Result<UserContext, AuthError>)
      modifies this
      ensures (State(), r) == FakeResolve(old(State()), identity)
    {
      hide NormalizeEmail;
      var key := (identity.issuer, identity.subject);
      if key in bindings {
        return if bindings[key] in users then FakeContext(users[bindings[key]], identity) else Err(MissingKey);
      }
      var email := FirstLoginEmail(identity);
      if email.Err? {
        return Err(email.error);
      }
      if email.value !in users {
        return Err(UserNotAllowed);
      }
      var user := users[email.value];
      if !CompletelyBound(user) {
        return Err(ConfigurationError);
      }
      if user.status != Active {
        return Err(UserDisabled);
      }
      if user.issuer.Some? || user.subject.Some? {
        if (user.issuer, user.subject) != (Some(key.0), Some(key.1)) {
          return Err(IdentityMismatch);
        }
      } else {
        user := user.(issuer := Some(key.0), subject := Some(key.1));
        users, bindings := users[email.value := user], bindings[key := email.value];
      }
      return FakeContext(user, identity);
    }
  }

  function IndexUsers(records: seq<AllowedUser>): map<string, AllowedUser>
    requires forall u :: u in records ==> NormalizeEmail(u.email).Some?
  {
    if records == [] then map[]
    else
      var last := records[|records| - 1];
      assert last in records;
      IndexUsers(records[..|records| - 1])[NormalizeEmail(last.email).value := last]
  }

  /** The last record with this normalised address. */
  ghost predicate LastRecord(records: seq<AllowedUser>, i: int, e: string) {
    && 0 <= i < |records| && NormalizeEmail(records[i].email) == Some(e)
    && forall j :: i < j < |records| ==> NormalizeEmail(records[j].email) != Some(e)
  }

  /** Under each address stands the last record given for it, and nothing else. */
  lemma {:induction false} IndexedExactly(records: seq<AllowedUser>, e: string, user: AllowedUser)
    requires forall u :: u in records ==> NormalizeEmail(u.email).Some?
    ensures e in IndexUsers(records) && IndexUsers(records)[e] == user
            <==> exists i :: LastRecord(records, i, e) && records[i] == user
  {
    hide NormalizeEmail;
    if records != [] {
      var last := |records| - 1;
      var front := records[..last];
      assert records[last] in records;
      IndexedExactly(front, e, user);
      if NormalizeEmail(records[last].email) == Some(e) {
        assert LastRecord(records, last, e);
      } else {
        forall i ensures LastRecord(records, i, e) <==> LastRecord(front, i, e) {
          assert 0 <= i < last ==> front[i] == records[i];
        }
      }
    }
  }

  /** On any contents of the in-memory store, a login is granted exactly if the address of its binding, or
      else its verified address, has an active record with identifiers that carries the identity or, without
      a binding, none. */
  lemma FakeGrantsExactly(fake: Fake, identity: VerifiedIdentity, context: UserContext)
    ensures var key := (identity.issuer, identity.subject);
            FakeResolve(fake, identity).1 == Ok(context) <==>
              exists e :: e in fake.users
                && (if key in fake.bindings then fake.bindings[key] == e else InvitedAs(identity, e))
                && Grants(fake.users[e], identity, context)
                && fake.users[e].userId != "" && fake.users[e].datasetId != ""
                && ((fake.users[e].issuer, fake.users[e].subject) == (Some(key.0), Some(key.1))
                    || (key !in fake.bindings && fake.users[e].issuer.None? && fake.users[e].subject.None?))
  {
    hide NormalizeEmail, InvitedAs;
    var key := (identity.issuer, identity.subject);
    if key !in fake.bindings {
      forall e ensures FirstLoginEmail(identity) == Ok(e) <==> InvitedAs(identity, e) {
        FirstLoginExactly(identity, e);
      }
    }
    hide FirstLoginEmail;
  }

  /** A partly bound record is a configuration error, before anything else about it is looked at. */
  lemma FakeRefusesPartlyBound(fake: Fake, identity: VerifiedIdentity, e: string)
    requires e in fake.users && (fake.users[e].issuer.Some? <==> fake.users[e].subject.None?)
    requires var key := (identity.issuer, identity.subject);
             if key in fake.bindings then fake.bindings[key] == e else InvitedAs(identity, e)
    ensures FakeResolve(fake, identity) == (fake, Err(ConfigurationError))
  {
    hide NormalizeEmail;
    FirstLoginExactly(identity, e);
  }

  /** What a login in the in-memory store writes: a granted first login of an unbound record binds it. */
  lemma FakeStoresExactly(fake: Fake, identity: VerifiedIdentity)
    ensures var key := (identity.issuer, identity.subject);
            var (after, r) := FakeResolve(fake, identity);
            after == fake
            || exists e :: e in fake.users && key !in fake.bindings && InvitedAs(identity, e)
                 && fake.users[e].issuer.None? && fake.users[e].subject.None? && fake.users[e].status == Active
                 && after == Fake(fake.users[e := fake.users[e].(issuer := Some(key.0), subject := Some(key.1))],
                                  fake.bindings[key := e])
  {
    hide NormalizeEmail, InvitedAs;
    forall e ensures FirstLoginEmail(identity) == Ok(e) <==> InvitedAs(identity, e) {
      FirstLoginExactly(identity, e);
    }
    hide FirstLoginEmail;
  }

  ghost predicate BoundRecord(users: map<string, AllowedUser>, e: string, k: Key) {
    e in users && (users[e].issuer, users[e].subject) == (Some(k.0), Some(k.1))
  }

  // ---------------------------------------------------------------------------------------------
  // Refinement

  /** The same records under the same addresses, whatever address each record itself carries. */
  ghost predicate UsersMatch(db: Database, users: map<string, AllowedUser>)
    requires RecordsParse(db)
  {
    users.Keys == db.users.Keys && forall e :: e in users ==> users[e].(email := e) == Record(db, e)
  }

  ghost predicate Corresponds(db: Database, fake: Fake)
    requires Consistent(db)
  {
    && UsersMatch(db, fake.users)
    && fake.bindings.Keys == db.bindings.Keys
    && forall k :: k in fake.bindings ==> db.bindings[k].email == Text(fake.bindings[k])
  }

  /** A store indexed from the records of a consistent database corresponds to it. */
  lemma IndexedCorresponds(db: Database, fake: Fake)
    requires Consistent(db) && UsersMatch(db, fake.users)
    requires forall k :: k in fake.bindings ==> BoundRecord(fake.users, fake.bindings[k], k)
    requires forall e, k :: BoundRecord(fake.users, e, k) ==> k in fake.bindings
    ensures Corresponds(db, fake)
  {
    hide RecordFromData, NormalizeEmail, BindingsPoint;
    forall e, k ensures BoundRecord(fake.users, e, k) <==> BoundTo(db, e, k) {
      if e in fake.users {
        assert fake.users[e].(email := e) == Record(db, e);
      }
    }
    forall k | k in db.bindings ensures k in fake.bindings {
      BindingHasRecord(db, k);
    }
    forall k | k in fake.bindings ensures k in db.bindings && db.bindings[k].email == Text(fake.bindings[k]) {
      assert BoundTo(db, fake.bindings[k], k);
    }
  }

  lemma BindingHasRecord(db: Database, k: Key)
    requires Consistent(db) && k in db.bindings
    ensures db.bindings[k].BindingDoc? && db.bindings[k].email.Text? && BoundTo(db, db.bindings[k].email.text, k)
  {
  }

  /** One login gives the same answer in both stores and leaves them corresponding. */
  lemma LoginAgrees(db: Database, fake: Fake, identity: VerifiedIdentity)
    requires Consistent(db) && Corresponds(db, fake)
    ensures var (db', r) := IdentityBinding.ResolveOrBind(db, identity);
            var (fake', s) := FakeResolve(fake, identity);
            r == s && Consistent(db') && Corresponds(db', fake')
  {
    hide RecordFromData, NormalizeEmail, BindFirst, ResolveBound, BindingsPoint, RecordsPointBack, IdentifiersUnique,
         FirstLoginEmail, Bound;
    LoginKeepsConsistent(db, identity);
    var key := (identity.issuer, identity.subject);
    if key in db.bindings {
      ResolveBoundIsDirect(db, identity);
      BindingHasRecord(db, key);
      RecordIsWhole(db, fake, db.bindings[key].email.text);
    } else {
      BindFirstByCases(db, identity);
      FirstLoginAgrees(db, fake, identity);
    }
  }

  lemma RecordIsWhole(db: Database, fake: Fake, e: string)
    requires RecordsParse(db) && UsersMatch(db, fake.users) && e in db.users
    ensures fake.users[e].(email := e) == Record(db, e)
    ensures CompletelyBound(fake.users[e]) && fake.users[e].userId != "" && fake.users[e].datasetId != ""
  {
    hide NormalizeEmail;
    assert e in fake.users;
  }

  lemma FirstLoginAgrees(db: Database, fake: Fake, identity: VerifiedIdentity)
    requires Consistent(db) && Corresponds(db, fake) && (identity.issuer, identity.subject) !in db.bindings
    requires Consistent(BindFirst(db, identity).0)
    ensures BindFirst(db, identity).1 == FakeBind(fake, identity).1
    ensures Corresponds(BindFirst(db, identity).0, FakeBind(fake, identity).0)
  {
    hide RecordFromData, NormalizeEmail, BindFirst, BindingsPoint, RecordsPointBack, IdentifiersUnique, FirstLoginEmail,
         Bound, Consistent;
    BindFirstByCases(db, identity);
    ConsistentParses(db);
    var email := FirstLoginEmail(identity);
    if email.Ok? && email.value in db.users {
      var e := email.value;
      RecordIsWhole(db, fake, e);
      NotYetBound(db, e, identity);
      if Record(db, e).status == Active && Record(db, e).issuer.None? {
        BoundCorresponds(db, fake, e, identity);
      }
    }
  }

  lemma ConsistentParses(db: Database)
    requires Consistent(db)
    ensures RecordsParse(db)
  {
  }

  lemma BoundCorresponds(db: Database, fake: Fake, e: string, identity: VerifiedIdentity)
    requires Consistent(db) && Corresponds(db, fake) && e in db.users && Record(db, e).issuer.None?
    requires (identity.issuer, identity.subject) !in db.bindings
    ensures var key := (identity.issuer, identity.subject);
            var bound := fake.users[e].(issuer := Some(key.0), subject := Some(key.1));
            Consistent(Bound(db, e, identity))
            && Corresponds(Bound(db, e, identity), Fake(fake.users[e := bound], fake.bindings[key := e]))
  {
    hide RecordFromData, NormalizeEmail, BoundDoc, BindingsPoint, RecordsPointBack, IdentifiersUnique, Consistent;
    BindingKeepsConsistent(db, e, identity);
    ConsistentParses(db);
    ConsistentParses(Bound(db, e, identity));
    assert fake.users[e].(email := e) == Record(db, e);
  }

  /** The answers of a sequence of logins, in order. */
  function Answers(db: Database, logins: seq<VerifiedIdentity>): seq<Result<UserContext, AuthError>>
    decreases |logins|
  {
    if logins == [] then []
    else var (next, r) := IdentityBinding.ResolveOrBind(db, logins[0]); [r] + Answers(next, logins[1..])
  }

  function FakeAnswers(fake: Fake, logins: seq<VerifiedIdentity>): seq<Result<UserContext, AuthError>>
    decreases |logins|
  {
    if logins == [] then []
    else var (next, r) := FakeResolve(fake, logins[0]); [r] + FakeAnswers(next, logins[1..])
  }

  function AfterLogins(db: Database, logins: seq<VerifiedIdentity>): Database
    decreases |logins|
  {
    if logins == [] then db else AfterLogins(IdentityBinding.ResolveOrBind(db, logins[0]).0, logins[1..])
  }

  function FakeAfterLogins(fake: Fake, logins: seq<VerifiedIdentity>): Fake
    decreases |logins|
  {
    if logins == [] then fake else FakeAfterLogins(FakeResolve(fake, logins[0]).0, logins[1..])
  }

  /** From corresponding states every sequence of logins is answered alike and ends in corresponding states. */
  lemma {:induction false} FakeIsFaithful(db: Database, fake: Fake, logins: seq<VerifiedIdentity>)
    requires Consistent(db) && Corresponds(db, fake)
    ensures Answers(db, logins) == FakeAnswers(fake, logins)
    ensures Consistent(AfterLogins(db, logins)) && Corresponds(AfterLogins(db, logins), FakeAfterLogins(fake, logins))
    decreases |logins|
  {
    if logins != [] {
      LoginAgrees(db, fake, logins[0]);
      hide IdentityBinding.ResolveOrBind, FakeResolve, Consistent, Corresponds;
      FakeIsFaithful(IdentityBinding.ResolveOrBind(db, logins[0]).0, FakeResolve(fake, logins[0]).0, logins[1..]);
    }
  }
}
