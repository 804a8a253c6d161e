/**
 The allowlist and the identity bindings: two Firestore collections that every login and every
 administrative action must keep mutually inverse.

 Documents carry fields that may be absent or of the wrong type. A transaction that raises changes
 nothing. The hash that names a binding document is injective, so bindings are keyed by the identity.
 */
module IdentityBinding {
  import opened Wrappers
  import opened Email

  datatype Field = Absent | Text(text: string) | Malformed

  datatype UserDoc =
    | NoUserData
    | UserDoc(status: Field, userId: Field, datasetId: Field, issuer: Field, subject: Field)

  datatype BindingDoc =
    | NoBindingData
    | BindingDoc(issuer: Field, subject: Field, email: Field, userId: Field)

  type Key = (string, string)

  datatype Database = Database(users: map<string, UserDoc>, bindings: map<Key, BindingDoc>)

  datatype Status = Active | Disabled

  datatype AllowedUser = AllowedUser(email: string, userId: string, datasetId: string, status: Status,
                                     issuer: Option<string>, subject: Option<string>)

  datatype VerifiedIdentity = VerifiedIdentity(issuer: string, subject: string, email: Option<string>,
                                               emailVerified: bool)

  datatype UserContext = UserContext(userId: string, datasetId: string, issuer: string, subject: string)

  datatype AuthError =
    | ConfigurationError
    | IdentityMismatch
    | UserDisabled
    | UserNotAllowed
    | EmailNotVerified
    | InvalidToken
    | InvalidValue
    | AlreadyExists
    | MissingKey

  // ---------------------------------------------------------------------------------------------
  // Reading documents

  function ParseStatus(f: Field): Option<Status> {
    if f == Text("active") then Some(Active) else if f == Text("disabled") then Some(Disabled) else None
  }

  function StatusField(s: Status): Field {
    match s case Active => Text("active") case Disabled => Text("disabled")
  }

  function OptionalText(f: Field): Option<string> {
    if f.Text? then Some(f.text) else None
  }

  function RecordFromData(email: string, doc: UserDoc): Result<AllowedUser, AuthError> {
    if doc.NoUserData? || ParseStatus(doc.status).None? then Err(ConfigurationError)
    else if !doc.userId.Text? || doc.userId.text == "" then Err(ConfigurationError)
    else if !doc.datasetId.Text? || doc.datasetId.text == "" then Err(ConfigurationError)
    else if doc.issuer.Malformed? || doc.subject.Malformed? then Err(ConfigurationError)
    else if doc.issuer.Absent? != doc.subject.Absent? then Err(ConfigurationError)
    else Ok(AllowedUser(email, doc.userId.text, doc.datasetId.text, ParseStatus(doc.status).value,
                        OptionalText(doc.issuer), OptionalText(doc.subject)))
  }

  function Context(user: AllowedUser, identity: VerifiedIdentity): Result<UserContext, AuthError> {
    if user.status != Active then Err(UserDisabled)
    else if (user.issuer, user.subject) != (Some(identity.issuer), Some(identity.subject)) then Err(IdentityMismatch)
    else Ok(UserContext(user.userId, user.datasetId, identity.issuer, identity.subject))
  }

  function FirstLoginEmail(identity: VerifiedIdentity): Result<string, AuthError> {
    if !identity.emailVerified then Err(EmailNotVerified)
    else if identity.email.None? then Err(UserNotAllowed)
    else match NormalizeEmail(identity.email.value) case Some(n) => Ok(n) case None => Err(InvalidToken)
  }

  /** A document parses exactly as the record whose texts it holds, with both parts of an identity or
      neither; anything else is a configuration error. */
  lemma RecordReadExactly(email: string, doc: UserDoc, user: AllowedUser)
    ensures RecordFromData(email, doc) == Ok(user) <==>
              && user.email == email && user.userId != "" && user.datasetId != ""
              && (user.issuer.Some? <==> user.subject.Some?)
              && doc == UserDoc(Text(if user.status == Active then "active" else "disabled"), Text(user.userId),
                                Text(user.datasetId),
                                if user.issuer.Some? then Text(user.issuer.value) else Absent,
                                if user.subject.Some? then Text(user.subject.value) else Absent)
    ensures RecordFromData(email, doc).Err? ==> RecordFromData(email, doc).error == ConfigurationError
  {
  }

  /** A first login goes by the normalised address, if it is verified. */
  lemma FirstLoginExactly(identity: VerifiedIdentity, email: string)
    ensures FirstLoginEmail(identity) == Ok(email) <==> InvitedAs(identity, email)
    ensures FirstLoginEmail(identity) == Err(EmailNotVerified) <==> !identity.emailVerified
    ensures FirstLoginEmail(identity) == Err(UserNotAllowed) <==> identity.emailVerified && identity.email.None?
    ensures FirstLoginEmail(identity) == Err(InvalidToken) <==>
              identity.emailVerified && identity.email.Some? && NormalizeEmail(identity.email.value).None?
  {
    hide NormalizeEmail;
  }

  /** The identity's verified address has this normal form. */
  ghost predicate InvitedAs(identity: VerifiedIdentity, email: string) {
    identity.emailVerified && identity.email.Some? && NormalizeEmail(identity.email.value) == Some(email)
  }

  // ---------------------------------------------------------------------------------------------
  // The transactions

  function ResolveBound(db: Database, identity: VerifiedIdentity, binding: BindingDoc): Result<UserContext, AuthError> {
    if binding.NoBindingData? then Err(ConfigurationError)
    else if (binding.issuer, binding.subject) != (Text(identity.issuer), Text(identity.subject)) then
      Err(ConfigurationError)
    else if !binding.email.Text? then Err(ConfigurationError)
    else match NormalizeEmail(binding.email.text)
      case None => Err(InvalidValue)
      case Some(key) =>
        if key !in db.users then Err(ConfigurationError)
        else match RecordFromData(binding.email.text, db.users[key])
          case Err(e) => Err(e)
          case Ok(user) =>
            if binding.userId != Text(user.userId) then Err(ConfigurationError) else Context(user, identity)
  }

  function BoundDoc(doc: UserDoc, identity: VerifiedIdentity): UserDoc
    requires doc.UserDoc?
  {
    doc.(issuer := Text(identity.issuer), subject := Text(identity.subject))
  }

  function BindFirst(db: Database, identity: VerifiedIdentity): (Database, Result<UserContext, AuthError>) {
    match FirstLoginEmail(identity)
    case Err(e) => (db, Err(e))
    case Ok(email) =>
      if email !in db.users then (db, Err(UserNotAllowed))
      else match RecordFromData(email, db.users[email])
        case Err(e) => (db, Err(e))
        case Ok(user) =>
          if user.status != Active then (db, Err(UserDisabled))
          else if (user.issuer.Some? || user.subject.Some?)
                  && (user.issuer, user.subject) != (Some(identity.issuer), Some(identity.subject)) then
            (db, Err(IdentityMismatch))
          else
            var users := if user.issuer.Some? || user.subject.Some? then db.users
                         else db.users[email := BoundDoc(db.users[email], identity)];
            var bound := user.(issuer := Some(identity.issuer), subject := Some(identity.subject));
            var binding := BindingDoc(Text(identity.issuer), Text(identity.subject), Text(email), Text(user.userId));
            match Context(bound, identity)
            case Err(e) => (db, Err(e))
            case Ok(context) =>
              (Database(users, db.bindings[(identity.issuer, identity.subject) := binding]), Ok(context))
  }

  function ResolveOrBind(db: Database, identity: VerifiedIdentity): (Database, Result<UserContext, AuthError>) {
    var key := (identity.issuer, identity.subject);
    if key in db.bindings then (db, ResolveBound(db, identity, db.bindings[key])) else BindFirst(db, identity)
  }

  function NewUserDoc(userId: string, datasetId: string): UserDoc {
    UserDoc(Text("disabled"), Text(userId), Text(datasetId), Absent, Absent)
  }

  function EnsureInvitation(db: Database, email: string, userId: string,
                            datasetId: string): (Database, Result<AllowedUser, AuthError>) {
    match NormalizeEmail(email)
    case None => (db, Err(InvalidValue))
    case Some(key) =>
      if key in db.users then (db, RecordFromData(key, db.users[key]))
      else (db.(users := db.users[key := NewUserDoc(userId, datasetId)]),
            Ok(AllowedUser(key, userId, datasetId, Disabled, None, None)))
  }

  function SetStatus(db: Database, email: string, status: Status): (Database, Result<AllowedUser, AuthError>) {
    match NormalizeEmail(email)
    case None => (db, Err(InvalidValue))
    case Some(key) =>
      if key !in db.users then (db, Err(UserNotAllowed))
      else match RecordFromData(key, db.users[key])
        case Err(e) => (db, Err(e))
        case Ok(user) =>
          (db.(users := db.users[key := db.users[key].(status := StatusField(status))]), Ok(user.(status := status)))
  }

  function ResetIdentity(db: Database, email: string,
                         expectedUserId: string): (Database, Result<AllowedUser, AuthError>) {
    match NormalizeEmail(email)
    case None => (db, Err(InvalidValue))
    case Some(key) =>
      if key !in db.users then (db, Err(UserNotAllowed))
      else match RecordFromData(key, db.users[key])
        case Err(e) => (db, Err(e))
        case Ok(user) =>
          if user.userId != expectedUserId then (db, Err(InvalidValue))
          else
            var bindings :=
              if user.issuer.Some? && user.subject.Some? then db.bindings - {(user.issuer.value, user.subject.value)}
              else db.bindings;
            (Database(db.users[key := db.users[key].(issuer := Absent, subject := Absent)], bindings),
             Ok(user.(issuer := None, subject := None)))
  }

  /** On any database, a login by a binding is granted exactly if the binding names this identity and an
      address whose record is active, carries the identity, and has the user the binding names. */
  lemma BoundLoginExactly(db: Database, identity: VerifiedIdentity, binding: BindingDoc, context: UserContext)
    ensures ResolveBound(db, identity, binding) == Ok(context) <==>
              && binding.BindingDoc? && binding.email.Text? && binding.userId == Text(context.userId)
              && binding.issuer == Text(identity.issuer) && binding.subject == Text(identity.subject)
              && NormalizeEmail(binding.email.text).Some? && NormalizeEmail(binding.email.text).value in db.users
              && var read := RecordFromData(binding.email.text, db.users[NormalizeEmail(binding.email.text).value]);
                 && read.Ok? && Grants(read.value, identity, context)
                 && (read.value.issuer, read.value.subject) == (Some(identity.issuer), Some(identity.subject))
  {
    hide NormalizeEmail, RecordFromData;
  }

  /** On any database, a first login is granted exactly if the record invited under the verified address is
      active and carries this identity or none. */
  lemma FirstLoginGrantedExactly(db: Database, identity: VerifiedIdentity, context: UserContext)
    ensures BindFirst(db, identity).1 == Ok(context) <==>
              exists email :: InvitedAs(identity, email) && email in db.users
                && var read := RecordFromData(email, db.users[email]);
                   && read.Ok? && Grants(read.value, identity, context)
                   && (read.value.issuer, read.value.subject)
                      in {(None, None), (Some(identity.issuer), Some(identity.subject))}
  {
    hide NormalizeEmail, RecordFromData;
    if FirstLoginEmail(identity).Ok? {
      assert InvitedAs(identity, FirstLoginEmail(identity).value);
    }
  }

  /** The record is that of an active user, and the context is the user's. */
  predicate Grants(user: AllowedUser, identity: VerifiedIdentity, context: UserContext) {
    user.status == Active && context == UserContext(user.userId, user.datasetId, identity.issuer, identity.subject)
  }

  // ---------------------------------------------------------------------------------------------
  // Consistency

  function Record(db: Database, email: string): AllowedUser
    requires email in db.users && RecordFromData(email, db.users[email]).Ok?
  {
    RecordFromData(email, db.users[email]).value
  }

  /** Every record parses under its own normalised address. */
  ghost predicate RecordsParse(db: Database) {
    forall e :: e in db.users ==> NormalizeEmail(e) == Some(e) && RecordFromData(e, db.users[e]).Ok?
  }

  ghost predicate BoundTo(db: Database, email: string, key: Key)
    requires RecordsParse(db)
  {
    email in db.users && (Record(db, email).issuer, Record(db, email).subject) == (Some(key.0), Some(key.1))
  }

  /** Each binding points to a record bound to its identity, and names that record's user. */
  ghost predicate BindingsPoint(db: Database)
    requires RecordsParse(db)
  {
    forall k :: k in db.bindings ==>
      && db.bindings[k].BindingDoc?
      && db.bindings[k].issuer == Text(k.0) && db.bindings[k].subject == Text(k.1)
      && db.bindings[k].email.Text?
      && BoundTo(db, db.bindings[k].email.text, k)
      && db.bindings[k].userId == Text(Record(db, db.bindings[k].email.text).userId)
  }

  /** Each bound record has the binding of its identity, pointing back to it. */
  ghost predicate RecordsPointBack(db: Database)
    requires RecordsParse(db)
  {
    forall e, k :: BoundTo(db, e, k) ==>
         k in db.bindings && db.bindings[k].BindingDoc? && db.bindings[k].email == Text(e)
  }

  ghost predicate IdentifiersUnique(db: Database)
    requires RecordsParse(db)
  {
    forall d, e :: d in db.users && e in db.users && d != e ==>
      Record(db, d).userId != Record(db, e).userId && Record(db, d).datasetId != Record(db, e).datasetId
  }

  ghost predicate Consistent(db: Database) {
    RecordsParse(db) && BindingsPoint(db) && RecordsPointBack(db) && IdentifiersUnique(db)
  }

  // ---------------------------------------------------------------------------------------------
  // Every transaction keeps the collections consistent

  /** Rewriting one record without touching its user or dataset. */
  ghost predicate SameIdentifiers(before: Database, after: Database)
    requires RecordsParse(before) && RecordsParse(after)
  {
    forall e :: e in before.users ==>
      e in after.users && Record(after, e).userId == Record(before, e).userId
      && Record(after, e).datasetId == Record(before, e).datasetId
  }

  ghost predicate FreshIdentifiers(db: Database, userId: string, datasetId: string)
    requires RecordsParse(db)
  {
    userId != "" && datasetId != ""
    && forall e :: e in db.users ==> Record(db, e).userId != userId && Record(db, e).datasetId != datasetId
  }

  /** One record is added or rewritten in a way that keeps identifiers unique. */
  lemma RewriteRecord(db: Database, after: Database, email: string, user: AllowedUser)
    requires RecordsParse(db) && IdentifiersUnique(db) && NormalizeEmail(email) == Some(email)
    requires email in after.users && after.users == db.users[email := after.users[email]]
    requires RecordFromData(email, after.users[email]) == Ok(user)
    requires if email in db.users
             then user.userId == Record(db, email).userId && user.datasetId == Record(db, email).datasetId
             else FreshIdentifiers(db, user.userId, user.datasetId)
    ensures RecordsParse(after) && IdentifiersUnique(after) && SameIdentifiers(db, after)
    ensures Record(after, email) == user
    ensures forall e, k :: e != email ==> (BoundTo(after, e, k) <==> BoundTo(db, e, k))
    ensures forall e :: e in db.users && e != email ==> Record(after, e) == Record(db, e)
  {
    hide RecordFromData, NormalizeEmail, IdentifiersUnique, FreshIdentifiers;
    assert forall e :: e in db.users && e != email ==> after.users[e] == db.users[e];
    RewriteKeepsUnique(db, after, email);
  }

  lemma RewriteKeepsUnique(db: Database, after: Database, email: string)
    requires RecordsParse(db) && IdentifiersUnique(db) && RecordsParse(after) && email in after.users
    requires after.users.Keys == db.users.Keys + {email}
    requires forall e :: e in db.users && e != email ==> Record(after, e) == Record(db, e)
    requires if email in db.users
             then Record(after, email).userId == Record(db, email).userId
                  && Record(after, email).datasetId == Record(db, email).datasetId
             else FreshIdentifiers(db, Record(after, email).userId, Record(after, email).datasetId)
    ensures IdentifiersUnique(after)
  {
    hide RecordFromData, NormalizeEmail, Record;
  }

  lemma BoundDocParses(db: Database, email: string, identity: VerifiedIdentity)
    requires RecordsParse(db) && email in db.users
    ensures db.users[email].UserDoc?
    ensures RecordFromData(email, BoundDoc(db.users[email], identity))
            == Ok(Record(db, email).(issuer := Some(identity.issuer), subject := Some(identity.subject)))
  {
  }

  /** What a first login does on a consistent database, branch by branch. */
  lemma BindFirstByCases(db: Database, identity: VerifiedIdentity)
    requires Consistent(db) && (identity.issuer, identity.subject) !in db.bindings
    ensures BindFirst(db, identity) ==
            match FirstLoginEmail(identity)
            case Err(e) => (db, Err(e))
            case Ok(email) =>
              if email !in db.users then (db, Err(UserNotAllowed))
              else
                var user := Record(db, email);
                if user.status != Active then (db, Err(UserDisabled))
                else if user.issuer.Some? then (db, Err(IdentityMismatch))
                else (Bound(db, email, identity),
                      Ok(UserContext(user.userId, user.datasetId, identity.issuer, identity.subject)))
  {
    var email := FirstLoginEmail(identity);
    if email.Ok? && email.value in db.users {
      NotYetBound(db, email.value, identity);
      UnboundDocParses(db, email.value);
    }
    hide Consistent, RecordFromData, FirstLoginEmail;
  }

  lemma NotYetBound(db: Database, email: string, identity: VerifiedIdentity)
    requires Consistent(db) && (identity.issuer, identity.subject) !in db.bindings && email in db.users
    ensures (Record(db, email).issuer, Record(db, email).subject) != (Some(identity.issuer), Some(identity.subject))
    ensures RecordFromData(email, db.users[email]) == Ok(Record(db, email))
  {
    assert !BoundTo(db, email, (identity.issuer, identity.subject));
  }

  lemma BindFirstKeepsConsistent(db: Database, identity: VerifiedIdentity)
    requires Consistent(db) && (identity.issuer, identity.subject) !in db.bindings
    ensures var (after, r) := BindFirst(db, identity);
            && Consistent(after) && SameIdentifiers(db, after)
            && (forall e, k :: BoundTo(db, e, k) ==> BoundTo(after, e, k))
            && (r.Err? ==> after == db && r.error in LoginErrors())
  {
    hide RecordFromData, NormalizeEmail, BindFirst, Bound;
    BindFirstByCases(db, identity);
    var email := FirstLoginEmail(identity);
    if email.Ok? && email.value in db.users && Record(db, email.value).issuer.None? {
      BindingKeepsConsistent(db, email.value, identity);
    }
  }

  /** The errors a login can end in on a consistent database. */
  function LoginErrors(): set<AuthError> {
    {EmailNotVerified, UserNotAllowed, InvalidToken, UserDisabled, IdentityMismatch}
  }

  function Bound(db: Database, email: string, identity: VerifiedIdentity): Database
    requires email in db.users && RecordFromData(email, db.users[email]).Ok?
  {
    Database(db.users[email := BoundDoc(db.users[email], identity)],
             db.bindings[(identity.issuer, identity.subject) :=
                           BindingDoc(Text(identity.issuer), Text(identity.subject), Text(email),
                                      Text(Record(db, email).userId))])
  }

  lemma BindingKeepsConsistent(db: Database, email: string, identity: VerifiedIdentity)
    requires Consistent(db) && email in db.users && Record(db, email).issuer.None?
    requires (identity.issuer, identity.subject) !in db.bindings
    ensures var after := Bound(db, email, identity);
            && Consistent(after) && SameIdentifiers(db, after)
            && Record(after, email)
               == Record(db, email).(issuer := Some(identity.issuer), subject := Some(identity.subject))
            && (forall e, k :: BoundTo(db, e, k) ==> BoundTo(after, e, k))
            && forall e :: e in db.users && e != email ==> Record(after, e) == Record(db, e)
  {
    hide RecordFromData, NormalizeEmail, BoundDoc;
    var after := Bound(db, email, identity);
    var key := (identity.issuer, identity.subject);
    BoundDocParses(db, email, identity);
    RewriteRecord(db, after, email,
                  Record(db, email).(issuer := Some(identity.issuer), subject := Some(identity.subject)));
    forall e, k | BoundTo(after, e, k)
      ensures k in after.bindings && after.bindings[k].BindingDoc? && after.bindings[k].email == Text(e)
    {
      assert if e == email then k == key else BoundTo(db, e, k);
    }
    forall k | k in db.bindings && k != key
      ensures BoundTo(after, db.bindings[k].email.text, k)
    {
      assert BoundTo(db, db.bindings[k].email.text, k);
    }
    assert BoundTo(after, email, key);
  }

  /** On a consistent database a bound login never meets a configuration error. */
  lemma ResolveBoundIsDirect(db: Database, identity: VerifiedIdentity)
    requires Consistent(db) && (identity.issuer, identity.subject) in db.bindings
    ensures var binding := db.bindings[(identity.issuer, identity.subject)];
            && binding.BindingDoc? && binding.email.Text? && binding.email.text in db.users
            && ResolveBound(db, identity, binding) ==
               (var user := Record(db, binding.email.text);
                if user.status == Active
                then Ok(UserContext(user.userId, user.datasetId, identity.issuer, identity.subject))
                else Err(UserDisabled))
  {
    var key := (identity.issuer, identity.subject);
    assert BoundTo(db, db.bindings[key].email.text, key);
  }

  /** A login keeps the collections consistent, never moves a binding, and on failure changes nothing;
      no branch for inconsistent configuration can be reached. */
  lemma LoginKeepsConsistent(db: Database, identity: VerifiedIdentity)
    requires Consistent(db)
    ensures var (after, r) := ResolveOrBind(db, identity);
            && Consistent(after) && SameIdentifiers(db, after)
            && (forall e, k :: BoundTo(db, e, k) ==> BoundTo(after, e, k))
            && (r.Err? ==> after == db && r.error in LoginErrors())
  {
    if (identity.issuer, identity.subject) in db.bindings {
      ResolveBoundIsDirect(db, identity);
    } else {
      BindFirstKeepsConsistent(db, identity);
    }
  }

  lemma InviteByCases(db: Database, email: string, userId: string, datasetId: string)
    requires RecordsParse(db) && userId != "" && datasetId != ""
    ensures EnsureInvitation(db, email, userId, datasetId) ==
            match NormalizeEmail(email)
            case None => (db, Err(InvalidValue))
            case Some(key) =>
              if key in db.users then (db, Ok(Record(db, key)))
              else (db.(users := db.users[key := NewUserDoc(userId, datasetId)]),
                    Ok(AllowedUser(key, userId, datasetId, Disabled, None, None)))
    ensures forall key ::
              RecordFromData(key, NewUserDoc(userId, datasetId))
              == Ok(AllowedUser(key, userId, datasetId, Disabled, None, None))
  {
  }

  lemma InviteKeepsConsistent(db: Database, email: string, userId: string, datasetId: string)
    requires Consistent(db) && FreshIdentifiers(db, userId, datasetId)
    ensures var (after, r) := EnsureInvitation(db, email, userId, datasetId);
            Consistent(after) && SameIdentifiers(db, after) && (r.Err? ==> after == db && r.error == InvalidValue)
  {
    hide EnsureInvitation, RecordFromData, NormalizeEmail, NewUserDoc;
    NormalFormIsStable(email);
    InviteByCases(db, email, userId, datasetId);
    var n := NormalizeEmail(email);
    if n.Some? && n.value !in db.users {
      var after := EnsureInvitation(db, email, userId, datasetId).0;
      RewriteRecord(db, after, n.value, AllowedUser(n.value, userId, datasetId, Disabled, None, None));
      forall k | k in db.bindings ensures BoundTo(after, db.bindings[k].email.text, k) {
        assert BoundTo(db, db.bindings[k].email.text, k);
      }
    }
  }

  lemma StatusDocParses(db: Database, email: string, status: Status)
    requires RecordsParse(db) && email in db.users
    ensures db.users[email].UserDoc?
    ensures RecordFromData(email, db.users[email].(status := StatusField(status)))
            == Ok(Record(db, email).(status := status))
  {
  }

  lemma StatusKeepsConsistent(db: Database, email: string, status: Status)
    requires Consistent(db)
    ensures var (after, r) := SetStatus(db, email, status);
            Consistent(after) && SameIdentifiers(db, after)
            && (r.Err? ==> after == db && r.error in {InvalidValue, UserNotAllowed})
  {
    hide RecordFromData, NormalizeEmail, StatusField;
    var n := NormalizeEmail(email);
    if n.Some? && n.value in db.users {
      NormalFormIsStable(email);
      StatusDocParses(db, n.value, status);
      var after := SetStatus(db, email, status).0;
      RewriteRecord(db, after, n.value, Record(db, n.value).(status := status));
      assert forall k :: BoundTo(after, n.value, k) <==> BoundTo(db, n.value, k);
      forall k | k in db.bindings ensures BoundTo(after, db.bindings[k].email.text, k) {
        assert BoundTo(db, db.bindings[k].email.text, k);
      }
    }
  }

  lemma UnboundDocParses(db: Database, email: string)
    requires RecordsParse(db) && email in db.users
    ensures db.users[email].UserDoc?
    ensures RecordFromData(email, db.users[email].(issuer := Absent, subject := Absent))
            == Ok(Record(db, email).(issuer := None, subject := None))
    ensures Record(db, email).issuer.Some? <==> Record(db, email).subject.Some?
  {
  }

  lemma ResetKeepsConsistent(db: Database, email: string, expectedUserId: string)
    requires Consistent(db)
    ensures var (after, r) := ResetIdentity(db, email, expectedUserId);
            Consistent(after) && SameIdentifiers(db, after)
            && (r.Err? ==> after == db && r.error in {InvalidValue, UserNotAllowed})
  {
    hide RecordFromData, NormalizeEmail;
    var n := NormalizeEmail(email);
    if n.Some? && n.value in db.users && Record(db, n.value).userId == expectedUserId {
      NormalFormIsStable(email);
      UnboundDocParses(db, n.value);
      OnlyBinding(db, n.value);
      UnbindingKeepsConsistent(db, n.value, db.users[n.value].(issuer := Absent, subject := Absent),
                               ResetIdentity(db, email, expectedUserId).0);
    }
  }

  lemma OnlyBinding(db: Database, email: string)
    requires Consistent(db) && email in db.users
    ensures var user := Record(db, email);
            (set k | k in db.bindings && BoundTo(db, email, k))
            == if user.issuer.Some? && user.subject.Some? then {(user.issuer.value, user.subject.value)} else {}
  {
    hide RecordFromData, NormalizeEmail;
    var user := Record(db, email);
    assert user.issuer.Some? && user.subject.Some? ==> BoundTo(db, email, (user.issuer.value, user.subject.value));
  }

  lemma UnbindingKeepsConsistent(db: Database, email: string, doc: UserDoc, after: Database)
    requires Consistent(db) && email in db.users && NormalizeEmail(email) == Some(email)
    requires RecordFromData(email, doc) == Ok(Record(db, email).(issuer := None, subject := None))
    requires after.users == db.users[email := doc]
    requires after.bindings == db.bindings - set k | k in db.bindings && BoundTo(db, email, k)
    ensures Consistent(after) && SameIdentifiers(db, after)
  {
    hide RecordFromData, NormalizeEmail;
    RewriteRecord(db, after, email, Record(db, email).(issuer := None, subject := None));
    forall e, k | BoundTo(after, e, k)
      ensures k in after.bindings && after.bindings[k].BindingDoc? && after.bindings[k].email == Text(e)
    {
      assert e != email && BoundTo(db, e, k);
    }
    forall k | k in after.bindings ensures BoundTo(after, after.bindings[k].email.text, k) {
      assert BoundTo(db, db.bindings[k].email.text, k);
    }
  }

  // ---------------------------------------------------------------------------------------------
  // What each transaction stores

  /** Only the record of this address may have changed. */
  ghost predicate OnlyRecord(before: Database, after: Database, email: string) {
    && after.users.Keys == before.users.Keys + {email}
    && forall e :: e in before.users && e != email ==> after.users[e] == before.users[e]
  }

  /** Changing a status stores and answers the record with that status and changes nothing else; an
      address that is malformed or unknown is refused. */
  lemma StatusIsStored(db: Database, email: string, status: Status)
    requires Consistent(db)
    ensures var (after, r) := SetStatus(db, email, status);
            match NormalizeEmail(email)
            case None => after == db && r == Err(InvalidValue)
            case Some(key) =>
              if key !in db.users then after == db && r == Err(UserNotAllowed)
              else
                && OnlyRecord(db, after, key) && after.bindings == db.bindings
                && r == Ok(Record(db, key).(status := status)) == RecordFromData(key, after.users[key])
  {
    hide RecordFromData, NormalizeEmail, StatusField, Consistent;
    var n := NormalizeEmail(email);
    if n.Some? && n.value in db.users {
      assert RecordsParse(db) by { ConsistentParses(db); }
      StatusDocParses(db, n.value, status);
      RecordOfUser(db, n.value);
    }
  }

  /** A new invitation stores a disabled, unbound record with the identifiers drawn; a repeated one
      answers the record there is. Nothing else changes. */
  lemma InvitationIsStored(db: Database, email: string, userId: string, datasetId: string)
    requires Consistent(db) && userId != "" && datasetId != ""
    ensures var (after, r) := EnsureInvitation(db, email, userId, datasetId);
            match NormalizeEmail(email)
            case None => after == db && r == Err(InvalidValue)
            case Some(key) =>
              if key in db.users then after == db && r == Ok(Record(db, key))
              else
                && OnlyRecord(db, after, key) && after.bindings == db.bindings
                && r == Ok(AllowedUser(key, userId, datasetId, Disabled, None, None))
                && r == RecordFromData(key, after.users[key])
  {
    hide RecordFromData, NormalizeEmail, NewUserDoc, EnsureInvitation, Consistent;
    ConsistentParses(db);
    InviteByCases(db, email, userId, datasetId);
  }

  /** Resetting an identity stores and answers the record without it and removes exactly the binding it
      had; a user identifier other than the expected one is refused. */
  lemma ResetIsStored(db: Database, email: string, expectedUserId: string)
    requires Consistent(db)
    ensures var (after, r) := ResetIdentity(db, email, expectedUserId);
            match NormalizeEmail(email)
            case None => after == db && r == Err(InvalidValue)
            case Some(key) =>
              if key !in db.users then after == db && r == Err(UserNotAllowed)
              else if Record(db, key).userId != expectedUserId then after == db && r == Err(InvalidValue)
              else
                && OnlyRecord(db, after, key)
                && r == Ok(Record(db, key).(issuer := None, subject := None)) == RecordFromData(key, after.users[key])
                && (forall k :: k in after.bindings <==> k in db.bindings && !BoundTo(db, key, k))
                && (forall k :: k in after.bindings ==> after.bindings[k] == db.bindings[k])
  {
    hide RecordFromData, NormalizeEmail;
    var n := NormalizeEmail(email);
    if n.Some? && n.value in db.users {
      UnboundDocParses(db, n.value);
      forall k | BoundTo(db, n.value, k) ensures k in db.bindings {
        MutuallyInverse(db, n.value, k);
      }
    }
  }

  /** A granted login stores the identity in its user's record and binds it, and changes nothing else. */
  lemma LoginIsStored(db: Database, identity: VerifiedIdentity, context: UserContext)
    requires Consistent(db) && ResolveOrBind(db, identity).1 == Ok(context)
    ensures var after := ResolveOrBind(db, identity).0;
            var key := (identity.issuer, identity.subject);
            exists e :: e in db.users && Record(db, e).userId == context.userId && OnlyRecord(db, after, e)
              && RecordFromData(e, after.users[e])
                 == Ok(Record(db, e).(issuer := Some(identity.issuer), subject := Some(identity.subject)))
              && after.bindings.Keys == db.bindings.Keys + {key}
              && forall k :: k in db.bindings ==> after.bindings[k] == db.bindings[k]
  {
    hide RecordFromData, NormalizeEmail, FirstLoginEmail, BindFirst, ResolveBound, BoundDoc;
    var key := (identity.issuer, identity.subject);
    if key in db.bindings {
      ResolveBoundIsDirect(db, identity);
      var e := db.bindings[key].email.text;
      MutuallyInverse(db, e, key);
      assert OnlyRecord(db, db, e) && db.bindings.Keys == db.bindings.Keys + {key};
      RecordOfUser(db, e);
    } else {
      BindFirstByCases(db, identity);
      var e := FirstLoginEmail(identity).value;
      BoundDocParses(db, e, identity);
      assert OnlyRecord(db, Bound(db, e, identity), e);
    }
  }

  lemma ConsistentParses(db: Database)
    requires Consistent(db)
    ensures RecordsParse(db)
  {
  }

  lemma RecordOfUser(db: Database, e: string)
    requires RecordsParse(db) && e in db.users
    ensures RecordFromData(e, db.users[e]) == Ok(Record(db, e))
  {
  }

  /** The record of this address is there and disabled. */
  ghost predicate IsDisabled(db: Database, key: string) {
    key in db.users && RecordFromData(key, db.users[key]).Ok? && Record(db, key).status == Disabled
  }

  /** While a user is disabled, no login is granted for that user or that dataset. */
  lemma DisabledIsRefused(db: Database, key: string, identity: VerifiedIdentity, context: UserContext)
    requires Consistent(db) && IsDisabled(db, key)
    requires context.userId == Record(db, key).userId || context.datasetId == Record(db, key).datasetId
    ensures ResolveOrBind(db, identity).1 != Ok(context)
  {
    hide RecordFromData, NormalizeEmail, BindFirst, ResolveBound, MayLogIn, ResolveOrBind;
    LoginGrantedExactly(db, identity, context);
  }

  /** Disabling a user takes effect. */
  lemma DisablingDisables(db: Database, email: string)
    requires Consistent(db) && SetStatus(db, email, Disabled).1.Ok?
    ensures NormalizeEmail(email).Some? && IsDisabled(SetStatus(db, email, Disabled).0, NormalizeEmail(email).value)
  {
    StatusIsStored(db, email, Disabled);
    hide RecordFromData, NormalizeEmail, SetStatus;
  }

  /** An identity that was reset is bound to nobody, and is granted a login again only as a first login
      under the verified address of an active, unbound record. */
  lemma ResetIdentityStartsOver(db: Database, email: string, expectedUserId: string, identity: VerifiedIdentity,
                                context: UserContext)
    requires Consistent(db) && ResetIdentity(db, email, expectedUserId).1.Ok?
    requires BoundTo(db, NormalizeEmail(email).value, (identity.issuer, identity.subject))
    ensures var after := ResetIdentity(db, email, expectedUserId).0;
            && Consistent(after) && (identity.issuer, identity.subject) !in after.bindings
            && (ResolveOrBind(after, identity).1 == Ok(context) <==>
                  exists e :: e in after.users && InvitedAs(identity, e)
                    && Record(after, e).status == Active && Record(after, e).issuer.None?
                    && context == UserContext(Record(after, e).userId, Record(after, e).datasetId,
                                              identity.issuer, identity.subject))
  {
    ResetIsStored(db, email, expectedUserId);
    ResetKeepsConsistent(db, email, expectedUserId);
    hide RecordFromData, NormalizeEmail, ResetIdentity, ResolveOrBind, InvitedAs;
    var after := ResetIdentity(db, email, expectedUserId).0;
    LoginGrantedExactly(after, identity, context);
    forall e ensures !BoundTo(after, e, (identity.issuer, identity.subject)) {
      MutuallyInverse(after, e, (identity.issuer, identity.subject));
    }
  }

  // ---------------------------------------------------------------------------------------------
  // Every run

  datatype Action =
    | Login(identity: VerifiedIdentity)
    | Invite(email: string, userId: string, datasetId: string)
    | ChangeStatus(email: string, status: Status)
    | Reset(email: string, expectedUserId: string)

  function Apply(db: Database, a: Action): Database {
    match a
    case Login(identity) => ResolveOrBind(db, identity).0
    case Invite(email, userId, datasetId) => EnsureInvitation(db, email, userId, datasetId).0
    case ChangeStatus(email, status) => SetStatus(db, email, status).0
    case Reset(email, expectedUserId) => ResetIdentity(db, email, expectedUserId).0
  }

  function Run(db: Database, actions: seq<Action>): Database {
    if actions == [] then db else Apply(Run(db, actions[..|actions| - 1]), actions[|actions| - 1])
  }

  /** Identifiers drawn at random for an invitation have not been used before. */
  ghost predicate DrawsFresh(db: Database, actions: seq<Action>)
    requires RecordsParse(db)
    decreases |actions|
  {
    actions != [] ==>
      && DrawsFresh(db, actions[..|actions| - 1])
      && var before := Run(db, actions[..|actions| - 1]);
         var a := actions[|actions| - 1];
         a.Invite? ==> RecordsParse(before) && FreshIdentifiers(before, a.userId, a.datasetId)
  }

  /** Any run of logins and administrative actions leaves the collections mutually inverse and never
      changes the user or dataset identifier of an address. */
  lemma {:induction false} RunKeepsConsistent(db: Database, actions: seq<Action>)
    requires Consistent(db) && DrawsFresh(db, actions)
    ensures Consistent(Run(db, actions)) && SameIdentifiers(db, Run(db, actions))
  {
    if actions != [] {
      var before := Run(db, actions[..|actions| - 1]);
      RunKeepsConsistent(db, actions[..|actions| - 1]);
      match actions[|actions| - 1] {
        case Login(identity) => LoginKeepsConsistent(before, identity);
        case Invite(email, userId, datasetId) => InviteKeepsConsistent(before, email, userId, datasetId);
        case ChangeStatus(email, status) => StatusKeepsConsistent(before, email, status);
        case Reset(email, expectedUserId) => ResetKeepsConsistent(before, email, expectedUserId);
      }
    }
  }

  /** Whatever is done after a user was disabled, short of activating that address again, the user stays
      disabled, and so every login for that user or dataset is refused. */
  lemma {:induction false} DisabledStaysOut(db: Database, key: string, actions: seq<Action>)
    requires Consistent(db) && DrawsFresh(db, actions) && IsDisabled(db, key)
    requires forall a :: a in actions && a.ChangeStatus? && a.status == Active ==> NormalizeEmail(a.email) != Some(key)
    ensures IsDisabled(Run(db, actions), key)
    ensures forall identity: VerifiedIdentity, context: UserContext :: context.userId == Record(db, key).userId
              ==> ResolveOrBind(Run(db, actions), identity).1 != Ok(context)
  {
    hide RecordFromData, NormalizeEmail, ResolveOrBind, Consistent, Record;
    RunKeepsConsistent(db, actions);
    if actions != [] {
      var before, last := actions[..|actions| - 1], actions[|actions| - 1];
      assert last in actions;
      DisabledStaysOut(db, key, before);
      RunKeepsConsistent(db, before);
      StepLeavesDisabled(Run(db, before), key, last);
    }
    forall identity: VerifiedIdentity, context: UserContext | context.userId == Record(db, key).userId
      ensures ResolveOrBind(Run(db, actions), identity).1 != Ok(context)
    {
      DisabledIsRefused(Run(db, actions), key, identity, context);
    }
  }

  lemma StepLeavesDisabled(db: Database, key: string, a: Action)
    requires Consistent(db) && IsDisabled(db, key)
    requires a.Invite? ==> a.userId != "" && a.datasetId != ""
    requires a.ChangeStatus? && a.status == Active ==> NormalizeEmail(a.email) != Some(key)
    ensures IsDisabled(Apply(db, a), key)
  {
    hide RecordFromData, NormalizeEmail, ResolveOrBind, EnsureInvitation, SetStatus, ResetIdentity;
    match a {
      case Login(identity) =>
        LoginKeepsConsistent(db, identity);
        if ResolveOrBind(db, identity).1.Ok? {
          LoginIsStored(db, identity, ResolveOrBind(db, identity).1.value);
        }
      case Invite(email, userId, datasetId) => InvitationIsStored(db, email, userId, datasetId);
      case ChangeStatus(email, status) => StatusIsStored(db, email, status);
      case Reset(email, expectedUserId) => ResetIsStored(db, email, expectedUserId);
    }
  }

  /** The two collections are inverse maps: an identity has a binding naming an address exactly when
      the record of that address carries the identity. */
  lemma MutuallyInverse(db: Database, e: string, k: Key)
    requires Consistent(db)
    ensures BoundTo(db, e, k) <==> k in db.bindings && db.bindings[k].BindingDoc? && db.bindings[k].email == Text(e)
  {
  }

  /** Exactly which logins are granted, and to whom: the active record already bound to the identity,
      or else the active unbound record invited under the verified address. */
  lemma LoginGrantedExactly(db: Database, identity: VerifiedIdentity, context: UserContext)
    requires Consistent(db)
    ensures ResolveOrBind(db, identity).1 == Ok(context) <==>
              exists e :: e in db.users && Record(db, e).status == Active
                && context
                   == UserContext(Record(db, e).userId, Record(db, e).datasetId, identity.issuer, identity.subject)
                && MayLogIn(db, e, identity)
  {
    hide RecordFromData, NormalizeEmail, BindFirst, ResolveBound, FirstLoginEmail, InvitedAs;
    forall e ensures FirstLoginEmail(identity) == Ok(e) <==> InvitedAs(identity, e) {
      FirstLoginExactly(identity, e);
    }
    var key := (identity.issuer, identity.subject);
    if key in db.bindings {
      ResolveBoundIsDirect(db, identity);
      var e := db.bindings[key].email.text;
      MutuallyInverse(db, e, key);
      assert MayLogIn(db, e, identity);
      assert forall d :: MayLogIn(db, d, identity) ==> d == e;
    } else {
      BindFirstByCases(db, identity);
      assert forall e :: MayLogIn(db, e, identity) ==> FirstLoginEmail(identity) == Ok(e);
      if FirstLoginEmail(identity).Ok? && FirstLoginEmail(identity).value in db.users {
        var e := FirstLoginEmail(identity).value;
        assert MayLogIn(db, e, identity) <==> Record(db, e).issuer.None?;
      }
    }
  }

  /** The record is bound to the identity, or unbound and invited under its verified address. */
  ghost predicate MayLogIn(db: Database, e: string, identity: VerifiedIdentity)
    requires RecordsParse(db)
  {
    || BoundTo(db, e, (identity.issuer, identity.subject))
    || (e in db.users && (identity.issuer, identity.subject) !in db.bindings
        && Record(db, e).issuer.None? && InvitedAs(identity, e))
  }
}
