/**
 Optimistic rotation of single-use refresh tokens (section 6 of RFC 6749) on one Tesla connection,
 under any interleaving of any number of callers.

 The Firestore transactions are functions on the stored document; a class applies them in place and a
 state machine interleaves them with the callers' other steps.
 */
module TokenRotation {
  import opened Wrappers

  /** Refresh tokens are serial numbers issued by the authorization server. */
  datatype TokenSet = TokenSet(access: string, refresh: nat, expiresAt: int)

  datatype Status = DiscoveryPending | Connected | ReauthorizationRequired

  datatype Connection = Connection(owner: string, id: string, tokens: TokenSet, version: nat, status: Status)

  datatype StoreError = NotConfigured | ConcurrentRotation | OwnershipInconsistent

  const ACCESS_TOKEN_REFRESH_SKEW := 60

  // ---------------------------------------------------------------------------------------------
  // The transactions

  function GetConnection(doc: Option<Connection>, owner: string): Result<Connection, StoreError> {
    match doc
    case None => Err(NotConfigured)
    case Some(c) => if c.owner == owner then Ok(c) else Err(OwnershipInconsistent)
  }

  function SaveConnection(doc: Option<Connection>, owner: string, newId: string, tokens: TokenSet): Connection {
    match doc
    case None => Connection(owner, newId, tokens, 1, DiscoveryPending)
    case Some(c) => Connection(owner, c.id, tokens, c.version + 1, DiscoveryPending)
  }

  /** Compare and set: commits only while the expected version is still stored. */
  function RotateTokens(doc: Option<Connection>, owner: string, expected: nat,
                        tokens: TokenSet): Result<Connection, StoreError> {
    match doc
    case None => Err(NotConfigured)
    case Some(c) =>
      if c.version != expected then Err(ConcurrentRotation)
      else if c.owner != owner then Err(OwnershipInconsistent)
      else Ok(c.(tokens := tokens, version := expected + 1, status := Connected))
  }

  /** The documents of all users, each changed only under its own key. */
  class ConnectionStore {
    var documents: map<string, Connection>

    constructor ()
      ensures documents == map[]
    {
      documents := map[];
    }

    function Document(owner: string): Option<Connection>
      reads this
    {
      if owner in documents then Some(documents[owner]) else None
    }

    method Get(owner: string) returns (r: Result<Connection, StoreError>)
      ensures r == GetConnection(Document(owner), owner)
      ensures r.Ok? <==> owner in documents && documents[owner].owner == owner
      ensures r.Ok? ==> r.value == documents[owner]
      ensures r.Err? ==> r.error == if owner in documents then OwnershipInconsistent else NotConfigured
    {
      if owner !in documents {
        return Err(NotConfigured);
      }
      var c := documents[owner];
      return if c.owner == owner then Ok(c) else Err(OwnershipInconsistent);
    }

    method Save(owner: string, newId: string, tokens: TokenSet) returns (saved: Connection)
      modifies this
      ensures saved == SaveConnection(old(Document(owner)), owner, newId, tokens)
      ensures documents == old(documents)[owner := saved]
      ensures saved.owner == owner && saved.tokens == tokens && saved.status == DiscoveryPending
      ensures if owner in old(documents)
              then saved.id == old(documents)[owner].id && saved.version == old(documents)[owner].version + 1
              else saved.id == newId && saved.version == 1
    {
      var version, id := 1, newId;
      if owner in documents {
        version, id := documents[owner].version + 1, documents[owner].id;
      }
      saved := Connection(owner, id, tokens, version, DiscoveryPending);
      documents := documents[owner := saved];
    }

    /** A conflicting rotation writes nothing. */
    method Rotate(owner: string, expected: nat, tokens: TokenSet) returns (r: Result<Connection, StoreError>)
      modifies this
      ensures r == RotateTokens(old(Document(owner)), owner, expected, tokens)
      ensures documents == if r.Ok? then old(documents)[owner := r.value] else old(documents)
      ensures r.Ok? <==> owner in old(documents) && old(documents)[owner].version == expected
                         && old(documents)[owner].owner == owner
      ensures r.Ok? ==>
                && r.value.tokens == tokens && r.value.version == expected + 1 && r.value.status == Connected
                && r.value.id == old(documents)[owner].id && r.value.owner == owner
      ensures r == Err(ConcurrentRotation) <==> owner in old(documents) && old(documents)[owner].version != expected
      ensures r == Err(NotConfigured) <==> owner !in old(documents)
    {
      if owner !in documents {
        return Err(NotConfigured);
      }
      var data := documents[owner];
      if data.version != expected {
        return Err(ConcurrentRotation);
      }
      if data.owner != owner {
        return Err(OwnershipInconsistent);
      }
      var updated := data.(tokens := tokens, version := expected + 1, status := Connected);
      documents := documents[owner := updated];
      return Ok(updated);
    }

    method SetStatus(owner: string, status: Status) returns (found: bool)
      modifies this
      ensures found <==> owner in old(documents)
      ensures documents == if found then old(documents)[owner := old(documents)[owner].(status := status)]
                           else old(documents)
    {
      found := owner in documents;
      if found {
        documents := documents[owner := documents[owner].(status := status)];
      }
    }
  }

  // ---------------------------------------------------------------------------------------------
  // Callers

  /** Where one call stands. `seen` is the connection it read. */
  datatype Caller =
    | Idle
    | HasRead(seen: Connection)
    | Refreshed(seen: Connection, rotated: TokenSet)      // holds the only copy of the successor tokens
    | ReplyLost(seen: Connection, rotated: TokenSet)      // the server rotated but the reply never arrived
    | Conflicted(seen: Connection)
    | Rejected(seen: Connection)
    | Authorizing(tokens: TokenSet)
    | Saved
    | Returned(result: Connection, refreshedFrom: Option<nat>)
    | Ended                                               // raised, or finished without handing out a token

  /** One successful write of tokens. */
  datatype Commit = Commit(tokens: TokenSet, byAuthorization: bool)

  /** `live` holds the refresh tokens the authorization server would accept; `log` the successful
      token writes so far, the first one first. */
  datatype World = World(doc: Option<Connection>, callers: seq<Caller>, next: nat, live: set<nat>, log: seq<Commit>)

  datatype Step =
    | Read(c: nat, force: bool, now: int)
    | Refresh(c: nat, access: string, expiresAt: int, delivered: bool)
    | RefreshUnavailable(c: nat)
    | CommitRotation(c: nat)
    | Reread(c: nat)
    | MarkReauthorization(c: nat)
    | ExchangeCode(c: nat, access: string, expiresAt: int)
    | Save(c: nat, newId: string)
    | Complete(c: nat)

  const OWNER := "owner"

  function Put(w: World, c: nat, caller: Caller): World
    requires c < |w.callers|
  {
    w.(callers := w.callers[c := caller])
  }

  function AfterRead(w: World, force: bool, now: int): Caller {
    match GetConnection(w.doc, OWNER)
    case Err(_) => Ended
    case Ok(conn) =>
      if conn.status == ReauthorizationRequired then Ended
      else if !force && conn.tokens.expiresAt > now + ACCESS_TOKEN_REFRESH_SKEW then Returned(conn, None)
      else HasRead(conn)
  }

  /** The server accepts each refresh token once. */
  function AfterRefresh(w: World, c: nat, seen: Connection, access: string, expiresAt: int, delivered: bool): World
    requires c < |w.callers|
  {
    if seen.tokens.refresh in w.live then
      var rotated := TokenSet(access, w.next, expiresAt);
      Put(w, c, if delivered then Refreshed(seen, rotated) else ReplyLost(seen, rotated))
        .(next := w.next + 1, live := w.live - {seen.tokens.refresh} + {w.next})
    else
      Put(w, c, Rejected(seen))
  }

  function AfterCommit(w: World, c: nat, seen: Connection, rotated: TokenSet): World
    requires c < |w.callers|
  {
    match RotateTokens(w.doc, OWNER, seen.version, rotated)
    case Ok(conn) =>
      Put(w, c, Returned(conn, Some(seen.version))).(doc := Some(conn), log := w.log + [Commit(rotated, false)])
    case Err(ConcurrentRotation) => Put(w, c, Conflicted(seen))
    case Err(_) => Put(w, c, Ended)
  }

  function WithStatus(doc: Option<Connection>, status: Status): Option<Connection> {
    match doc
    case None => None
    case Some(c) => Some(c.(status := status))
  }

  /** Steps that are not enabled leave the world alone. */
  function Next(w: World, step: Step): World {
    if step.c >= |w.callers| then w else
    match (step, w.callers[step.c])
    case (Read(c, force, now), Idle) => Put(w, c, AfterRead(w, force, now))
    case (Refresh(c, access, expiresAt, delivered), HasRead(seen)) =>
      AfterRefresh(w, c, seen, access, expiresAt, delivered)
    case (RefreshUnavailable(c), HasRead(_)) => Put(w, c, Ended)
    case (CommitRotation(c), Refreshed(seen, rotated)) => AfterCommit(w, c, seen, rotated)
    case (Reread(c), Conflicted(seen)) =>
      Put(w, c, match GetConnection(w.doc, OWNER)
                case Ok(conn) => Returned(conn, Some(seen.version))
                case Err(_) => Ended)
    case (MarkReauthorization(c), Rejected(_)) => Put(w, c, Ended).(doc := WithStatus(w.doc, ReauthorizationRequired))
    case (ExchangeCode(c, access, expiresAt), Idle) =>
      Put(w, c, Authorizing(TokenSet(access, w.next, expiresAt))).(next := w.next + 1, live := w.live + {w.next})
    case (Save(c, newId), Authorizing(tokens)) =>
      Put(w, c, Saved).(doc := Some(SaveConnection(w.doc, OWNER, newId, tokens)), log := w.log + [Commit(tokens, true)])
    case (Complete(c), Saved) => Put(w, c, Ended).(doc := WithStatus(w.doc, Connected))
    case _ => w
  }

  function Run(w: World, steps: seq<Step>): World {
    if steps == [] then w else Next(Run(w, steps[..|steps| - 1]), steps[|steps| - 1])
  }

  function Start(callers: nat): World {
    World(None, seq(callers, _ => Idle), 0, {}, [])
  }

  // ---------------------------------------------------------------------------------------------
  // The invariant

  /** The connection is one that was committed under its version. */
  ghost predicate Logged(log: seq<Commit>, conn: Connection) {
    1 <= conn.version <= |log| && log[conn.version - 1].tokens == conn.tokens
  }

  /** The refresh token this caller has spent without committing yet. */
  function Spent(caller: Caller): Option<nat> {
    match caller
    case Refreshed(seen, _) => Some(seen.tokens.refresh)
    case ReplyLost(seen, _) => Some(seen.tokens.refresh)
    case _ => None
  }

  /** The unstored refresh token this caller was issued. */
  function Held(caller: Caller): Option<nat> {
    match caller
    case Refreshed(_, rotated) => Some(rotated.refresh)
    case ReplyLost(_, rotated) => Some(rotated.refresh)
    case Authorizing(tokens) => Some(tokens.refresh)
    case _ => None
  }

  ghost predicate Superseded(log: seq<Commit>, seen: Connection) {
    seen.version < |log| ==> log[seen.version].byAuthorization
  }

  ghost predicate CallerOk(log: seq<Commit>, live: set<nat>, caller: Caller) {
    && (Held(caller).Some? ==> Held(caller).value in live)
    && (Spent(caller).Some? ==> Spent(caller).value !in live)
    && match caller
       case HasRead(seen) => Logged(log, seen)
       case Refreshed(seen, _) => Logged(log, seen) && Superseded(log, seen)
       case ReplyLost(seen, _) => Logged(log, seen)
       case Conflicted(seen) => Logged(log, seen) && seen.version < |log| && log[seen.version].byAuthorization
       case Rejected(seen) => Logged(log, seen) && seen.tokens.refresh !in live
       case Returned(result, from) => Logged(log, result) && (from.Some? ==> from.value < result.version)
       case _ => true
  }

  ghost predicate CallersOk(w: World) {
    forall i :: 0 <= i < |w.callers| ==> CallerOk(w.log, w.live, w.callers[i])
  }

  /** No token is held twice, spent twice, or both held and stored. */
  ghost predicate TokensApart(w: World) {
    && (forall i, j :: 0 <= i < j < |w.callers| && Held(w.callers[i]).Some? ==>
             Held(w.callers[i]) != Held(w.callers[j]))
    && (forall i, j :: 0 <= i < j < |w.callers| && Spent(w.callers[i]).Some? ==>
             Spent(w.callers[i]) != Spent(w.callers[j]))
    && (forall i, k :: 0 <= i < |w.callers| && 0 <= k < |w.log| ==> Held(w.callers[i]) != Some(w.log[k].tokens.refresh))
    && (forall i :: 0 <= i < |w.callers| && Held(w.callers[i]).Some? ==> Held(w.callers[i]).value < w.next)
  }

  ghost predicate LogOk(w: World) {
    && (forall j, k :: 0 <= j < k < |w.log| ==> w.log[j].tokens.refresh != w.log[k].tokens.refresh)
    && (forall k :: 0 <= k < |w.log| ==> w.log[k].tokens.refresh < w.next)
    && (forall k :: 0 < k < |w.log| && !w.log[k].byAuthorization ==> w.log[k - 1].tokens.refresh !in w.live)
    && (forall t :: t in w.live ==> t < w.next)
  }

  /** The stored document is the latest committed one and its version counts the commits. */
  ghost predicate DocumentOk(w: World) {
    match w.doc
    case None => w.log == []
    case Some(conn) => conn.owner == OWNER && conn.version == |w.log| && Logged(w.log, conn)
  }

  /** The stored refresh token is usable, or one caller has spent it and holds its successor. */
  ghost predicate NotStranded(w: World) {
    w.doc.Some? ==>
      || w.doc.value.tokens.refresh in w.live
      || exists i :: 0 <= i < |w.callers| && Spent(w.callers[i]) == Some(w.doc.value.tokens.refresh)
  }

  ghost predicate Inv(w: World) {
    CallersOk(w) && TokensApart(w) && LogOk(w) && DocumentOk(w) && NotStranded(w)
  }

  lemma StartIsFine(callers: nat)
    ensures Inv(Start(callers))
  {
  }

  ghost predicate Quiet(caller: Caller) {
    Held(caller) == None && Spent(caller) == None
  }

  lemma QuietApart(w: World, c: nat, caller: Caller)
    requires c < |w.callers| && TokensApart(w) && Quiet(caller)
    ensures TokensApart(Put(w, c, caller))
  {
  }

  /** Replacing a caller by one that holds and spends nothing keeps the invariant, unless the caller
      had spent the stored token. */
  lemma PutQuiet(w: World, c: nat, caller: Caller)
    requires c < |w.callers| && Inv(w) && CallerOk(w.log, w.live, caller) && Quiet(caller)
    requires w.doc.Some? ==> Spent(w.callers[c]) != Some(w.doc.value.tokens.refresh)
    ensures Inv(Put(w, c, caller))
  {
    hide TokensApart, CallerOk;
    var after := Put(w, c, caller);
    QuietApart(w, c, caller);
    if w.doc.Some? && w.doc.value.tokens.refresh !in w.live {
      var i :| 0 <= i < |w.callers| && Spent(w.callers[i]) == Some(w.doc.value.tokens.refresh);
      assert after.callers[i] == w.callers[i];
    }
  }

  /** A status write changes neither tokens nor version. */
  lemma StatusKeepsInv(w: World, status: Status)
    requires Inv(w)
    ensures Inv(w.(doc := WithStatus(w.doc, status)))
  {
  }

  lemma ReadIsFine(w: World, force: bool, now: int)
    requires DocumentOk(w)
    ensures CallerOk(w.log, w.live, AfterRead(w, force, now))
    ensures Quiet(AfterRead(w, force, now))
  {
  }

  lemma RefreshKeepsInv(w: World, c: nat, access: string, expiresAt: int, delivered: bool)
    requires Inv(w) && c < |w.callers| && w.callers[c].HasRead?
    ensures Inv(AfterRefresh(w, c, w.callers[c].seen, access, expiresAt, delivered))
  {
    var seen := w.callers[c].seen;
    if seen.tokens.refresh !in w.live {
      PutQuiet(w, c, Rejected(seen));
    } else {
      RefreshedApart(w, c, access, expiresAt, delivered);
    }
  }

  /** A caller newly issued a token, having spent at most one that was live. */
  function Issued(w: World, c: nat, caller: Caller, spent: set<nat>): World
    requires c < |w.callers|
  {
    Put(w, c, caller).(next := w.next + 1, live := w.live - spent + {w.next})
  }

  lemma IssuedApart(w: World, c: nat, caller: Caller, spent: set<nat>)
    requires c < |w.callers| && TokensApart(w) && LogOk(w) && Held(caller) == Some(w.next)
    requires forall i :: 0 <= i < |w.callers| && i != c && Spent(w.callers[i]).Some? ==>
              Spent(w.callers[i]) != Spent(caller)
    ensures TokensApart(Issued(w, c, caller, spent)) && LogOk(Issued(w, c, caller, spent))
  {
  }

  lemma IssuedCallersOk(w: World, c: nat, caller: Caller, spent: set<nat>)
    requires c < |w.callers| && CallersOk(w) && TokensApart(w) && LogOk(w)
    requires CallerOk(w.log, w.live - spent + {w.next}, caller)
    requires forall t :: t in spent ==> exists k :: 0 <= k < |w.log| && w.log[k].tokens.refresh == t
    ensures CallersOk(Issued(w, c, caller, spent))
  {
  }

  lemma RefreshedApart(w: World, c: nat, access: string, expiresAt: int, delivered: bool)
    requires Inv(w) && c < |w.callers| && w.callers[c].HasRead? && w.callers[c].seen.tokens.refresh in w.live
    ensures Inv(AfterRefresh(w, c, w.callers[c].seen, access, expiresAt, delivered))
  {
    hide CallersOk, TokensApart;
    var seen := w.callers[c].seen;
    var after := AfterRefresh(w, c, seen, access, expiresAt, delivered);
    var spent := seen.tokens.refresh;
    NobodySpentLive(w, c);
    assert w.log[seen.version - 1].tokens.refresh == spent;
    assert after == Issued(w, c, after.callers[c], {spent});
    assert CallerOk(after.log, after.live, after.callers[c]);
    IssuedCallersOk(w, c, after.callers[c], {spent});
    IssuedApart(w, c, after.callers[c], {spent});
    if w.doc.Some? {
      if w.doc.value.tokens.refresh == spent {
        assert Spent(after.callers[c]) == Some(spent);
      } else if w.doc.value.tokens.refresh !in w.live {
        var i :| 0 <= i < |w.callers| && Spent(w.callers[i]) == Some(w.doc.value.tokens.refresh);
        assert i != c && after.callers[i] == w.callers[i];
      }
    }
  }

  lemma NobodySpentLive(w: World, c: nat)
    requires CallersOk(w) && c < |w.callers|
    ensures CallerOk(w.log, w.live, w.callers[c])
    ensures forall i :: 0 <= i < |w.callers| && Spent(w.callers[i]).Some? ==> Spent(w.callers[i]).value !in w.live
  {
  }

  /** A token write by a caller that held exactly those tokens. */
  lemma WriteKeepsInv(w: World, c: nat, conn: Connection, entry: Commit, caller: Caller)
    requires Inv(w) && c < |w.callers| && Held(w.callers[c]) == Some(entry.tokens.refresh)
    requires conn.owner == OWNER && conn.version == |w.log| + 1 && conn.tokens == entry.tokens
    requires !entry.byAuthorization ==>
               w.doc.Some? && Spent(w.callers[c]) == Some(w.doc.value.tokens.refresh)
    requires Quiet(caller)
    requires CallerOk(w.log + [entry], w.live, caller)
    ensures Inv(Put(w, c, caller).(doc := Some(conn), log := w.log + [entry]))
  {
    WriteKeepsCallers(w, c, conn, entry, caller);
    WriteKeepsApart(w, c, conn, entry, caller);
    WriteKeepsLog(w, c, conn, entry, caller);
    hide CallersOk, TokensApart, LogOk;
    assert (w.log + [entry])[conn.version - 1] == entry;
    NewestIsLive(w, c, entry);
  }

  lemma WriteKeepsCallers(w: World, c: nat, conn: Connection, entry: Commit, caller: Caller)
    requires Inv(w) && c < |w.callers| && Held(w.callers[c]) == Some(entry.tokens.refresh)
    requires conn.owner == OWNER && conn.version == |w.log| + 1 && conn.tokens == entry.tokens
    requires !entry.byAuthorization ==>
               w.doc.Some? && Spent(w.callers[c]) == Some(w.doc.value.tokens.refresh)
    requires Quiet(caller)
    requires CallerOk(w.log + [entry], w.live, caller)
    ensures CallersOk(Put(w, c, caller).(doc := Some(conn), log := w.log + [entry]))
  {
    hide TokensApart, LogOk, DocumentOk, NotStranded;
    var after := Put(w, c, caller).(doc := Some(conn), log := w.log + [entry]);
    forall i | 0 <= i < |w.callers| && i != c
      ensures CallerOk(after.log, after.live, after.callers[i])
    {
      assert CallerOk(w.log, w.live, w.callers[i]);
      SeenIsSuperseded(w, c, i, entry);
    }
  }

  lemma WriteKeepsApart(w: World, c: nat, conn: Connection, entry: Commit, caller: Caller)
    requires Inv(w) && c < |w.callers| && Held(w.callers[c]) == Some(entry.tokens.refresh)
    requires conn.owner == OWNER && conn.version == |w.log| + 1 && conn.tokens == entry.tokens
    requires !entry.byAuthorization ==>
               w.doc.Some? && Spent(w.callers[c]) == Some(w.doc.value.tokens.refresh)
    requires Quiet(caller)
    requires CallerOk(w.log + [entry], w.live, caller)
    ensures TokensApart(Put(w, c, caller).(doc := Some(conn), log := w.log + [entry]))
  {
    hide CallerOk, LogOk, DocumentOk, NotStranded;
  }

  lemma WriteKeepsLog(w: World, c: nat, conn: Connection, entry: Commit, caller: Caller)
    requires Inv(w) && c < |w.callers| && Held(w.callers[c]) == Some(entry.tokens.refresh)
    requires conn.owner == OWNER && conn.version == |w.log| + 1 && conn.tokens == entry.tokens
    requires !entry.byAuthorization ==>
               w.doc.Some? && Spent(w.callers[c]) == Some(w.doc.value.tokens.refresh)
    requires Quiet(caller)
    requires CallerOk(w.log + [entry], w.live, caller)
    ensures LogOk(Put(w, c, caller).(doc := Some(conn), log := w.log + [entry]))
  {
    hide NotStranded;
    assert CallerOk(w.log, w.live, w.callers[c]);
  }

  lemma NewestIsLive(w: World, c: nat, entry: Commit)
    requires Inv(w) && c < |w.callers| && Held(w.callers[c]) == Some(entry.tokens.refresh)
    ensures entry.tokens.refresh in w.live
  {
    assert CallerOk(w.log, w.live, w.callers[c]);
  }

  /** Nobody else can have spent the token whose successor is now being committed. */
  lemma SeenIsSuperseded(w: World, c: nat, i: nat, entry: Commit)
    requires Inv(w) && c < |w.callers| && i < |w.callers| && i != c
    requires !entry.byAuthorization ==>
               w.doc.Some? && Spent(w.callers[c]) == Some(w.doc.value.tokens.refresh)
    ensures w.callers[i].Refreshed? ==> Superseded(w.log + [entry], w.callers[i].seen)
  {
  }

  lemma CommitKeepsInv(w: World, c: nat)
    requires Inv(w) && c < |w.callers| && w.callers[c].Refreshed?
    ensures Inv(AfterCommit(w, c, w.callers[c].seen, w.callers[c].rotated))
  {
    var seen, rotated := w.callers[c].seen, w.callers[c].rotated;
    assert CallerOk(w.log, w.live, w.callers[c]);
    match RotateTokens(w.doc, OWNER, seen.version, rotated) {
      case Ok(conn) =>
        assert w.log[seen.version - 1].tokens == w.doc.value.tokens;
        WriteKeepsInv(w, c, conn, Commit(rotated, false), Returned(conn, Some(seen.version)));
      case Err(e) =>
        assert e == ConcurrentRotation && seen.version < |w.log|;
        ConflictKeepsInv(w, c);
    }
  }

  lemma ConflictKeepsInv(w: World, c: nat)
    requires Inv(w) && c < |w.callers| && w.callers[c].Refreshed? && w.callers[c].seen.version < |w.log|
    ensures Inv(Put(w, c, Conflicted(w.callers[c].seen)))
  {
    hide TokensApart;
    assert CallerOk(w.log, w.live, w.callers[c]);
    assert w.log[w.callers[c].seen.version - 1].tokens.refresh != w.log[|w.log| - 1].tokens.refresh;
    PutQuiet(w, c, Conflicted(w.callers[c].seen));
  }

  lemma ExchangeKeepsInv(w: World, c: nat, access: string, expiresAt: int)
    requires Inv(w) && c < |w.callers| && w.callers[c].Idle?
    ensures Inv(Next(w, ExchangeCode(c, access, expiresAt)))
  {
    hide CallersOk, TokensApart;
    var after := Next(w, ExchangeCode(c, access, expiresAt));
    assert after == Issued(w, c, after.callers[c], {});
    IssuedCallersOk(w, c, after.callers[c], {});
    IssuedApart(w, c, after.callers[c], {});
    if w.doc.Some? && w.doc.value.tokens.refresh !in w.live {
      var i :| 0 <= i < |w.callers| && Spent(w.callers[i]) == Some(w.doc.value.tokens.refresh);
      assert after.callers[i] == w.callers[i];
    }
  }

  /** Every step keeps the invariant. */
  lemma StepKeepsInv(w: World, step: Step)
    requires Inv(w)
    ensures Inv(Next(w, step))
  {
    hide Inv, CallersOk, DocumentOk, LogOk, TokensApart, NotStranded, CallerOk, AfterRead, AfterRefresh, AfterCommit;
    if step.c < |w.callers| {
      var c := step.c;
      match (step, w.callers[c]) {
        case (Read(_, force, now), Idle) =>
          InvParts(w, c);
          ReadIsFine(w, force, now);
          PutQuiet(w, c, AfterRead(w, force, now));
        case (Refresh(_, access, expiresAt, delivered), HasRead(seen)) =>
          RefreshKeepsInv(w, c, access, expiresAt, delivered);
        case (RefreshUnavailable(_), HasRead(_)) =>
          InvParts(w, c);
          PutQuiet(w, c, Ended);
        case (CommitRotation(_), Refreshed(seen, rotated)) =>
          CommitKeepsInv(w, c);
        case (Reread(_), Conflicted(seen)) =>
          RereadIsFine(w, c);
          PutQuiet(w, c, Next(w, step).callers[c]);
        case (MarkReauthorization(_), Rejected(_)) =>
          InvParts(w, c);
          PutQuiet(w, c, Ended);
          StatusKeepsInv(Put(w, c, Ended), ReauthorizationRequired);
        case (ExchangeCode(_, access, expiresAt), Idle) =>
          ExchangeKeepsInv(w, c, access, expiresAt);
        case (Save(_, newId), Authorizing(tokens)) =>
          SaveKeepsInv(w, c, newId);
        case (Complete(_), Saved) =>
          InvParts(w, c);
          PutQuiet(w, c, Ended);
          StatusKeepsInv(Put(w, c, Ended), Connected);
        case _ =>
      }
    }
  }

  lemma InvParts(w: World, c: nat)
    requires Inv(w) && c < |w.callers|
    ensures DocumentOk(w) && CallerOk(w.log, w.live, w.callers[c]) && CallerOk(w.log, w.live, Ended) && Quiet(Ended)
  {
  }

  lemma RereadIsFine(w: World, c: nat)
    requires Inv(w) && c < |w.callers| && w.callers[c].Conflicted?
    ensures var caller := Next(w, Reread(c)).callers[c];
            CallerOk(w.log, w.live, caller) && Quiet(caller) && caller.Returned?
  {
  }

  lemma SaveKeepsInv(w: World, c: nat, newId: string)
    requires Inv(w) && c < |w.callers| && w.callers[c].Authorizing?
    ensures Inv(Next(w, Save(c, newId)))
  {
    var tokens := w.callers[c].tokens;
    WriteKeepsInv(w, c, SaveConnection(w.doc, OWNER, newId, tokens), Commit(tokens, true), Saved);
  }

  lemma {:induction false} RunKeepsInv(w: World, steps: seq<Step>)
    requires Inv(w)
    ensures Inv(Run(w, steps))
  {
    if steps != [] {
      RunKeepsInv(w, steps[..|steps| - 1]);
      StepKeepsInv(Run(w, steps[..|steps| - 1]), steps[|steps| - 1]);
    }
  }

  // ---------------------------------------------------------------------------------------------
  // One caller among others

  /** Another caller's step leaves this caller where it stands. */
  lemma OthersLeaveCaller(w: World, step: Step, c: nat)
    requires c < |w.callers| && step.c != c
    ensures |Next(w, step).callers| == |w.callers| && Next(w, step).callers[c] == w.callers[c]
  {
  }

  /** What is stored may not be used: there is nothing, it is somebody else's, or it has been marked. */
  predicate Refuses(doc: Option<Connection>) {
    doc.None? || doc.value.owner != "owner" || doc.value.status == ReauthorizationRequired
  }

  /** The access token may be handed out as it is: no refresh is forced, and a minute from now it is valid. */
  predicate Fresh(conn: Connection, force: bool, now: int) {
    !force && conn.tokens.expiresAt > now + 60
  }

  /** A read ends the call if what is stored may not be used, hands it out if it is fresh, and otherwise
      goes on to refresh it. It changes nothing but where the caller stands. */
  lemma ReadExactly(w: World, c: nat, force: bool, now: int)
    requires c < |w.callers| && w.callers[c].Idle?
    ensures Next(w, Read(c, force, now))
            == w.(callers := w.callers[c :=
                 if Refuses(w.doc) then Ended
                 else if Fresh(w.doc.value, force, now) then Returned(w.doc.value, None)
                 else HasRead(w.doc.value)])
  {
  }

  /** A refresh spends a token the server accepts on a new one, whether or not the reply arrives; any
      other token is rejected. Nothing is stored yet. */
  lemma RefreshExactly(w: World, c: nat, access: string, expiresAt: int, delivered: bool)
    requires c < |w.callers| && w.callers[c].HasRead?
    ensures var seen := w.callers[c].seen;
            var after := Next(w, Refresh(c, access, expiresAt, delivered));
            && after == w.(callers := w.callers[c := after.callers[c]], live := after.live, next := after.next)
            && if seen.tokens.refresh in w.live then
                 && after.next == w.next + 1 && after.live == w.live - {seen.tokens.refresh} + {w.next}
                 && after.callers[c].seen == seen && after.callers[c].rotated == TokenSet(access, w.next, expiresAt)
                 && if delivered then after.callers[c].Refreshed? else after.callers[c].ReplyLost?
               else after.next == w.next && after.live == w.live && after.callers[c] == Rejected(seen)
  {
  }

  /** A commit stores the new tokens under the next version if the version read is still stored, and
      otherwise changes nothing. */
  lemma CommitExactly(w: World, c: nat)
    requires Inv(w) && c < |w.callers| && w.callers[c].Refreshed?
    ensures var (seen, rotated) := (w.callers[c].seen, w.callers[c].rotated);
            var after := Next(w, CommitRotation(c));
            && w.doc.Some?
            && if w.doc.value.version == seen.version then
                 && after.doc == Some(w.doc.value.(tokens := rotated, version := seen.version + 1, status := Connected))
                 && after.callers == w.callers[c := Returned(after.doc.value, Some(seen.version))]
                 && after.log == w.log + [Commit(rotated, false)] && after.live == w.live
               else after == w.(callers := w.callers[c := Conflicted(seen)])
  {
    InvParts(w, c);
    hide Inv;
  }

  /** Reading again after a conflict hands out what is stored then. */
  lemma RereadExactly(w: World, c: nat)
    requires Inv(w) && c < |w.callers| && w.callers[c].Conflicted?
    ensures w.doc.Some?
    ensures Next(w, Reread(c))
            == w.(callers := w.callers[c := Returned(w.doc.value, Some(w.callers[c].seen.version))])
  {
    InvParts(w, c);
    hide Inv;
  }

  /** An authorization obtains tokens, stores them under the next version with the connection's identifier
      kept, and marks the connection as connected once discovery is complete. */
  lemma AuthorizationExactly(w: World, c: nat, access: string, expiresAt: int, newId: string)
    requires c < |w.callers|
    ensures w.callers[c].Idle? ==>
              Next(w, ExchangeCode(c, access, expiresAt))
              == w.(callers := w.callers[c := Authorizing(TokenSet(access, w.next, expiresAt))],
                    next := w.next + 1, live := w.live + {w.next})
    ensures w.callers[c].Authorizing? ==>
              var after := Next(w, Save(c, newId));
              && after.callers == w.callers[c := Saved] && after.live == w.live && after.doc.Some?
              && after.log == w.log + [Commit(w.callers[c].tokens, true)]
              && after.doc.value.owner == "owner" && after.doc.value.tokens == w.callers[c].tokens
              && after.doc.value.status == DiscoveryPending
              && after.doc.value.id == (if w.doc.Some? then w.doc.value.id else newId)
              && after.doc.value.version == (if w.doc.Some? then w.doc.value.version + 1 else 1)
    ensures w.callers[c].Saved? ==>
              var after := Next(w, Complete(c));
              && after == w.(callers := w.callers[c := Ended], doc := after.doc)
              && (w.doc.None? <==> after.doc.None?)
              && (w.doc.Some? ==> after.doc == Some(w.doc.value.(status := Connected)))
  {
  }

  /** Marking changes the stored status and nothing else. */
  lemma MarkExactly(w: World, c: nat)
    requires c < |w.callers| && w.callers[c].Rejected? && w.doc.Some?
    ensures Next(w, MarkReauthorization(c))
            == w.(callers := w.callers[c := Ended], doc := Some(w.doc.value.(status := ReauthorizationRequired)))
  {
  }

  /** A call that cannot reach the server ends and changes nothing. */
  lemma EndsExactly(w: World, c: nat)
    requires c < |w.callers| && w.callers[c].HasRead?
    ensures Next(w, RefreshUnavailable(c)) == w.(callers := w.callers[c := Ended])
  {
  }

  lemma RejectedIsStored(w: World, c: nat)
    requires Inv(w) && c < |w.callers| && w.callers[c].Rejected?
    ensures w.doc.Some?
  {
    InvParts(w, c);
  }

  /** The world was passed through since there were `from` of them. */
  ghost predicate Visited(past: seq<World>, from: nat, w: World) {
    exists i :: from <= i < |past| && past[i] == w
  }

  /** Since then the server would not accept the refresh token of the connection this caller had read. */
  ghost predicate Spurned(past: seq<World>, from: nat, c: nat, conn: Connection) {
    exists i :: from <= i < |past| && c < |past[i].callers| && past[i].callers[c] == HasRead(conn)
                && conn.tokens.refresh !in past[i].live
  }

  /** The credential provider while other callers act between any two of its steps. */
  class TokenService {
    var world: World
    /** Every world passed through, the present one last, and how often the server could not be reached. */
    ghost var past: seq<World>
    ghost var outages: nat

    ghost predicate Valid()
      reads this
    {
      Inv(world) && past != [] && past[|past| - 1] == world
    }

    constructor (callers: nat)
      ensures Valid() && world == Start(callers)
    {
      StartIsFine(callers);
      world := Start(callers);
      past, outages := [Start(callers)], 0;
    }

    /** Any number of steps by anybody else. */
    method Interfere(c: nat)
      requires Valid() && c < |world.callers|
      modifies this`world, this`past
      ensures Valid() && c < |world.callers| && world.callers[c] == old(world).callers[c]
      ensures old(world).log <= world.log && old(past) <= past
    {
      hide Inv, Next;
      var steps: seq<Step> := *;
      for i := 0 to |steps|
        invariant Valid() && c < |world.callers| && world.callers[c] == old(world).callers[c]
        invariant old(world).log <= world.log && old(past) <= past
      {
        var step := steps[i];
        if step.c != c {
          OthersLeaveCaller(world, step, c);
          StepKeepsInv(world, step);
          StepExtendsLog(world, step);
          world := Next(world, step);
          past := past + [world];
        }
      }
    }

    method Perform(c: nat, step: Step)
      requires Valid() && step.c == c < |world.callers|
      modifies this`world, this`past
      ensures world == Next(old(world), step) && Valid() && |world.callers| == |old(world).callers|
      ensures old(world).log <= world.log && past == old(past) + [world]
    {
      hide Inv, Next;
      StepKeepsInv(world, step);
      StepExtendsLog(world, step);
      SameCallers(world, step);
      world := Next(world, step);
      past := past + [world];
    }

    method Reachable() returns (ok: bool)
      modifies this`outages
      ensures outages == old(outages) + if ok then 0 else 1
    {
      ok := *;
      outages := outages + if ok then 0 else 1;
    }

    /** Reads, and what it read in `before` decides: what may not be used is refused without contacting the
        server, what is fresh is handed out, and anything else is refreshed and committed, with another
        read after a conflict. A refresh returns committed tokens under a version newer than the one read,
        unless the server could not be reached, its reply was lost, or it rejected the token read, and then
        the connection has been marked. */
    method AccessToken(c: nat, force: bool, now: int) returns (r: Option<Connection>, ghost before: World)
      requires Valid() && c < |world.callers| && world.callers[c].Idle?
      modifies this
      ensures Valid() && c < |world.callers| && old(world).log <= world.log && old(past) <= past
      ensures Visited(past, |old(past)| - 1, before) && c < |before.callers|
      ensures Refuses(before.doc) ==> r.None? && world == before.(callers := before.callers[c := Ended])
      ensures !Refuses(before.doc) && Fresh(before.doc.value, force, now) ==>
                r == before.doc && world == before.(callers := before.callers[c := Returned(before.doc.value, None)])
      ensures r.Some? ==> Logged(world.log, r.value) && world.callers[c].Returned? && world.callers[c].result == r.value
      ensures r.Some? && !Fresh(before.doc.value, force, now) ==>
                && world.callers[c].refreshedFrom == Some(before.doc.value.version)
                && before.doc.value.version < r.value.version
      ensures r.None? ==> world.callers[c].Ended? || world.callers[c].ReplyLost?
      ensures r.Some? ==> outages == old(outages)
      ensures r.None? && !Refuses(before.doc) && outages == old(outages) && !world.callers[c].ReplyLost? ==>
                && Spurned(past, |old(past)| - 1, c, before.doc.value)
                && world.doc.Some? && world.doc.value.status == ReauthorizationRequired
    {
      hide Inv, Next, Logged;
      Interfere(c);
      before := world;
      ghost var at := |past| - 1;
      ReadExactly(world, c, force, now);
      Perform(c, Read(c, force, now));
      assert past[at] == before && Visited(past, |old(past)| - 1, before);
      if world.callers[c].Returned? {
        ReturnedIsLogged(world, c);
        return Some(world.callers[c].result), before;
      }
      if world.callers[c].Ended? {
        return None, before;
      }
      ghost var read := past;
      r := RefreshRead(c, before);
      assert past[at] == read[at] && Visited(past, |old(past)| - 1, before);
    }

    /** The refresh of what was read. */
    method RefreshRead(c: nat, ghost before: World) returns (r: Option<Connection>)
      requires Valid() && c < |world.callers| && before.doc.Some? && world.callers[c] == HasRead(before.doc.value)
      modifies this
      ensures Valid() && c < |world.callers| && old(world).log <= world.log && old(past) <= past
      ensures r.Some? ==>
                && Logged(world.log, r.value) && world.callers[c] == Returned(r.value, Some(before.doc.value.version))
                && before.doc.value.version < r.value.version
      ensures r.None? ==> world.callers[c].Ended? || world.callers[c].ReplyLost?
      ensures if r.Some? then outages == old(outages) else outages >= old(outages)
      ensures r.None? && outages == old(outages) && !world.callers[c].ReplyLost? ==>
                && Spurned(past, |old(past)| - 1, c, before.doc.value)
                && world.doc.Some? && world.doc.value.status == ReauthorizationRequired
    {
      hide Inv, Next, Logged;
      Interfere(c);
      var ok := Reachable();
      if !ok {
        EndsExactly(world, c);
        Perform(c, RefreshUnavailable(c));
        return None;
      }
      var access: string, expiresAt: int, delivered: bool := *, *, *;
      RefreshExactly(world, c, access, expiresAt, delivered);
      ghost var at := |past| - 1;
      assert past[at] == world;
      Perform(c, Refresh(c, access, expiresAt, delivered));
      assert past[at].callers[c] == HasRead(before.doc.value);
      ghost var sent := past;
      Interfere(c);
      assert past[at] == sent[at];
      if world.callers[c].ReplyLost? {
        return None;
      }
      if world.callers[c].Rejected? {
        RejectedIsStored(world, c);
        MarkExactly(world, c);
        Perform(c, MarkReauthorization(c));
        assert past[at] == sent[at];
        return None;
      }
      r := CommitRead(c, before);
    }

    /** The commit of what was refreshed. */
    method CommitRead(c: nat, ghost before: World) returns (r: Option<Connection>)
      requires Valid() && c < |world.callers| && before.doc.Some?
      requires world.callers[c].Refreshed? && world.callers[c].seen == before.doc.value
      modifies this`world, this`past
      ensures Valid() && c < |world.callers| && old(world).log <= world.log && old(past) <= past
      ensures r.Some? && Logged(world.log, r.value) && before.doc.value.version < r.value.version
      ensures world.callers[c] == Returned(r.value, Some(before.doc.value.version))
    {
      hide Inv, Next, Logged;
      CommitExactly(world, c);
      Perform(c, CommitRotation(c));
      if world.callers[c].Conflicted? {
        Interfere(c);
        RereadExactly(world, c);
        Perform(c, Reread(c));
      }
      ReturnedIsLogged(world, c);
      r := Some(world.callers[c].result);
    }
  }

  lemma SameCallers(w: World, step: Step)
    ensures |Next(w, step).callers| == |w.callers|
  {
  }

  lemma ReturnedIsLogged(w: World, c: nat)
    requires Inv(w) && c < |w.callers| && w.callers[c].Returned?
    ensures Logged(w.log, w.callers[c].result)
    ensures w.callers[c].refreshedFrom.Some? ==> w.callers[c].refreshedFrom.value < w.callers[c].result.version
  {
    InvParts(w, c);
  }

  // ---------------------------------------------------------------------------------------------
  // What holds of every run

  /** Steps only ever append to the log of token writes, one entry at most. */
  lemma StepExtendsLog(w: World, step: Step)
    ensures w.log <= Next(w, step).log && |Next(w, step).log| <= |w.log| + 1
  {
  }

  lemma {:induction false} RunExtendsLog(w: World, steps: seq<Step>, more: seq<Step>)
    ensures Run(w, steps).log <= Run(w, steps + more).log
  {
    if more == [] {
      assert steps + more == steps;
    } else {
      var all := steps + more;
      assert all[..|all| - 1] == steps + more[..|more| - 1];
      RunExtendsLog(w, steps, more[..|more| - 1]);
      StepExtendsLog(Run(w, all[..|all| - 1]), all[|all| - 1]);
    }
  }

  /** The stored version counts the successful token writes, and a version never stands for two
      different token sets: whenever it is seen again, later in the run, so are the same tokens. */
  lemma VersionsIdentifyTokens(callers: nat, steps: seq<Step>, more: seq<Step>)
    ensures var w := Run(Start(callers), steps);
            var later := Run(Start(callers), steps + more);
            && (w.doc.None? <==> w.log == []) && (w.doc.Some? ==> w.doc.value.version == |w.log|)
            && (w.doc.Some? ==> later.doc.Some? && later.doc.value.version >= w.doc.value.version)
            && (w.doc.Some? && later.doc.value.version == w.doc.value.version ==>
                     later.doc.value.tokens == w.doc.value.tokens)
  {
    hide CallersOk, LogOk, TokensApart, NotStranded;
    StartIsFine(callers);
    RunKeepsInv(Start(callers), steps);
    RunKeepsInv(Start(callers), steps + more);
    RunExtendsLog(Start(callers), steps, more);
  }

  /** A refresh begun from a version commits exactly while that version is still stored; otherwise
      the stored document is left alone. */
  lemma CommitsOnlyFromStoredVersion(callers: nat, steps: seq<Step>, c: nat)
    requires c < |Run(Start(callers), steps).callers| && Run(Start(callers), steps).callers[c].Refreshed?
    ensures var w := Run(Start(callers), steps);
            var after := Next(w, CommitRotation(c));
            && w.doc.Some?
            && (w.doc.value.version == w.callers[c].seen.version ==>
                  after.doc == Some(w.doc.value.(tokens := w.callers[c].rotated, version := w.doc.value.version + 1,
                                                 status := Connected))
                  && after.callers[c] == Returned(after.doc.value, Some(w.callers[c].seen.version)))
            && (w.doc.value.version != w.callers[c].seen.version ==>
                  after.doc == w.doc && after.callers[c].Conflicted? && w.doc.value.version > w.callers[c].seen.version)
  {
    hide Run, Next, Inv;
    var w := Run(Start(callers), steps);
    StartIsFine(callers);
    RunKeepsInv(Start(callers), steps);
    CommitExactly(w, c);
    SeenIsNotNewer(w, c);
  }

  lemma SeenIsNotNewer(w: World, c: nat)
    requires Inv(w) && c < |w.callers| && w.callers[c].Refreshed? && w.doc.Some?
    ensures w.callers[c].seen.version <= w.doc.value.version
  {
    InvParts(w, c);
    hide Inv;
  }

  /** A caller that refreshed returns tokens that were committed under a version newer than the one it
      read, whether its own commit or a later read succeeded. */
  lemma RefresherReturnsNewer(callers: nat, steps: seq<Step>, c: nat)
    requires c < |Run(Start(callers), steps).callers| && Run(Start(callers), steps).callers[c].Returned?
    ensures var w := Run(Start(callers), steps);
            var caller := w.callers[c];
            && Logged(w.log, caller.result)
            && (caller.refreshedFrom.Some? ==> caller.refreshedFrom.value < caller.result.version)
  {
    var w := Run(Start(callers), steps);
    hide LogOk, TokensApart, NotStranded, DocumentOk;
    StartIsFine(callers);
    RunKeepsInv(Start(callers), steps);
    assert CallerOk(w.log, w.live, w.callers[c]);
  }

  /** A conflict can only come from a re-authorization: the next version was not written by a refresh. */
  lemma ConflictMeansReauthorized(callers: nat, steps: seq<Step>, c: nat)
    requires c < |Run(Start(callers), steps).callers| && Run(Start(callers), steps).callers[c].Conflicted?
    ensures var w := Run(Start(callers), steps);
            var read := w.callers[c].seen.version;
            read < |w.log| && w.log[read].byAuthorization
  {
    var w := Run(Start(callers), steps);
    hide LogOk, TokensApart, NotStranded, DocumentOk;
    StartIsFine(callers);
    RunKeepsInv(Start(callers), steps);
    assert CallerOk(w.log, w.live, w.callers[c]);
  }

  /** This caller alone spent the stored refresh token, and the server accepts the successor it issued. */
  ghost predicate SpentAlone(w: World, c: nat) {
    && w.doc.Some? && c < |w.callers| && (w.callers[c].Refreshed? || w.callers[c].ReplyLost?)
    && w.callers[c].seen.version == w.doc.value.version && w.callers[c].rotated.refresh in w.live
    && forall d :: 0 <= d < |w.callers| && d != c ==> Spent(w.callers[d]) != Some(w.doc.value.tokens.refresh)
  }

  /** The interleaving never cuts the chain of tokens: the server would accept the stored refresh token,
      or a single caller spent it and the server accepts its successor. That caller holds the successor,
      and its commit would store it, unless the reply was lost; then nobody ever received it. */
  lemma ChainIsNeverCut(callers: nat, steps: seq<Step>)
    ensures var w := Run(Start(callers), steps);
            && (w.doc.Some? && w.doc.value.tokens.refresh !in w.live ==> exists c: nat :: SpentAlone(w, c))
            && (forall c: nat :: c < |w.callers| && SpentAlone(w, c) ==>
                  if w.callers[c].ReplyLost? then forall step: Step :: step.c == c ==> Next(w, step) == w
                  else Mends(w, c))
  {
    hide Run, Next, Mends, Inv;
    var w := Run(Start(callers), steps);
    StartIsFine(callers);
    RunKeepsInv(Start(callers), steps);
    if w.doc.Some? && w.doc.value.tokens.refresh !in w.live {
      SpenderIsUnique(w);
    }
    forall c: nat | c < |w.callers| && SpentAlone(w, c)
      ensures if w.callers[c].ReplyLost? then forall step: Step :: step.c == c ==> Next(w, step) == w else Mends(w, c)
    {
      SuccessorArrives(w, c);
    }
  }

  /** Committing what this caller holds makes the stored token usable again. */
  ghost predicate Mends(w: World, c: nat) {
    var after := Next(w, CommitRotation(c));
    && c < |w.callers| && w.callers[c].Refreshed? && after.doc.Some?
    && after.doc.value.tokens == w.callers[c].rotated && after.doc.value.tokens.refresh in after.live
  }

  lemma SuccessorArrives(w: World, c: nat)
    requires Inv(w) && SpentAlone(w, c)
    ensures if w.callers[c].ReplyLost? then forall step: Step :: step.c == c ==> Next(w, step) == w else Mends(w, c)
  {
    hide LogOk, TokensApart, NotStranded, CallersOk;
  }

  lemma SpenderIsUnique(w: World)
    requires Inv(w) && w.doc.Some? && w.doc.value.tokens.refresh !in w.live
    ensures exists c: nat :: SpentAlone(w, c)
  {
    var c :| 0 <= c < |w.callers| && Spent(w.callers[c]) == Some(w.doc.value.tokens.refresh);
    assert SpentAlone(w, c);
  }

  /** Exactly when marking demotes a healthy connection. A rejected caller whose version is still stored
      marks a connection whose refresh token is dead; otherwise the stored token is usable exactly if no
      caller has spent it meanwhile. Marking compares no versions, so in that last case it demotes
      a connection that could still be refreshed. */
  lemma MarkingDemotesExactly(callers: nat, steps: seq<Step>, c: nat)
    requires c < |Run(Start(callers), steps).callers| && Run(Start(callers), steps).callers[c].Rejected?
    ensures var w := Run(Start(callers), steps);
            var after := Next(w, MarkReauthorization(c));
            var seen := w.callers[c].seen;
            && w.doc.Some? && after.doc == Some(w.doc.value.(status := ReauthorizationRequired)) && after.live == w.live
            && (w.doc.value.version == seen.version ==> w.doc.value.tokens.refresh !in w.live)
            && (w.doc.value.tokens.refresh in w.live <==>
                  w.doc.value.version != seen.version
                  && forall d :: 0 <= d < |w.callers| ==> Spent(w.callers[d]) != Some(w.doc.value.tokens.refresh))
  {
    hide Run, Inv, Logged, Spent;
    StartIsFine(callers);
    RunKeepsInv(Start(callers), steps);
    RejectedMarks(Run(Start(callers), steps), c);
    StoredTokenIsLiveExactly(Run(Start(callers), steps));
  }

  lemma RejectedMarks(w: World, c: nat)
    requires Inv(w) && c < |w.callers| && w.callers[c].Rejected?
    ensures w.doc.Some? && Next(w, MarkReauthorization(c)).doc == Some(w.doc.value.(status := ReauthorizationRequired))
    ensures Next(w, MarkReauthorization(c)).live == w.live
    ensures w.doc.value.version == w.callers[c].seen.version ==> w.doc.value.tokens.refresh !in w.live
  {
    InvParts(w, c);
    hide CallersOk, TokensApart, NotStranded, LogOk;
  }

  /** The stored token is usable exactly if no caller has spent it. */
  lemma StoredTokenIsLiveExactly(w: World)
    requires Inv(w) && w.doc.Some?
    ensures w.doc.value.tokens.refresh in w.live <==>
              forall d :: 0 <= d < |w.callers| ==> Spent(w.callers[d]) != Some(w.doc.value.tokens.refresh)
  {
    forall d | 0 <= d < |w.callers| && Spent(w.callers[d]).Some? ensures Spent(w.callers[d]).value !in w.live {
      InvParts(w, d);
    }
  }

  /** The steps by which two callers refresh the same stored token. */
  function Race(): seq<Step> {
    [ExchangeCode(0, "a0", 100), Save(0, "conn"), Complete(0),
     Read(1, true, 0), Read(2, true, 0),
     Refresh(1, "a1", 200, true), Refresh(2, "a2", 200, true), CommitRotation(1), MarkReauthorization(2)]
  }

  function RaceConnection(): Connection {
    Connection(OWNER, "conn", TokenSet("a0", 0, 100), 1, Connected)
  }

  /** The connection of the race is stored, before or after both callers have read it. */
  function BeforeRace(caller: Caller): World {
    World(Some(RaceConnection()), [Ended, caller, caller], 1, {0}, [Commit(TokenSet("a0", 0, 100), true)])
  }

  lemma RaceConnects()
    ensures Run(Start(3), Race()[..3]) == BeforeRace(Idle)
  {
    assert Run(Start(3), []) == Start(3);
    hide Run;
    var w0, race := Start(3), Race();
    assert race[..0] == [];
    var w1 := RunOneMore(w0, race, 0, w0);
    assert w1 == World(None, [Authorizing(TokenSet("a0", 0, 100)), Idle, Idle], 1, {0}, []);
    var w2 := RunOneMore(w0, race, 1, w1);
    var w3 := RunOneMore(w0, race, 2, w2);
  }

  lemma RaceReads()
    ensures Run(Start(3), Race()[..5]) == BeforeRace(HasRead(RaceConnection()))
  {
    hide Run;
    RaceConnects();
    var w0, race := Start(3), Race();
    var w4 := RunOneMore(w0, race, 3, BeforeRace(Idle));
    var w5 := RunOneMore(w0, race, 4, w4);
  }

  /** One caller has refreshed the stored token, and the other was rejected. */
  function DuringRace(): World {
    var conn := RaceConnection();
    BeforeRace(Idle).(callers := [Ended, Refreshed(conn, TokenSet("a1", 1, 200)), Rejected(conn)],
                      next := 2, live := {1})
  }

  lemma RaceRefreshes()
    ensures Run(Start(3), Race()[..7]) == DuringRace()
  {
    hide Run;
    var w0, race := Start(3), Race();
    RaceReads();
    var w6 := RunOneMore(w0, race, 5, BeforeRace(HasRead(RaceConnection())));
    var w7 := RunOneMore(w0, race, 6, w6);
  }

  /** The loser of a race marks the connection although the winner has stored a usable token. */
  lemma LoserDemotesAHealthyConnection()
    ensures var w := Run(Start(3), Race());
            w.doc.Some? && w.doc.value.version == 2 && w.doc.value.tokens.refresh in w.live
            && |w.callers| == 3 && w.callers[1].Returned? && w.doc.value.status == ReauthorizationRequired
  {
    hide Run;
    var w0, race := Start(3), Race();
    RaceRefreshes();
    var w8 := RunOneMore(w0, race, 7, DuringRace());
    var w9 := RunOneMore(w0, race, 8, w8);
    assert race[..9] == race;
  }

  lemma RunOneMore(w: World, steps: seq<Step>, k: nat, before: World) returns (after: World)
    requires k < |steps| && before == Run(w, steps[..k])
    ensures after == Next(before, steps[k]) == Run(w, steps[..k + 1])
  {
    after := Next(before, steps[k]);
    assert steps[..k + 1][..k] == steps[..k];
  }
}
