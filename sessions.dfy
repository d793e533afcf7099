/** The session manager: long-lived transactional sessions keyed by opaque
    ids, stamped with the time of their last use, swept for idleness at most
    once per timeout interval, and carrying a mutation log with CREATE,
    UPDATE and DELETE buckets.

    Session handles are values of the type parameter `H`; what committing or
    rolling back one does is not interpreted, but every time the manager
    finishes a handle it appends a `Closing` to the trace `closings`, so the
    contracts can say which handles were committed and which rolled back.
    Time is an integer number of seconds supplied by the caller. */
module Sessions {
  import opened Common

  type SessionId = string

  /** Minutes of inactivity after which a session expires. */
  const DbSessionTimeoutMinutes: int := 30

  /** The three buckets of a mutation log. */
  datatype Action = Create | Update | Delete

  /** The name of a bucket, as the caller spells the action. */
  function ActionName(a: Action): string {
    match a
    case Create => "CREATE"
    case Update => "UPDATE"
    case Delete => "DELETE"
  }

  /** The action a caller-supplied name denotes, if any. */
  function ParseAction(s: string): (r: Option<Action>)
    ensures r.Some? <==> s in {"CREATE", "UPDATE", "DELETE"}
    ensures r.Some? ==> ActionName(r.value) == s
  {
    if s == "CREATE" then Some(Create)
    else if s == "UPDATE" then Some(Update)
    else if s == "DELETE" then Some(Delete)
    else None
  }

  /** One logged mutation: the record's endpoint alias and its data. */
  datatype LogEntry = LogEntry(typeAlias: string, data: map<string, Value>)

  /** A mutation log: the entries logged in each of the three buckets. */
  datatype MutationLog = MutationLog(create: seq<LogEntry>, update: seq<LogEntry>, delete: seq<LogEntry>) {
    function Bucket(a: Action): seq<LogEntry> {
      match a
      case Create => create
      case Update => update
      case Delete => delete
    }

    /** No bucket holds an entry twice. */
    predicate WellFormed() {
      NoDuplicates(create) && NoDuplicates(update) && NoDuplicates(delete)
    }

    /** The log as the dictionary the manager hands out. */
    function AsDict(): (d: map<string, seq<LogEntry>>)
      ensures d.Keys == {"CREATE", "UPDATE", "DELETE"}
      ensures forall a: Action :: d[ActionName(a)] == Bucket(a)
    {
      map["CREATE" := create, "UPDATE" := update, "DELETE" := delete]
    }
  }

  const EmptyLog: MutationLog := MutationLog([], [], [])

  datatype SessionError =
    | NoSuchSession(id: SessionId)  // ValueError: no open session with that id
    | InvalidAction(action: string) // ValueError: action outside CREATE/UPDATE/DELETE
    | NotExposed                    // TypeError: the record's class has no API metadata

  /** What the manager did to a handle when it let go of it. */
  datatype Closing<H> =
    | RolledBackAndClosed(id: SessionId, handle: H)
    | CommittedAndClosed(id: SessionId, handle: H)

  /** The ids whose last action is at least `limit` seconds before `now`. */
  function ExpiredIds(stamps: map<SessionId, int>, now: int, limit: int): (r: set<SessionId>)
    ensures r <= stamps.Keys
    ensures forall id :: id in stamps ==> (id in r <==> now - stamps[id] >= limit)
  {
    set id | id in stamps && now - stamps[id] >= limit
  }

  /** Expiry is permanent: a session expired at `now` is expired at every
      later time, and a longer limit expires no more sessions. */
  lemma ExpiryMonotone(stamps: map<SessionId, int>, now: int, later: int, limit: int, longer: int)
    requires now <= later && limit <= longer
    ensures ExpiredIds(stamps, now, limit) <= ExpiredIds(stamps, later, limit)
    ensures ExpiredIds(stamps, now, longer) <= ExpiredIds(stamps, now, limit)
  {
  }

  /** The ids a sweep at `now` removes: none while the debounce interval
      since the previous sweep has not elapsed, else every expired id. */
  function SweptIds(stamps: map<SessionId, int>, lastCheck: int, now: int, limit: int): (r: set<SessionId>)
    ensures r <= stamps.Keys
    ensures now - lastCheck < limit ==> r == {}
    ensures now - lastCheck >= limit ==>
      forall id :: id in stamps ==> (id in r <==> now - stamps[id] >= limit)
  {
    if now - lastCheck < limit then {} else ExpiredIds(stamps, now, limit)
  }

  /** `after` is `before` followed by one rollback record per id of `gone`,
      each naming the handle `handles` held for it. */
  ghost predicate RolledBack<H>(before: seq<Closing<H>>, after: seq<Closing<H>>, gone: set<SessionId>, handles: map<SessionId, H>)
    requires gone <= handles.Keys
  {
    && |before| <= |after|
    && after[..|before|] == before
    && (forall k :: |before| <= k < |after| ==>
          after[k].RolledBackAndClosed? && after[k].id in gone && after[k].handle == handles[after[k].id])
    && (forall id :: id in gone ==> RolledBackAndClosed(id, handles[id]) in after[|before|..])
  }

  /** Rolling back one more session extends the rollback trace. */
  lemma RolledBackStep<H>(start: seq<Closing<H>>, before: seq<Closing<H>>, gone: set<SessionId>, handles: map<SessionId, H>, id: SessionId)
    requires gone <= handles.Keys && id in handles
    requires RolledBack(start, before, gone, handles)
    ensures RolledBack(start, before + [RolledBackAndClosed(id, handles[id])], gone + {id}, handles)
  {
    var after := before + [RolledBackAndClosed(id, handles[id])];
    assert after[|start|..] == before[|start|..] + [RolledBackAndClosed(id, handles[id])];
    assert after[..|start|] == before[..|start|];
  }

  /** Removing the keys `removed` and then `id` removes `removed + {id}`. */
  lemma RemoveOneMore<V>(m: map<SessionId, V>, removed: set<SessionId>, id: SessionId)
    ensures m - (removed + {id}) == (m - removed) - {id}
  {
  }

  /** The log of `id` in `logs`, or the empty one the manager would create. */
  function LogOf(logs: map<SessionId, MutationLog>, id: SessionId): (r: MutationLog)
    ensures AllWellFormed(logs) ==> r.WellFormed()
    ensures id !in logs ==> r == EmptyLog
  {
    if id in logs then logs[id] else EmptyLog
  }

  /** Appends `e` unless the bucket already holds it. */
  function AppendUnique(bucket: seq<LogEntry>, e: LogEntry): (r: seq<LogEntry>)
    ensures e in r
    ensures forall x :: x in r <==> x in bucket || x == e
    ensures |bucket| <= |r| && r[..|bucket|] == bucket
    ensures e in bucket ==> r == bucket
    ensures NoDuplicates(bucket) ==> NoDuplicates(r)
  {
    if e in bucket then bucket else bucket + [e]
  }

  /** `log` with `e` logged in the bucket `a`. */
  function Logged(log: MutationLog, a: Action, e: LogEntry): (r: MutationLog)
    ensures log.WellFormed() ==> r.WellFormed()
  {
    match a
    case Create => log.(create := AppendUnique(log.create, e))
    case Update => log.(update := AppendUnique(log.update, e))
    case Delete => log.(delete := AppendUnique(log.delete, e))
  }

  /** Logging touches only the named bucket, which then holds the entry
      once, after everything it held before. */
  lemma LoggedBuckets(log: MutationLog, a: Action, e: LogEntry, b: Action)
    ensures b != a ==> Logged(log, a, e).Bucket(b) == log.Bucket(b)
    ensures b == a ==> Logged(log, a, e).Bucket(b) == AppendUnique(log.Bucket(a), e)
  {
  }

  /** Every log of `logs` is well formed. */
  predicate AllWellFormed(logs: map<SessionId, MutationLog>) {
    forall id :: id in logs ==> logs[id].WellFormed()
  }

  /** Storing a well-formed log keeps every log well formed. */
  lemma StoreWellFormed(logs: map<SessionId, MutationLog>, id: SessionId, log: MutationLog)
    requires AllWellFormed(logs) && log.WellFormed()
    ensures AllWellFormed(logs[id := log])
  {
  }

  class SessionManager<H> {
    /** The idle time, in seconds, after which a session is swept. */
    const timeoutLimit: int
    var openSessions: map<SessionId, H>
    var lastAction: map<SessionId, int>
    var lastTimeoutCheck: int
    var objects: map<SessionId, MutationLog>
    var closings: seq<Closing<H>>

    /** Every open session is stamped and every stamp belongs to an open
        session; no bucket of a mutation log holds an entry twice. */
    ghost predicate Valid()
      reads this
    {
      && openSessions.Keys == lastAction.Keys
      && AllWellFormed(objects)
    }

    constructor (timeoutMinutes: int, now: int)
      ensures Valid()
      ensures timeoutLimit == timeoutMinutes * 60
      ensures openSessions == map[] && lastAction == map[] && objects == map[]
      ensures lastTimeoutCheck == now && closings == []
    {
      timeoutLimit := timeoutMinutes * 60;
      openSessions := map[];
      lastAction := map[];
      lastTimeoutCheck := now;
      objects := map[];
      closings := [];
    }

    /** `_cleanup_session`: forget every piece of bookkeeping about `id`. */
    method CleanupSession(id: SessionId) returns (r: Result<(), SessionError>)
      requires Valid()
      modifies this
      ensures Valid()
      ensures old(id in openSessions) <==> r.Success?
      ensures r.Failure? ==> r.error == NoSuchSession(id) && unchanged(this)
      ensures r.Success? ==>
        && openSessions == old(openSessions) - {id}
        && lastAction == old(lastAction) - {id}
        && objects == old(objects) - {id}
        && lastTimeoutCheck == old(lastTimeoutCheck)
        && closings == old(closings)
    {
      if id !in openSessions {
        return Failure(NoSuchSession(id));
      }
      openSessions := openSessions - {id};
      lastAction := lastAction - {id};
      objects := objects - {id};
      return Success(());
    }

    /** `_do_timeout`: roll back and close an open session, then clean it up. */
    method DoTimeout(id: SessionId)
      requires Valid() && id in openSessions
      modifies this
      ensures Valid()
      ensures openSessions == old(openSessions) - {id}
      ensures lastAction == old(lastAction) - {id}
      ensures objects == old(objects) - {id}
      ensures lastTimeoutCheck == old(lastTimeoutCheck)
      ensures closings == old(closings) + [RolledBackAndClosed(id, old(openSessions)[id])]
    {
      closings := closings + [RolledBackAndClosed(id, openSessions[id])];
      var _ := CleanupSession(id);
    }

    /** `_check_timeouts`: unless the previous sweep is less than one timeout
        interval ago, roll back and remove every session idle for at least
        the timeout, and remember `now` as the time of this sweep. */
    method CheckTimeouts(now: int)
      requires Valid()
      modifies this
      ensures Valid()
      ensures now - old(lastTimeoutCheck) < timeoutLimit ==> unchanged(this)
      ensures
        var gone := SweptIds(old(lastAction), old(lastTimeoutCheck), now, timeoutLimit);
        && openSessions == old(openSessions) - gone
        && lastAction == old(lastAction) - gone
        && objects == old(objects) - gone
        && RolledBack(old(closings), closings, gone, old(openSessions))
      ensures now - old(lastTimeoutCheck) >= timeoutLimit ==>
        && lastTimeoutCheck == now
        && forall id :: id in lastAction ==> now - lastAction[id] < timeoutLimit
    {
      if now - lastTimeoutCheck < timeoutLimit {
        return;
      }
      RollBackExpired(now);
      lastTimeoutCheck := now;
    }

    /** The sweep itself: every session idle for at least the timeout at
        `now` is timed out, in any order. */
    method RollBackExpired(now: int)
      requires Valid()
      modifies this
      ensures Valid()
      ensures
        var gone := ExpiredIds(old(lastAction), now, timeoutLimit);
        && openSessions == old(openSessions) - gone
        && lastAction == old(lastAction) - gone
        && objects == old(objects) - gone
        && RolledBack(old(closings), closings, gone, old(openSessions))
      ensures lastTimeoutCheck == old(lastTimeoutCheck)
      ensures forall id :: id in lastAction ==> now - lastAction[id] < timeoutLimit
    {
      ghost var expired := ExpiredIds(lastAction, now, timeoutLimit);
      ghost var removed: set<SessionId> := {};
      var pending := lastAction.Keys;
      while pending != {}
        invariant Valid()
        invariant pending <= old(lastAction).Keys
        invariant removed == expired - pending
        invariant openSessions == old(openSessions) - removed
        invariant lastAction == old(lastAction) - removed
        invariant objects == old(objects) - removed
        invariant RolledBack(old(closings), closings, removed, old(openSessions))
        invariant lastTimeoutCheck == old(lastTimeoutCheck)
        decreases pending
      {
        var id :| id in pending;
        removed := SweepOne(id, now, old(openSessions), old(lastAction), old(objects), old(closings), removed);
        pending := pending - {id};
      }
    }

    /** One turn of the sweep: the session `id`, not yet visited, is timed
        out when it has expired; `removed` holds the sessions timed out so
        far, out of those open at the start. */
    method SweepOne(id: SessionId, now: int, ghost open0: map<SessionId, H>, ghost stamps0: map<SessionId, int>,
                    ghost logs0: map<SessionId, MutationLog>, ghost closings0: seq<Closing<H>>, ghost removed: set<SessionId>)
      returns (ghost removed': set<SessionId>)
      requires Valid() && removed <= open0.Keys && id in stamps0 && id !in removed
      requires openSessions == open0 - removed && lastAction == stamps0 - removed && objects == logs0 - removed
      requires RolledBack(closings0, closings, removed, open0)
      requires open0.Keys == stamps0.Keys
      modifies this
      ensures Valid()
      ensures removed' == if now - stamps0[id] >= timeoutLimit then removed + {id} else removed
      ensures openSessions == open0 - removed' && lastAction == stamps0 - removed' && objects == logs0 - removed'
      ensures RolledBack(closings0, closings, removed', open0)
      ensures lastTimeoutCheck == old(lastTimeoutCheck)
    {
      removed' := removed;
      if now - lastAction[id] >= timeoutLimit {
        ghost var before := closings;
        assert id in openSessions && openSessions[id] == open0[id];
        DoTimeout(id);
        assert closings == before + [RolledBackAndClosed(id, open0[id])];
        RolledBackStep(closings0, before, removed, open0, id);
        removed' := removed + {id};
        RemoveOneMore(open0, removed, id);
        RemoveOneMore(stamps0, removed, id);
        RemoveOneMore(logs0, removed, id);
      }
    }

    /** `get`: sweep, then reuse the open session `id`, or, with no id, open
        the session `newId` on the handle the session factory produced.
        Either way the returned id is stamped with `now`. `newId` stands for
        the random id minted by the source, which never collides with an
        open one. */
    method Get(id: Option<SessionId>, now: int, newId: SessionId, newHandle: H)
      returns (r: Result<(SessionId, H), SessionError>)
      requires Valid()
      requires id.None? ==> newId !in openSessions
      modifies this
      ensures Valid()
      ensures
        var gone := SweptIds(old(lastAction), old(lastTimeoutCheck), now, timeoutLimit);
        var live := old(openSessions) - gone;
        && objects == old(objects) - gone
        && RolledBack(old(closings), closings, gone, old(openSessions))
        && lastTimeoutCheck == (if now - old(lastTimeoutCheck) < timeoutLimit then old(lastTimeoutCheck) else now)
        && (id.Some? && id.value in live ==>
              && r == Success((id.value, live[id.value]))
              && openSessions == live
              && lastAction == (old(lastAction) - gone)[id.value := now])
        && (id.Some? && id.value !in live ==>
              && r == Failure(NoSuchSession(id.value))
              && openSessions == live
              && lastAction == old(lastAction) - gone)
        && (id.None? ==>
              && r == Success((newId, newHandle))
              && openSessions == live[newId := newHandle]
              && lastAction == (old(lastAction) - gone)[newId := now])
    {
      CheckTimeouts(now);
      var sid: SessionId;
      var handle: H;
      if id.Some? {
        if id.value in openSessions {
          sid, handle := id.value, openSessions[id.value];
        } else {
          return Failure(NoSuchSession(id.value));
        }
      } else {
        sid, handle := newId, newHandle;
        openSessions := openSessions[sid := handle];
      }
      lastAction := lastAction[sid := now];
      return Success((sid, handle));
    }

    /** `commit_and_close`: commit and close the handle of an open session,
        then clean the session up. */
    method CommitAndClose(id: SessionId) returns (r: Result<(), SessionError>)
      requires Valid()
      modifies this
      ensures Valid()
      ensures old(id in openSessions) <==> r.Success?
      ensures r.Failure? ==> r.error == NoSuchSession(id) && unchanged(this)
      ensures r.Success? ==>
        && openSessions == old(openSessions) - {id}
        && lastAction == old(lastAction) - {id}
        && objects == old(objects) - {id}
        && lastTimeoutCheck == old(lastTimeoutCheck)
        && closings == old(closings) + [CommittedAndClosed(id, old(openSessions)[id])]
    {
      if id !in openSessions {
        return Failure(NoSuchSession(id));
      }
      closings := closings + [CommittedAndClosed(id, openSessions[id])];
      r := CleanupSession(id);
    }

    /** `cache_record`: create the three buckets for `id` if it has none
        (even when the action then turns out invalid), and append the entry
        for the record to the named bucket unless it is already there.
        `typeAlias` is the endpoint alias of the record's class, `None` when
        the class carries no API metadata. */
    method CacheRecord(id: SessionId, action: string, typeAlias: Option<string>, data: map<string, Value>)
      returns (r: Result<(), SessionError>)
      requires Valid()
      modifies this
      ensures Valid()
      ensures openSessions == old(openSessions) && lastAction == old(lastAction)
      ensures lastTimeoutCheck == old(lastTimeoutCheck) && closings == old(closings)
      ensures r.Success? <==> ParseAction(action).Some? && typeAlias.Some?
      ensures ParseAction(action).None? ==> r == Failure(InvalidAction(action))
      ensures ParseAction(action).Some? && typeAlias.None? ==> r == Failure(NotExposed)
      ensures r.Failure? ==> objects == old(objects)[id := LogOf(old(objects), id)]
      ensures r.Success? ==>
        objects == old(objects)[id := Logged(LogOf(old(objects), id), ParseAction(action).value, LogEntry(typeAlias.value, data))]
    {
      var log := LogOf(objects, id);
      StoreWellFormed(objects, id, log);
      objects := objects[id := log];
      var a := ParseAction(action);
      if a.None? {
        return Failure(InvalidAction(action));
      }
      if typeAlias.None? {
        return Failure(NotExposed);
      }
      var logged := Logged(log, a.value, LogEntry(typeAlias.value, data));
      StoreWellFormed(old(objects), id, logged);
      objects := objects[id := logged];
      return Success(());
    }

    /** `get_objects`: the mutation log of `id` as a dictionary of buckets,
        or an empty dictionary for an id that was never logged. Serialising
        the records (`as_dict`) is the identity here, records already being
        maps. */
    function GetObjects(id: SessionId): (r: map<string, seq<LogEntry>>)
      reads this
      requires Valid()
      ensures id !in objects ==> r == map[]
      ensures id in objects ==> r.Keys == {"CREATE", "UPDATE", "DELETE"}
      ensures id in objects ==> forall a: Action :: r[ActionName(a)] == objects[id].Bucket(a)
      ensures forall k :: k in r ==> NoDuplicates(r[k])
    {
      if id in objects then objects[id].AsDict() else map[]
    }
  }
  /** A client of the manager: a session opened without an id, used for two
      identical creations, keeps one CREATE entry; once it has been idle for
      the timeout, the next lookup sweeps it away and reports it unknown. */
  method SessionLifecycle<H>(h: H, record: map<string, Value>)
  {
    var m := new SessionManager<H>(DbSessionTimeoutMinutes, 0);
    var first := m.Get(None, 10, "s1", h);
    assert first == Success(("s1", h));
    var c1 := m.CacheRecord("s1", "CREATE", Some("parent"), record);
    var c2 := m.CacheRecord("s1", "CREATE", Some("parent"), record);
    assert m.GetObjects("s1")["CREATE"] == [LogEntry("parent", record)];
    var stale := m.Get(Some("s1"), 10 + 30 * 60, "s2", h);
    assert stale == Failure(NoSuchSession("s1"));
    assert RolledBackAndClosed("s1", h) in m.closings;
    assert m.GetObjects("s1") == map[];
  }
}
