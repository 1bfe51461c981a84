/** One clustered conversation manager, in the imperative form of its source: each method is one stretch
    of code between two `await`s, and is proved to perform the corresponding step of module Cluster on
    this node and on Redis. */
module ConversationManager {
  import opened Options
  import opened Lease
  import opened Cluster

  type User = string

  class RedisServer {
    var now: Time
    var keys: Store<Sid>
  }

  class Manager {
    const id: NodeId
    const redis: RedisServer
    var starting: map<Sid, Time>
    var sessions: map<Sid, User>
    var phase: Phase

    function View(): Node
      reads this
    {
      Node(starting, sessions.Keys, phase)
    }

    constructor (id: NodeId, redis: RedisServer)
      ensures this.id == id && this.redis == redis
      ensures View() == Node(map[], {}, Idle(redis.now))
    {
      this.id, this.redis := id, redis;
      starting, sessions, phase := map[], map[], Idle(redis.now);
    }

    /** `maybe_start_agent_loop` up to the answer of Redis. */
    method Claim(sid: Sid) returns (created: bool)
      modifies this`starting, redis`keys
      ensures (redis.keys, created) == SetIfAbsent(old(redis.keys), sid, redis.now, TTL)
      ensures View() == if created then StartClaim(old(View()), sid, redis.now) else old(View())
    {
      if sid in redis.keys && redis.now < redis.keys[sid] {
        return false;
      }
      redis.keys := redis.keys[sid := redis.now + TTL];
      starting := starting[sid := redis.now];
      created := true;
    }

    /** `_start_agent_loop` at the point where the session enters the local dictionary. */
    method Register(sid: Sid, user: User)
      requires sid in starting
      modifies this`starting, this`sessions
      ensures View() == RegisterLoop(old(View()), sid)
      ensures sessions == old(sessions)[sid := user]
    {
      starting := starting - {sid};
      sessions := sessions[sid := user];
      assert sessions.Keys == old(sessions.Keys) + {sid};
    }

    /** `_update_state_in_redis` up to `pipe.execute()`: one SET for every local loop with a proper id. */
    method BuildPipeline()
      modifies this`phase
      ensures View() == old(View()).(phase := Flushing(Batch(old(View())), redis.now))
      ensures phase.Flushing? && forall sid :: sid in phase.batch <==> sid in sessions && sid != ""
    {
      var batch: set<Sid> := {};
      var todo := sessions.Keys;
      while todo != {}
        invariant todo <= sessions.Keys
        invariant batch == (sessions.Keys - todo) - {""}
      {
        var sid :| sid in todo;
        if sid != "" {
          batch := batch + {sid};
        }
        todo := todo - {sid};
      }
      assert batch == Batch(View());
      phase := Flushing(batch, redis.now);
    }

    /** `pipe.execute()` reaches Redis. */
    method ExecutePipeline()
      requires phase.Flushing?
      modifies this`phase, redis`keys
      ensures redis.keys == SetAll(old(redis.keys), old(phase.batch), redis.now, TTL)
      ensures View() == old(View()).(phase := Idle(redis.now))
    {
      var batch := phase.batch;
      var todo := batch;
      while todo != {}
        modifies redis`keys
        invariant todo <= batch
        invariant redis.keys == SetAll(old(redis.keys), batch - todo, redis.now, TTL)
      {
        var sid :| sid in todo;
        redis.keys := redis.keys[sid := redis.now + TTL];
        todo := todo - {sid};
        assert redis.keys.Keys == old(redis.keys).Keys + (batch - todo);
      }
      assert batch - todo == batch;
      phase := Idle(redis.now);
    }

    /** `_close_session` up to the delete: only a node that runs the loop goes on to delete the key. */
    method PopSession(sid: Sid) returns (deletion: Option<Deletion>)
      modifies this`sessions
      ensures deletion == if sid in old(sessions) then Some(Deletion(id, sid, redis.now)) else None
      ensures View() == PopLoop(old(View()), sid)
      ensures sessions == old(sessions) - {sid}
    {
      if sid !in sessions {
        assert sessions.Keys - {sid} == sessions.Keys;
        return None;
      }
      sessions := sessions - {sid};
      deletion := Some(Deletion(id, sid, redis.now));
    }

    /** `redis.delete` reaches Redis; it does not check who set the key. */
    method DeleteKey(deletion: Deletion)
      modifies redis`keys
      ensures redis.keys == Remove(old(redis.keys), deletion.sid)
    {
      redis.keys := redis.keys - {deletion.sid};
    }

    // ----- listing the running loops -----

    function Locally(user: Option<User>, only: Option<set<Sid>>): set<Sid>
      reads this
    {
      set sid | sid in sessions && (only.Some? ==> sid in only.value) &&
          (user.Some? && user.value != "" ==> sessions[sid] == user.value)
    }

    /** `get_running_agent_loops` skips Redis when the local answer already has as many ids as were asked
        for; the result is the union of both answers all the same. */
    method GetRunningAgentLoops(user: Option<User>, only: Option<set<Sid>>, scanned: set<(User, Sid)>)
      returns (sids: set<Sid>)
      ensures sids == Locally(user, only) + Remotely(user, only, scanned)
      ensures forall sid :: sid in sids <==>
        && (only.Some? ==> sid in only.value)
        && (|| (sid in sessions && Selected(user, sessions[sid]))
            || exists owner :: (owner, sid) in scanned && Selected(user, owner))
    {
      sids := Locally(user, only);
      if only.None? || only.value == {} || |sids| != |only.value| {
        var remote := ScanKeys(user, only, scanned);
        sids := sids + remote;
      } else {
        SameSizeSubset(sids, only.value);
      }
    }
  }

  /** Without a user, or with an empty one, everybody's loops are meant; else those of this user. */
  predicate Selected(user: Option<User>, owner: User) {
    user == None || user == Some("") || user == Some(owner)
  }

  /** What the keys of the scan pattern say; an empty filter selects nothing. */
  function Remotely(user: Option<User>, only: Option<set<Sid>>, scanned: set<(User, Sid)>): set<Sid> {
    set key | key in scanned && (user.Some? && user.value != "" ==> key.0 == user.value) &&
        (only.Some? ==> key.1 in only.value) :: key.1
  }

  method ScanKeys(user: Option<User>, only: Option<set<Sid>>, scanned: set<(User, Sid)>) returns (result: set<Sid>)
    ensures result == Remotely(user, only, scanned)
  {
    result := {};
    if only.Some? && only.value == {} {
      return;
    }
    var todo := scanned;
    while todo != {}
      invariant todo <= scanned
      invariant result == Remotely(user, only, scanned - todo)
    {
      var key :| key in todo;
      if (user.None? || user.value == "" || key.0 == user.value) && (only.None? || key.1 in only.value) {
        result := result + {key.1};
      }
      todo := todo - {key};
      assert scanned - todo == (scanned - (todo + {key})) + {key};
    }
    assert scanned - todo == scanned;
  }

  lemma SameSizeSubset<T>(a: set<T>, b: set<T>)
    requires a <= b && |a| == |b|
    ensures a == b
  {
    assert |b - a| == |b| - |a|;
  }
}
