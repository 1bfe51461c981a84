/** Device codes of the OAuth 2.0 device flow: authorisation status and the polling interval of section 3.5 of
    RFC 8628. Times are in seconds. */
module DeviceCodes {
  import opened Options

  datatype Status = Pending | Authorized | Expired | Denied

  datatype Code = Code(deviceCode: string, userCode: string, status: Status, user: Option<string>, expiresAt: real,
                       authorizedAt: Option<real>, lastPoll: Option<real>, interval: int)

  const INITIAL_INTERVAL := 5
  const INCREMENT := 5
  const CAP := 60

  function Min(a: int, b: int): int {
    if a <= b then a else b
  }

  // ----- one code -----

  function NewCode(deviceCode: string, userCode: string, now: real, expiresIn: real): Code {
    Code(deviceCode, userCode, Pending, None, now + expiresIn, None, None, INITIAL_INTERVAL)
  }

  predicate IsExpired(c: Code, now: real) {
    now > c.expiresAt
  }

  predicate IsPending(c: Code, now: real) {
    c.status.Pending? && !IsExpired(c, now)
  }

  function Authorize(c: Code, user: string, now: real): Code {
    c.(status := Authorized, user := Some(user), authorizedAt := Some(now))
  }

  function Deny(c: Code): Code {
    c.(status := Denied)
  }

  predicate TooFast(c: Code, now: real) {
    c.lastPoll.Some? && now - c.lastPoll.value < c.interval as real
  }

  function Polled(c: Code, now: real, slowDown: bool): Code {
    c.(lastPoll := Some(now), interval := if slowDown then Min(c.interval + INCREMENT, CAP) else c.interval)
  }

  /** The row as an object whose methods assign its fields. */
  class DeviceCode {
    const deviceCode: string
    const userCode: string
    const expiresAt: real
    var status: Status
    var user: Option<string>
    var authorizedAt: Option<real>
    var lastPoll: Option<real>
    var interval: int

    function View(): Code
      reads this
    {
      Code(deviceCode, userCode, status, user, expiresAt, authorizedAt, lastPoll, interval)
    }

    constructor (deviceCode: string, userCode: string, now: real, expiresIn: real)
      ensures View() == NewCode(deviceCode, userCode, now, expiresIn)
    {
      this.deviceCode, this.userCode, this.expiresAt := deviceCode, userCode, now + expiresIn;
      status, user, authorizedAt, lastPoll, interval := Pending, None, None, None, INITIAL_INTERVAL;
    }

    method AuthorizeBy(id: string, now: real)
      modifies this
      ensures View() == Authorize(old(View()), id, now)
    {
      status := Authorized;
      user := Some(id);
      authorizedAt := Some(now);
    }

    method DenyIt()
      modifies this
      ensures View() == Deny(old(View()))
    {
      status := Denied;
    }

    /** The second result is the interval to advertise. */
    method CheckRateLimit(now: real) returns (tooFast: bool, advertised: int)
      ensures tooFast <==> TooFast(View(), now)
      ensures advertised == Polled(View(), now, tooFast).interval
    {
      if lastPoll.None? {
        return false, interval;
      }
      if now - lastPoll.value < interval as real {
        return true, Min(interval + INCREMENT, CAP);
      }
      return false, interval;
    }

    method UpdatePollTime(now: real, increase: bool)
      modifies this
      ensures View() == Polled(old(View()), now, increase)
    {
      lastPoll := Some(now);
      if increase {
        interval := Min(interval + INCREMENT, CAP);
      }
    }
  }

  // ----- the store -----

  type Rows = map<string, Code>

  /** The row with the given user code, if there is one. */
  predicate HasUserCode(rows: Rows, k: string, userCode: string) {
    k in rows && rows[k].userCode == userCode
  }

  predicate Free(rows: Rows, deviceCode: string, userCode: string) {
    deviceCode !in rows && forall k :: k in rows ==> rows[k].userCode != userCode
  }

  class DeviceCodeStore {
    var rows: Rows

    /** `create_device_code`: tries candidates, which a random generator provides, until the unique constraints accept
        one or the attempts are used up. */
    method CreateDeviceCode(candidates: seq<(string, string)>, maxAttempts: nat, now: real, expiresIn: real)
      returns (created: Option<Code>)
      requires |candidates| >= maxAttempts
      modifies this`rows
      ensures created.Some? <==> exists i :: 0 <= i < maxAttempts && Free(old(rows), candidates[i].0, candidates[i].1)
      ensures created.Some? ==> exists i ::
                0 <= i < maxAttempts && FirstFree(old(rows), candidates, i) &&
                    created.value == NewCode(candidates[i].0, candidates[i].1, now, expiresIn)
      ensures rows == if created.Some? then old(rows)[created.value.deviceCode := created.value] else old(rows)
    {
      created := None;
      for attempt := 0 to maxAttempts
        invariant rows == old(rows)
        invariant forall i :: 0 <= i < attempt ==> !Free(rows, candidates[i].0, candidates[i].1)
      {
        var (deviceCode, userCode) := candidates[attempt];
        if deviceCode !in rows && forall k :: k in rows ==> rows[k].userCode != userCode {
          assert FirstFree(rows, candidates, attempt);
          created := Some(NewCode(deviceCode, userCode, now, expiresIn));
          rows := rows[deviceCode := created.value];
          return;
        }
      }
    }
  }

  predicate FirstFree(rows: Rows, candidates: seq<(string, string)>, i: nat)
    requires i < |candidates|
  {
    && Free(rows, candidates[i].0, candidates[i].1)
    && forall j :: 0 <= j < i ==> !Free(rows, candidates[j].0, candidates[j].1)
  }

  // ----- any sequence of operations -----

  type Process = nat

  datatype Verdict = Grant(user: string) | Refuse

  /** A transaction that has found the code pending, at the given time, and has not been committed yet. */
  datatype Deciding = Deciding(key: string, verdict: Verdict, at: real)

  /** What the transaction that records a poll has read of the row, and when. */
  datatype Reading = Reading(interval: int, at: real)

  /** A poll that has been answered, with the interval it advertised, and has not been recorded yet. */
  datatype Polling = Polling(key: string, tooFast: bool, advertised: int, reading: Option<Reading>)

  datatype State = State(now: real, rows: Rows, deciding: map<Process, Deciding>, polling: map<Process, Polling>)

  /** Authorising, denying and polling read the row without locking it and write it later. */
  datatype Op =
    | Wait(dt: real)
    | Create(deviceCode: string, userCode: string, expiresIn: real)
    | Check(p: Process, key: string, userCode: string, verdict: Verdict)
    | Write(p: Process)
    | Drop(p: Process)
    | Poll(p: Process, key: string)
    | ReadPoll(p: Process)
    | WritePoll(p: Process)

  function Decide(c: Code, d: Deciding): Code {
    match d.verdict
    case Grant(user) => Authorize(c, user, d.at)
    case Refuse => Deny(c)
  }

  /** The row after a recording: of what was read, the changed columns are written. */
  function Recorded(c: Code, poll: Polling): Code
    requires poll.reading.Some?
  {
    var read := poll.reading.value;
    var slower := Min(read.interval + INCREMENT, CAP);
    c.(lastPoll := Some(read.at), interval := if poll.tooFast && slower != read.interval then slower else c.interval)
  }

  /** The key that comes with a user code is the row that the lookup by user code finds. */
  predicate Enabled(s: State, op: Op) {
    match op
    case Wait(dt) => dt >= 0.0
    case Create(deviceCode, userCode, _) => Free(s.rows, deviceCode, userCode)
    case Check(p, key, userCode, _) => p !in s.deciding && HasUserCode(s.rows, key, userCode)
    case Write(p) => p in s.deciding && s.deciding[p].key in s.rows
    case Drop(p) => p in s.deciding
    case Poll(p, key) => p !in s.polling && key in s.rows
    case ReadPoll(p) => p in s.polling && s.polling[p].reading.None? && s.polling[p].key in s.rows
    case WritePoll(p) => p in s.polling && s.polling[p].reading.Some? && s.polling[p].key in s.rows
  }

  function Next(s: State, op: Op): State
    requires Enabled(s, op)
  {
    match op
    case Wait(dt) => s.(now := s.now + dt)
    case Create(deviceCode, userCode, expiresIn) =>
      s.(rows := s.rows[deviceCode := NewCode(deviceCode, userCode, s.now, expiresIn)])
    case Check(p, key, _, verdict) =>
      if IsPending(s.rows[key], s.now) then s.(deciding := s.deciding[p := Deciding(key, verdict, s.now)]) else s
    case Write(p) =>
      var d := s.deciding[p];
      s.(rows := s.rows[d.key := Decide(s.rows[d.key], d)], deciding := s.deciding - {p})
    case Drop(p) => s.(deciding := s.deciding - {p})
    case Poll(p, key) =>
      var tooFast := TooFast(s.rows[key], s.now);
      s.(polling := s.polling[p := Polling(key, tooFast, Polled(s.rows[key], s.now, tooFast).interval, None)])
    case ReadPoll(p) =>
      var reading := Reading(s.rows[s.polling[p].key].interval, s.now);
      s.(polling := s.polling[p := s.polling[p].(reading := Some(reading))])
    case WritePoll(p) =>
      var k := s.polling[p].key;
      s.(rows := s.rows[k := Recorded(s.rows[k], s.polling[p])], polling := s.polling - {p})
  }

  ghost predicate Run(s: State, ops: seq<Op>)
    decreases |ops|
  {
    ops == [] || (Enabled(s, ops[0]) && Run(Next(s, ops[0]), ops[1..]))
  }

  ghost function After(s: State, ops: seq<Op>): State
    requires Run(s, ops)
    decreases |ops|
  {
    if ops == [] then s else After(Next(s, ops[0]), ops[1..])
  }

  /** No transaction decides on a code while another one does. */
  ghost predicate Separate(s: State, ops: seq<Op>)
    requires Run(s, ops)
    decreases |ops|
  {
    ops == [] || (Alone(s, ops[0]) && Separate(Next(s, ops[0]), ops[1..]))
  }

  predicate Alone(s: State, op: Op) {
    op.Check? ==> forall p :: p in s.deciding ==> s.deciding[p].key != op.key
  }

  // ----- what always holds -----

  predicate WellFormed(k: string, c: Code) {
    && c.deviceCode == k && c.interval <= CAP
    && (c.status.Authorized? ==> c.user.Some? && c.authorizedAt.Some? && c.authorizedAt.value <= c.expiresAt)
  }

  /** Codes are unique, and authorised codes name their user and were found valid before. */
  ghost predicate Inv(s: State) {
    && (forall k :: k in s.rows ==> WellFormed(k, s.rows[k]))
    && (forall k, l :: k in s.rows && l in s.rows && s.rows[k].userCode == s.rows[l].userCode ==> k == l)
    && (forall p :: p in s.deciding ==>
          s.deciding[p].key in s.rows && s.deciding[p].at <= s.rows[s.deciding[p].key].expiresAt)
    && (forall p :: p in s.polling ==> s.polling[p].key in s.rows)
  }

  /** A user is recorded for authorised codes only, and nobody is deciding on a decided code. */
  ghost predicate Settled(s: State) {
    && (forall k :: k in s.rows ==> (s.rows[k].user.Some? <==> s.rows[k].status.Authorized?))
    && (forall p :: p in s.deciding ==> s.deciding[p].key in s.rows && s.rows[s.deciding[p].key].status.Pending?)
    && (forall p, q :: p in s.deciding && q in s.deciding && s.deciding[p].key == s.deciding[q].key ==> p == q)
  }

  lemma OpKeepsInv(s: State, op: Op)
    requires Inv(s) && Enabled(s, op)
    ensures Inv(Next(s, op))
  {
    var t := Next(s, op);
    forall k | k in t.rows ensures WellFormed(k, t.rows[k]) {
      assert k in s.rows ==> WellFormed(k, s.rows[k]);
      RowStaysWellFormed(s, op, k);
    }
    UserCodesStay(s, op);
    DecidingStaysTimely(s, op);
    assert op.Create? ==> Free(s.rows, op.deviceCode, op.userCode) && t.rows[op.deviceCode].userCode == op.userCode;
    hide Next;
    hide WellFormed;
  }

  lemma RowStaysWellFormed(s: State, op: Op, k: string)
    requires Enabled(s, op) && k in Next(s, op).rows && (k in s.rows ==> WellFormed(k, s.rows[k]))
    requires forall p :: p in s.deciding && s.deciding[p].key in s.rows ==>
      s.deciding[p].at <= s.rows[s.deciding[p].key].expiresAt
    ensures WellFormed(k, Next(s, op).rows[k])
  {
  }

  lemma DecidingStaysTimely(s: State, op: Op)
    requires Inv(s) && Enabled(s, op)
    ensures var t := Next(s, op); forall p :: p in t.deciding ==>
      t.deciding[p].key in t.rows && t.deciding[p].at <= t.rows[t.deciding[p].key].expiresAt
  {
    UserCodesStay(s, op);
  }

  lemma UserCodesStay(s: State, op: Op)
    requires Enabled(s, op)
    ensures var t := Next(s, op);
      && (forall k :: k in s.rows ==>
          k in t.rows && t.rows[k].userCode == s.rows[k].userCode && t.rows[k].expiresAt == s.rows[k].expiresAt)
      && (forall k :: k in t.rows && k !in s.rows ==> op.Create? && k == op.deviceCode)
  {
  }

  lemma OpKeepsSettled(s: State, op: Op)
    requires Settled(s) && Enabled(s, op) && Alone(s, op)
    ensures Settled(Next(s, op))
  {
  }

  /** In every run codes stay unique, and every authorised code has a user and was found valid; if decisions do not
      overlap, only authorised codes have a user. */
  lemma {:induction false} RunKeepsInv(s: State, ops: seq<Op>)
    requires Inv(s) && Run(s, ops)
    ensures Inv(After(s, ops))
    ensures Settled(s) && Separate(s, ops) ==> Settled(After(s, ops))
    decreases |ops|
  {
    hide Next;
    hide Inv;
    hide Settled;
    if ops != [] {
      OpKeepsInv(s, ops[0]);
      if Settled(s) && Separate(s, ops) {
        OpKeepsSettled(s, ops[0]);
      }
      RunKeepsInv(Next(s, ops[0]), ops[1..]);
    }
  }

  /** Nobody starts to decide on an expired or decided code. */
  lemma NoLateDecision(s: State, op: Op, p: Process)
    requires Enabled(s, op) && p in Next(s, op).deciding && p !in s.deciding
    ensures op.Check? && op.p == p && s.rows[op.key].status.Pending? && s.now <= s.rows[op.key].expiresAt
  {
  }

  // ----- decisions -----

  predicate SameDecision(c: Code, d: Code) {
    d.status == c.status && d.user == c.user && d.authorizedAt == c.authorizedAt
  }

  lemma OpKeepsDecision(s: State, op: Op, k: string)
    requires Settled(s) && Enabled(s, op) && k in s.rows && !s.rows[k].status.Pending?
    ensures k in Next(s, op).rows && SameDecision(s.rows[k], Next(s, op).rows[k])
  {
  }

  /** If decisions do not overlap, a decision is final over every continuation. */
  lemma {:induction false} DecisionsAreFinal(s: State, ops: seq<Op>, k: string)
    requires Settled(s) && Run(s, ops) && Separate(s, ops) && k in s.rows && !s.rows[k].status.Pending?
    ensures k in After(s, ops).rows && SameDecision(s.rows[k], After(s, ops).rows[k])
    decreases |ops|
  {
    hide Next;
    hide Settled;
    if ops != [] {
      OpKeepsDecision(s, ops[0], k);
      OpKeepsSettled(s, ops[0]);
      DecisionsAreFinal(Next(s, ops[0]), ops[1..], k);
    }
  }

  /** If they do, the second one to be written overturns the first, exactly if they differ; and if it is a refusal, the
      refused code keeps the user of the first. */
  lemma OverlapOverturns(s: State, p: Process, q: Process)
    requires p in s.deciding && q in s.deciding && p != q
    requires s.deciding[p].key == s.deciding[q].key && s.deciding[p].key in s.rows
    ensures var k := s.deciding[p].key;
      var first := Next(s, Write(p));
      && Enabled(first, Write(q)) && !first.rows[k].status.Pending?
      && var c, d := first.rows[k], Next(first, Write(q)).rows[k];
      && ((c.status != d.status || c.user != d.user) <==> s.deciding[p].verdict != s.deciding[q].verdict)
      && (s.deciding[p].verdict.Grant? && s.deciding[q].verdict.Refuse? ==> d.status.Denied? && d.user.Some?)
  {
  }

  /** Any two decisions on a pending code can overlap. */
  lemma DecisionsMayOverlap(s: State, k: string, p: Process, q: Process, v: Verdict, w: Verdict)
    requires k in s.rows && IsPending(s.rows[k], s.now) && p !in s.deciding && q !in s.deciding && p != q
    ensures var check, check' := Check(p, k, s.rows[k].userCode, v), Check(q, k, s.rows[k].userCode, w);
      && Enabled(s, check)
      && var s1 := Next(s, check);
      && Enabled(s1, check') && !Alone(s1, check')
      && Next(s1, check').deciding == s.deciding[p := Deciding(k, v, s.now)][q := Deciding(k, w, s.now)]
  {
    var s1 := Next(s, Check(p, k, s.rows[k].userCode, v));
    assert s1.deciding[p].key == k;
  }

  // ----- the polling interval -----

  /** The step records a slow-down of `k`. */
  predicate SlowsDown(s: State, op: Op, k: string) {
    op.WritePoll? && op.p in s.polling && s.polling[op.p].key == k && s.polling[op.p].tooFast
  }

  /** How often a slow-down for `k` has been recorded. */
  ghost function SlowDowns(s: State, ops: seq<Op>, k: string): nat
    requires Run(s, ops)
    decreases |ops|
  {
    if ops == [] then 0
    else (if SlowsDown(s, ops[0], k) then 1 else 0) + SlowDowns(Next(s, ops[0]), ops[1..], k)
  }

  /** The step records a slow-down, and since it read the row another one has changed the interval. */
  predicate Stale(s: State, op: Op, k: string)
    requires Enabled(s, op)
  {
    SlowsDown(s, op, k) && s.polling[op.p].reading.value.interval != s.rows[k].interval
  }

  ghost predicate AllFresh(s: State, ops: seq<Op>, k: string)
    requires Run(s, ops)
    decreases |ops|
  {
    ops == [] || (!Stale(s, ops[0], k) && AllFresh(Next(s, ops[0]), ops[1..], k))
  }

  /** Of two slow-downs whose recordings have read the same row, the second to be written is stale, unless the cap is
      reached. */
  lemma OverlapIsStale(s: State, p: Process, q: Process, k: string)
    requires Enabled(s, WritePoll(p)) && Enabled(s, WritePoll(q)) && p != q
    requires SlowsDown(s, WritePoll(p), k) && SlowsDown(s, WritePoll(q), k)
    requires s.polling[p].reading.value.interval == s.polling[q].reading.value.interval == s.rows[k].interval < CAP
    ensures var t := Next(s, WritePoll(p)); Enabled(t, WritePoll(q)) && Stale(t, WritePoll(q), k)
  {
  }

  /** Neither the row nor any recording in flight has an interval above `bound`. */
  ghost predicate Below(s: State, k: string, bound: int) {
    && k in s.rows && s.rows[k].interval <= bound
    && forall p :: p in s.polling && s.polling[p].key == k && s.polling[p].reading.Some? ==>
         s.polling[p].reading.value.interval <= bound
  }

  lemma RowStays(s: State, op: Op, k: string)
    requires Enabled(s, op) && k in s.rows
    ensures k in Next(s, op).rows
    ensures !SlowsDown(s, op, k) ==> Next(s, op).rows[k].interval == s.rows[k].interval
    ensures SlowsDown(s, op, k) ==> Next(s, op).rows[k] == Recorded(s.rows[k], s.polling[op.p])
  {
  }

  lemma OpStaysBelow(s: State, op: Op, k: string, bound: int)
    requires Enabled(s, op) && Below(s, k, bound)
    ensures Below(Next(s, op), k, if SlowsDown(s, op, k) then bound + INCREMENT else bound)
  {
  }

  /** Whatever overlaps, the interval grows by at most one increment for each recorded slow-down. */
  lemma {:induction false} GrowsAtMost(s: State, ops: seq<Op>, k: string, bound: int)
    requires Run(s, ops) && Below(s, k, bound)
    ensures Below(After(s, ops), k, bound + INCREMENT * SlowDowns(s, ops, k))
    decreases |ops|
  {
    hide Next;
    hide Below;
    if ops != [] {
      OpStaysBelow(s, ops[0], k, bound);
      GrowsAtMost(Next(s, ops[0]), ops[1..], k, if SlowsDown(s, ops[0], k) then bound + INCREMENT else bound);
    }
  }

  /** If no recording is stale, it grows by exactly that, up to the cap. */
  lemma {:induction false} FreshHistory(s: State, ops: seq<Op>, k: string)
    requires Run(s, ops) && k in s.rows && s.rows[k].interval <= CAP && AllFresh(s, ops, k)
    ensures k in After(s, ops).rows
    ensures After(s, ops).rows[k].interval == Min(s.rows[k].interval + INCREMENT * SlowDowns(s, ops, k), CAP)
    decreases |ops|
  {
    hide Next;
    if ops != [] {
      RowStays(s, ops[0], k);
      FreshHistory(Next(s, ops[0]), ops[1..], k);
    }
  }

  /** A stale recording loses an increment, which is never made up for. */
  lemma {:induction false} StaleHistory(s: State, ops: seq<Op>, k: string)
    requires Run(s, ops) && k in s.rows && Below(s, k, s.rows[k].interval) && !AllFresh(s, ops, k)
    requires s.rows[k].interval + INCREMENT * SlowDowns(s, ops, k) <= CAP
    ensures k in After(s, ops).rows
    ensures After(s, ops).rows[k].interval < s.rows[k].interval + INCREMENT * SlowDowns(s, ops, k)
    decreases |ops|
  {
    hide Next;
    var t := Next(s, ops[0]);
    RowStays(s, ops[0], k);
    OpStaysBelow(s, ops[0], k, s.rows[k].interval);
    if Stale(s, ops[0], k) {
      assert Below(t, k, s.rows[k].interval + INCREMENT - 1) by {
        StaleFallsBehind(s, ops[0], k);
      }
      GrowsAtMost(t, ops[1..], k, s.rows[k].interval + INCREMENT - 1);
    } else {
      StaleHistory(t, ops[1..], k);
    }
  }

  lemma StaleFallsBehind(s: State, op: Op, k: string)
    requires Enabled(s, op) && k in s.rows && Below(s, k, s.rows[k].interval) && Stale(s, op, k)
    requires s.rows[k].interval + INCREMENT <= CAP
    ensures Below(Next(s, op), k, s.rows[k].interval + INCREMENT - 1)
  {
  }

  lemma StaysCapped(s: State, ops: seq<Op>, k: string)
    requires Inv(s) && Run(s, ops) && k in s.rows
    ensures k in After(s, ops).rows && s.rows[k].interval <= CAP && After(s, ops).rows[k].interval <= CAP
  {
    assert WellFormed(k, s.rows[k]);
    RunKeepsInv(s, ops);
    CodeStays(s, ops, k);
    assert WellFormed(k, After(s, ops).rows[k]);
  }

  /** In every continuation, whatever overlaps, the interval grows by at most one increment for each recorded slow-down,
      and not beyond the cap. It grows by exactly that if no recording is stale; and as long as the cap is not in the
      way, only then. */
  lemma CodeHistory(s: State, ops: seq<Op>, k: string)
    requires Inv(s) && Run(s, ops) && k in s.rows && Below(s, k, s.rows[k].interval)
    ensures k in After(s, ops).rows
    ensures var c, d, n := s.rows[k], After(s, ops).rows[k], SlowDowns(s, ops, k);
      && d.interval <= Min(c.interval + INCREMENT * n, CAP)
      && (AllFresh(s, ops, k) ==> d.interval == Min(c.interval + INCREMENT * n, CAP))
      && (c.interval + INCREMENT * n <= CAP ==> (d.interval == c.interval + INCREMENT * n <==> AllFresh(s, ops, k)))
  {
    hide Inv;
    hide Next;
    hide Enabled;
    GrowsAtMost(s, ops, k, s.rows[k].interval);
    StaysCapped(s, ops, k);
    if AllFresh(s, ops, k) {
      FreshHistory(s, ops, k);
    } else if s.rows[k].interval + INCREMENT * SlowDowns(s, ops, k) <= CAP {
      StaleHistory(s, ops, k);
    }
  }

  /** From its creation on the interval is 5 seconds plus 5 for every recorded slow-down, at most 60, in that sense. */
  lemma IntervalFollowsSlowDowns(s: State, create: Op, ops: seq<Op>)
    requires Inv(s) && create.Create? && Enabled(s, create) && Run(Next(s, create), ops)
    ensures var t := Next(s, create); var k := create.deviceCode; var n := SlowDowns(t, ops, k);
      && k in After(t, ops).rows
      && var interval := After(t, ops).rows[k].interval;
      && interval <= Min(5 + 5 * n, 60)
      && (AllFresh(t, ops, k) ==> interval == Min(5 + 5 * n, 60))
      && (5 + 5 * n <= 60 ==> (interval == 5 + 5 * n <==> AllFresh(t, ops, k)))
  {
    var t, k := Next(s, create), create.deviceCode;
    OpKeepsInv(s, create);
    assert Below(t, k, 5);
    hide Inv;
    hide Next;
    CodeHistory(t, ops, k);
  }

  /** User code and expiry never change. */
  lemma {:induction false} CodeStays(s: State, ops: seq<Op>, k: string)
    requires Run(s, ops) && k in s.rows
    ensures k in After(s, ops).rows
    ensures After(s, ops).rows[k].userCode == s.rows[k].userCode
    ensures After(s, ops).rows[k].expiresAt == s.rows[k].expiresAt
    decreases |ops|
  {
    hide Next;
    if ops != [] {
      UserCodesStay(s, ops[0]);
      CodeStays(Next(s, ops[0]), ops[1..], k);
    }
  }

  lemma {:induction false} PollStays(s: State, ops: seq<Op>, p: Process)
    requires Run(s, ops) && p in s.polling && forall i :: 0 <= i < |ops| ==> ops[i] != ReadPoll(p)
    requires s.polling[p].reading.None?
    ensures p in After(s, ops).polling && After(s, ops).polling[p] == s.polling[p]
    decreases |ops|
  {
    if ops != [] {
      assert ops[0] != ReadPoll(p);
      PollStays(Next(s, ops[0]), ops[1..], p);
    }
  }

  /** The interval that a poll advertises is the one that recording it stores, exactly if no other slow-down of the code
      was recorded between the poll and the recording, or the cap is reached anyway. (If those others were stale among
      themselves, exactly if the interval is still the one the poll saw, or close to the cap like that one.) */
  lemma AdvertisedExactly(s: State, p: Process, k: string, ops: seq<Op>)
    requires Inv(s) && Enabled(s, Poll(p, k)) && Run(Next(s, Poll(p, k)), ops)
    requires forall i :: 0 <= i < |ops| ==> ops[i] != ReadPoll(p)
    ensures var s1 := Next(s, Poll(p, k)); var t := After(s1, ops); var poll := s1.polling[p];
      && Enabled(t, ReadPoll(p)) && Enabled(Next(t, ReadPoll(p)), WritePoll(p)) && k in t.rows
      && var stored := Next(Next(t, ReadPoll(p)), WritePoll(p)).rows[k].interval;
      && (stored == poll.advertised <==> SameAdvice(s.rows[k].interval, t.rows[k].interval, poll.tooFast))
      && (AllFresh(s1, ops, k) ==>
            (stored == poll.advertised <==> SlowDowns(s1, ops, k) == 0 || poll.advertised == CAP))
  {
    hide Inv;
    hide Next;
    hide Enabled;
    hide SameAdvice;
    hide AllFresh;
    hide SlowDowns;
    PollAnswered(s, p, k);
    var s1 := Next(s, Poll(p, k));
    OpKeepsInv(s, Poll(p, k));
    StaysCapped(s1, ops, k);
    PollStays(s1, ops, p);
    AtOnce(After(s1, ops), p, k);
    var tooFast := s1.polling[p].tooFast;
    Advice(s.rows[k].interval, After(s1, ops).rows[k].interval, tooFast);
    if AllFresh(s1, ops, k) {
      FreshHistory(s1, ops, k);
      FreshAdvice(s.rows[k].interval, SlowDowns(s1, ops, k), tooFast);
    }
  }

  /** The interval that a poll leads to. */
  function Advised(i: int, tooFast: bool): int {
    if tooFast then Min(i + INCREMENT, CAP) else i
  }

  lemma Advice(i: int, j: int, tooFast: bool)
    requires i <= CAP && j <= CAP
    ensures Advised(i, tooFast) == Advised(j, tooFast) <==> SameAdvice(i, j, tooFast)
  {
  }

  lemma FreshAdvice(i: int, n: nat, tooFast: bool)
    requires i <= CAP
    ensures Advised(i, tooFast) == Advised(Min(i + INCREMENT * n, CAP), tooFast) <==>
      n == 0 || Advised(i, tooFast) == CAP
  {
  }

  /** Starting from these two intervals, a poll with that answer leads to the same interval. */
  predicate SameAdvice(i: int, j: int, tooFast: bool) {
    i == j || (tooFast && i + INCREMENT >= CAP && j + INCREMENT >= CAP)
  }

  lemma PollAnswered(s: State, p: Process, k: string)
    requires Enabled(s, Poll(p, k))
    ensures var t := Next(s, Poll(p, k)); var tooFast := TooFast(s.rows[k], s.now);
      && t.rows == s.rows && k in s.rows
      && p in t.polling && t.polling[p] == Polling(k, tooFast, Polled(s.rows[k], s.now, tooFast).interval, None)
  {
  }

  /** A recording that is not interrupted does what the method on the object does. */
  lemma AtOnce(s: State, p: Process, k: string)
    requires p in s.polling && s.polling[p].reading.None? && s.polling[p].key == k && k in s.rows
    ensures Enabled(s, ReadPoll(p)) && Enabled(Next(s, ReadPoll(p)), WritePoll(p))
    ensures Next(Next(s, ReadPoll(p)), WritePoll(p)).rows == s.rows[k := Polled(s.rows[k], s.now, s.polling[p].tooFast)]
  {
  }

  // ----- from the beginning -----

  const EMPTY := State(0.0, map[], map[], map[])

  /** What holds in every state that is reachable from the empty store. */
  lemma EveryReachableState(ops: seq<Op>)
    requires Run(EMPTY, ops)
    ensures Inv(After(EMPTY, ops)) && (Separate(EMPTY, ops) ==> Settled(After(EMPTY, ops)))
  {
    RunKeepsInv(EMPTY, ops);
  }

  // ----- what the operations do -----

  /** A new code is pending, valid for the given time, and may be polled every five seconds. */
  lemma CreatedCode(s: State, op: Op)
    requires Enabled(s, op) && op.Create?
    ensures var t := Next(s, op);
      && t.rows.Keys == s.rows.Keys + {op.deviceCode}
      && t.rows[op.deviceCode]
         == Code(op.deviceCode, op.userCode, Pending, None, s.now + op.expiresIn, None, None, 5)
  {
  }

  /** A decision that is not interrupted takes effect on a pending, unexpired code, and on no other. */
  lemma DecisionTakesEffect(s: State, p: Process, k: string, v: Verdict)
    requires p !in s.deciding && k in s.rows
    ensures var check := Check(p, k, s.rows[k].userCode, v); var c := s.rows[k];
      && Enabled(s, check)
      && if c.status == Pending && s.now <= c.expiresAt then
           && Enabled(Next(s, check), Write(p))
           && Next(Next(s, check), Write(p)).rows
              == s.rows[k := match v
                             case Grant(user) =>
                               c.(status := Authorized, user := Some(user), authorizedAt := Some(s.now))
                             case Refuse => c.(status := Denied)]
         else Next(s, check) == s
  {
  }

  /** The first poll is never too fast. After a recorded one, the next is too fast exactly if less time has passed than
      the interval says. */
  lemma TooFastMeans(s: State, p: Process, k: string, dt: real)
    requires p in s.polling && s.polling[p].reading.None? && s.polling[p].key == k && k in s.rows && dt >= 0.0
    ensures s.rows[k].lastPoll.None? ==> !TooFast(s.rows[k], s.now)
    ensures Enabled(s, ReadPoll(p)) && Enabled(Next(s, ReadPoll(p)), WritePoll(p))
    ensures var t := Next(Next(s, ReadPoll(p)), WritePoll(p));
      && k in t.rows
      && (TooFast(t.rows[k], s.now + dt) <==> dt < t.rows[k].interval as real)
  {
    AtOnce(s, p, k);
  }

  /** Waiting lets time pass and a dropped transaction leaves no trace. */
  lemma IdleLaw(s: State, op: Op)
    requires Enabled(s, op)
    ensures op.Wait? ==> Next(s, op) == s.(now := s.now + op.dt)
    ensures op.Drop? ==> op.p !in Next(s, op).deciding && Next(s, op).rows == s.rows
  {
  }

  /** Recording a poll writes the time it was made, and after a slow-down the interval that was read plus five, at most
      60. An interval that was read as 60 already is not written. */
  lemma RecordedLaw(c: Code, poll: Polling)
    requires poll.reading.Some? && poll.reading.value.interval <= 60
    ensures var r, read := Recorded(c, poll), poll.reading.value;
      && r.lastPoll == Some(read.at)
      && (poll.tooFast && read.interval < 60 ==> r.interval == Min(read.interval + 5, 60))
      && (!poll.tooFast || read.interval == 60 ==> r.interval == c.interval)
  {
  }
}
