/**
 Model of the per-user admission check that the chat bot's middleware runs
 before every inbound message: a blocked set, a minimum interval between
 counted messages, and a per-user daily counter with a one-time warning and an
 automatic block.

 The middleware is modelled as an immutable state record and a pure step
 function. Timestamps are integer seconds; raised exceptions become a
 `Verdict`; messages sent to the user or to the admin chat become a list of
 `Notification`s.
 */
module RateLimit {

  /** Gap (seconds) after which a user's daily counter starts again from zero. */
  const DaySeconds: int := 86400

  /** Constructor defaults of the middleware. */
  const DefaultInterval: int := 3
  const DefaultWarningLimit: int := 20
  const DefaultBlockLimit: int := 200

  datatype Option<+T> = None | Some(value: T)

  /** The limits the middleware is constructed with. */
  datatype Config = Config(
    interval: int,
    warningLimit: int,
    blockLimit: int,
    adminChatId: Option<int>)

  /** The per-user daily record: messages counted so far and the time of the last counted one. */
  datatype DailyStats = DailyStats(count: nat, lastSeen: int)

  /** The middleware's three collections. */
  datatype State = State(
    lastTime: map<int, int>,
    daily: map<int, DailyStats>,
    blocked: set<int>)

  datatype Verdict = Accept | RejectBlocked | RejectTooFrequent | RejectBlockedByLimit

  /** Messages the check sends: replies to the user and escalations to the admin chat. */
  datatype Notification =
    | UserTooFrequent
    | UserWarning
    | AdminWarning(chat: int)
    | AdminBlocked(chat: int)

  datatype StepResult = StepResult(state: State, verdict: Verdict, notes: seq<Notification>)

  function DefaultConfig(adminChatId: Option<int>): Config {
    Config(DefaultInterval, DefaultWarningLimit, DefaultBlockLimit, adminChatId)
  }

  function Lookup<K, V>(m: map<K, V>, k: K): Option<V> {
    if k in m then Some(m[k]) else None
  }

  /** Escalations go out only when the admin chat id is set and truthy (an id of 0 counts as unset). */
  predicate AdminConfigured(cfg: Config) {
    cfg.adminChatId.Some? && cfg.adminChatId.value != 0
  }

  /** The admin message for a warning (`blocked == false`) or a block: one message to the admin chat, or none when it is unset. */
  function Escalation(cfg: Config, blocked: bool): seq<Notification> {
    if !AdminConfigured(cfg) then []
    else if blocked then [AdminBlocked(cfg.adminChatId.value)]
    else [AdminWarning(cfg.adminChatId.value)]
  }

  /** The message passed the interval check, so its time and count were recorded. */
  predicate Passed(v: Verdict) {
    v == Accept || v == RejectBlockedByLimit
  }

  /** The interval throttle: a last accepted time exists and less than `interval` seconds have gone by. */
  predicate TooFrequent(cfg: Config, s: State, user: int, now: int) {
    user in s.lastTime && now - s.lastTime[user] < cfg.interval
  }

  /** A count that blocks: the warning branch is taken first, so a count equal to the warning limit never blocks. */
  predicate OverLimit(cfg: Config, count: int) {
    count != cfg.warningLimit && count >= cfg.blockLimit
  }

  function CountOf(s: State, user: int): nat {
    if user in s.daily then s.daily[user].count else 0
  }

  /** Everything the middleware stores about `user` is the same in `s` and `t`. */
  predicate SameForUser(s: State, t: State, user: int) {
    && Lookup(s.lastTime, user) == Lookup(t.lastTime, user)
    && Lookup(s.daily, user) == Lookup(t.daily, user)
    && (user in s.blocked <==> user in t.blocked)
  }

  /** Nothing is stored about `user`. */
  predicate Fresh(s: State, user: int) {
    user !in s.lastTime && user !in s.daily && user !in s.blocked
  }

  /**
   The invariant the middleware keeps: the two maps have the same users, the
   last accepted time is the daily record's `lastSeen`, every record has
   counted a message, and a user is blocked exactly when the stored count is
   over the limit.
   */
  predicate Valid(cfg: Config, s: State) {
    && s.lastTime.Keys == s.daily.Keys
    && s.blocked <= s.daily.Keys
    && (forall u :: u in s.daily ==> s.daily[u].lastSeen == s.lastTime[u] && s.daily[u].count >= 1)
    && (forall u :: u in s.daily ==> (u in s.blocked <==> OverLimit(cfg, s.daily[u].count)))
  }

  /** The freshly constructed middleware: no user seen, none blocked. */
  function Init(): (s: State)
    ensures forall u :: Fresh(s, u)
    ensures forall cfg :: Valid(cfg, s)
  {
    State(map[], map[], {})
  }

  /**
   The daily record after one counted message at `now`. A missing record is
   created with a zero count and `lastSeen == now`; the count restarts when
   the previous counted message is more than a day old.
   */
  function Tally(prev: Option<DailyStats>, now: int): (d: DailyStats)
    ensures d.lastSeen == now
    ensures d.count >= 1
    ensures prev.Some? && now - prev.value.lastSeen <= DaySeconds ==> d.count == prev.value.count + 1
    ensures prev.None? || now - prev.value.lastSeen > DaySeconds ==> d.count == 1
  {
    var stats := match prev
      case None => DailyStats(0, now)
      case Some(p) => p;
    var count := if now - stats.lastSeen > DaySeconds then 0 else stats.count;
    DailyStats(count + 1, now)
  }

  /**
   The part of the check after the interval test: record the time, count the
   message, then warn (count exactly at the warning limit) or block (count at
   or over the block limit).
   */
  function Record(cfg: Config, s: State, user: int, now: int): (r: StepResult)
    ensures Passed(r.verdict)
    ensures r.state.lastTime == s.lastTime[user := now]
    ensures user in r.state.daily && r.state.daily[user].lastSeen == now
    ensures user in s.daily && now - s.daily[user].lastSeen <= DaySeconds ==>
              r.state.daily[user].count == s.daily[user].count + 1
    ensures user !in s.daily || now - s.daily[user].lastSeen > DaySeconds ==>
              r.state.daily[user].count == 1
    ensures r.verdict == RejectBlockedByLimit <==> OverLimit(cfg, r.state.daily[user].count)
    ensures r.state.blocked == if r.verdict == RejectBlockedByLimit then s.blocked + {user} else s.blocked
    ensures UserWarning in r.notes <==> r.state.daily[user].count == cfg.warningLimit
    ensures UserWarning in r.notes ==> r.verdict == Accept
    ensures UserTooFrequent !in r.notes
    ensures AdminConfigured(cfg) ==>
              (AdminWarning(cfg.adminChatId.value) in r.notes <==> UserWarning in r.notes)
    ensures AdminConfigured(cfg) ==>
              (AdminBlocked(cfg.adminChatId.value) in r.notes <==> r.verdict == RejectBlockedByLimit)
    ensures !AdminConfigured(cfg) ==> forall n :: n in r.notes ==> n == UserWarning
    ensures r.state.daily[user].count == cfg.warningLimit ==> r.notes == [UserWarning] + Escalation(cfg, false)
    ensures r.verdict == RejectBlockedByLimit ==> r.notes == Escalation(cfg, true)
    ensures r.verdict == Accept && r.state.daily[user].count != cfg.warningLimit ==> r.notes == []
    ensures forall v :: v != user ==> SameForUser(s, r.state, v)
  {
    var stats := Tally(Lookup(s.daily, user), now);
    var counted := State(s.lastTime[user := now], s.daily[user := stats], s.blocked);
    if stats.count == cfg.warningLimit then
      StepResult(counted, Accept, [UserWarning] + Escalation(cfg, false))
    else if stats.count >= cfg.blockLimit then
      StepResult(counted.(blocked := s.blocked + {user}), RejectBlockedByLimit, Escalation(cfg, true))
    else
      StepResult(counted, Accept, [])
  }

  /** One inbound message from `user` at time `now`. */
  function Step(cfg: Config, s: State, user: int, now: int): (r: StepResult)
    ensures r.verdict == RejectBlocked <==> user in s.blocked
    ensures r.verdict == RejectBlocked ==> r.state == s && r.notes == []
    ensures r.verdict == RejectTooFrequent <==> user !in s.blocked && TooFrequent(cfg, s, user, now)
    ensures r.verdict == RejectTooFrequent ==> r.state == s && r.notes == [UserTooFrequent]
    ensures Passed(r.verdict) ==> user in s.lastTime ==> now - s.lastTime[user] >= cfg.interval
    ensures Passed(r.verdict) ==> r.state.lastTime == s.lastTime[user := now]
    ensures s.blocked <= r.state.blocked
    ensures forall v :: v != user ==> SameForUser(s, r.state, v)
  {
    if user in s.blocked then
      StepResult(s, RejectBlocked, [])
    else if TooFrequent(cfg, s, user, now) then
      StepResult(s, RejectTooFrequent, [UserTooFrequent])
    else
      Record(cfg, s, user, now)
  }

  /**
   In a valid state the day gap is measured from the last accepted message:
   a message that passes the interval check more than a day after it
   restarts the count at one, and one within a day adds one.
   */
  lemma DayGapRestarts(cfg: Config, s: State, user: int, now: int)
    requires Valid(cfg, s) && user !in s.blocked && user in s.lastTime
    requires now - s.lastTime[user] >= cfg.interval
    ensures Passed(Step(cfg, s, user, now).verdict)
    ensures now - s.lastTime[user] > DaySeconds ==> CountOf(Step(cfg, s, user, now).state, user) == 1
    ensures now - s.lastTime[user] <= DaySeconds ==> CountOf(Step(cfg, s, user, now).state, user) == CountOf(s, user) + 1
  {
  }

  /** Every step keeps the invariant. */
  lemma StepPreservesValid(cfg: Config, s: State, user: int, now: int)
    requires Valid(cfg, s)
    ensures Valid(cfg, Step(cfg, s, user, now).state)
  {
  }
}
