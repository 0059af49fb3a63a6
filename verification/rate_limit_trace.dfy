/**
 The middleware applied to a whole stream of inbound messages, and the
 properties that relate several calls: blocks are permanent, rejected bursts
 leave no trace, counted messages of one user are spaced by the interval, and
 a steady stream is counted one by one with a single warning.
 */
module RateLimitTrace {
  import opened RateLimit

  /** An inbound message, reduced to what the check reads. */
  datatype Msg = Msg(user: int, now: int)

  /** The state after a stream, and the verdict and notifications of each message in order. */
  datatype Trace = Trace(state: State, verdicts: seq<Verdict>, notes: seq<seq<Notification>>)

  function Run(cfg: Config, s: State, msgs: seq<Msg>): (r: Trace)
    ensures |r.verdicts| == |msgs| && |r.notes| == |msgs|
    ensures s.blocked <= r.state.blocked
    decreases |msgs|
  {
    if |msgs| == 0 then
      Trace(s, [], [])
    else
      var h := Step(cfg, s, msgs[0].user, msgs[0].now);
      var t := Run(cfg, h.state, msgs[1..]);
      Trace(t.state, [h.verdict] + t.verdicts, [h.notes] + t.notes)
  }

  /** The invariant holds after any stream. */
  lemma {:induction false} RunPreservesValid(cfg: Config, s: State, msgs: seq<Msg>)
    requires Valid(cfg, s)
    ensures Valid(cfg, Run(cfg, s, msgs).state)
    decreases |msgs|
  {
    if |msgs| > 0 {
      StepPreservesValid(cfg, s, msgs[0].user, msgs[0].now);
      RunPreservesValid(cfg, Step(cfg, s, msgs[0].user, msgs[0].now).state, msgs[1..]);
    }
  }

  /** Messages from other users never change what is stored about `u`. */
  lemma {:induction false} OtherUsersUntouched(cfg: Config, s: State, msgs: seq<Msg>, u: int)
    requires forall i :: 0 <= i < |msgs| ==> msgs[i].user != u
    ensures SameForUser(s, Run(cfg, s, msgs).state, u)
    decreases |msgs|
  {
    if |msgs| > 0 {
      var h := Step(cfg, s, msgs[0].user, msgs[0].now);
      OtherUsersUntouched(cfg, h.state, msgs[1..], u);
    }
  }

  /**
   Once blocked, always blocked: every later message of `u` is rejected as
   blocked with no notification, and `u`'s time and count never change.
   */
  lemma {:induction false} BlockedForever(cfg: Config, s: State, msgs: seq<Msg>, u: int)
    requires u in s.blocked
    ensures SameForUser(s, Run(cfg, s, msgs).state, u)
    ensures forall i :: 0 <= i < |msgs| && msgs[i].user == u ==>
              Run(cfg, s, msgs).verdicts[i] == RejectBlocked && Run(cfg, s, msgs).notes[i] == []
    decreases |msgs|
  {
    if |msgs| > 0 {
      var h := Step(cfg, s, msgs[0].user, msgs[0].now);
      BlockedForever(cfg, h.state, msgs[1..], u);
      var r := Run(cfg, s, msgs);
      var t := Run(cfg, h.state, msgs[1..]);
      forall i | 0 <= i < |msgs| && msgs[i].user == u
        ensures r.verdicts[i] == RejectBlocked && r.notes[i] == []
      {
        if i > 0 {
          assert msgs[1..][i - 1] == msgs[i];
          assert r.verdicts[i] == t.verdicts[i - 1] && r.notes[i] == t.notes[i - 1];
        }
      }
    }
  }

  /**
   A burst that stays within `interval` of the last accepted time is rejected
   message after message, and the state does not move, so the burst keeps
   being rejected however long it is.
   */
  lemma {:induction false} BurstRejected(cfg: Config, s: State, msgs: seq<Msg>, u: int)
    requires u !in s.blocked && u in s.lastTime
    requires forall i :: 0 <= i < |msgs| ==> msgs[i].user == u && msgs[i].now - s.lastTime[u] < cfg.interval
    ensures Run(cfg, s, msgs).state == s
    ensures forall i :: 0 <= i < |msgs| ==>
              Run(cfg, s, msgs).verdicts[i] == RejectTooFrequent && Run(cfg, s, msgs).notes[i] == [UserTooFrequent]
    decreases |msgs|
  {
    if |msgs| > 0 {
      var h := Step(cfg, s, msgs[0].user, msgs[0].now);
      assert h.state == s;
      BurstRejected(cfg, s, msgs[1..], u);
      var r := Run(cfg, s, msgs);
      var t := Run(cfg, s, msgs[1..]);
      forall i | 0 <= i < |msgs|
        ensures r.verdicts[i] == RejectTooFrequent && r.notes[i] == [UserTooFrequent]
      {
        if i > 0 {
          assert r.verdicts[i] == t.verdicts[i - 1] && r.notes[i] == t.notes[i - 1];
        }
      }
    }
  }

  /**
   If `u`'s last accepted time is at least `floor`, every counted message of
   `u` in the stream comes at least `interval` after `floor`.
   */
  lemma {:induction false} PassesAfter(cfg: Config, s: State, msgs: seq<Msg>, u: int, floor: int)
    requires cfg.interval >= 0
    requires u in s.lastTime && s.lastTime[u] >= floor
    ensures forall j :: 0 <= j < |msgs| && msgs[j].user == u && Passed(Run(cfg, s, msgs).verdicts[j]) ==>
              msgs[j].now >= floor + cfg.interval
    decreases |msgs|
  {
    if |msgs| > 0 {
      var h := Step(cfg, s, msgs[0].user, msgs[0].now);
      assert u in h.state.lastTime && h.state.lastTime[u] >= floor;
      PassesAfter(cfg, h.state, msgs[1..], u, floor);
      var r := Run(cfg, s, msgs);
      var t := Run(cfg, h.state, msgs[1..]);
      forall j | 0 <= j < |msgs| && msgs[j].user == u && Passed(r.verdicts[j])
        ensures msgs[j].now >= floor + cfg.interval
      {
        if j > 0 {
          assert msgs[1..][j - 1] == msgs[j];
          assert r.verdicts[j] == t.verdicts[j - 1];
        }
      }
    }
  }

  /**
   Any two counted messages of the same user, in stream order, are at least
   `interval` seconds apart (whatever came between them).
   */
  lemma {:induction false} PassSpacing(cfg: Config, s: State, msgs: seq<Msg>)
    requires cfg.interval >= 0
    ensures forall i, j ::
              0 <= i < j < |msgs| && msgs[i].user == msgs[j].user &&
              Passed(Run(cfg, s, msgs).verdicts[i]) && Passed(Run(cfg, s, msgs).verdicts[j]) ==>
              msgs[j].now - msgs[i].now >= cfg.interval
    decreases |msgs|
  {
    if |msgs| > 0 {
      var h := Step(cfg, s, msgs[0].user, msgs[0].now);
      var r := Run(cfg, s, msgs);
      var t := Run(cfg, h.state, msgs[1..]);
      PassSpacing(cfg, h.state, msgs[1..]);
      if Passed(h.verdict) {
        PassesAfter(cfg, h.state, msgs[1..], msgs[0].user, msgs[0].now);
      }
      forall i, j | 0 <= i < j < |msgs| && msgs[i].user == msgs[j].user && Passed(r.verdicts[i]) && Passed(r.verdicts[j])
        ensures msgs[j].now - msgs[i].now >= cfg.interval
      {
        assert msgs[1..][j - 1] == msgs[j];
        assert r.verdicts[j] == t.verdicts[j - 1];
        if i > 0 {
          assert msgs[1..][i - 1] == msgs[i];
          assert r.verdicts[i] == t.verdicts[i - 1];
        }
      }
    }
  }

  /** A counted message that keeps the daily counter running: at least `interval` and at most a day after `prev`. */
  predicate InWindow(cfg: Config, prev: int, now: int) {
    cfg.interval <= now - prev <= DaySeconds
  }

  /** A stream of `u`'s messages, each in the window of the one before (the first in the window of `u`'s stored time). */
  predicate Steady(cfg: Config, s: State, msgs: seq<Msg>, u: int) {
    && (forall k :: 0 <= k < |msgs| ==> msgs[k].user == u)
    && (|msgs| > 0 && u in s.lastTime ==> InWindow(cfg, s.lastTime[u], msgs[0].now))
    && (forall k :: 1 <= k < |msgs| ==> InWindow(cfg, msgs[k - 1].now, msgs[k].now))
  }

  /**
   A steady stream that stays under the block limit is accepted message by
   message, counted one by one, and warned about exactly once: at the message
   whose count equals the warning limit. Gaps of a full day still count on,
   because the counter restarts only after a gap of more than a day since the
   previous counted message.
   */
  lemma {:induction false} SteadyStream(cfg: Config, s: State, msgs: seq<Msg>, u: int)
    requires Valid(cfg, s) && u !in s.blocked
    requires Steady(cfg, s, msgs, u)
    requires CountOf(s, u) + |msgs| < cfg.blockLimit
    ensures |msgs| > 0 ==> CountOf(Run(cfg, s, msgs).state, u) == CountOf(s, u) + |msgs|
    ensures forall k :: 0 <= k < |msgs| ==> Run(cfg, s, msgs).verdicts[k] == Accept
    ensures forall k :: 0 <= k < |msgs| ==>
              (UserWarning in Run(cfg, s, msgs).notes[k] <==> CountOf(s, u) + k + 1 == cfg.warningLimit)
    ensures forall k :: 0 <= k < |msgs| ==>
              Run(cfg, s, msgs).notes[k] ==
              (if CountOf(s, u) + k + 1 == cfg.warningLimit then [UserWarning] + Escalation(cfg, false) else [])
    decreases |msgs|
  {
    if |msgs| > 0 {
      var h := Step(cfg, s, u, msgs[0].now);
      assert msgs[0].user == u;
      assert Passed(h.verdict);
      assert CountOf(h.state, u) == CountOf(s, u) + 1;
      StepPreservesValid(cfg, s, u, msgs[0].now);
      var tail := msgs[1..];
      assert Steady(cfg, h.state, tail, u) by {
        forall k | 1 <= k < |tail|
          ensures InWindow(cfg, tail[k - 1].now, tail[k].now)
        {
          assert tail[k - 1] == msgs[k] && tail[k] == msgs[k + 1];
        }
      }
      SteadyStream(cfg, h.state, tail, u);
      var r := Run(cfg, s, msgs);
      var t := Run(cfg, h.state, tail);
      forall k | 0 <= k < |msgs|
        ensures r.verdicts[k] == Accept
        ensures UserWarning in r.notes[k] <==> CountOf(s, u) + k + 1 == cfg.warningLimit
        ensures r.notes[k] == (if CountOf(s, u) + k + 1 == cfg.warningLimit then [UserWarning] + Escalation(cfg, false) else [])
      {
        if k > 0 {
          assert r.verdicts[k] == t.verdicts[k - 1] && r.notes[k] == t.notes[k - 1];
        }
      }
    }
  }

  /** `n` messages of `u`, the first at `t0` and each `gap` seconds after the one before. */
  function Spread(u: int, t0: int, gap: int, n: nat): seq<Msg> {
    seq(n, i => Msg(u, t0 + gap * i))
  }

  /**
   A new user, with the default limits, sends twenty messages four seconds
   apart; all are accepted, and only the twentieth draws the warning and,
   when an admin chat is set, the admin escalation.
   */
  lemma TwentyMessages(admin: Option<int>, u: int, t0: int)
    ensures forall k :: 0 <= k < 20 ==>
              Run(DefaultConfig(admin), Init(), Spread(u, t0, 4, 20)).verdicts[k] == Accept
    ensures forall k :: 0 <= k < 20 ==>
              (UserWarning in Run(DefaultConfig(admin), Init(), Spread(u, t0, 4, 20)).notes[k] <==> k == 19)
    ensures forall k :: 0 <= k < 19 ==> Run(DefaultConfig(admin), Init(), Spread(u, t0, 4, 20)).notes[k] == []
    ensures Run(DefaultConfig(admin), Init(), Spread(u, t0, 4, 20)).notes[19] ==
            [UserWarning] + (if admin.Some? && admin.value != 0 then [AdminWarning(admin.value)] else [])
  {
    var cfg := DefaultConfig(admin);
    var msgs := Spread(u, t0, 4, 20);
    assert Steady(cfg, Init(), msgs, u) by {
      forall k | 1 <= k < |msgs|
        ensures InWindow(cfg, msgs[k - 1].now, msgs[k].now)
      {
        assert msgs[k].now - msgs[k - 1].now == 4;
      }
    }
    SteadyStream(cfg, Init(), msgs, u);
  }
}
