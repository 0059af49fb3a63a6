# Rate-limit middleware model

A Dafny model of `RateLimitMiddleware`, the per-user admission check that the
tap2work Telegram bot runs before every inbound message. The check runs these
steps in order and stops at the first rejection:

1. a user in the blocked set is rejected ("User blocked");
2. a user whose last accepted message is less than `interval` seconds old gets a
   "too often" reply and is rejected, and the last time is not moved;
3. otherwise the time is recorded, the daily record is fetched (created with a
   zero count if missing), the count restarts when the previous counted message
   is more than 86400 s old, and the count goes up by one;
4. a count equal to the warning limit draws a warning to the user and, if an
   admin chat is set, an escalation; the message is accepted;
5. otherwise a count at or over the block limit blocks the user for good, with
   an optional admin escalation, and rejects the message ("User blocked by limit");
6. otherwise the message is accepted.

The middleware is an immutable `State` (last accepted time per user, daily
record per user, blocked set) and the pure function `RateLimit.Step`, which
returns the new state, a `Verdict` and the list of `Notification`s sent.
`RateLimitTrace.Run` applies `Step` to a stream of messages.

Modelling choices:

- Timestamps are integer seconds given as a parameter; no monotonic clock is assumed.
- The raised exceptions are the verdicts `RejectBlocked`, `RejectTooFrequent` and
  `RejectBlockedByLimit`; the replies and admin messages are notifications.
- The admin chat counts as set only when it is present and non-zero, as the
  Python truth test `if self.admin_chat_id` does.
- A record created on first use gets `lastSeen == now`. The source stamps it
  with a clock read a moment later, so the day-gap test is false either way.
- The "daily" counter is not a window from a fixed start. Every counted message
  overwrites `lastSeen`, so the count only restarts after a silence of more than
  a day. A user writing once a day keeps counting up (see `SteadyStream`).

## Model

| member | source | states |
|---|---|---|
| RateLimit.Init | rate_limit.py:7-15 | A new middleware stores nothing about any user and satisfies the invariant for every configuration. |
| RateLimit.Tally | rate_limit.py:33-38 | After a counted message, `lastSeen` is `now`. The count is one when there was no record or the old one was more than 86400 s old; otherwise it is the old count plus one. |
| RateLimit.Record | rate_limit.py:30-49 | After the interval check, the last time becomes `now` and the count moves as in `Tally`. A warning is sent iff the new count equals the warning limit, and the message is then accepted. The user is blocked and the message rejected iff the count is not the warning limit and is at or over the block limit. The notifications are exactly these. A warning message is the user warning followed by one escalation to the admin chat when it is set. A block message is only that one escalation. Any other message sends nothing. Other users are untouched. |
| RateLimit.Step | rate_limit.py:17-49 | Rejected as blocked iff the user is blocked, with nothing changed or sent. Rejected as too frequent iff not blocked and less than `interval` since the last accepted time, with the state unchanged and exactly one reply. A counted message is at least `interval` after the previous one and sets the last time to `now`. The blocked set only grows, and other users are untouched. |
| RateLimit.DayGapRestarts | rate_limit.py:26-38 | In a valid state, a message passing the interval check more than a day after the last accepted one restarts the count at one; within a day it adds one. |
| RateLimit.StepPreservesValid | rate_limit.py:13-49 | Each step keeps the invariant: both maps cover the same users, `lastSeen` equals the last accepted time, and counts are at least one. A user is blocked exactly when the stored count is at or over the block limit and is not the warning limit. |
| RateLimitTrace.Run | rate_limit.py:17-49 | Over any stream there is one verdict and one notification list per message, and the blocked set only grows. |
| RateLimitTrace.RunPreservesValid | rate_limit.py:13-49 | The invariant holds after any stream of messages. |
| RateLimitTrace.OtherUsersUntouched | rate_limit.py:18-46 | A stream with no message from `u` leaves `u`'s last time, daily record and blocked status unchanged. |
| RateLimitTrace.BlockedForever | rate_limit.py:22-23 | Once `u` is blocked, every later message from `u` is rejected as blocked with no notification, and `u`'s stored time and count never change, even across day gaps. |
| RateLimitTrace.BurstRejected | rate_limit.py:26-30 | A burst of `u`'s messages all within `interval` of the last accepted time is rejected message by message with one reply each, and the state does not change. |
| RateLimitTrace.PassesAfter | rate_limit.py:26-30 | For `interval >= 0`: if `u`'s last accepted time is at least `floor`, every later counted message of `u` comes at least `interval` after `floor`. |
| RateLimitTrace.PassSpacing | rate_limit.py:26-30 | For `interval >= 0`: any two counted messages of the same user in a stream are at least `interval` seconds apart, whatever comes between them. |
| RateLimitTrace.SteadyStream | rate_limit.py:30-45 | In a stream of `u`'s messages, take each gap to be at least `interval` and at most a day, with every count staying under the block limit. Then each message is accepted and the count rises by exactly one per message. The message whose count equals the warning limit gets exactly the user warning plus the admin escalation when an admin chat is set. Every other message gets no notification. |
| RateLimitTrace.TwentyMessages | rate_limit.py:7-43 | With the default limits (3 s, 20, 200), a new user sending twenty messages four seconds apart has all twenty accepted and gets a notification only at the twentieth: the user warning, plus an escalation to the admin chat when one is set. |

## Left out

- Sending messages (`message.answer`, `bot.send_message`) and the async machinery: modelled only as the returned notification list. The user name in the admin text is not modelled.
- RateLimit.Record: assumes every send succeeds. In the source, a send that raises (a Telegram API or network error) propagates out of the check. In the warning branch the message is then rejected, although its time and count are already recorded; the model returns `Accept`. The other branches that send messages reject anyway.
- `datetime.now()` and the fractional seconds of `total_seconds()`: time is an integer-second parameter.
- The exceptions raised as rejection control flow are verdict values.
- logger.py (SQLite audit logging): file I/O through a foreign library, and the middleware does not call it.
- bot.py: handler registration, keyboards, reply texts, admin forwarding, the support and job-search conversation states, and the `config.ini` loading are network or framework I/O. The unused module-level `user_daily_counts` and `blocked_users` are never read by the middleware.
- RateLimitTrace.PassesAfter: assumes `interval >= 0`. With a negative interval, a later counted message may come before `floor + interval`.
- RateLimitTrace.PassSpacing: assumes `interval >= 0`. With a negative interval, only consecutive counted messages are spaced, which `Step` states.
