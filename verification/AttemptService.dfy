/** The service calls as they update the stored record, each proved to be its step in `Attempts`. */
module AttemptService {
  import opened Options
  import opened Attempts

  class AttemptRecord {
    var startedAt: real
    var status: Status
    var submittedAt: Option<real>
    var graceMinutes: real
    var tabSwitches: nat
    var copies: nat
    var pastes: nat
    var fullscreenExits: nat
    var challenge: Challenge
    var timeline: seq<Event>

    ghost function Doc(): Attempt
      reads this
    {
      Attempt(startedAt, status, submittedAt, graceMinutes, tabSwitches, copies, pastes, fullscreenExits, challenge, timeline)
    }

    constructor (now: real)
      ensures Doc() == NewAttempt(now)
    {
      startedAt, status, submittedAt, graceMinutes := now, Active, None, 0.0;
      tabSwitches, copies, pastes, fullscreenExits := 0, 0, 0, 0;
      challenge, timeline := NoChallenge, [Start(now)];
    }

    method Push(e: Event)
      modifies this`timeline
      ensures timeline == old(timeline) + [e]
    {
      timeline := timeline + [e];
    }

    method LogAntiCheatingEvent(u: Caller, kind: EventType, now: real) returns (reply: Reply)
      modifies this
      ensures (Doc(), reply) == LogEventCall(old(Doc()), u, kind, now)
    {
      if !u.inScope {
        return Failure(404);
      }
      if !u.owner {
        return Failure(403);
      }
      if status != Active {
        return Fine;
      }
      match kind {
        case TabSwitch => tabSwitches := tabSwitches + 1;
        case Copy => copies := copies + 1;
        case Paste => pastes := pastes + 1;
        case FullscreenExit => fullscreenExits := fullscreenExits + 1;
        case Return =>
        case UnknownEvent => return Failure(400);
      }
      Push(AntiCheat(kind, now));
      return Fine;
    }

    method GetAttempt(s: Assessment, u: Caller, now: real) returns (reply: Reply)
      modifies this
      ensures (Doc(), reply) == ViewCall(old(Doc()), s, u, now)
    {
      if !u.inScope {
        return Failure(404);
      }
      if status == Active {
        var expiry := Expiration(s);
        if now > expiry {
          status, submittedAt := TimedOut, Some(expiry);
        }
      }
      return if u.student && !u.owner then Failure(403) else Fine;
    }

    method Expiration(s: Assessment) returns (expiry: real)
      ensures expiry == ExpirationTime(Doc(), s)
    {
      var graceMs := graceMinutes * MS_PER_MINUTE;
      var relativeExpiry := startedAt + (s.durationMinutes * MS_PER_MINUTE + graceMs);
      var absoluteExpiry := s.endTime + graceMs;
      expiry := if relativeExpiry < absoluteExpiry then relativeExpiry else absoluteExpiry;
    }

    method SubmitAssessment(s: Assessment, u: Caller, now: real) returns (reply: Reply)
      modifies this
      ensures (Doc(), reply) == SubmitCall(old(Doc()), s, u, now)
    {
      if !u.inScope {
        return Failure(404);
      }
      if u.student && !u.owner {
        return Failure(403);
      }
      if status != Active {
        return Fine;
      }
      var expiry := Expiration(s);
      if now > expiry {
        status, submittedAt := TimedOut, Some(expiry);
        Push(AttemptTimedOut(expiry));
        return Fine;
      }
      status, submittedAt := Submitted, Some(now);
      Push(AttemptSubmitted(now));
      return Fine;
    }

    /** Validation, then the rest of the submission as far as it concerns the attempt. */
    method SubmitSolution(s: Assessment, u: Caller, problem: string, language: string, linked: bool, created: bool,
                          logged: bool, now: real)
      returns (reply: Reply)
      modifies this
      ensures (Doc(), reply) ==
              SubmitProblemCall(old(Doc()), s, u, SubmitProblem(problem, language, linked, created, logged), now)
    {
      if !u.owner {
        return Failure(403);
      }
      if !linked {
        return Failure(400);
      }
      if s.locked || status != Active {
        return Failure(409);
      }
      var graceMs := graceMinutes * MS_PER_MINUTE;
      var durationExpiry := startedAt + s.durationMinutes * MS_PER_MINUTE + graceMs;
      var expiration := Min(durationExpiry, s.endTime + graceMs);
      if now >= expiration {
        status, submittedAt := TimedOut, Some(expiration);
        return Failure(409);
      }
      if problem !in s.problems {
        return Failure(400);
      }
      if s.allowedLanguages != {} && language !in s.allowedLanguages {
        return Failure(400);
      }
      if !created {
        return Failure(429);
      }
      if logged {
        Push(ProblemSubmitted(problem, now));
      }
      return Fine;
    }

    method GrantGraceTime(u: Caller, minutes: real, now: real) returns (reply: Reply)
      modifies this
      ensures (Doc(), reply) == AddGraceCall(old(Doc()), u, minutes, now)
    {
      if u.student {
        return Failure(403);
      }
      if !u.inScope {
        return Failure(404);
      }
      graceMinutes := graceMinutes + minutes;
      Push(GraceAdded(minutes, graceMinutes, now));
      if status == TimedOut {
        status, submittedAt := Active, None;
      }
      return Fine;
    }

    method RaiseChallenge(u: Caller, now: real) returns (reply: Reply)
      modifies this
      ensures (Doc(), reply) == RaiseCall(old(Doc()), u, now)
    {
      if !u.owner {
        return Failure(403);
      }
      if status == Active {
        return Failure(400);
      }
      if challenge != NoChallenge {
        return Failure(409);
      }
      challenge := Raised;
      Push(ChallengeRaised(now));
      return Fine;
    }

    method ResolveChallenge(u: Caller, accept: Option<bool>, now: real) returns (reply: Reply)
      modifies this
      ensures (Doc(), reply) == ResolveCall(old(Doc()), u, accept, now)
    {
      if !u.inScope {
        return Failure(404);
      }
      if challenge != Raised || accept.None? {
        return Failure(400);
      }
      challenge := if accept.value then Accepted else Rejected;
      Push(ChallengeResolved(accept.value, now));
      return Fine;
    }
  }
}
