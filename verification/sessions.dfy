/** A profile's membership history: the join and leave requests it makes one
    after another, each handled by the membership handlers against the profile
    as the previous request saved it. The lemmas lift the one-request
    guarantees to whole histories.
 */
module Sessions {
  import opened OrgTypes
  import opened Membership

  /** One membership request against an organization that was found, served
      at time `now` (a leave does not record it). */
  datatype Request = Request(kind: ChangeKind, org: Organization, now: Instant)

  function Handle(p: Profile, req: Request): HandlerResult
  {
    Handler(req.kind, p, req.org, req.now)
  }

  predicate Succeeds(p: Profile, req: Request)
  {
    Handle(p, req).message.None?
  }

  /** The profile after all of `reqs`, and every cache key they deleted. */
  datatype History = History(profile: Profile, invalidated: set<CacheKey>)

  /** Apply `reqs` in order, starting from `p`. Whatever happens, the profile
      keeps its identity and points, and a consistent profile stays consistent. */
  function Run(p: Profile, reqs: seq<Request>): (h: History)
    ensures OnlyMembershipDiffers(p, h.profile)
    ensures Consistent(p) ==> Consistent(h.profile)
    decreases |reqs|
  {
    if |reqs| == 0 then History(p, {})
    else
      var step := Handle(p, reqs[0]);
      assert Consistent(p) ==> Consistent(step.profile) by {
        if Consistent(p) {
          HandlerPreservesConsistency(reqs[0].kind, p, reqs[0].org, reqs[0].now);
        }
      }
      var rest := Run(step.profile, reqs[1..]);
      History(rest.profile, step.invalidated + rest.invalidated)
  }

  /** The requests of `reqs` that succeed when applied in order from `p`. */
  function Successful(p: Profile, reqs: seq<Request>): seq<Request>
    decreases |reqs|
  {
    if |reqs| == 0 then []
    else
      var next := Handle(p, reqs[0]).profile;
      if Succeeds(p, reqs[0]) then [reqs[0]] + Successful(next, reqs[1..])
      else Successful(next, reqs[1..])
  }

  /** The member-count keys of the organizations the requests target. */
  function KeysOf(reqs: seq<Request>): set<CacheKey>
    decreases |reqs|
  {
    if |reqs| == 0 then {} else {MemberCountKey(reqs[0].org.id)} + KeysOf(reqs[1..])
  }

  /** Failures change nothing: dropping every refused request from a history
      leaves the final profile and the deleted keys exactly as they were. */
  lemma {:induction false} FailuresChangeNothing(p: Profile, reqs: seq<Request>)
    ensures Run(p, Successful(p, reqs)) == Run(p, reqs)
    decreases |reqs|
  {
    if |reqs| > 0 {
      var step := Handle(p, reqs[0]);
      var tail := Successful(step.profile, reqs[1..]);
      FailuresChangeNothing(step.profile, reqs[1..]);
      if Succeeds(p, reqs[0]) {
        assert Successful(p, reqs) == [reqs[0]] + tail;
        assert ([reqs[0]] + tail)[1..] == tail;
      } else {
        HandlerFailsExactlyWhenNothingChanges(reqs[0].kind, p, reqs[0].org, reqs[0].now);
      }
    }
  }

  /** Replaying the successful part of a history refuses nothing. */
  lemma {:induction false} SuccessfulIsIdempotent(p: Profile, reqs: seq<Request>)
    ensures Successful(p, Successful(p, reqs)) == Successful(p, reqs)
    decreases |reqs|
  {
    if |reqs| > 0 {
      var next := Handle(p, reqs[0]).profile;
      var tail := Successful(next, reqs[1..]);
      SuccessfulIsIdempotent(next, reqs[1..]);
      if Succeeds(p, reqs[0]) {
        assert ([reqs[0]] + tail)[0] == reqs[0];
        assert ([reqs[0]] + tail)[1..] == tail;
      }
    }
  }

  /** A cache key is deleted exactly when it is the member-count key of an
      organization that a successful request joined or left. */
  lemma {:induction false} InvalidatedAreSuccessfulKeys(p: Profile, reqs: seq<Request>)
    ensures Run(p, reqs).invalidated == KeysOf(Successful(p, reqs))
    decreases |reqs|
  {
    if |reqs| > 0 {
      var next := Handle(p, reqs[0]).profile;
      var tail := Successful(next, reqs[1..]);
      InvalidatedAreSuccessfulKeys(next, reqs[1..]);
      if Succeeds(p, reqs[0]) {
        assert ([reqs[0]] + tail)[0] == reqs[0];
        assert ([reqs[0]] + tail)[1..] == tail;
      }
    }
  }

  /** The protocol a membership history follows, stated on its own: from no
      organization only a join is allowed, and from organization X only a
      leave of X. */
  predicate Alternates(current: Option<OrgId>, reqs: seq<Request>)
    decreases |reqs|
  {
    if |reqs| == 0 then true
    else
      var org := reqs[0].org;
      match reqs[0].kind
      case JoinKind => current.None? && Alternates(Some(org.id), reqs[1..])
      case LeaveKind => current == Some(org.id) && Alternates(None, reqs[1..])
  }

  /** Every request of a history succeeds exactly when the history follows the
      join/leave protocol from the profile's current organization. */
  lemma {:induction false} AllSucceedIffAlternates(p: Profile, reqs: seq<Request>)
    ensures Successful(p, reqs) == reqs <==> Alternates(p.organization, reqs)
    decreases |reqs|
  {
    if |reqs| > 0 {
      var next := Handle(p, reqs[0]).profile;
      var tail := Successful(next, reqs[1..]);
      AllSucceedIffAlternates(next, reqs[1..]);
      SuccessfulIsShorter(next, reqs[1..]);
      if Succeeds(p, reqs[0]) {
        assert ([reqs[0]] + tail)[1..] == tail;
        assert reqs == [reqs[0]] + reqs[1..];
      } else {
        assert |tail| < |reqs|;
      }
    }
  }

  /** The successful part of a history is never longer than the history. */
  lemma {:induction false} SuccessfulIsShorter(p: Profile, reqs: seq<Request>)
    ensures |Successful(p, reqs)| <= |reqs|
    decreases |reqs|
  {
    if |reqs| > 0 {
      SuccessfulIsShorter(Handle(p, reqs[0]).profile, reqs[1..]);
    }
  }

  /** The successful part of any history follows the join/leave protocol. */
  lemma SuccessfulAlternates(p: Profile, reqs: seq<Request>)
    ensures Alternates(p.organization, Successful(p, reqs))
  {
    SuccessfulIsIdempotent(p, reqs);
    AllSucceedIffAlternates(p, Successful(p, reqs));
  }

  /** The last successful request decides the final membership: a join leaves
      the profile in that organization since that request's time, a leave
      leaves it in none; with no success the profile is unchanged. */
  lemma {:induction false} LastSuccessDecides(p: Profile, reqs: seq<Request>)
    ensures var s := Successful(p, reqs);
            var final := Run(p, reqs).profile;
            && (|s| == 0 ==> final == p)
            && (|s| > 0 && s[|s| - 1].kind == JoinKind ==>
                  final.organization == Some(s[|s| - 1].org.id) && final.joinTime == Some(s[|s| - 1].now))
            && (|s| > 0 && s[|s| - 1].kind == LeaveKind ==>
                  final.organization.None? && final.joinTime.None?)
    decreases |reqs|
  {
    if |reqs| > 0 {
      var next := Handle(p, reqs[0]).profile;
      var tail := Successful(next, reqs[1..]);
      LastSuccessDecides(next, reqs[1..]);
      if Succeeds(p, reqs[0]) {
        var s := [reqs[0]] + tail;
        assert |tail| > 0 ==> s[|s| - 1] == tail[|tail| - 1];
      }
    }
  }

  /** A key is in `KeysOf(reqs)` exactly when it is the member-count key of an
      organization some request in `reqs` targets. */
  lemma {:induction false} InKeysOf(reqs: seq<Request>, x: OrgId)
    ensures MemberCountKey(x) in KeysOf(reqs) <==> exists i :: 0 <= i < |reqs| && reqs[i].org.id == x
    decreases |reqs|
  {
    if |reqs| > 0 {
      InKeysOf(reqs[1..], x);
      MemberCountKeyInjective(x, reqs[0].org.id);
      if exists i :: 0 <= i < |reqs| && reqs[i].org.id == x {
        var i :| 0 <= i < |reqs| && reqs[i].org.id == x;
        if i > 0 {
          assert reqs[1..][i - 1] == reqs[i];
        }
      }
      if exists j :: 0 <= j < |reqs[1..]| && reqs[1..][j].org.id == x {
        var j :| 0 <= j < |reqs[1..]| && reqs[1..][j].org.id == x;
        assert reqs[j + 1] == reqs[1..][j];
      }
    }
  }

  /** An organization's cached member count is dropped by a history exactly
      when some successful request of that history joined or left that very
      organization; no other organization's count is ever touched. */
  lemma OnlyTargetedCountsDropped(p: Profile, reqs: seq<Request>, x: OrgId)
    ensures var s := Successful(p, reqs);
            MemberCountKey(x) in Run(p, reqs).invalidated <==> exists i :: 0 <= i < |s| && s[i].org.id == x
  {
    InvalidatedAreSuccessfulKeys(p, reqs);
    InKeysOf(Successful(p, reqs), x);
  }
}
