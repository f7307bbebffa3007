/** The request handler of the `get-match-suggestions` edge function: the
    preflight answer, the chain of backend reads that stops at the first
    failure, and the response. The backend is given as a snapshot of its
    three tables together with the set of calls that fail; each query is
    the filter the SDK call asks the database for. */
module SuggestionHandler {
  import opened Schema
  import opened MatchSuggestions

  datatype Tables = Tables(profiles: seq<Profile>, matches: seq<MatchRow>, blocks: seq<BlockRow>)

  /** The backend calls, in the order the handler makes them. */
  datatype Step = Authenticate | LoadCurrentProfile | LoadProfiles | LoadMatches | LoadBlocked | LoadBlockedBy

  function Index(s: Step): nat {
    match s
    case Authenticate => 0
    case LoadCurrentProfile => 1
    case LoadProfiles => 2
    case LoadMatches => 3
    case LoadBlocked => 4
    case LoadBlockedBy => 5
  }

  /** One invocation: the HTTP method, the user that `auth.getUser` resolves
      the bearer token to (None for a missing or invalid token), the tables,
      and the calls whose result carries an error. */
  datatype Request = Request(httpMethod: string, session: Option<UserId>, tables: Tables, failing: set<Step>)

  /** `'ok'` for a preflight, `{ suggestions }` or `{ error }` otherwise. */
  datatype Response = Preflight | Suggestions(suggestions: seq<ScoredProfile>) | Failure(error: string)

  /** 200 for a preflight or a list of suggestions, 400 for an error. */
  function Status(r: Response): (code: int)
    ensures code == 200 || code == 400
    ensures code == 400 <==> r.Failure?
  {
    if r.Failure? then 400 else 200
  }

  /** The message each step throws with. */
  function Message(s: Step): (m: string)
    ensures m != []
  {
    match s
    case Authenticate => "User not authenticated"
    case LoadCurrentProfile => "Current user profile not found"
    case LoadProfiles => "Failed to fetch profiles"
    case LoadMatches => "Failed to fetch existing matches"
    case LoadBlocked => "Failed to fetch blocked users"
    case LoadBlockedBy => "Failed to fetch users who blocked current user"
  }

  // ---------------------------------------------------------------------
  // The queries, as the filters the database applies
  // ---------------------------------------------------------------------

  /** The rows of `profiles` whose `user_id` is `uid`. */
  function ProfilesOf(uid: UserId, profiles: seq<Profile>): (r: seq<Profile>)
    ensures forall i :: 0 <= i < |r| ==> r[i].userId == uid && r[i] in profiles
    ensures forall p :: p in profiles && p.userId == uid ==> p in r
  {
    Filter(profiles, (p: Profile) => p.userId == uid)
  }

  /** The rows of `profiles` whose `user_id` is not `uid`. */
  function OtherProfiles(uid: UserId, profiles: seq<Profile>): (r: seq<Profile>)
    ensures forall i :: 0 <= i < |r| ==> r[i].userId != uid && r[i] in profiles
    ensures forall p :: p in profiles && p.userId != uid ==> p in r
  {
    Filter(profiles, (p: Profile) => p.userId != uid)
  }

  /** The `match_user1_id.eq.uid,match_user2_id.eq.uid` condition. */
  function Involves(uid: UserId): MatchRow -> bool {
    (m: MatchRow) => m.user1 == uid || m.user2 == uid
  }

  /** The match rows with `uid` on either side. */
  function MatchesOf(uid: UserId, matches: seq<MatchRow>): (r: seq<MatchRow>)
    ensures forall i :: 0 <= i < |r| ==> (r[i].user1 == uid || r[i].user2 == uid) && r[i] in matches
    ensures forall m :: m in matches && (m.user1 == uid || m.user2 == uid) ==> m in r
  {
    Filter(matches, Involves(uid))
  }

  /** The `.eq('blocker_id', uid)` condition. */
  function BlockerIs(uid: UserId): BlockRow -> bool {
    (b: BlockRow) => b.blocker == uid
  }

  /** The `.eq('blocked_id', uid)` condition. */
  function BlockedIs(uid: UserId): BlockRow -> bool {
    (b: BlockRow) => b.blocked == uid
  }

  /** `.select('blocked_id')`. */
  function BlockedColumn(rows: seq<BlockRow>): (ids: seq<UserId>)
    ensures |ids| == |rows| && forall i :: 0 <= i < |rows| ==> ids[i] == rows[i].blocked
  {
    seq(|rows|, i requires 0 <= i < |rows| => rows[i].blocked)
  }

  /** `.select('blocker_id')`. */
  function BlockerColumn(rows: seq<BlockRow>): (ids: seq<UserId>)
    ensures |ids| == |rows| && forall i :: 0 <= i < |rows| ==> ids[i] == rows[i].blocker
  {
    seq(|rows|, i requires 0 <= i < |rows| => rows[i].blocker)
  }

  /** The `blocked` column of the block rows whose blocker is `uid`; each
      id comes from such a row (the converse is `BlockedByMeRows`). */
  function BlockedByMe(uid: UserId, blocks: seq<BlockRow>): (r: seq<UserId>)
    ensures forall i :: 0 <= i < |r| ==> BlockRow(uid, r[i]) in blocks
  {
    BlockedColumn(Filter(blocks, BlockerIs(uid)))
  }

  /** The `blocker` column of the block rows whose blocked user is `uid`;
      each id comes from such a row (the converse is `BlockersOfMeRows`). */
  function BlockersOfMe(uid: UserId, blocks: seq<BlockRow>): (r: seq<UserId>)
    ensures forall i :: 0 <= i < |r| ==> BlockRow(r[i], uid) in blocks
  {
    BlockerColumn(Filter(blocks, BlockedIs(uid)))
  }

  // ---------------------------------------------------------------------
  // The chain
  // ---------------------------------------------------------------------

  /** `auth.getUser`: the session's user, unless the call fails or no user
      comes back. */
  function Authenticated(req: Request): (r: Result<UserId>)
    ensures r.Ok? <==> Authenticate !in req.failing && req.session.Some?
    ensures r.Ok? ==> r.value == req.session.value
    ensures r.Err? ==> r.message == Message(Authenticate)
  {
    if Authenticate in req.failing || req.session.None? then Err(Message(Authenticate))
    else Ok(req.session.value)
  }

  /** `.single()` fails unless exactly one row matches; that row is the
      caller's own. */
  function CurrentProfile(req: Request, uid: UserId): (r: Result<Profile>)
    ensures r.Ok? <==> LoadCurrentProfile !in req.failing && |ProfilesOf(uid, req.tables.profiles)| == 1
    ensures r.Ok? ==> r.value.userId == uid && r.value in req.tables.profiles
    ensures r.Err? ==> r.message == Message(LoadCurrentProfile)
  {
    var rows := ProfilesOf(uid, req.tables.profiles);
    if LoadCurrentProfile in req.failing || |rows| != 1 then Err(Message(LoadCurrentProfile))
    else Ok(rows[0])
  }

  function Fetch<T>(req: Request, step: Step, rows: T): Result<T> {
    if step in req.failing then Err(Message(step)) else Ok(rows)
  }

  /** The body of the `try` block: it succeeds only when the caller is
      authenticated, their own profile is found and the four reads succeed. */
  function Suggest(req: Request): (r: Result<seq<ScoredProfile>>)
    ensures r.Ok? ==> req.session.Some? && CurrentProfile(req, req.session.value).Ok?
                      && SuggestFor(req, req.session.value, CurrentProfile(req, req.session.value).value).Ok?
  {
    var uid :- Authenticated(req);
    var me :- CurrentProfile(req, uid);
    SuggestFor(req, uid, me)
  }

  /** The rest of the `try` block, once the caller and their profile are
      known: the four table reads, then the ranking. It succeeds exactly when
      none of the four reads fails, and an error names a read that failed. */
  function SuggestFor(req: Request, uid: UserId, me: Profile): (r: Result<seq<ScoredProfile>>)
    ensures r.Ok? <==> (LoadProfiles !in req.failing && LoadMatches !in req.failing
                        && LoadBlocked !in req.failing && LoadBlockedBy !in req.failing)
    ensures r.Err? ==> exists s: Step :: Index(s) > 1 && s in req.failing && r.message == Message(s)
  {
    var others :- Fetch(req, LoadProfiles, OtherProfiles(uid, req.tables.profiles));
    var matches :- Fetch(req, LoadMatches, MatchesOf(uid, req.tables.matches));
    var blocked :- Fetch(req, LoadBlocked, BlockedByMe(uid, req.tables.blocks));
    var blockedBy :- Fetch(req, LoadBlockedBy, BlockersOfMe(uid, req.tables.blocks));
    Ok(Rank(me, others, MatchedIds(uid, matches), IdSet(blocked), IdSet(blockedBy)))
  }

  /** The ranking the handler computes once every read has succeeded. */
  function RankFor(t: Tables, uid: UserId, me: Profile): seq<ScoredProfile> {
    Rank(me, OtherProfiles(uid, t.profiles), MatchedIds(uid, MatchesOf(uid, t.matches)),
         IdSet(BlockedByMe(uid, t.blocks)), IdSet(BlockersOfMe(uid, t.blocks)))
  }

  /** With every step passing, the handler answers with the ranking. */
  lemma {:induction false} SuggestWhenAllPass(req: Request)
    requires forall s: Step :: !Fails(req, s)
    ensures req.session.Some? && CurrentProfile(req, req.session.value).Ok?
    ensures Suggest(req) == Ok(RankFor(req.tables, req.session.value, CurrentProfile(req, req.session.value).value))
  {
    assert !Fails(req, Authenticate) && !Fails(req, LoadCurrentProfile) && !Fails(req, LoadProfiles);
    assert !Fails(req, LoadMatches) && !Fails(req, LoadBlocked) && !Fails(req, LoadBlockedBy);
    var uid := req.session.value;
    var t := req.tables;
    assert Authenticated(req) == Ok(uid);
    var me := CurrentProfile(req, uid).value;
    assert Fetch(req, LoadProfiles, OtherProfiles(uid, t.profiles)) == Ok(OtherProfiles(uid, t.profiles));
    assert Fetch(req, LoadMatches, MatchesOf(uid, t.matches)) == Ok(MatchesOf(uid, t.matches));
    assert Fetch(req, LoadBlocked, BlockedByMe(uid, t.blocks)) == Ok(BlockedByMe(uid, t.blocks));
    assert Fetch(req, LoadBlockedBy, BlockersOfMe(uid, t.blocks)) == Ok(BlockersOfMe(uid, t.blocks));
  }

  /** The whole handler: a preflight is answered before anything else is
      looked at; otherwise an error ends the request with its message and no
      suggestions. */
  function Handle(req: Request): (resp: Response)
    ensures req.httpMethod == "OPTIONS" ==> resp == Preflight
    ensures req.httpMethod != "OPTIONS" ==> !resp.Preflight?
    ensures resp.Failure? <==> Status(resp) == 400
  {
    if req.httpMethod == "OPTIONS" then Preflight
    else
      match Suggest(req)
      case Ok(list) => Suggestions(list)
      case Err(message) => Failure(message)
  }

  // ---------------------------------------------------------------------
  // The chain stated step by step
  // ---------------------------------------------------------------------

  /** The condition under which each step, taken on its own, fails. */
  predicate Fails(req: Request, s: Step) {
    match s
    case Authenticate => Authenticate in req.failing || req.session.None?
    case LoadCurrentProfile =>
      LoadCurrentProfile in req.failing ||
      (req.session.Some? && |ProfilesOf(req.session.value, req.tables.profiles)| != 1)
    case _ => s in req.failing
  }

  predicate FirstFailure(req: Request, s: Step) {
    Fails(req, s) && forall t: Step :: Index(t) < Index(s) ==> !Fails(req, t)
  }

  /** The earliest failing step decides the single error message, and the
      status is 400. */
  lemma FirstFailureDecides(req: Request, s: Step)
    requires req.httpMethod != "OPTIONS" && FirstFailure(req, s)
    ensures Handle(req) == Failure(Message(s)) && Status(Handle(req)) == 400
  {
    if s != Authenticate {
      assert !Fails(req, Authenticate);
      if s != LoadCurrentProfile {
        assert !Fails(req, LoadCurrentProfile);
        var uid := req.session.value;
        LoadFailureDecides(req, uid, CurrentProfile(req, uid).value, s);
      }
    }
  }

  /** Past the current profile, the earliest failing read decides the message. */
  lemma LoadFailureDecides(req: Request, uid: UserId, me: Profile, s: Step)
    requires Index(s) > 1 && FirstFailure(req, s)
    ensures SuggestFor(req, uid, me) == Err(Message(s))
  {
    if s != LoadProfiles {
      assert !Fails(req, LoadProfiles);
      if s != LoadMatches {
        assert !Fails(req, LoadMatches);
        if s != LoadBlocked {
          assert !Fails(req, LoadBlocked);
        }
      }
    }
  }

  /** Each message belongs to one step, so the message names the step. */
  lemma MessagesDistinct(s: Step, t: Step)
    requires Message(s) == Message(t)
    ensures s == t
  {
  }

  /** Suggestions come back exactly when no step fails. */
  lemma {:induction false} SucceedsIffNoStepFails(req: Request)
    requires req.httpMethod != "OPTIONS"
    ensures Handle(req).Suggestions? <==> forall s: Step :: !Fails(req, s)
  {
    if forall s: Step :: !Fails(req, s) {
      SuggestWhenAllPass(req);
    } else {
      var s: Step :| Fails(req, s);
      var first := if Fails(req, Authenticate) then Authenticate
        else if Fails(req, LoadCurrentProfile) then LoadCurrentProfile
        else if Fails(req, LoadProfiles) then LoadProfiles
        else if Fails(req, LoadMatches) then LoadMatches
        else if Fails(req, LoadBlocked) then LoadBlocked
        else LoadBlockedBy;
      assert FirstFailure(req, first);
      FirstFailureDecides(req, first);
    }
  }

  /** The tables relate `uid` and `x` through a match row, either way round. */
  predicate Matched(t: Tables, uid: UserId, x: UserId) {
    exists i :: 0 <= i < |t.matches| &&
      ((t.matches[i].user1 == uid && t.matches[i].user2 == x) ||
       (t.matches[i].user1 == x && t.matches[i].user2 == uid))
  }

  /** A block row between `uid` and `x`, in either direction. */
  predicate Blocked(t: Tables, uid: UserId, x: UserId) {
    exists i :: 0 <= i < |t.blocks| &&
      ((t.blocks[i].blocker == uid && t.blocks[i].blocked == x) ||
       (t.blocks[i].blocker == x && t.blocks[i].blocked == uid))
  }

  /** A profile that the requester may be shown. */
  predicate IsEligible(t: Tables, uid: UserId, p: Profile) {
    p in t.profiles && p.userId != uid && !Matched(t, uid, p.userId) && !Blocked(t, uid, p.userId)
  }

  lemma MatchedIdsAreMatched(t: Tables, uid: UserId, x: UserId)
    ensures x in MatchedIds(uid, MatchesOf(uid, t.matches)) <==> Matched(t, uid, x)
  {
    if x in MatchedIds(uid, MatchesOf(uid, t.matches)) {
      MatchedIdIsMatch(t, uid, x);
    }
    if Matched(t, uid, x) {
      MatchIsMatchedId(t, uid, x);
    }
  }

  lemma MatchedIdIsMatch(t: Tables, uid: UserId, x: UserId)
    requires x in MatchedIds(uid, MatchesOf(uid, t.matches))
    ensures Matched(t, uid, x)
  {
    var rows := MatchesOf(uid, t.matches);
    var i :| 0 <= i < |rows| && ((rows[i].user1 == uid && rows[i].user2 == x) ||
                                 (rows[i].user1 != uid && rows[i].user1 == x));
    assert rows[i] in t.matches;
  }

  lemma MatchIsMatchedId(t: Tables, uid: UserId, x: UserId)
    requires Matched(t, uid, x)
    ensures x in MatchedIds(uid, MatchesOf(uid, t.matches))
  {
    var rows := MatchesOf(uid, t.matches);
    var i :| 0 <= i < |t.matches| &&
      ((t.matches[i].user1 == uid && t.matches[i].user2 == x) ||
       (t.matches[i].user1 == x && t.matches[i].user2 == uid));
    var j :| 0 <= j < |rows| && rows[j] == t.matches[i];
  }

  predicate BlockedByUid(t: Tables, uid: UserId, x: UserId) {
    exists i :: 0 <= i < |t.blocks| && t.blocks[i].blocker == uid && t.blocks[i].blocked == x
  }

  predicate BlocksUid(t: Tables, uid: UserId, x: UserId) {
    exists i :: 0 <= i < |t.blocks| && t.blocks[i].blocker == x && t.blocks[i].blocked == uid
  }

  lemma BlockedByMeRows(t: Tables, uid: UserId, x: UserId)
    ensures x in IdSet(BlockedByMe(uid, t.blocks)) <==> BlockedByUid(t, uid, x)
  {
    if x in BlockedByMe(uid, t.blocks) {
      SelectedBlockedIsBlock(t.blocks, uid, x);
    }
    if BlockedByUid(t, uid, x) {
      BlockIsSelectedBlocked(t, uid, x);
    }
  }

  lemma SelectedBlockedIsBlock(blocks: seq<BlockRow>, uid: UserId, x: UserId)
    requires x in BlockedByMe(uid, blocks)
    ensures exists i :: 0 <= i < |blocks| && blocks[i].blocker == uid && blocks[i].blocked == x
  {
    var rows := Filter(blocks, BlockerIs(uid));
    var i :| 0 <= i < |rows| && rows[i].blocked == x;
    assert rows[i] in blocks;
  }

  lemma BlockIsSelectedBlocked(t: Tables, uid: UserId, x: UserId)
    requires BlockedByUid(t, uid, x)
    ensures x in BlockedByMe(uid, t.blocks)
  {
    var rows := Filter(t.blocks, BlockerIs(uid));
    var i :| 0 <= i < |t.blocks| && t.blocks[i].blocker == uid && t.blocks[i].blocked == x;
    var j :| 0 <= j < |rows| && rows[j] == t.blocks[i];
    assert BlockedByMe(uid, t.blocks)[j] == x;
  }

  lemma BlockersOfMeRows(t: Tables, uid: UserId, x: UserId)
    ensures x in IdSet(BlockersOfMe(uid, t.blocks)) <==> BlocksUid(t, uid, x)
  {
    if x in BlockersOfMe(uid, t.blocks) {
      SelectedBlockerIsBlock(t.blocks, uid, x);
    }
    if BlocksUid(t, uid, x) {
      BlockIsSelectedBlocker(t, uid, x);
    }
  }

  lemma SelectedBlockerIsBlock(blocks: seq<BlockRow>, uid: UserId, x: UserId)
    requires x in BlockersOfMe(uid, blocks)
    ensures exists i :: 0 <= i < |blocks| && blocks[i].blocker == x && blocks[i].blocked == uid
  {
    var rows := Filter(blocks, BlockedIs(uid));
    var i :| 0 <= i < |rows| && rows[i].blocker == x;
    assert rows[i] in blocks;
  }

  lemma BlockIsSelectedBlocker(t: Tables, uid: UserId, x: UserId)
    requires BlocksUid(t, uid, x)
    ensures x in BlockersOfMe(uid, t.blocks)
  {
    var rows := Filter(t.blocks, BlockedIs(uid));
    var i :| 0 <= i < |t.blocks| && t.blocks[i].blocker == x && t.blocks[i].blocked == uid;
    var j :| 0 <= j < |rows| && rows[j] == t.blocks[i];
    assert BlockersOfMe(uid, t.blocks)[j] == x;
  }

  lemma BlockSetsAreBlocks(t: Tables, uid: UserId, x: UserId)
    ensures x in IdSet(BlockedByMe(uid, t.blocks)) || x in IdSet(BlockersOfMe(uid, t.blocks))
            <==> Blocked(t, uid, x)
  {
    BlockedByMeRows(t, uid, x);
    BlockersOfMeRows(t, uid, x);
  }

  /** A successful response holds only eligible profiles, each as stored
      with its own score, in an order whose scores never increase; the
      requester, every matched user and every user on either side of a
      block are absent. */
  lemma SuggestionsAreEligible(req: Request)
    requires Handle(req).Suggestions?
    ensures req.session.Some?
    ensures var list := Handle(req).suggestions;
            var uid := req.session.value;
            && (forall i :: 0 <= i < |list| ==> IsEligible(req.tables, uid, list[i].profile))
            && NonIncreasing(list)
  {
    var uid := req.session.value;
    var me := CurrentProfile(req, uid).value;
    var others := OtherProfiles(uid, req.tables.profiles);
    var matched := MatchedIds(uid, MatchesOf(uid, req.tables.matches));
    var blocked := IdSet(BlockedByMe(uid, req.tables.blocks));
    var blockedBy := IdSet(BlockersOfMe(uid, req.tables.blocks));
    var list := Handle(req).suggestions;
    SucceedsIffNoStepFails(req);
    SuggestWhenAllPass(req);
    assert list == Rank(me, others, matched, blocked, blockedBy);
    RankOrder(me, others, matched, blocked, blockedBy);
    forall i | 0 <= i < |list| ensures IsEligible(req.tables, uid, list[i].profile) {
      var p := list[i].profile;
      MatchedIdsAreMatched(req.tables, uid, p.userId);
      BlockSetsAreBlocks(req.tables, uid, p.userId);
    }
  }

  /** Conversely every eligible profile is in a successful response, with
      its score against the requester's profile. */
  lemma EligibleAreSuggested(req: Request, p: Profile)
    requires Handle(req).Suggestions?
    requires req.session.Some? && IsEligible(req.tables, req.session.value, p)
    ensures ScoredProfile(p, Score(CurrentProfile(req, req.session.value).value, p)) in Handle(req).suggestions
  {
    var uid := req.session.value;
    var me := CurrentProfile(req, uid).value;
    var others := OtherProfiles(uid, req.tables.profiles);
    var matched := MatchedIds(uid, MatchesOf(uid, req.tables.matches));
    var blocked := IdSet(BlockedByMe(uid, req.tables.blocks));
    var blockedBy := IdSet(BlockersOfMe(uid, req.tables.blocks));
    SucceedsIffNoStepFails(req);
    SuggestWhenAllPass(req);
    MatchedIdsAreMatched(req.tables, uid, p.userId);
    BlockSetsAreBlocks(req.tables, uid, p.userId);
    assert p in others;
    RankComplete(me, others, matched, blocked, blockedBy, p);
  }

  /** Once a match row links the requester with `target`, in either
      direction (a connect from either side), a later request never
      suggests `target`. */
  lemma ConnectedUserNotSuggested(req: Request, target: UserId)
    requires req.session.Some?
    requires Matched(req.tables, req.session.value, target)
    requires Handle(req).Suggestions?
    ensures forall i :: 0 <= i < |Handle(req).suggestions| ==> Handle(req).suggestions[i].profile.userId != target
  {
    SuggestionsAreEligible(req);
  }

  /** A block row hides each side from the other: neither the blocker's nor
      the blocked user's suggestions contain the other. */
  lemma BlockHidesBothWays(req: Request, other: UserId)
    requires req.session.Some?
    requires var uid := req.session.value;
             exists i :: 0 <= i < |req.tables.blocks| &&
               (req.tables.blocks[i] == BlockRow(uid, other) || req.tables.blocks[i] == BlockRow(other, uid))
    requires Handle(req).Suggestions?
    ensures forall i :: 0 <= i < |Handle(req).suggestions| ==> Handle(req).suggestions[i].profile.userId != other
  {
    SuggestionsAreEligible(req);
  }
}
