/** The ranking logic of the `get-match-suggestions` edge function: the three
    exclusion sets, the interest parser, the shared-interest counts, the
    score, and the stable sort by descending score. */
module MatchSuggestions {
  import opened Schema
  import opened Text

  // ---------------------------------------------------------------------
  // Exclusion sets
  // ---------------------------------------------------------------------

  /** The id on the far side of a match row, seen from `me`: for a row that
      involves `me`, the two of them are the row's two users. */
  function OtherParty(me: UserId, m: MatchRow): (o: UserId)
    ensures m.user1 == me || m.user2 == me ==> {me, o} == {m.user1, m.user2}
  {
    if m.user1 == me then m.user2 else m.user1
  }

  /** The already-matched ids: for each row, `user2` when `user1` is the
      requester and `user1` otherwise. */
  function MatchedIds(me: UserId, rows: seq<MatchRow>): (r: set<UserId>)
    ensures forall i :: 0 <= i < |rows| && rows[i].user1 == me ==> rows[i].user2 in r
    ensures forall i :: 0 <= i < |rows| && rows[i].user1 != me ==> rows[i].user1 in r
    ensures forall x :: x in r ==>
              exists i :: 0 <= i < |rows| && ((rows[i].user1 == me && rows[i].user2 == x) ||
                                              (rows[i].user1 != me && rows[i].user1 == x))
  {
    set i | 0 <= i < |rows| :: OtherParty(me, rows[i])
  }

  /** `new Set(ids)` for the selected `blocked_id` or `blocker_id` column. */
  function IdSet(ids: seq<UserId>): (r: set<UserId>)
    ensures forall x :: x in r <==> x in ids
    ensures |r| <= |ids|
  {
    if ids == [] then {} else {ids[0]} + IdSet(ids[1..])
  }

  /** True when the candidate's user id is in none of the three exclusion sets. */
  predicate NotExcluded(p: Profile, matched: set<UserId>, blocked: set<UserId>, blockedBy: set<UserId>) {
    p.userId !in matched && p.userId !in blocked && p.userId !in blockedBy
  }

  /** The candidates that survive the filter, in fetch order. */
  function Eligible(candidates: seq<Profile>, matched: set<UserId>, blocked: set<UserId>,
                    blockedBy: set<UserId>): (r: seq<Profile>)
    ensures forall i :: 0 <= i < |r| ==> r[i] in candidates && NotExcluded(r[i], matched, blocked, blockedBy)
    ensures forall i :: 0 <= i < |candidates| && NotExcluded(candidates[i], matched, blocked, blockedBy)
              ==> candidates[i] in r
  {
    Filter(candidates, (p: Profile) => NotExcluded(p, matched, blocked, blockedBy))
  }

  // ---------------------------------------------------------------------
  // Interest parsing (the ranker's version keeps empty pieces)
  // ---------------------------------------------------------------------

  /** One piece trimmed and lower-cased: the token it stands for. */
  function Normalize(piece: string): (t: string)
    ensures IsTrimmed(t) && IsLower(t)
    ensures CommaFree(piece) ==> CommaFree(t)
  {
    ToLowerFacts(Trim(piece));
    if CommaFree(piece) then TrimCommaFree(piece); ToLower(Trim(piece)) else ToLower(Trim(piece))
  }

  /** A trimmed lower-case token is its own normal form. */
  lemma NormalizeFixed(t: string)
    requires IsTrimmed(t) && IsLower(t)
    ensures Normalize(t) == t
  {
    TrimOfTrimmed(t);
    LowerOfLower(t);
  }

  /** Every piece normalised, in order. */
  function NormalizeAll(pieces: seq<string>): (r: seq<string>)
    ensures |r| == |pieces| && forall i :: 0 <= i < |pieces| ==> r[i] == Normalize(pieces[i])
  {
    seq(|pieces|, i requires 0 <= i < |pieces| => Normalize(pieces[i]))
  }

  /** Tokens that are already trimmed and lower case are left as they are. */
  lemma NormalizeAllFixed(toks: seq<string>)
    requires forall i :: 0 <= i < |toks| ==> IsTrimmed(toks[i]) && IsLower(toks[i])
    ensures NormalizeAll(toks) == toks
  {
    forall i | 0 <= i < |toks| ensures NormalizeAll(toks)[i] == toks[i] {
      NormalizeFixed(toks[i]);
    }
  }

  /** The ranker's interest tokens: a null or empty field gives no tokens;
      otherwise there is one token per comma-separated piece, that piece
      trimmed and lower-cased. Empty pieces are kept as empty tokens. */
  function InterestTokens(raw: Option<string>): (r: seq<string>)
    ensures raw == None || raw == Some([]) ==> r == []
    ensures raw.Some? && raw.value != [] ==>
              |r| == |Split(raw.value)| == CommaCount(raw.value) + 1 &&
              forall i :: 0 <= i < |r| ==> r[i] == Normalize(Split(raw.value)[i])
    ensures forall i :: 0 <= i < |r| ==> IsTrimmed(r[i]) && IsLower(r[i]) && CommaFree(r[i])
  {
    match raw
    case None => []
    case Some(s) =>
      if s == [] then []
      else
        var pieces := Split(s);
        SplitShape(s);
        var r := NormalizeAll(pieces);
        assert forall i :: 0 <= i < |r| ==> IsTrimmed(r[i]) && IsLower(r[i]) && CommaFree(r[i]) by {
          forall i | 0 <= i < |r| ensures IsTrimmed(r[i]) && IsLower(r[i]) && CommaFree(r[i]) {
            ToLowerFacts(Trim(pieces[i]));
            TrimCommaFree(pieces[i]);
          }
        }
        r
  }

  /** Non-empty text is parsed by normalising each of its pieces. */
  lemma ParseOfPieces(s: string, pieces: seq<string>)
    requires s != [] && Split(s) == pieces
    ensures InterestTokens(Some(s)) == NormalizeAll(pieces)
  {
  }

  /** A piece that holds only blanks becomes an empty token, and it is kept. */
  lemma BlankPieceKept(s: string, i: nat)
    requires s != [] && i < |Split(s)| && AllWhitespace(Split(s)[i])
    ensures i < |InterestTokens(Some(s))| && InterestTokens(Some(s))[i] == []
  {
    TrimEmptyIff(Split(s)[i]);
  }

  /** Re-parsing the comma-joined tokens gives the same tokens back, except
      when the field held only blanks: then the one empty token is lost. So
      this parser is not idempotent. */
  lemma {:induction false} ReparseTokens(raw: Option<string>)
    ensures var toks := InterestTokens(raw);
            InterestTokens(Some(Join(toks))) == if toks == [[]] then [] else toks
  {
    var toks := InterestTokens(raw);
    if toks != [] && toks != [[]] {
      NormalTokensReparse(toks);
    }
  }

  /** Trimmed, lower-case, comma-free tokens, other than a single empty one,
      survive a join and a re-parse. */
  lemma NormalTokensReparse(toks: seq<string>)
    requires toks != [] && toks != [[]]
    requires forall i :: 0 <= i < |toks| ==> IsTrimmed(toks[i]) && IsLower(toks[i]) && CommaFree(toks[i])
    ensures InterestTokens(Some(Join(toks))) == toks
  {
    JoinThenSplit(toks);
    ParseOfPieces(Join(toks), toks);
    NormalizeAllFixed(toks);
  }

  /** A field of blanks is the input on which re-parsing loses a token. */
  lemma BlankFieldNotIdempotent()
    ensures InterestTokens(Some(" ")) == [[]]
    ensures InterestTokens(Some(Join(InterestTokens(Some(" "))))) == []
  {
    SplitCommaFree(" ");
    ReparseTokens(Some(" "));
  }

  // ---------------------------------------------------------------------
  // Shared interests and the score
  // ---------------------------------------------------------------------

  /** The caller's tokens that the candidate also lists, in the caller's
      order and with the caller's repetitions. */
  function SharedTokens(mine: seq<string>, theirs: seq<string>): (r: seq<string>)
    ensures forall i :: 0 <= i < |r| ==> r[i] in mine && r[i] in theirs
    ensures forall i :: 0 <= i < |mine| && mine[i] in theirs ==> mine[i] in r
  {
    Filter(mine, (t: string) => t in theirs)
  }

  /** The number of the requester's tokens, with repeats, that occur somewhere
      among the candidate's tokens. */
  function SharedCount(mine: seq<string>, theirs: seq<string>): (n: nat)
    ensures n <= |mine|
    ensures n == 0 <==> forall i :: 0 <= i < |mine| ==> mine[i] !in theirs
    ensures n == |mine| <==> forall i :: 0 <= i < |mine| ==> mine[i] in theirs
  {
    FilterKeepsAll(mine, (t: string) => t in theirs);
    FilterKeepsNone(mine, (t: string) => t in theirs);
    |SharedTokens(mine, theirs)|
  }

  lemma {:induction false} FilterKeepsAll<T>(s: seq<T>, keep: T -> bool)
    ensures |Filter(s, keep)| == |s| <==> forall i :: 0 <= i < |s| ==> keep(s[i])
  {
    if s != [] {
      FilterKeepsAll(s[1..], keep);
      if keep(s[0]) {
        assert forall i :: 1 <= i < |s| ==> s[1..][i - 1] == s[i];
      }
    }
  }

  lemma {:induction false} FilterKeepsNone<T>(s: seq<T>, keep: T -> bool)
    ensures |Filter(s, keep)| == 0 <==> forall i :: 0 <= i < |s| ==> !keep(s[i])
  {
    if s != [] {
      FilterKeepsNone(s[1..], keep);
      assert forall i :: 1 <= i < |s| ==> s[1..][i - 1] == s[i];
    }
  }

  /** Each token is counted as often as the requester lists it, provided the
      candidate lists it at least once; how often the candidate lists it is
      irrelevant. */
  lemma SharedTokensMultiset(mine: seq<string>, theirs: seq<string>)
    ensures forall t :: multiset(SharedTokens(mine, theirs))[t] ==
              if t in theirs then multiset(mine)[t] else 0
  {
    FilterMultiset(mine, (t: string) => t in theirs);
  }

  function AcademicTokens(p: Profile): seq<string> { InterestTokens(p.academicInterests) }
  function NonAcademicTokens(p: Profile): seq<string> { InterestTokens(p.nonAcademicInterests) }

  /** `compatibility_score`: two points per shared academic token and one per
      shared non-academic token. It is never negative and never more than
      the requester's own token counts allow. */
  function Score(me: Profile, candidate: Profile): (score: nat)
    ensures score <= 2 * |AcademicTokens(me)| + |NonAcademicTokens(me)|
    ensures score == 0 <==> SharedCount(AcademicTokens(me), AcademicTokens(candidate)) == 0 &&
                            SharedCount(NonAcademicTokens(me), NonAcademicTokens(candidate)) == 0
  {
    2 * SharedCount(AcademicTokens(me), AcademicTokens(candidate))
      + SharedCount(NonAcademicTokens(me), NonAcademicTokens(candidate))
  }

  /** A requester with no interests at all scores 0 against everyone. */
  lemma NoInterestsScoreZero(me: Profile, candidate: Profile)
    requires me.academicInterests == None || me.academicInterests == Some([])
    requires me.nonAcademicInterests == None || me.nonAcademicInterests == Some([])
    ensures Score(me, candidate) == 0
  {
  }

  /** A field that ends in a comma yields an empty last token. */
  lemma TrailingCommaGivesEmptyToken(s: string)
    requires s != [] && s[|s| - 1] == ','
    ensures var toks := InterestTokens(Some(s)); toks != [] && toks[|toks| - 1] == []
  {
    SplitAppendComma(s[..|s| - 1]);
    assert s[..|s| - 1] + [','] == s;
    TrimOfTrimmed([]);
  }

  /** Two fields that each end in a comma share the empty token, so they
      count one shared interest although no named interest need be common
      (for example "AI," against "Security,"). */
  lemma TrailingCommasShareEmptyToken(a: string, b: string)
    requires a != [] && a[|a| - 1] == ','
    requires b != [] && b[|b| - 1] == ','
    ensures SharedCount(InterestTokens(Some(a)), InterestTokens(Some(b))) >= 1
  {
    TrailingCommaGivesEmptyToken(a);
    TrailingCommaGivesEmptyToken(b);
    var mine := InterestTokens(Some(a));
    var theirs := InterestTokens(Some(b));
    CommonTokenCounted(mine, theirs, |mine| - 1, |theirs| - 1);
  }

  /** One token of mine that the candidate also lists makes the count positive. */
  lemma CommonTokenCounted(mine: seq<string>, theirs: seq<string>, i: nat, j: nat)
    requires i < |mine| && j < |theirs| && mine[i] == theirs[j]
    ensures SharedCount(mine, theirs) >= 1
  {
    assert mine[i] in theirs;
  }

  // ---------------------------------------------------------------------
  // Scored records and the stable descending sort
  // ---------------------------------------------------------------------

  /** A profile row with `compatibility_score` added (`{...profile, compatibility_score}`). */
  datatype ScoredProfile = ScoredProfile(profile: Profile, compatibilityScore: int)

  /** Every candidate, in order, with its score attached and nothing else changed. */
  function ScoreAll(me: Profile, candidates: seq<Profile>): (r: seq<ScoredProfile>)
    ensures |r| == |candidates|
    ensures forall i :: 0 <= i < |r| ==> r[i].profile == candidates[i]
    ensures forall i :: 0 <= i < |r| ==> r[i].compatibilityScore == Score(me, candidates[i])
  {
    seq(|candidates|, i requires 0 <= i < |candidates| =>
      ScoredProfile(candidates[i], Score(me, candidates[i])))
  }

  predicate NonIncreasing(s: seq<ScoredProfile>) {
    forall i, j :: 0 <= i < j < |s| ==> s[i].compatibilityScore >= s[j].compatibilityScore
  }

  /** The records with score `k`, in their order in `s`. */
  function WithScore(s: seq<ScoredProfile>, k: int): seq<ScoredProfile> {
    if s == [] then []
    else (if s[0].compatibilityScore == k then [s[0]] else []) + WithScore(s[1..], k)
  }

  lemma {:induction false} WithScoreMembers(s: seq<ScoredProfile>, k: int)
    ensures forall y :: y in WithScore(s, k) <==> y in s && y.compatibilityScore == k
  {
    if s != [] {
      WithScoreMembers(s[1..], k);
      assert s == [s[0]] + s[1..];
    }
  }

  /** Putting `y` in front of a non-increasing list whose head scores no
      higher keeps it non-increasing. */
  lemma ConsNonIncreasing(y: ScoredProfile, s: seq<ScoredProfile>)
    requires NonIncreasing(s)
    requires s == [] || s[0].compatibilityScore <= y.compatibilityScore
    ensures NonIncreasing([y] + s)
  {
    var r := [y] + s;
    forall i, j | 0 <= i < j < |r| ensures r[i].compatibilityScore >= r[j].compatibilityScore {
      if i == 0 && j > 1 {
        assert r[j] == s[j - 1] && s[0].compatibilityScore >= s[j - 1].compatibilityScore;
      }
    }
  }

  /** Places `x` in front of the first record whose score is not higher. */
  function Insert(x: ScoredProfile, t: seq<ScoredProfile>): (r: seq<ScoredProfile>)
    requires NonIncreasing(t)
    ensures NonIncreasing(r)
    ensures multiset(r) == multiset(t) + multiset{x}
    ensures r[0] == x || (t != [] && r[0] == t[0])
  {
    if t == [] then [x]
    else if t[0].compatibilityScore <= x.compatibilityScore then
      ConsNonIncreasing(x, t);
      [x] + t
    else
      var rest := Insert(x, t[1..]);
      assert t == [t[0]] + t[1..];
      ConsNonIncreasing(t[0], rest);
      [t[0]] + rest
  }

  lemma WithScoreCons(y: ScoredProfile, t: seq<ScoredProfile>, k: int)
    ensures WithScore([y] + t, k) == (if y.compatibilityScore == k then [y] else []) + WithScore(t, k)
  {
    assert ([y] + t)[1..] == t;
  }

  /** Inserting `x` puts it in front of every record of `t` with its score. */
  lemma {:induction false} InsertWithScore(x: ScoredProfile, t: seq<ScoredProfile>, k: int)
    requires NonIncreasing(t)
    ensures WithScore(Insert(x, t), k) == (if x.compatibilityScore == k then [x] else []) + WithScore(t, k)
  {
    if t == [] {
      assert Insert(x, t) == [x] + [];
      WithScoreCons(x, [], k);
    } else if t[0].compatibilityScore <= x.compatibilityScore {
      assert Insert(x, t) == [x] + t;
      WithScoreCons(x, t, k);
    } else {
      var rest := Insert(x, t[1..]);
      assert Insert(x, t) == [t[0]] + rest;
      InsertWithScore(x, t[1..], k);
      InsertPastHead(x, t, rest, k);
    }
  }

  /** The step of InsertWithScore where `x` goes past the higher-scored head
      of `t` into the rest, giving `rest`. */
  lemma InsertPastHead(x: ScoredProfile, t: seq<ScoredProfile>, rest: seq<ScoredProfile>, k: int)
    requires t != [] && t[0].compatibilityScore > x.compatibilityScore
    requires WithScore(rest, k) == (if x.compatibilityScore == k then [x] else []) + WithScore(t[1..], k)
    ensures WithScore([t[0]] + rest, k) == (if x.compatibilityScore == k then [x] else []) + WithScore(t, k)
  {
    var w := WithScore(t[1..], k);
    WithScoreCons(t[0], rest, k);
    if x.compatibilityScore == k {
      assert WithScore([t[0]] + rest, k) == WithScore(rest, k) == [x] + w;
      assert WithScore(t, k) == w;
    } else {
      assert WithScore(rest, k) == w;
      assert WithScore(t, k) == (if t[0].compatibilityScore == k then [t[0]] else []) + w;
    }
  }

  /** The descending sort by score, written as an insertion sort: scores
      never increase and the records are a permutation of the input. */
  function SortByScore(s: seq<ScoredProfile>): (r: seq<ScoredProfile>)
    ensures NonIncreasing(r)
    ensures multiset(r) == multiset(s)
  {
    if s == [] then []
    else
      assert s == [s[0]] + s[1..];
      Insert(s[0], SortByScore(s[1..]))
  }

  /** The sort is stable: the records with any one score keep their input
      order (as section 22.1.3.27 of ECMA-262, 10th edition, requires
      of `Array.prototype.sort`). */
  lemma {:induction false} SortStable(s: seq<ScoredProfile>, k: int)
    ensures WithScore(SortByScore(s), k) == WithScore(s, k)
  {
    if s != [] {
      SortStable(s[1..], k);
      InsertWithScore(s[0], SortByScore(s[1..]), k);
      WithScoreCons(s[0], s[1..], k);
      assert s == [s[0]] + s[1..];
    }
  }

  /** The records with the highest score come first. */
  lemma HeadHasTopScore(s: seq<ScoredProfile>)
    requires s != []
    ensures forall i :: 0 <= i < |s| ==> SortByScore(s)[0].compatibilityScore >= s[i].compatibilityScore
  {
    var r := SortByScore(s);
    forall i | 0 <= i < |s| ensures r[0].compatibilityScore >= s[i].compatibilityScore {
      assert s[i] in multiset(r);
    }
  }

  /** When every record has the same score the order is left as it is. */
  lemma EqualScoresKeepOrder(s: seq<ScoredProfile>, k: int)
    requires forall i :: 0 <= i < |s| ==> s[i].compatibilityScore == k
    ensures SortByScore(s) == s
  {
    var r := SortByScore(s);
    AllKept(s, k);
    forall i | 0 <= i < |r| ensures r[i].compatibilityScore == k {
      assert r[i] in multiset(s);
    }
    AllKept(r, k);
    SortStable(s, k);
  }

  lemma {:induction false} AllKept(s: seq<ScoredProfile>, k: int)
    requires forall i :: 0 <= i < |s| ==> s[i].compatibilityScore == k
    ensures WithScore(s, k) == s
  {
    if s != [] {
      AllKept(s[1..], k);
    }
  }

  // The sort is the only arrangement that is non-increasing and keeps each
  // score's records in input order.

  lemma {:induction false} StableArrangementUnique(a: seq<ScoredProfile>, b: seq<ScoredProfile>)
    requires NonIncreasing(a) && NonIncreasing(b)
    requires forall k :: WithScore(a, k) == WithScore(b, k)
    ensures a == b
    decreases |a|
  {
    if a != [] {
      WithScoreCons(a[0], a[1..], a[0].compatibilityScore);
      assert a == [a[0]] + a[1..];
    }
    if b != [] {
      WithScoreCons(b[0], b[1..], b[0].compatibilityScore);
      assert b == [b[0]] + b[1..];
    }
    if a == [] || b == [] {
      // a record in one of them would be missing from the other
    } else {
      var ka, kb := a[0].compatibilityScore, b[0].compatibilityScore;
      WithScoreMembers(a, ka);
      WithScoreMembers(a, kb);
      WithScoreMembers(b, ka);
      WithScoreMembers(b, kb);
      assert ka == kb by {
        assert b[0] in WithScore(b, kb);
        assert b[0] in WithScore(a, kb);
        assert a[0] in WithScore(a, ka);
        assert a[0] in WithScore(b, ka);
      }
      assert a[0] == b[0] by {
        assert WithScore(a, ka)[0] == a[0];
        assert WithScore(b, ka)[0] == b[0];
      }
      forall k ensures WithScore(a[1..], k) == WithScore(b[1..], k) {
        assert a == [a[0]] + a[1..];
        assert b == [b[0]] + b[1..];
        WithScoreCons(a[0], a[1..], k);
        WithScoreCons(b[0], b[1..], k);
        var p := if a[0].compatibilityScore == k then [a[0]] else [];
        assert WithScore(a, k)[|p|..] == WithScore(a[1..], k);
        assert WithScore(b, k)[|p|..] == WithScore(b[1..], k);
      }
      StableArrangementUnique(a[1..], b[1..]);
      assert a == [a[0]] + a[1..];
      assert b == [b[0]] + b[1..];
    }
  }

  /** Any non-increasing arrangement that keeps each score's records in input
      order is exactly what the sort returns. */
  lemma SortIsTheStableArrangement(s: seq<ScoredProfile>, r: seq<ScoredProfile>)
    requires NonIncreasing(r)
    requires forall k :: WithScore(r, k) == WithScore(s, k)
    ensures r == SortByScore(s)
  {
    forall k ensures WithScore(r, k) == WithScore(SortByScore(s), k) {
      SortStable(s, k);
    }
    StableArrangementUnique(r, SortByScore(s));
  }

  // ---------------------------------------------------------------------
  // The pipeline
  // ---------------------------------------------------------------------

  /** `allProfiles.filter(...).map(...).sort(...)`: only candidates that are
      in none of the exclusion sets, each with its own score and every other
      field as fetched. */
  function Rank(me: Profile, others: seq<Profile>, matched: set<UserId>, blocked: set<UserId>,
                blockedBy: set<UserId>): (r: seq<ScoredProfile>)
    ensures forall i :: 0 <= i < |r| ==> r[i].profile in others
    ensures forall i :: 0 <= i < |r| ==> NotExcluded(r[i].profile, matched, blocked, blockedBy)
    ensures forall i :: 0 <= i < |r| ==> r[i].compatibilityScore == Score(me, r[i].profile)
  {
    var e := Eligible(others, matched, blocked, blockedBy);
    var r := SortByScore(ScoreAll(me, e));
    ScoredMembers(me, e, r);
    r
  }

  /** A rearrangement of the scored candidates holds only candidates, each
      with its own score. */
  lemma ScoredMembers(me: Profile, e: seq<Profile>, r: seq<ScoredProfile>)
    requires multiset(r) == multiset(ScoreAll(me, e))
    ensures forall i :: 0 <= i < |r| ==>
              r[i].profile in e && r[i].compatibilityScore == Score(me, r[i].profile)
  {
    var scored := ScoreAll(me, e);
    forall i | 0 <= i < |r|
      ensures r[i].profile in e && r[i].compatibilityScore == Score(me, r[i].profile)
    {
      assert r[i] in multiset(scored);
      var j :| 0 <= j < |scored| && scored[j] == r[i];
      assert r[i].profile == e[j];
    }
  }

  /** The ranking is the eligible candidates, scored, in an order whose scores
      never increase and where equal scores keep fetch order; no other
      arrangement has these properties. */
  lemma RankOrder(me: Profile, others: seq<Profile>, matched: set<UserId>, blocked: set<UserId>,
                  blockedBy: set<UserId>)
    ensures var r := Rank(me, others, matched, blocked, blockedBy);
            var scored := ScoreAll(me, Eligible(others, matched, blocked, blockedBy));
            && NonIncreasing(r)
            && multiset(r) == multiset(scored)
            && (forall k :: WithScore(r, k) == WithScore(scored, k))
  {
    var scored := ScoreAll(me, Eligible(others, matched, blocked, blockedBy));
    forall k ensures WithScore(SortByScore(scored), k) == WithScore(scored, k) {
      SortStable(scored, k);
    }
  }

  /** Every eligible candidate appears in the ranking, with its score. */
  lemma RankComplete(me: Profile, others: seq<Profile>, matched: set<UserId>, blocked: set<UserId>,
                     blockedBy: set<UserId>, p: Profile)
    requires p in others && NotExcluded(p, matched, blocked, blockedBy)
    ensures ScoredProfile(p, Score(me, p)) in Rank(me, others, matched, blocked, blockedBy)
  {
    var e := Eligible(others, matched, blocked, blockedBy);
    var scored := ScoreAll(me, e);
    var i :| 0 <= i < |e| && e[i] == p;
    assert scored[i] == ScoredProfile(p, Score(me, p));
    assert scored[i] in multiset(Rank(me, others, matched, blocked, blockedBy));
  }

  /** A requester with no interests sees every eligible candidate with
      score 0, in fetch order: the stable sort leaves ties where they were. */
  lemma NoInterestsFetchOrder(me: Profile, others: seq<Profile>, matched: set<UserId>,
                              blocked: set<UserId>, blockedBy: set<UserId>)
    requires me.academicInterests == None || me.academicInterests == Some([])
    requires me.nonAcademicInterests == None || me.nonAcademicInterests == Some([])
    ensures Rank(me, others, matched, blocked, blockedBy) == ScoreAll(me, Eligible(others, matched, blocked, blockedBy))
  {
    var scored := ScoreAll(me, Eligible(others, matched, blocked, blockedBy));
    EqualScoresKeepOrder(scored, 0);
  }
}
