/** The logic of the discover page: the interest parser used for display,
    the age shown on each card, and the component state that the connect
    and block actions update. */
module Discover {
  import opened Schema
  import opened Text
  import opened MatchSuggestions

  // ---------------------------------------------------------------------
  // Display interests
  // ---------------------------------------------------------------------

  /** The comma-separated pieces of `s`, each trimmed. */
  function TrimmedPieces(s: string): (r: seq<string>)
    ensures |r| == |Split(s)|
    ensures forall i :: 0 <= i < |r| ==> r[i] == Trim(Split(s)[i])
    ensures forall i :: 0 <= i < |r| ==> IsTrimmed(r[i]) && CommaFree(r[i])
  {
    var pieces := Split(s);
    SplitShape(s);
    var r := seq(|pieces|, i requires 0 <= i < |pieces| => Trim(pieces[i]));
    assert forall i :: 0 <= i < |r| ==> CommaFree(r[i]) by {
      forall i | 0 <= i < |r| ensures CommaFree(r[i]) {
        TrimCommaFree(pieces[i]);
      }
    }
    r
  }

  predicate NonEmpty(t: string) { t != [] }

  /** The card's interest list: no field gives no tokens; otherwise the
      field is split at commas, each piece is trimmed and the blank ones are
      dropped. Unlike the ranker's parser it keeps the original case. */
  function ParseInterests(raw: Option<string>): (r: seq<string>)
    ensures raw == None || raw == Some([]) ==> r == []
    ensures forall i :: 0 <= i < |r| ==> r[i] != [] && IsTrimmed(r[i]) && CommaFree(r[i])
  {
    match raw
    case None => []
    case Some(s) => if s == [] then [] else Filter(TrimmedPieces(s), NonEmpty)
  }

  /** The tokens are the non-blank trimmed pieces, in their original order
      and case, each as often as it occurs: a piece is lost exactly when it
      holds only whitespace. */
  lemma ParseInterestsPieces(s: string)
    requires s != []
    ensures IsSubsequence(ParseInterests(Some(s)), TrimmedPieces(s))
    ensures forall t :: t != [] ==> multiset(ParseInterests(Some(s)))[t] == multiset(TrimmedPieces(s))[t]
    ensures forall i :: 0 <= i < |Split(s)| ==>
              (Trim(Split(s)[i]) in ParseInterests(Some(s)) <==> !AllWhitespace(Split(s)[i]))
  {
    FilterIsSubsequence(TrimmedPieces(s), NonEmpty);
    FilterMultiset(TrimmedPieces(s), NonEmpty);
    forall i | 0 <= i < |Split(s)|
      ensures Trim(Split(s)[i]) in ParseInterests(Some(s)) <==> !AllWhitespace(Split(s)[i])
    {
      TrimEmptyIff(Split(s)[i]);
      assert TrimmedPieces(s)[i] == Trim(Split(s)[i]);
    }
  }

  /** Case is kept: a single trimmed token such as "AI" is shown as it is. */
  lemma ParseInterestsKeepsCase(t: string)
    requires t != [] && IsTrimmed(t) && CommaFree(t)
    ensures ParseInterests(Some(t)) == [t]
  {
    SplitCommaFree(t);
    TrimOfTrimmed(t);
    assert TrimmedPieces(t) == [t];
  }

  function LowerAll(xs: seq<string>): (r: seq<string>)
    ensures |r| == |xs| && forall i :: 0 <= i < |xs| ==> r[i] == ToLower(xs[i])
  {
    seq(|xs|, i requires 0 <= i < |xs| => ToLower(xs[i]))
  }

  lemma LowerAllAppend(a: seq<string>, b: seq<string>)
    ensures LowerAll(a + b) == LowerAll(a) + LowerAll(b)
  {
  }

  lemma {:induction false} LowerAllDropEmpty(xs: seq<string>)
    ensures LowerAll(Filter(xs, NonEmpty)) == Filter(LowerAll(xs), NonEmpty)
  {
    if xs != [] {
      var head := if xs[0] != [] then [xs[0]] else [];
      assert Filter(xs, NonEmpty) == head + Filter(xs[1..], NonEmpty);
      LowerAllAppend(head, Filter(xs[1..], NonEmpty));
      LowerAllDropEmpty(xs[1..]);
      var l := LowerAll(xs);
      assert l[1..] == LowerAll(xs[1..]);
      assert Filter(l, NonEmpty) == (if l[0] != [] then [l[0]] else []) + Filter(l[1..], NonEmpty);
      assert LowerAll(head) == if l[0] != [] then [l[0]] else [];
    }
  }

  /** The display tokens, lower-cased, are the ranker's tokens with the
      empty ones dropped: the two parsers differ only in the empty tokens
      and in case. */
  lemma DisplayAndRankerAgree(raw: Option<string>)
    ensures LowerAll(ParseInterests(raw)) == Filter(InterestTokens(raw), NonEmpty)
  {
    if raw.Some? && raw.value != [] {
      var s := raw.value;
      assert InterestTokens(raw) == LowerAll(TrimmedPieces(s));
      LowerAllDropEmpty(TrimmedPieces(s));
    }
  }

  /** Re-parsing the comma-joined display tokens gives them back. */
  lemma {:induction false} ParseInterestsIdempotent(raw: Option<string>)
    ensures ParseInterests(Some(Join(ParseInterests(raw)))) == ParseInterests(raw)
  {
    var toks := ParseInterests(raw);
    if toks != [] {
      assert toks[0] != [];
      JoinThenSplit(toks);
      PiecesOfJoin(Join(toks), toks);
      FilterAllKept(toks, NonEmpty);
    }
  }

  /** Text that splits into trimmed pieces has those pieces as its trimmed pieces. */
  lemma PiecesOfJoin(s: string, toks: seq<string>)
    requires Split(s) == toks
    requires forall i :: 0 <= i < |toks| ==> IsTrimmed(toks[i])
    ensures TrimmedPieces(s) == toks
  {
    forall i | 0 <= i < |toks| ensures TrimmedPieces(s)[i] == toks[i] {
      TrimOfTrimmed(toks[i]);
    }
  }

  // ---------------------------------------------------------------------
  // Age
  // ---------------------------------------------------------------------

  /** A calendar date as the three numbers `getFullYear`, `getMonth` and
      `getDate` give. */
  datatype Date = Date(year: int, month: int, day: int)

  /** `a` falls earlier in the year than `b`. */
  predicate EarlierInYear(a: Date, b: Date) {
    a.month < b.month || (a.month == b.month && a.day < b.day)
  }

  /** The `n`-th birthday after `birth` is on or before `today`. */
  predicate AnniversaryReached(birth: Date, today: Date, n: int) {
    var y := birth.year + n;
    y < today.year || (y == today.year && !EarlierInYear(today, birth))
  }

  /** `calculateAge`: the year difference, less one when this year's birthday
      is still to come; that is, the number of birthdays reached so far. */
  method CalculateAge(birth: Date, today: Date) returns (age: int)
    ensures age == today.year - birth.year || age == today.year - birth.year - 1
    ensures age == today.year - birth.year - 1 <==> EarlierInYear(today, birth)
    ensures today.month == birth.month && today.day == birth.day ==> age == today.year - birth.year
    ensures AnniversaryReached(birth, today, age) && !AnniversaryReached(birth, today, age + 1)
  {
    age := today.year - birth.year;
    var monthDiff := today.month - birth.month;
    if monthDiff < 0 || (monthDiff == 0 && today.day < birth.day) {
      age := age - 1;
    }
  }

  // ---------------------------------------------------------------------
  // Removing a user from the suggestions
  // ---------------------------------------------------------------------

  /** The filter callback: the suggestion is for someone other than `target`. */
  function OtherThan(target: UserId): ScoredProfile -> bool {
    (s: ScoredProfile) => s.profile.userId != target
  }

  /** The list after a connect or block: every suggestion for `target` is
      dropped and the rest keep their order. */
  function RemoveSuggestion(list: seq<ScoredProfile>, target: UserId): (r: seq<ScoredProfile>)
    ensures forall i :: 0 <= i < |r| ==> r[i].profile.userId != target
    ensures forall i :: 0 <= i < |list| && list[i].profile.userId != target ==> list[i] in r
  {
    Filter(list, OtherThan(target))
  }

  /** Every other suggestion is kept, as often as before and in its
      original order. */
  lemma RemoveSuggestionKeepsOthers(list: seq<ScoredProfile>, target: UserId)
    ensures IsSubsequence(RemoveSuggestion(list, target), list)
    ensures forall s: ScoredProfile :: s.profile.userId != target ==>
              multiset(RemoveSuggestion(list, target))[s] == multiset(list)[s]
  {
    FilterIsSubsequence(list, OtherThan(target));
    FilterMultiset(list, OtherThan(target));
  }

  /** Removing twice is removing once, and removing a user that is not in
      the list changes nothing. */
  lemma RemoveSuggestionIdempotent(list: seq<ScoredProfile>, target: UserId)
    ensures RemoveSuggestion(RemoveSuggestion(list, target), target) == RemoveSuggestion(list, target)
    ensures (forall i :: 0 <= i < |list| ==> list[i].profile.userId != target) ==>
              RemoveSuggestion(list, target) == list
  {
    FilterAllKept(RemoveSuggestion(list, target), OtherThan(target));
    if forall i :: 0 <= i < |list| ==> list[i].profile.userId != target {
      FilterAllKept(list, OtherThan(target));
    }
  }

  // ---------------------------------------------------------------------
  // The component state
  // ---------------------------------------------------------------------

  /** What `supabase.functions.invoke('get-match-suggestions')` gives back:
      the `suggestions` field of the body (absent is None), or an error. */
  datatype InvokeOutcome = Invoked(suggestions: Option<seq<ScoredProfile>>) | InvokeFailed

  /** The DiscoverPage component for a signed-in `user` (or None). */
  class DiscoverPage {
    const user: Option<UserId>
    var suggestions: seq<ScoredProfile>
    var loading: bool
    var actionLoading: Option<UserId>

    constructor (user: Option<UserId>)
      ensures this.user == user
      ensures suggestions == [] && loading && actionLoading == None
    {
      this.user := user;
      suggestions := [];
      loading := true;
      actionLoading := None;
    }

    /** `fetchSuggestions`: with no user nothing happens; otherwise the list
        is replaced on success (`data.suggestions || []`), kept on error,
        and loading ends. */
    method FetchSuggestions(outcome: InvokeOutcome)
      modifies this
      ensures actionLoading == old(actionLoading)
      ensures user.None? ==> suggestions == old(suggestions) && loading == old(loading)
      ensures user.Some? ==> !loading
      ensures user.Some? ==> suggestions == match outcome
                                            case InvokeFailed => old(suggestions)
                                            case Invoked(None) => []
                                            case Invoked(Some(list)) => list
    {
      if user.None? {
        return;
      }
      loading := true;
      if outcome.Invoked? {
        suggestions := if outcome.suggestions.Some? then outcome.suggestions.value else [];
      }
      loading := false;
    }

    /** `handleConnect`: with a user, the match row (user, target) is sent;
        when the insert succeeds the target leaves the list, when it fails
        the list is left alone; either way no action is pending afterwards. */
    method HandleConnect(target: UserId, insertFailed: bool) returns (sent: Option<MatchRow>)
      modifies this
      ensures loading == old(loading)
      ensures user.None? ==> sent == None && suggestions == old(suggestions) && actionLoading == old(actionLoading)
      ensures user.Some? ==> sent == Some(MatchRow(user.value, target)) && actionLoading == None
      ensures user.Some? ==> suggestions == if insertFailed then old(suggestions)
                                            else RemoveSuggestion(old(suggestions), target)
    {
      if user.None? {
        return None;
      }
      actionLoading := Some(target);
      sent := Some(MatchRow(user.value, target));
      if !insertFailed {
        suggestions := RemoveSuggestion(suggestions, target);
      }
      actionLoading := None;
    }

    /** `handleBlock`: as `handleConnect`, but the row sent is the block
        (blocker = user, blocked = target). */
    method HandleBlock(target: UserId, insertFailed: bool) returns (sent: Option<BlockRow>)
      modifies this
      ensures loading == old(loading)
      ensures user.None? ==> sent == None && suggestions == old(suggestions) && actionLoading == old(actionLoading)
      ensures user.Some? ==> sent == Some(BlockRow(user.value, target)) && actionLoading == None
      ensures user.Some? ==> suggestions == if insertFailed then old(suggestions)
                                            else RemoveSuggestion(old(suggestions), target)
    {
      if user.None? {
        return None;
      }
      actionLoading := Some(target);
      sent := Some(BlockRow(user.value, target));
      if !insertFailed {
        suggestions := RemoveSuggestion(suggestions, target);
      }
      actionLoading := None;
    }
  }
}
