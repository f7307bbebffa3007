/** Records of the hosted database (the `profiles`, `matches` and
    `blocked_users` tables) and the small wrapper types shared by the
    ranker and the two client components. */
module Schema {

  /** A value that may be SQL `null` / JavaScript `null`. */
  datatype Option<+T> = None | Some(value: T)

  /** An outcome that either carries a value or an error message; usable with `:-`,
      the way the edge function's `throw new Error(...)` aborts the handler. */
  datatype Result<+R> = Ok(value: R) | Err(message: string) {
    predicate IsFailure() { Err? }

    function PropagateFailure<U>(): Result<U>
      requires Err?
    {
      Err(message)
    }

    function Extract(): R
      requires Ok?
    {
      value
    }
  }

  /** Authentication user ids are UUID strings. */
  type UserId = string

  /** One row of the `profiles` table. `username` and `birthdate` are NOT NULL
      columns, the other text columns are nullable. */
  datatype Profile = Profile(
    profileId: int,
    userId: UserId,
    username: string,
    bio: Option<string>,
    birthdate: string,
    academicInterests: Option<string>,
    nonAcademicInterests: Option<string>,
    lookingFor: Option<string>,
    createdAt: Option<string>)

  /** One row of the `matches` table (only the two user columns are selected). */
  datatype MatchRow = MatchRow(user1: UserId, user2: UserId)

  /** One row of the `blocked_users` table: `blocker` hides `blocked`. */
  datatype BlockRow = BlockRow(blocker: UserId, blocked: UserId)

  /** The rows of `s` that satisfy `keep`, in their original order
      (JavaScript's `Array.prototype.filter`). */
  function Filter<T>(s: seq<T>, keep: T -> bool): (r: seq<T>)
    ensures |r| <= |s|
    ensures forall i :: 0 <= i < |r| ==> keep(r[i]) && r[i] in s
    ensures forall i :: 0 <= i < |s| && keep(s[i]) ==> s[i] in r
  {
    if s == [] then [] else (if keep(s[0]) then [s[0]] else []) + Filter(s[1..], keep)
  }

  lemma {:induction false} FilterMultiset<T(!new)>(s: seq<T>, keep: T -> bool)
    ensures multiset(Filter(s, keep)) <= multiset(s)
    ensures forall x :: keep(x) ==> multiset(Filter(s, keep))[x] == multiset(s)[x]
  {
    if s != [] {
      FilterMultiset(s[1..], keep);
      assert s == [s[0]] + s[1..];
    }
  }

  lemma {:induction false} FilterAllKept<T>(s: seq<T>, keep: T -> bool)
    requires forall i :: 0 <= i < |s| ==> keep(s[i])
    ensures Filter(s, keep) == s
  {
    if s != [] {
      FilterAllKept(s[1..], keep);
    }
  }

  /** `sub` can be obtained from `s` by deleting elements: order is kept. */
  predicate IsSubsequence<T(==)>(sub: seq<T>, s: seq<T>)
    decreases |s|
  {
    if sub == [] then true
    else if s == [] then false
    else if sub[0] == s[0] then IsSubsequence(sub[1..], s[1..])
    else IsSubsequence(sub, s[1..])
  }

  lemma {:induction false} FilterIsSubsequence<T>(s: seq<T>, keep: T -> bool)
    ensures IsSubsequence(Filter(s, keep), s)
  {
    if s != [] {
      FilterIsSubsequence(s[1..], keep);
      if !keep(s[0]) {
        assert Filter(s, keep) == Filter(s[1..], keep);
      } else {
        var r := Filter(s, keep);
        assert r[0] == s[0] && r[1..] == Filter(s[1..], keep);
      }
    }
  }
}
