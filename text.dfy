/** The JavaScript string operations the interest parsers are built from:
    `split(',')`, `trim()` and `toLowerCase()`, plus `join(',')` as the
    inverse of the split. */
module Text {

  /** ECMAScript's WhiteSpace and LineTerminator code points, the set that
      `String.prototype.trim` strips (TAB, VT, FF, ZWNBSP, the Zs category,
      LF, CR, LS, PS). */
  function IsWhitespace(c: char): (r: bool)
    ensures r ==> c != ',' && !('A' <= c <= 'Z') && !('a' <= c <= 'z')
    ensures c == ' ' || c == '\t' || c == '\n' ==> r
  {
    || c == '\t' || c == '\n' || c == '\U{000B}' || c == '\U{000C}' || c == '\r'
    || c == ' ' || c == '\U{00A0}' || c == '\U{1680}'
    || ('\U{2000}' <= c <= '\U{200A}')
    || c == '\U{2028}' || c == '\U{2029}' || c == '\U{202F}' || c == '\U{205F}'
    || c == '\U{3000}' || c == '\U{FEFF}'
  }

  /** Neither end of `s` is whitespace. */
  predicate IsTrimmed(s: string) {
    s == [] || (!IsWhitespace(s[0]) && !IsWhitespace(s[|s| - 1]))
  }

  predicate AllWhitespace(s: string) {
    forall i :: 0 <= i < |s| ==> IsWhitespace(s[i])
  }

  function TrimStart(s: string): (r: string)
    ensures |r| <= |s|
  {
    if s != [] && IsWhitespace(s[0]) then TrimStart(s[1..]) else s
  }

  function TrimEnd(s: string): (r: string)
    ensures |r| <= |s|
  {
    if s != [] && IsWhitespace(s[|s| - 1]) then TrimEnd(s[..|s| - 1]) else s
  }

  /** `TrimStart` cuts a run of whitespace from the front: what is left is a
      suffix of `s` that does not start with whitespace. */
  lemma {:induction false} TrimStartCutsWhitespace(s: string)
    ensures var r := TrimStart(s);
            && r == s[|s| - |r|..]
            && (forall k :: 0 <= k < |s| - |r| ==> IsWhitespace(s[k]))
            && (r == [] || !IsWhitespace(r[0]))
  {
    if s != [] && IsWhitespace(s[0]) {
      TrimStartCutsWhitespace(s[1..]);
      var r := TrimStart(s);
      forall k | 1 <= k < |s| - |r| ensures IsWhitespace(s[k]) {
        assert s[k] == s[1..][k - 1];
      }
    }
  }

  /** `TrimEnd` cuts a run of whitespace from the back: what is left is a
      prefix of `s` that does not end with whitespace. */
  lemma {:induction false} TrimEndCutsWhitespace(s: string)
    ensures var r := TrimEnd(s);
            && r == s[..|r|]
            && (forall k :: |r| <= k < |s| ==> IsWhitespace(s[k]))
            && (r == [] || !IsWhitespace(r[|r| - 1]))
  {
    if s != [] && IsWhitespace(s[|s| - 1]) {
      TrimEndCutsWhitespace(s[..|s| - 1]);
      var r := TrimEnd(s);
      forall k | |r| <= k < |s| - 1 ensures IsWhitespace(s[k]) {
        assert s[k] == s[..|s| - 1][k];
      }
    }
  }

  /** How many whitespace characters `trim` cuts from the front of `s`. */
  function LeadingWhitespace(s: string): (n: nat)
    ensures n <= |s|
  {
    |s| - |TrimStart(s)|
  }

  /** `String.prototype.trim`: the result is a contiguous slice of `s`, only
      whitespace is cut away, and what remains starts and ends with a
      non-whitespace character. */
  function Trim(s: string): (r: string)
    ensures IsTrimmed(r)
    ensures LeadingWhitespace(s) + |r| <= |s|
    ensures r == s[LeadingWhitespace(s)..LeadingWhitespace(s) + |r|]
    ensures forall k :: 0 <= k < LeadingWhitespace(s) ==> IsWhitespace(s[k])
    ensures forall k :: LeadingWhitespace(s) + |r| <= k < |s| ==> IsWhitespace(s[k])
  {
    TrimStartCutsWhitespace(s);
    TrimEndCutsWhitespace(TrimStart(s));
    TrimEndSlice(s, TrimStart(s));
    TrimEnd(TrimStart(s))
  }

  /** Cutting the end of the suffix `a` of `s` leaves a slice of `s`, and
      what is cut is whitespace in `s` too. */
  lemma TrimEndSlice(s: string, a: string)
    requires |a| <= |s| && a == s[|s| - |a|..]
    ensures var r := TrimEnd(a); var i := |s| - |a|;
            && i + |r| <= |s|
            && r == s[i..i + |r|]
            && (r == [] || r[0] == a[0])
            && forall k :: i + |r| <= k < |s| ==> IsWhitespace(s[k])
  {
    var r := TrimEnd(a);
    var i := |s| - |a|;
    TrimEndCutsWhitespace(a);
    forall k | i + |r| <= k < |s| ensures IsWhitespace(s[k]) {
      assert s[k] == a[k - i];
    }
  }

  lemma TrimStartOfTrimmed(s: string)
    requires s == [] || !IsWhitespace(s[0])
    ensures TrimStart(s) == s
  {
  }

  lemma TrimEndOfTrimmed(s: string)
    requires s == [] || !IsWhitespace(s[|s| - 1])
    ensures TrimEnd(s) == s
  {
  }

  /** Trimming trimmed text changes nothing. */
  lemma TrimOfTrimmed(s: string)
    requires IsTrimmed(s)
    ensures Trim(s) == s
  {
    TrimStartOfTrimmed(s);
    TrimEndOfTrimmed(s);
  }

  lemma TrimIdempotent(s: string)
    ensures Trim(Trim(s)) == Trim(s)
  {
    TrimOfTrimmed(Trim(s));
  }

  /** The trimmed text is empty exactly when the input holds only whitespace. */
  lemma {:induction false} TrimEmptyIff(s: string)
    ensures Trim(s) == [] <==> AllWhitespace(s)
  {
    var r := Trim(s);
    var i := LeadingWhitespace(s);
    if r != [] {
      assert !IsWhitespace(s[i]) by { assert r[0] == s[i]; }
    }
  }

  /** ASCII case mapping of `toLowerCase` (other scripts are left as they are). */
  function ToLowerChar(c: char): (r: char)
    ensures IsWhitespace(r) == IsWhitespace(c)
    ensures !('A' <= r <= 'Z')
    ensures r == c || 'A' <= c <= 'Z'
  {
    if 'A' <= c <= 'Z' then (c as int - 'A' as int + 'a' as int) as char else c
  }

  function ToLower(s: string): (r: string)
    ensures |r| == |s|
    ensures forall i :: 0 <= i < |s| ==> r[i] == ToLowerChar(s[i])
  {
    seq(|s|, i requires 0 <= i < |s| => ToLowerChar(s[i]))
  }

  predicate IsLower(s: string) {
    forall i :: 0 <= i < |s| ==> !('A' <= s[i] <= 'Z')
  }

  /** Lower-casing gives lower-case text, is idempotent, keeps trimmedness
      and is the identity on text that is already lower case. */
  lemma ToLowerFacts(s: string)
    ensures IsLower(ToLower(s))
    ensures ToLower(ToLower(s)) == ToLower(s)
    ensures IsTrimmed(s) ==> IsTrimmed(ToLower(s))
    ensures IsLower(s) ==> ToLower(s) == s
  {
  }

  lemma LowerOfLower(s: string)
    requires IsLower(s)
    ensures ToLower(s) == s
  {
  }

  /** `s.split(',')`: the pieces between commas, in order; an empty string
      gives one empty piece. */
  function Split(s: string): (r: seq<string>)
    ensures |r| >= 1
  {
    if s == [] then [[]]
    else if s[0] == ',' then [[]] + Split(s[1..])
    else
      var rest := Split(s[1..]);
      [[s[0]] + rest[0]] + rest[1..]
  }

  function CommaCount(s: string): nat {
    if s == [] then 0 else (if s[0] == ',' then 1 else 0) + CommaCount(s[1..])
  }

  /** `parts.join(',')`. */
  function Join(parts: seq<string>): string {
    if parts == [] then []
    else if |parts| == 1 then parts[0]
    else parts[0] + [','] + Join(parts[1..])
  }

  predicate CommaFree(s: string) {
    forall i :: 0 <= i < |s| ==> s[i] != ','
  }

  /** Splitting yields one piece more than there are commas, and no piece
      holds a comma. */
  lemma {:induction false} SplitShape(s: string)
    ensures |Split(s)| == CommaCount(s) + 1
    ensures forall k :: 0 <= k < |Split(s)| ==> CommaFree(Split(s)[k])
  {
    if s != [] {
      SplitShape(s[1..]);
      if s[0] != ',' {
        var rest := Split(s[1..]);
        assert CommaFree(rest[0]);
        assert CommaFree([s[0]] + rest[0]);
        assert forall k :: 1 <= k < |rest| ==> Split(s)[k] == rest[k];
      }
    }
  }

  /** Joining the pieces with commas gives back the original text. */
  lemma {:induction false} JoinSplit(s: string)
    ensures Join(Split(s)) == s
  {
    if s != [] {
      JoinSplit(s[1..]);
      var rest := Split(s[1..]);
      if s[0] == ',' {
        assert Split(s) == [[]] + rest;
        assert Join(Split(s)) == [] + [','] + Join(rest);
      } else {
        var r := Split(s);
        if |rest| == 1 {
          assert Join(r) == [s[0]] + rest[0];
        } else {
          assert r[1..] == rest[1..];
          assert Join(rest) == rest[0] + [','] + Join(rest[1..]);
          assert Join(r) == ([s[0]] + rest[0]) + [','] + Join(rest[1..]);
        }
      }
    }
  }

  lemma {:induction false} SplitCommaFree(w: string)
    requires CommaFree(w)
    ensures Split(w) == [w]
  {
    if w != [] {
      SplitCommaFree(w[1..]);
      assert [w[0]] + w[1..] == w;
    }
  }

  lemma {:induction false} SplitPrefix(w: string, rest: string)
    requires CommaFree(w)
    ensures Split(w + [','] + rest) == [w] + Split(rest)
  {
    var s := w + [','] + rest;
    if w == [] {
      assert s[1..] == rest;
    } else {
      assert s[1..] == w[1..] + [','] + rest;
      SplitPrefix(w[1..], rest);
      assert [w[0]] + w[1..] == w;
    }
  }

  /** A trailing comma adds one empty piece. */
  lemma {:induction false} SplitAppendComma(s: string)
    ensures Split(s + [',']) == Split(s) + [[]]
  {
    if s == [] {
      assert [] + [','] == [','];
      assert [','][1..] == [];
    } else {
      assert (s + [','])[1..] == s[1..] + [','];
      SplitAppendComma(s[1..]);
    }
  }

  /** A join of several pieces holds a comma, and a join of one non-empty
      piece is that piece; either way it is not empty. */
  lemma JoinNonEmpty(parts: seq<string>)
    requires |parts| >= 2 || (|parts| == 1 && parts[0] != [])
    ensures Join(parts) != []
  {
    if |parts| >= 2 {
      assert Join(parts) == parts[0] + [','] + Join(parts[1..]);
    }
  }

  /** Splitting a comma-joined list of comma-free pieces gives the pieces back. */
  lemma {:induction false} SplitJoin(parts: seq<string>)
    requires |parts| >= 1
    requires forall k :: 0 <= k < |parts| ==> CommaFree(parts[k])
    ensures Split(Join(parts)) == parts
  {
    if |parts| == 1 {
      SplitCommaFree(parts[0]);
    } else {
      SplitJoin(parts[1..]);
      SplitPrefix(parts[0], Join(parts[1..]));
    }
  }

  /** Joining comma-free tokens, other than a single empty one, gives
      non-empty text that splits back into them. */
  lemma JoinThenSplit(toks: seq<string>)
    requires toks != [] && toks != [[]]
    requires forall i :: 0 <= i < |toks| ==> CommaFree(toks[i])
    ensures Join(toks) != [] && Split(Join(toks)) == toks
  {
    if |toks| == 1 {
      assert toks == [toks[0]];
    }
    JoinNonEmpty(toks);
    SplitJoin(toks);
  }

  /** A slice of comma-free text is comma-free; in particular so is a trimmed piece. */
  lemma TrimCommaFree(s: string)
    requires CommaFree(s)
    ensures CommaFree(Trim(s)) && CommaFree(ToLower(Trim(s)))
  {
  }
}
