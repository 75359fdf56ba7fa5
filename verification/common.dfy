/** Values and helpers shared by every page of the site: optional values, the
    next-auth session shape, JavaScript's Array.prototype.filter, and the handful
    of String.prototype operations the handlers use (toLowerCase, includes,
    trim, split, join, indexOf). */
module Common {

  datatype Option<T> = None | Some(value: T)

  /** The signed-in user as next-auth exposes it: `session.user?.name`. */
  datatype UserInfo = UserInfo(name: Option<string>)
  datatype Session = Session(user: Option<UserInfo>)

  /** `session?.user?.name`: the name, when there is a session, a user and a name. */
  function SessionName(session: Option<Session>): Option<string>
  {
    if session.Some? && session.value.user.Some? then session.value.user.value.name else None
  }

  // ---------------------------------------------------------------------------
  // Sequences

  function Min(a: int, b: int): int
  {
    if a <= b then a else b
  }

  /** JavaScript's `slice(start, end)` for non-negative bounds: both are
      clamped to the length, and an empty range gives the empty sequence. */
  function Slice<T>(s: seq<T>, start: nat, end: nat): (r: seq<T>)
    ensures start <= end <= |s| ==> r == s[start..end]
    ensures |r| == (if start >= Min(end, |s|) then 0 else Min(end, |s|) - start)
    ensures forall i :: 0 <= i < |r| ==> r[i] == s[start + i]
  {
    var e := Min(end, |s|);
    if start >= e then [] else s[start..e]
  }

  /** JavaScript's `filter`: the elements for which `keep` holds, in order.
      Every kept value survives with all its copies; every dropped value is gone. */
  function Filter<T>(s: seq<T>, keep: T -> bool): (r: seq<T>)
    ensures |r| <= |s|
    ensures forall i :: 0 <= i < |r| ==> r[i] in s && keep(r[i])
    ensures forall i :: 0 <= i < |s| && keep(s[i]) ==> s[i] in r
    ensures multiset(r) <= multiset(s)
    ensures forall i :: 0 <= i < |s| ==> multiset(r)[s[i]] == (if keep(s[i]) then multiset(s)[s[i]] else 0)
  {
    if s == [] then []
    else
      var rest := Filter(s[1..], keep);
      assert forall i :: 1 <= i < |s| && keep(s[i]) ==> s[i] in rest by {
        forall i | 1 <= i < |s| && keep(s[i]) ensures s[i] in rest {
          assert s[i] == s[1..][i - 1];
        }
      }
      FilterStepMembers(s, keep, rest);
      FilterStepCounts(s, keep, rest);
      (if keep(s[0]) then [s[0]] else []) + rest
  }

  /** Filter's counts read for every value: a value absent from the input has
      no copy in the result. */
  lemma FilterCountsAll<T>(s: seq<T>, keep: T -> bool)
    ensures forall x :: multiset(Filter(s, keep))[x] == (if keep(x) then multiset(s)[x] else 0)
  {
    var r := Filter(s, keep);
    forall x ensures multiset(r)[x] == (if keep(x) then multiset(s)[x] else 0) {
      if x in s {
        var i :| 0 <= i < |s| && s[i] == x;
      } else {
        assert multiset(r)[x] <= multiset(s)[x];
      }
    }
  }

  /** One step of the filter's membership argument: the head, if kept, joins
      what the filtered tail keeps. */
  lemma FilterStepMembers<T>(s: seq<T>, keep: T -> bool, rest: seq<T>)
    requires s != []
    requires |rest| <= |s| - 1
    requires forall i :: 0 <= i < |rest| ==> rest[i] in s[1..] && keep(rest[i])
    requires forall i :: 1 <= i < |s| && keep(s[i]) ==> s[i] in rest
    ensures var r := (if keep(s[0]) then [s[0]] else []) + rest;
      && |r| <= |s|
      && (forall i :: 0 <= i < |r| ==> r[i] in s && keep(r[i]))
      && (forall i :: 0 <= i < |s| && keep(s[i]) ==> s[i] in r)
  {
    var r := (if keep(s[0]) then [s[0]] else []) + rest;
    forall i | 0 <= i < |r| ensures r[i] in s && keep(r[i]) {
      if !(keep(s[0]) && i == 0) {
        var k := if keep(s[0]) then i - 1 else i;
        assert r[i] == rest[k];
      }
    }
  }

  /** One step of the filter's counting argument: the head's verdict, added to
      what the filtered tail keeps. */
  lemma FilterStepCounts<T>(s: seq<T>, keep: T -> bool, rest: seq<T>)
    requires s != []
    requires multiset(rest) <= multiset(s[1..])
    requires forall i :: 0 <= i < |s[1..]| ==> multiset(rest)[s[1..][i]] == (if keep(s[1..][i]) then multiset(s[1..])[s[1..][i]] else 0)
    ensures var r := (if keep(s[0]) then [s[0]] else []) + rest;
      && multiset(r) <= multiset(s)
      && forall i :: 0 <= i < |s| ==> multiset(r)[s[i]] == (if keep(s[i]) then multiset(s)[s[i]] else 0)
  {
    var tail := s[1..];
    var r := (if keep(s[0]) then [s[0]] else []) + rest;
    assert s == [s[0]] + tail;
    assert multiset(s) == multiset{s[0]} + multiset(tail);
    assert multiset(r) == multiset(if keep(s[0]) then [s[0]] else []) + multiset(rest);
    forall i | 0 <= i < |s|
      ensures multiset(r)[s[i]] == (if keep(s[i]) then multiset(s)[s[i]] else 0)
    {
      var x := s[i];
      if x in tail {
        var j :| 0 <= j < |tail| && tail[j] == x;
        assert multiset(rest)[x] == (if keep(x) then multiset(tail)[x] else 0);
      } else {
        assert multiset(tail)[x] == 0;
        assert multiset(rest)[x] <= multiset(tail)[x];
      }
    }
  }

  /** A filter and its complement split the list's length between them. */
  lemma {:induction false} FilterPartition<T>(s: seq<T>, keep: T -> bool, drop: T -> bool)
    requires forall x :: drop(x) == !keep(x)
    ensures |Filter(s, keep)| + |Filter(s, drop)| == |s|
  {
    if s != [] {
      FilterPartition(s[1..], keep, drop);
    }
  }

  /** `a` is `b` with some elements left out and the rest kept in order. */
  predicate IsSubsequence<T(==)>(a: seq<T>, b: seq<T>)
    decreases |b|
  {
    a == [] || (b != [] && ((a[0] == b[0] && IsSubsequence(a[1..], b[1..])) || IsSubsequence(a, b[1..])))
  }

  lemma {:induction false} FilterIsSubsequence<T>(s: seq<T>, keep: T -> bool)
    ensures IsSubsequence(Filter(s, keep), s)
  {
    if s != [] {
      FilterIsSubsequence(s[1..], keep);
      var rest := Filter(s[1..], keep);
      if keep(s[0]) {
        assert Filter(s, keep) == [s[0]] + rest;
        assert ([s[0]] + rest)[1..] == rest;
      } else {
        assert Filter(s, keep) == rest;
      }
    }
  }

  /** Every element of a subsequence sits somewhere in the longer sequence. */
  lemma {:induction false} SubsequenceMembers<T>(a: seq<T>, b: seq<T>)
    requires IsSubsequence(a, b)
    ensures forall x :: x in a ==> exists k :: 0 <= k < |b| && b[k] == x
    decreases |b|
  {
    if a != [] {
      if a[0] == b[0] && IsSubsequence(a[1..], b[1..]) {
        SubsequenceMembers(a[1..], b[1..]);
        forall x | x in a ensures exists k :: 0 <= k < |b| && b[k] == x {
          if x == a[0] { assert b[0] == x; } else {
            assert x in a[1..];
            var k :| 0 <= k < |b[1..]| && b[1..][k] == x;
            assert b[k + 1] == x;
          }
        }
      } else {
        SubsequenceMembers(a, b[1..]);
        forall x | x in a ensures exists k :: 0 <= k < |b| && b[k] == x {
          var k :| 0 <= k < |b[1..]| && b[1..][k] == x;
          assert b[k + 1] == x;
        }
      }
    }
  }

  lemma {:induction false} FilterKeepsAll<T>(s: seq<T>, keep: T -> bool)
    requires forall i :: 0 <= i < |s| ==> keep(s[i])
    ensures Filter(s, keep) == s
  {
    if s != [] {
      FilterKeepsAll(s[1..], keep);
    }
  }

  lemma {:induction false} FilterAppend<T>(a: seq<T>, b: seq<T>, keep: T -> bool)
    ensures Filter(a + b, keep) == Filter(a, keep) + Filter(b, keep)
  {
    if a == [] {
      assert a + b == b;
    } else {
      assert (a + b)[1..] == a[1..] + b;
      FilterAppend(a[1..], b, keep);
    }
  }

  // ---------------------------------------------------------------------------
  // Strings

  /** `toLowerCase` on the ASCII letters; every other character is kept. */
  function Lower(s: string): (r: string)
    ensures |r| == |s|
    ensures forall i :: 0 <= i < |s| ==> ('A' <= s[i] <= 'Z' ==> r[i] == (s[i] as int + 32) as char)
    ensures forall i :: 0 <= i < |s| ==> (!('A' <= s[i] <= 'Z') ==> r[i] == s[i])
  {
    if s == [] then ""
    else [if 'A' <= s[0] <= 'Z' then (s[0] as int + 32) as char else s[0]] + Lower(s[1..])
  }

  /** Lower-casing twice is lower-casing once. */
  lemma LowerIdempotent(s: string)
    ensures Lower(Lower(s)) == Lower(s)
  {
    var l := Lower(s);
    assert forall i :: 0 <= i < |l| ==> !('A' <= l[i] <= 'Z');
  }

  /** `sub` occurs in `s` starting at position `i`. */
  predicate OccursAt(s: string, sub: string, i: int)
  {
    0 <= i <= |s| - |sub| && s[i..i + |sub|] == sub
  }

  /** `s.includes(sub)`: `sub` occurs in `s` at some position. */
  predicate Contains(s: string, sub: string)
  {
    exists i :: 0 <= i <= |s| - |sub| && OccursAt(s, sub, i)
  }

  /** `s.indexOf(sub)`: the first position where `sub` occurs, or -1. */
  function IndexOf(s: string, sub: string): (r: int)
    ensures r == -1 || OccursAt(s, sub, r)
    ensures forall j :: OccursAt(s, sub, j) ==> r != -1 && r <= j
    decreases |s|
  {
    if |s| < |sub| then -1
    else if s[..|sub|] == sub then 0
    else
      var k := IndexOf(s[1..], sub);
      assert !OccursAt(s, sub, 0) by { assert s[0..|sub|] == s[..|sub|]; }
      assert forall j :: OccursAt(s, sub, j) && j >= 1 ==> OccursAt(s[1..], sub, j - 1) by {
        forall j | OccursAt(s, sub, j) && j >= 1 ensures OccursAt(s[1..], sub, j - 1) {
          assert s[1..][j - 1..j - 1 + |sub|] == s[j..j + |sub|];
        }
      }
      assert k != -1 ==> OccursAt(s, sub, k + 1) by {
        if k != -1 { assert s[1..][k..k + |sub|] == s[k + 1..k + 1 + |sub|]; }
      }
      if k == -1 then -1 else k + 1
  }

  /** `str.startsWith(prefix)`. */
  predicate StartsWith(s: string, prefix: string)
  {
    |prefix| <= |s| && s[..|prefix|] == prefix
  }

  /** `indexOf` answers -1 exactly when `includes` answers false. */
  lemma IndexOfContains(s: string, sub: string)
    ensures IndexOf(s, sub) == -1 <==> !Contains(s, sub)
  {
    var r := IndexOf(s, sub);
    if r != -1 { assert OccursAt(s, sub, r); }
  }

  /** `str.split(sep)` for a non-empty separator: the pieces between the
      occurrences of `sep`, found left to right. */
  function Split(s: string, sep: string): (parts: seq<string>)
    requires |sep| > 0
    ensures |parts| >= 1
    decreases |s|
  {
    var i := IndexOf(s, sep);
    if i < 0 then [s] else [s[..i]] + Split(s[i + |sep|..], sep)
  }

  /** `parts.join(sep)`; the empty list joins to "". */
  function Join(parts: seq<string>, sep: string): string
  {
    if |parts| == 0 then "" else if |parts| == 1 then parts[0] else parts[0] + sep + Join(parts[1..], sep)
  }

  /** Joining two non-empty lists puts one separator between their joins. */
  lemma {:induction false} JoinAppend(a: seq<string>, b: seq<string>, sep: string)
    requires a != [] && b != []
    ensures Join(a + b, sep) == Join(a, sep) + sep + Join(b, sep)
    decreases |a|
  {
    if |a| == 1 {
      assert (a + b)[1..] == b;
    } else {
      JoinAppend(a[1..], b, sep);
      assert (a + b)[1..] == a[1..] + b;
    }
  }

  /** Splitting loses nothing: joining the pieces back gives the original text. */
  lemma {:induction false} JoinSplit(s: string, sep: string)
    requires |sep| > 0
    ensures Join(Split(s, sep), sep) == s
    decreases |s|
  {
    var i := IndexOf(s, sep);
    if i >= 0 {
      var rest := s[i + |sep|..];
      JoinSplit(rest, sep);
      var tail := Split(rest, sep);
      var head := s[..i];
      assert Split(s, sep) == [head] + tail;
      assert ([head] + tail)[1..] == tail;
      assert Join([head] + tail, sep) == head + sep + Join(tail, sep);
      assert s == head + s[i..i + |sep|] + rest;
    }
  }

  /** When no piece holds the separator's first character, splitting a joined
      list gives the list back. */
  lemma {:induction false} SplitJoin(parts: seq<string>, sep: string)
    requires |sep| > 0 && |parts| >= 1
    requires forall k :: 0 <= k < |parts| ==> sep[0] !in parts[k]
    ensures Split(Join(parts, sep), sep) == parts
    decreases |parts|
  {
    var p := parts[0];
    if |parts| == 1 {
      NoOccurrenceWithout(p, sep);
    } else {
      var rest := Join(parts[1..], sep);
      var s := p + sep + rest;
      assert s[|p|..|p| + |sep|] == sep;
      assert OccursAt(s, sep, |p|);
      FirstOccurrence(s, sep, |p|);
      assert s[..|p|] == p;
      assert s[|p| + |sep|..] == rest;
      SplitJoin(parts[1..], sep);
      assert parts == [p] + parts[1..];
    }
  }

  /** Split on a one-character separator, no piece holds that character. */
  lemma {:induction false} SplitPiecesFree(s: string, sep: string)
    requires |sep| == 1
    ensures forall k :: 0 <= k < |Split(s, sep)| ==> sep[0] !in Split(s, sep)[k]
    decreases |s|
  {
    assert sep == [sep[0]];
    var i := IndexOf(s, sep);
    var stop := if i < 0 then |s| else i;
    forall j | 0 <= j < stop ensures s[j] != sep[0] {
      assert s[j..j + 1] == [s[j]];
      assert s[j] == sep[0] ==> OccursAt(s, sep, j);
    }
    if i >= 0 {
      SplitPiecesFree(s[i + 1..], sep);
      assert Split(s, sep) == [s[..i]] + Split(s[i + 1..], sep);
      assert sep[0] !in s[..i];
    } else {
      assert Split(s, sep) == [s];
    }
  }

  lemma NoOccurrenceWithout(p: string, sep: string)
    requires |sep| > 0 && sep[0] !in p
    ensures IndexOf(p, sep) == -1
  {
    forall j | 0 <= j <= |p| - |sep| ensures !OccursAt(p, sep, j) {
      assert p[j] in p;
      assert p[j..j + |sep|][0] == p[j];
    }
  }

  lemma FirstOccurrence(s: string, sep: string, k: nat)
    requires |sep| > 0 && OccursAt(s, sep, k)
    requires forall j :: 0 <= j < k ==> s[j] != sep[0]
    ensures IndexOf(s, sep) == k
  {
    var r := IndexOf(s, sep);
    assert s[r..r + |sep|][0] == s[r];
  }

  /** JavaScript's `String.prototype.trim` whitespace, restricted to the
      characters a text box can produce in practice. */
  predicate IsSpace(c: char)
  {
    c == ' ' || c == '\t' || c == '\n' || c == '\r' || c == '\U{B}' || c == '\U{C}' || c == '\U{A0}' || c == '\U{FEFF}'
  }

  function TrimStart(s: string): string
  {
    if s != [] && IsSpace(s[0]) then TrimStart(s[1..]) else s
  }

  function TrimEnd(s: string): string
  {
    if s != [] && IsSpace(s[|s| - 1]) then TrimEnd(s[..|s| - 1]) else s
  }

  function Trim(s: string): string
  {
    TrimEnd(TrimStart(s))
  }

  /** Trimming leaves nothing exactly when the text is all whitespace. */
  lemma TrimEmptyIff(s: string)
    ensures Trim(s) == "" <==> forall i :: 0 <= i < |s| ==> IsSpace(s[i])
  {
    TrimStartEmptyIff(s);
    TrimStartIsSuffix(s);
    TrimEndEmptyIff(TrimStart(s));
  }

  lemma {:induction false} TrimStartEmptyIff(s: string)
    ensures TrimStart(s) == "" <==> forall i :: 0 <= i < |s| ==> IsSpace(s[i])
  {
    if s != [] && IsSpace(s[0]) {
      TrimStartEmptyIff(s[1..]);
      assert forall i :: 1 <= i < |s| ==> s[i] == s[1..][i - 1];
    }
  }

  lemma {:induction false} TrimStartIsSuffix(s: string)
    ensures |TrimStart(s)| <= |s| && TrimStart(s) == s[|s| - |TrimStart(s)|..]
    ensures TrimStart(s) != "" ==> !IsSpace(TrimStart(s)[0])
  {
    if s != [] && IsSpace(s[0]) {
      TrimStartIsSuffix(s[1..]);
    }
  }

  lemma {:induction false} TrimEndEmptyIff(s: string)
    ensures TrimEnd(s) == "" <==> forall i :: 0 <= i < |s| ==> IsSpace(s[i])
  {
    if s != [] && IsSpace(s[|s| - 1]) {
      TrimEndEmptyIff(s[..|s| - 1]);
    }
  }

  /** Decimal digits of a natural number, as template literals print it: only
      digits, no leading zero, and reading them back gives the number. */
  function NatToString(n: nat): (r: string)
    ensures r != [] && AllDigits(r)
    ensures DecimalValue(r) == n
    ensures r[0] == '0' ==> r == "0"
  {
    if n < 10 then [DigitChar(n)]
    else
      var front := NatToString(n / 10);
      var r := front + [DigitChar(n % 10)];
      assert r[..|r| - 1] == front;
      r
  }

  predicate IsDigit(c: char)
  {
    '0' <= c <= '9'
  }

  predicate AllDigits(s: string)
  {
    forall i :: 0 <= i < |s| ==> IsDigit(s[i])
  }

  function DigitChar(d: nat): (c: char)
    requires d < 10
    ensures IsDigit(c) && c as int - '0' as int == d
  {
    ('0' as int + d) as char
  }

  /** The number a string of decimal digits denotes, most significant first. */
  function DecimalValue(s: string): nat
    requires AllDigits(s)
  {
    if s == [] then 0 else 10 * DecimalValue(s[..|s| - 1]) + (s[|s| - 1] as int - '0' as int)
  }

  /** A leading digit other than zero makes the value positive. */
  lemma {:induction false} LeadingDigitPositive(s: string)
    requires s != [] && AllDigits(s) && s[0] != '0'
    ensures DecimalValue(s) > 0
    decreases |s|
  {
    if |s| > 1 {
      var front := s[..|s| - 1];
      assert front[0] == s[0];
      LeadingDigitPositive(front);
    }
  }

  /** NatToString is the only way to write a number in decimal without a
      leading zero. */
  lemma {:induction false} NatToStringUnique(s: string, n: nat)
    requires s != [] && AllDigits(s) && (s[0] == '0' ==> s == "0")
    requires DecimalValue(s) == n
    ensures s == NatToString(n)
    decreases |s|
  {
    if |s| > 1 {
      var front := s[..|s| - 1];
      assert front[0] == s[0];
      LeadingDigitPositive(front);
      assert n / 10 == DecimalValue(front) && n % 10 == s[|s| - 1] as int - '0' as int;
      NatToStringUnique(front, n / 10);
      assert s == front + [s[|s| - 1]];
    }
  }
}
