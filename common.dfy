/** Helpers shared by every module: optional values, HTTP-style responses,
    the JavaScript string operations the source relies on (ASCII model), and
    sequence filters, counts and a sort used as a specification. */
module Common {

  datatype Option<+T> = None | Some(value: T) {
    function GetOr(default: T): T {
      match this
      case Some(v) => v
      case None => default
    }
  }

  /** An HTTP reply: a status code with a JSON body, or a status code with
      the `{ error }` message the handlers send. */
  datatype Response<+T> = Ok(code: nat, body: T) | Error(code: nat, message: string)

  // ---------------------------------------------------------------------
  // Strings (JavaScript `toLowerCase`, `trim`, `startsWith`, `includes`)
  // ---------------------------------------------------------------------

  function LowerChar(c: char): char {
    if 'A' <= c <= 'Z' then (c as int + 32) as char else c
  }

  /** `toLowerCase`, restricted to ASCII letters. */
  function Lower(s: string): (r: string)
    ensures |r| == |s|
    ensures forall i :: 0 <= i < |s| ==> r[i] == LowerChar(s[i])
  {
    if s == [] then [] else [LowerChar(s[0])] + Lower(s[1..])
  }

  lemma {:induction false} LowerIdempotent(s: string)
    ensures Lower(Lower(s)) == Lower(s)
  {
    var l := Lower(s);
    assert forall i :: 0 <= i < |s| ==> Lower(l)[i] == l[i];
  }

  /** The characters `trim` removes (the common ASCII and Latin-1 ones). */
  predicate IsSpace(c: char) {
    c == ' ' || c == '\t' || c == '\n' || c == '\r' || c == '\U{000B}' || c == '\U{000C}'
    || c == '\U{00A0}' || c == '\U{1680}' || ('\U{2000}' <= c <= '\U{200A}')
    || c == '\U{2028}' || c == '\U{2029}' || c == '\U{202F}' || c == '\U{205F}'
    || c == '\U{3000}' || c == '\U{FEFF}'
  }

  /** JavaScript's `length` of a string: its UTF-16 code units, two for a
      character outside the Basic Multilingual Plane. */
  function Utf16Length(s: string): (n: nat)
    ensures |s| <= n <= 2 * |s|
    ensures (forall i :: 0 <= i < |s| ==> s[i] < '\U{10000}') ==> n == |s|
  {
    if s == [] then 0
    else (if s[0] >= '\U{10000}' then 2 else 1) + Utf16Length(s[1..])
  }

  function TrimStart(s: string): (r: string)
    ensures |r| <= |s|
    ensures r == [] || !IsSpace(r[0])
  {
    if s != [] && IsSpace(s[0]) then TrimStart(s[1..]) else s
  }

  function TrimEnd(s: string): (r: string)
    ensures |r| <= |s|
    ensures r == [] || !IsSpace(r[|r| - 1])
  {
    if s != [] && IsSpace(s[|s| - 1]) then TrimEnd(s[..|s| - 1]) else s
  }

  /** `TrimStart` drops a prefix: what is left is a suffix of the input. */
  lemma {:induction false} TrimStartIsSuffix(s: string)
    ensures TrimStart(s) == s[|s| - |TrimStart(s)|..]
  {
    if s != [] && IsSpace(s[0]) {
      TrimStartIsSuffix(s[1..]);
      assert s[1..][|s| - 1 - |TrimStart(s[1..])|..] == s[|s| - |TrimStart(s)|..];
    }
  }

  /** `TrimEnd` drops a suffix: what is left is a prefix of the input. */
  lemma {:induction false} TrimEndIsPrefix(s: string)
    ensures TrimEnd(s) == s[..|TrimEnd(s)|]
  {
    if s != [] && IsSpace(s[|s| - 1]) {
      TrimEndIsPrefix(s[..|s| - 1]);
      assert s[..|s| - 1][..|TrimEnd(s)|] == s[..|TrimEnd(s)|];
    }
  }

  /** `trim`: the input without leading and trailing white space. */
  function Trim(s: string): (r: string)
    ensures |r| <= |s|
    ensures r == [] || (!IsSpace(r[0]) && !IsSpace(r[|r| - 1]))
  {
    TrimEndKeepsStart(TrimStart(s));
    TrimEnd(TrimStart(s))
  }

  lemma TrimEndKeepsStart(s: string)
    requires s == [] || !IsSpace(s[0])
    ensures TrimEnd(s) == [] || !IsSpace(TrimEnd(s)[0])
  {
    TrimEndIsPrefix(s);
  }

  /** A string without blanks at either end is its own trim. */
  lemma TrimKeepsUnpadded(s: string)
    requires s != [] && !IsSpace(s[0]) && !IsSpace(s[|s| - 1])
    ensures Trim(s) == s
  {
    assert TrimStart(s) == s;
    assert TrimEnd(s) == s;
  }

  /** A list of strings through the schema's trim setter: `map(s => s.trim())`. */
  function TrimEach(s: seq<string>): (r: seq<string>)
    ensures |r| == |s| && forall i :: 0 <= i < |s| ==> r[i] == Trim(s[i])
  {
    if s == [] then [] else [Trim(s[0])] + TrimEach(s[1..])
  }

  /** Trimming twice is trimming once. */
  lemma {:induction false} TrimIdempotent(s: string)
    ensures Trim(Trim(s)) == Trim(s)
  {
    var t := TrimStart(s);
    TrimEndKeepsStart(t);
    var r := TrimEnd(t);
    assert TrimStart(r) == r;
  }

  predicate StartsWith(s: string, prefix: string) {
    |prefix| <= |s| && s[..|prefix|] == prefix
  }

  /** `includes`: `sub` occurs somewhere in `s`. */
  predicate Contains(s: string, sub: string)
    decreases |s|
  {
    StartsWith(s, sub) || (s != [] && Contains(s[1..], sub))
  }

  /** The empty string occurs in every string, so an empty search term
      keeps everything. */
  lemma ContainsEmpty(s: string)
    ensures Contains(s, "")
  {
    assert StartsWith(s, "");
  }

  /** `includes` is exactly "some suffix starts with `sub`". */
  lemma {:induction false} ContainsAt(s: string, sub: string, k: nat)
    requires k <= |s| && StartsWith(s[k..], sub)
    ensures Contains(s, sub)
    decreases k
  {
    if k == 0 {
      assert s[0..] == s;
    } else {
      assert s[1..][k - 1..] == s[k..];
      ContainsAt(s[1..], sub, k - 1);
    }
  }

  lemma {:induction false} ContainsLength(s: string, sub: string)
    requires Contains(s, sub)
    ensures |sub| <= |s|
    decreases |s|
  {
    if !StartsWith(s, sub) {
      ContainsLength(s[1..], sub);
    }
  }

  // ---------------------------------------------------------------------
  // Sequences
  // ---------------------------------------------------------------------

  predicate NoDup<T(==)>(s: seq<T>) {
    forall i, j :: 0 <= i < j < |s| ==> s[i] != s[j]
  }

  /** `a` is `b` with some elements dropped, order kept. */
  predicate IsSubseq<T(==)>(a: seq<T>, b: seq<T>)
    decreases |b|
  {
    if a == [] then true
    else if b == [] then false
    else (a[0] == b[0] && IsSubseq(a[1..], b[1..])) || IsSubseq(a, b[1..])
  }

  /** `Array.prototype.filter`. */
  function Filter<T>(s: seq<T>, p: T -> bool): (r: seq<T>)
    ensures |r| <= |s|
  {
    if s == [] then [] else (if p(s[0]) then [s[0]] else []) + Filter(s[1..], p)
  }

  /** Filtering keeps exactly the elements that pass the test. */
  lemma {:induction false} FilterMembers<T>(s: seq<T>, p: T -> bool, x: T)
    ensures x in Filter(s, p) <==> x in s && p(x)
  {
    if s != [] {
      FilterMembers(s[1..], p, x);
      assert s == [s[0]] + s[1..];
    }
  }

  lemma {:induction false} FilterEach<T>(s: seq<T>, p: T -> bool)
    ensures forall x :: x in Filter(s, p) ==> x in s && p(x)
    ensures forall x :: x in s && p(x) ==> x in Filter(s, p)
  {
    forall x | x in Filter(s, p) ensures x in s && p(x) {
      FilterMembers(s, p, x);
    }
    forall x | x in s && p(x) ensures x in Filter(s, p) {
      FilterMembers(s, p, x);
    }
  }

  lemma {:induction false} SubseqOfTail<T>(a: seq<T>, b: seq<T>)
    requires b != [] && IsSubseq(a, b[1..])
    ensures IsSubseq(a, b)
  {}

  /** Filtering keeps the survivors in their original order. */
  lemma {:induction false} FilterIsSubseq<T>(s: seq<T>, p: T -> bool)
    ensures IsSubseq(Filter(s, p), s)
  {
    if s != [] {
      FilterIsSubseq(s[1..], p);
      var rest := Filter(s[1..], p);
      if p(s[0]) {
        assert Filter(s, p) == [s[0]] + rest;
        assert ([s[0]] + rest)[1..] == rest;
      } else {
        assert Filter(s, p) == rest;
        SubseqOfTail(rest, s);
      }
    }
  }

  /** Every sequence is a subsequence of itself. */
  lemma {:induction false} SelfIsSubseq<T>(s: seq<T>)
    ensures IsSubseq(s, s)
  {
    if s != [] {
      SelfIsSubseq(s[1..]);
    }
  }

  /** A subsequence of a subsequence is a subsequence. */
  lemma {:induction false} IsSubseqTrans<T>(a: seq<T>, b: seq<T>, c: seq<T>)
    requires IsSubseq(a, b) && IsSubseq(b, c)
    ensures IsSubseq(a, c)
    decreases |c|
  {
    if a != [] {
      if IsSubseq(b, c[1..]) {
        IsSubseqTrans(a, b, c[1..]);
      } else if a[0] == b[0] && IsSubseq(a[1..], b[1..]) {
        IsSubseqTrans(a[1..], b[1..], c[1..]);
      } else {
        IsSubseqTrans(a, b[1..], c[1..]);
      }
    }
  }

  /** A filter that passes everything returns its input. */
  lemma {:induction false} FilterAll<T>(s: seq<T>, p: T -> bool)
    requires forall i :: 0 <= i < |s| ==> p(s[i])
    ensures Filter(s, p) == s
  {
    if s != [] {
      FilterAll(s[1..], p);
      assert s == [s[0]] + s[1..];
    }
  }

  /** Filtering distributes over concatenation. */
  lemma {:induction false} FilterAppend<T>(a: seq<T>, b: seq<T>, p: T -> bool)
    ensures Filter(a + b, p) == Filter(a, p) + Filter(b, p)
  {
    if a != [] {
      FilterAppend(a[1..], b, p);
      assert (a + b)[1..] == a[1..] + b;
    } else {
      assert a + b == b;
    }
  }

  /** `slice(0, n)`: at most the first `n` elements. */
  function Take<T>(s: seq<T>, n: nat): (r: seq<T>)
    ensures |r| == if |s| < n then |s| else n
    ensures forall i :: 0 <= i < |r| ==> r[i] == s[i]
  {
    if |s| <= n then s else s[..n]
  }

  /** `slice(0, 3)`: the dashboards' "recent" lists, the first three
      elements or all of them when there are fewer. */
  function Recent<T>(s: seq<T>): (r: seq<T>)
    ensures |r| == if |s| < 3 then |s| else 3
    ensures r == s[..|r|]
  {
    Take(s, 3)
  }

  /** `find`/`findIndex`: the position of the first element satisfying
      `p`, if any. */
  function FindFirst<T>(s: seq<T>, p: T -> bool): (r: Option<nat>)
    ensures r.Some? ==> r.value < |s| && p(s[r.value])
    ensures r.Some? ==> forall k :: 0 <= k < r.value ==> !p(s[k])
    ensures r.None? ==> forall k :: 0 <= k < |s| ==> !p(s[k])
  {
    if s == [] then None
    else if p(s[0]) then Some(0)
    else match FindFirst(s[1..], p)
      case None => None
      case Some(k) => Some(k + 1)
  }

  /** Two lists on which the tests agree position by position give the same
      first position. */
  lemma {:induction false} FindFirstAgree<T, U>(a: seq<T>, p: T -> bool, b: seq<U>, q: U -> bool)
    requires |a| == |b| && forall i :: 0 <= i < |a| ==> p(a[i]) == q(b[i])
    ensures FindFirst(a, p) == FindFirst(b, q)
  {
    if a != [] {
      FindFirstAgree(a[1..], p, b[1..], q);
    }
  }

  // ---------------------------------------------------------------------
  // Counting by status (`filter(x => x.status === st).length`)
  // ---------------------------------------------------------------------

  function CountStatus<T>(s: seq<T>, status: T -> string, st: string): (n: nat)
    ensures n <= |s|
  {
    if s == [] then 0 else (if status(s[0]) == st then 1 else 0) + CountStatus(s[1..], status, st)
  }

  lemma {:induction false} CountStatusIsFilter<T>(s: seq<T>, status: T -> string, st: string)
    ensures CountStatus(s, status, st) == |Filter(s, x => status(x) == st)|
  {
    if s != [] {
      CountStatusIsFilter(s[1..], status, st);
    }
  }

  /** Counting distributes over concatenation. */
  lemma {:induction false} CountStatusAppend<T>(a: seq<T>, b: seq<T>, status: T -> string, st: string)
    ensures CountStatus(a + b, status, st) == CountStatus(a, status, st) + CountStatus(b, status, st)
    decreases |a|
  {
    if a == [] {
      assert a + b == b;
    } else {
      assert (a + b)[1..] == a[1..] + b;
      CountStatusAppend(a[1..], b, status, st);
    }
  }

  /** Relabelling the entries without changing their statuses keeps every
      count. */
  lemma {:induction false} CountStatusMap<T, U>(s: seq<T>, f: T -> U, status: U -> string,
                                                 before: T -> string, st: string)
    requires forall x :: status(f(x)) == before(x)
    ensures CountStatus(Map(s, f), status, st) == CountStatus(s, before, st)
    decreases |s|
  {
    if s != [] {
      assert Map(s, f)[1..] == Map(s[1..], f);
      CountStatusMap(s[1..], f, status, before, st);
    }
  }

  /** Sum of the counts of several statuses. */
  function SumCounts<T>(s: seq<T>, status: T -> string, sts: seq<string>): nat {
    if sts == [] then 0 else CountStatus(s, status, sts[0]) + SumCounts(s, status, sts[1..])
  }

  /** How many entries of `sts` equal `x`. */
  function Hits(x: string, sts: seq<string>): nat {
    if sts == [] then 0 else (if sts[0] == x then 1 else 0) + Hits(x, sts[1..])
  }

  lemma {:induction false} HitsOfAbsent(x: string, sts: seq<string>)
    requires x !in sts
    ensures Hits(x, sts) == 0
  {
    if sts != [] {
      HitsOfAbsent(x, sts[1..]);
    }
  }

  lemma {:induction false} HitsNoDup(x: string, sts: seq<string>)
    requires NoDup(sts)
    ensures Hits(x, sts) <= 1
  {
    if sts != [] {
      HitsNoDup(x, sts[1..]);
      if sts[0] == x {
        assert x !in sts[1..];
        HitsOfAbsent(x, sts[1..]);
      }
    }
  }

  lemma {:induction false} SumCountsCons<T>(s: seq<T>, status: T -> string, sts: seq<string>)
    requires s != []
    ensures SumCounts(s, status, sts) == Hits(status(s[0]), sts) + SumCounts(s[1..], status, sts)
  {
    if sts != [] {
      SumCountsCons(s, status, sts[1..]);
    }
  }

  /** Counts of distinct statuses never add up to more than the list. When
      some element has a status outside the list, they add up to strictly
      less. */
  lemma {:induction false} SumCountsBound<T>(s: seq<T>, status: T -> string, sts: seq<string>)
    requires NoDup(sts)
    ensures SumCounts(s, status, sts) <= |s|
    ensures (exists i :: 0 <= i < |s| && status(s[i]) !in sts) ==> SumCounts(s, status, sts) < |s|
  {
    if s == [] {
      assert SumCounts(s, status, sts) == 0 by { SumCountsEmpty(s, status, sts); }
    } else {
      SumCountsCons(s, status, sts);
      HitsNoDup(status(s[0]), sts);
      SumCountsBound(s[1..], status, sts);
      if status(s[0]) !in sts {
        HitsOfAbsent(status(s[0]), sts);
      }
      if exists i :: 0 <= i < |s| && status(s[i]) !in sts {
        var i :| 0 <= i < |s| && status(s[i]) !in sts;
        if i > 0 {
          assert s[1..][i - 1] == s[i];
        } else {
          HitsOfAbsent(status(s[0]), sts);
        }
      }
    }
  }

  lemma {:induction false} SumCountsEmpty<T>(s: seq<T>, status: T -> string, sts: seq<string>)
    requires s == []
    ensures SumCounts(s, status, sts) == 0
  {
    if sts != [] {
      SumCountsEmpty(s, status, sts[1..]);
    }
  }

  /** No element has status `st`: its count is zero. */
  lemma {:induction false} CountStatusAbsent<T>(s: seq<T>, status: T -> string, st: string)
    requires forall i :: 0 <= i < |s| ==> status(s[i]) != st
    ensures CountStatus(s, status, st) == 0
  {
    if s != [] {
      CountStatusAbsent(s[1..], status, st);
    }
  }

  // ---------------------------------------------------------------------
  // Sorting newest first (the `.sort({ field: -1 })` of a query), as a
  // specification: the result is the input reordered by descending key.
  // ---------------------------------------------------------------------

  predicate SortedDesc<T>(s: seq<T>, key: T -> int) {
    forall i, j :: 0 <= i < j < |s| ==> key(s[i]) >= key(s[j])
  }

  function Insert<T>(x: T, s: seq<T>, key: T -> int): seq<T> {
    if s == [] || key(x) >= key(s[0]) then [x] + s else [s[0]] + Insert(x, s[1..], key)
  }

  lemma {:induction false} InsertMultiset<T>(x: T, s: seq<T>, key: T -> int)
    ensures multiset(Insert(x, s, key)) == multiset(s) + multiset{x}
  {
    if s != [] && key(x) < key(s[0]) {
      InsertMultiset(x, s[1..], key);
      assert s == [s[0]] + s[1..];
    }
  }

  /** The head of a sorted list is at least every later element. */
  lemma HeadIsMax<T>(s: seq<T>, key: T -> int, y: T)
    requires s != [] && SortedDesc(s, key) && y in multiset(s[1..])
    ensures key(s[0]) >= key(y)
  {
    var j :| 0 <= j < |s[1..]| && s[1..][j] == y;
    assert s[j + 1] == y;
  }

  lemma {:induction false} InsertSorted<T>(x: T, s: seq<T>, key: T -> int)
    requires SortedDesc(s, key)
    ensures SortedDesc(Insert(x, s, key), key)
  {
    if s == [] || key(x) >= key(s[0]) {
      var r := [x] + s;
      assert Insert(x, s, key) == r;
      forall i, j | 0 <= i < j < |r| ensures key(r[i]) >= key(r[j]) {
        assert r[j] == s[j - 1];
        if i == 0 {
          assert key(s[0]) >= key(s[j - 1]);
        } else {
          assert r[i] == s[i - 1];
        }
      }
    } else {
      var tail := s[1..];
      InsertSorted(x, tail, key);
      InsertMultiset(x, tail, key);
      var rest := Insert(x, tail, key);
      var r := [s[0]] + rest;
      assert Insert(x, s, key) == r;
      forall i | 0 <= i < |rest| ensures key(s[0]) >= key(rest[i]) {
        assert rest[i] in multiset(rest);
        if rest[i] != x {
          HeadIsMax(s, key, rest[i]);
        }
      }
      forall i, j | 0 <= i < j < |r| ensures key(r[i]) >= key(r[j]) {
        assert r[j] == rest[j - 1];
        if i > 0 {
          assert r[i] == rest[i - 1];
        }
      }
    }
  }

  /** Insertion sort by descending key. */
  function SortDesc<T>(s: seq<T>, key: T -> int): (r: seq<T>)
    ensures multiset(r) == multiset(s)
    ensures SortedDesc(r, key)
  {
    if s == [] then []
    else
      var rest := SortDesc(s[1..], key);
      InsertMultiset(s[0], rest, key);
      InsertSorted(s[0], rest, key);
      assert s == [s[0]] + s[1..];
      Insert(s[0], rest, key)
  }

  /** `Array.prototype.map`. */
  function Map<T, U>(s: seq<T>, f: T -> U): (r: seq<U>)
    ensures |r| == |s| && forall i :: 0 <= i < |s| ==> r[i] == f(s[i])
  {
    if s == [] then [] else [f(s[0])] + Map(s[1..], f)
  }

  /** Sorting commutes with a map that keeps every key: the order depends
      on the keys alone. */
  lemma {:induction false} InsertMap<T>(x: T, s: seq<T>, key: T -> int, f: T -> T)
    requires forall y :: key(f(y)) == key(y)
    ensures Map(Insert(x, s, key), f) == Insert(f(x), Map(s, f), key)
  {
    if s != [] && key(x) < key(s[0]) {
      InsertMap(x, s[1..], key, f);
      assert Map(s, f)[1..] == Map(s[1..], f);
    }
  }

  lemma {:induction false} SortDescMap<T>(s: seq<T>, key: T -> int, f: T -> T)
    requires forall y :: key(f(y)) == key(y)
    ensures Map(SortDesc(s, key), f) == SortDesc(Map(s, f), key)
  {
    if s != [] {
      SortDescMap(s[1..], key, f);
      InsertMap(s[0], SortDesc(s[1..], key), key, f);
      assert Map(s, f)[1..] == Map(s[1..], f);
    }
  }
}
