/** Failure-compatible wrappers and the handful of `str` operations the
    macro and the CLI rely on (`join`, `split`, `replace`, `trim`,
    `split_whitespace`, decimal formatting), stated over `seq<char>`. */
module Common {

  datatype Option<+T> = None | Some(value: T)

  datatype Result<+T, +E> = Ok(value: T) | Err(error: E)

  // ---------------------------------------------------------------------
  // Characters
  // ---------------------------------------------------------------------

  predicate IsAsciiLower(c: char) { 'a' <= c <= 'z' }
  predicate IsAsciiUpper(c: char) { 'A' <= c <= 'Z' }
  predicate IsAsciiDigit(c: char) { '0' <= c <= '9' }
  predicate IsAsciiAlpha(c: char) { IsAsciiLower(c) || IsAsciiUpper(c) }

  function ToAsciiUpper(c: char): (r: char)
    ensures IsAsciiLower(c) ==> IsAsciiUpper(r) && r as int == c as int - 32
    ensures !IsAsciiLower(c) ==> r == c
  {
    if IsAsciiLower(c) then (c as int - 32) as char else c
  }

  function ToAsciiLower(c: char): (r: char)
    ensures IsAsciiUpper(c) ==> IsAsciiLower(r) && r as int == c as int + 32
    ensures !IsAsciiUpper(c) ==> r == c
  {
    if IsAsciiUpper(c) then (c as int + 32) as char else c
  }

  /** Unicode `White_Space`, which is what Rust's `char::is_whitespace` tests. */
  predicate IsWhitespace(c: char) {
    ('\U{0009}' <= c <= '\U{000D}') || c == '\U{0020}' || c == '\U{0085}' ||
    c == '\U{00A0}' || c == '\U{1680}' || ('\U{2000}' <= c <= '\U{200A}') ||
    c == '\U{2028}' || c == '\U{2029}' || c == '\U{202F}' || c == '\U{205F}' ||
    c == '\U{3000}'
  }

  // ---------------------------------------------------------------------
  // Substrings
  // ---------------------------------------------------------------------

  predicate OccursAt(s: string, p: string, i: int) {
    0 <= i && i + |p| <= |s| && s[i..i + |p|] == p
  }

  /** `str::contains` */
  predicate Contains(s: string, p: string) {
    exists i | 0 <= i <= |s| - |p| :: OccursAt(s, p, i)
  }

  /** `slice.join(sep)` */
  function Join(parts: seq<string>, sep: string): (r: string)
    ensures |parts| == 1 ==> r == parts[0]
    decreases |parts|
  {
    if |parts| == 0 then ""
    else if |parts| == 1 then parts[0]
    else parts[0] + sep + Join(parts[1..], sep)
  }

  /** `str::split(sep)`: the pieces between non-overlapping left-to-right
      occurrences of `sep`; never empty. */
  function Split(s: string, sep: string): (r: seq<string>)
    requires |sep| > 0
    ensures |r| >= 1
    decreases |s|
  {
    if |s| < |sep| then [s]
    else if s[..|sep|] == sep then [""] + Split(s[|sep|..], sep)
    else
      var rest := Split(s[1..], sep);
      [[s[0]] + rest[0]] + rest[1..]
  }

  /** Joining the pieces of a split with the same separator gives the input back. */
  lemma {:induction false} JoinSplit(s: string, sep: string)
    requires |sep| > 0
    ensures Join(Split(s, sep), sep) == s
    decreases |s|
  {
    if |s| < |sep| {
    } else if s[..|sep|] == sep {
      JoinSplit(s[|sep|..], sep);
      var rest := Split(s[|sep|..], sep);
      assert Split(s, sep) == [""] + rest;
      assert s == s[..|sep|] + s[|sep|..];
    } else {
      JoinSplit(s[1..], sep);
      var rest := Split(s[1..], sep);
      var r := Split(s, sep);
      assert r == [[s[0]] + rest[0]] + rest[1..];
      if |rest| == 1 {
        assert Join(r, sep) == [s[0]] + rest[0];
      } else {
        assert r[1..] == rest[1..];
        assert Join(rest, sep) == rest[0] + sep + Join(rest[1..], sep);
      }
      assert s == [s[0]] + s[1..];
    }
  }

  /** A string without the separator's first character splits into
      itself alone. */
  lemma {:induction false} SplitNoSep(s: string, sep: string)
    requires |sep| > 0 && sep[0] !in s
    ensures Split(s, sep) == [s]
    decreases |s|
  {
    if |s| >= |sep| {
      assert s[..|sep|][0] == s[0];
      SplitNoSep(s[1..], sep);
      assert [s[0]] + s[1..] == s;
    }
  }

  /** A prefix without the separator's first character joins the first
      piece of what follows it. */
  lemma {:induction false} SplitFreePrefix(w: string, t: string, sep: string)
    requires |sep| > 0 && sep[0] !in w
    ensures Split(w + t, sep) == [w + Split(t, sep)[0]] + Split(t, sep)[1..]
    decreases |w|
  {
    var rest := Split(t, sep);
    if w == [] {
      assert w + t == t && w + rest[0] == rest[0];
      assert [rest[0]] + rest[1..] == rest;
    } else {
      var s := w + t;
      assert s[0] == w[0];
      SplitFreePrefix(w[1..], t, sep);
      assert s[1..] == w[1..] + t;
      if |s| < |sep| {
        assert |t| < |sep| && rest == [t];
      } else {
        assert s[..|sep|][0] == s[0];
        assert [s[0]] + (w[1..] + rest[0]) == w + rest[0];
      }
    }
  }

  /** Splitting pieces joined by a separator whose first character none of
      them contains gives the pieces back. */
  lemma {:induction false} SplitJoin(parts: seq<string>, sep: string)
    requires |sep| > 0 && |parts| >= 1
    requires forall i :: 0 <= i < |parts| ==> sep[0] !in parts[i]
    ensures Split(Join(parts, sep), sep) == parts
    decreases |parts|
  {
    if |parts| == 1 {
      SplitFreePrefix(parts[0], "", sep);
      assert parts[0] + "" == parts[0];
    } else {
      var tail := Join(parts[1..], sep);
      SplitJoin(parts[1..], sep);
      var s := sep + tail;
      assert s[..|sep|] == sep && s[|sep|..] == tail;
      assert Split(s, sep) == [""] + parts[1..];
      assert Join(parts, sep) == parts[0] + s;
      SplitFreePrefix(parts[0], s, sep);
      assert parts[0] + "" == parts[0];
      assert [parts[0]] + parts[1..] == parts;
    }
  }

  /** A piece of a split never contains the separator's first character
      followed by the rest of it: for a one-character separator, no piece
      contains that character. */
  lemma {:induction false} SplitCharPiecesFree(s: string, c: char)
    ensures forall k :: 0 <= k < |Split(s, [c])| ==> c !in Split(s, [c])[k]
    decreases |s|
  {
    if |s| < 1 {
    } else if s[..1] == [c] {
      SplitCharPiecesFree(s[1..], c);
      assert Split(s, [c]) == [""] + Split(s[1..], [c]);
    } else {
      SplitCharPiecesFree(s[1..], c);
      var rest := Split(s[1..], [c]);
      assert s[0] != c by { assert s[..1] == [s[0]]; }
      assert Split(s, [c]) == [[s[0]] + rest[0]] + rest[1..];
    }
  }

  /** `str::replace(p, r)`: every non-overlapping occurrence of `p`, scanning
      left to right, is replaced by `r`. */
  function Replace(s: string, p: string, r: string): string
    requires |p| > 0
    decreases |s|
  {
    if |s| < |p| then s
    else if s[..|p|] == p then r + Replace(s[|p|..], p, r)
    else [s[0]] + Replace(s[1..], p, r)
  }

  /** Replacing a pattern that does not occur changes nothing. */
  lemma {:induction false} ReplaceAbsent(s: string, p: string, r: string)
    requires |p| > 0 && !Contains(s, p)
    ensures Replace(s, p, r) == s
    decreases |s|
  {
    if |s| < |p| {
    } else {
      assert !OccursAt(s, p, 0);
      assert !Contains(s[1..], p) by {
        forall i | OccursAt(s[1..], p, i) ensures false {
          assert s[1..][i..i + |p|] == s[i + 1..i + 1 + |p|];
          assert OccursAt(s, p, i + 1);
        }
      }
      ReplaceAbsent(s[1..], p, r);
      assert s == [s[0]] + s[1..];
    }
  }

  /** Character-wise substitution: the reference definition for a
      replacement whose pattern is a single character. */
  function SubstChar(s: string, c: char, r: string): string
    decreases |s|
  {
    if s == [] then [] else (if s[0] == c then r else [s[0]]) + SubstChar(s[1..], c, r)
  }

  lemma {:induction false} ReplaceOneChar(s: string, c: char, r: string)
    ensures Replace(s, [c], r) == SubstChar(s, c, r)
    decreases |s|
  {
    if s != [] {
      ReplaceOneChar(s[1..], c, r);
      assert s[..1] == [s[0]];
    }
  }

  lemma {:induction false} SubstCharAppend(a: string, b: string, c: char, r: string)
    ensures SubstChar(a + b, c, r) == SubstChar(a, c, r) + SubstChar(b, c, r)
    decreases |a|
  {
    if a == [] {
      assert a + b == b;
    } else {
      SubstCharAppend(a[1..], b, c, r);
      assert (a + b)[1..] == a[1..] + b;
    }
  }

  /** Substituting a character that does not occur changes nothing. */
  lemma {:induction false} SubstCharAbsent(s: string, c: char, r: string)
    requires c !in s
    ensures SubstChar(s, c, r) == s
    decreases |s|
  {
    if s != [] {
      SubstCharAbsent(s[1..], c, r);
      assert s == [s[0]] + s[1..];
    }
  }

  /** Substituting one character for another keeps the length and changes
      exactly the positions that held the substituted character. */
  lemma {:induction false} SubstCharPointwise(s: string, c: char, d: char)
    ensures |SubstChar(s, c, [d])| == |s|
    ensures forall k :: 0 <= k < |s| ==> SubstChar(s, c, [d])[k] == (if s[k] == c then d else s[k])
    decreases |s|
  {
    if s != [] {
      SubstCharPointwise(s[1..], c, d);
      var t := SubstChar(s[1..], c, [d]);
      assert SubstChar(s, c, [d]) == [if s[0] == c then d else s[0]] + t;
      forall k | 1 <= k < |s| ensures SubstChar(s, c, [d])[k] == (if s[k] == c then d else s[k]) {
        assert s[1..][k - 1] == s[k];
      }
    }
  }

  /** A prefix of the output either meets the start of a replacement text
      or is copied from the input unchanged. */
  lemma {:induction false} ReplaceHead(s: string, p: string, r: string, k: nat)
    requires |p| > 0 && r != [] && k <= |Replace(s, p, r)|
    ensures (k <= |s| && Replace(s, p, r)[..k] == s[..k]) ||
            (exists j :: 0 <= j < k && Replace(s, p, r)[j] == r[0])
    decreases |s|
  {
    var out := Replace(s, p, r);
    if k == 0 || |s| < |p| {
    } else if s[..|p|] == p {
      assert out[0] == r[0];
    } else {
      var t := Replace(s[1..], p, r);
      assert out == [s[0]] + t;
      ReplaceHead(s[1..], p, r, k - 1);
      if exists j :: 0 <= j < k - 1 && t[j] == r[0] {
        var j :| 0 <= j < k - 1 && t[j] == r[0];
        assert out[j + 1] == r[0];
      } else {
        assert out[..k] == [s[0]] + t[..k - 1];
        assert s[..k] == [s[0]] + s[1..][..k - 1];
      }
    }
  }

  /** An occurrence at the very start of the output, when `q` does not hold
      the start of the replacement text, was already in the input. */
  lemma ReplaceKeepsHeadOccurrence(s: string, p: string, r: string, q: string)
    requires |p| > 0 && r != [] && r[0] !in q
    requires OccursAt(Replace(s, p, r), q, 0)
    ensures OccursAt(s, q, 0)
  {
    var out := Replace(s, p, r);
    assert forall j :: 0 <= j < |q| ==> out[j] == q[j];
    ReplaceHead(s, p, r, |q|);
  }

  /** An occurrence lying wholly in the second part of a concatenation is
      an occurrence in that part. */
  lemma OccursInSuffix(a: string, b: string, q: string, i: int)
    requires |a| <= i && OccursAt(a + b, q, i)
    ensures OccursAt(b, q, i - |a|)
  {
    forall k | 0 <= k < |q| ensures b[i - |a| + k] == q[k] {
      assert (a + b)[i..i + |q|][k] == (a + b)[i + k];
    }
  }

  lemma NotContainsSuffix(s: string, n: nat, q: string)
    requires n <= |s| && !Contains(s, q)
    ensures !Contains(s[n..], q)
  {
    forall i | OccursAt(s[n..], q, i) ensures false {
      assert s[n..][i..i + |q|] == s[n + i..n + i + |q|];
      assert OccursAt(s, q, n + i);
    }
  }

  /** Replacing `p` by a text `r` that shares no character with the start of
      `q` (and whose own start is not in `q`) leaves no occurrence of `q`:
      neither the replaced pattern itself (`p == q`) nor a `q` that was
      absent before can be assembled around a replacement. */
  lemma {:induction false} ReplaceLeavesNo(s: string, p: string, r: string, q: string)
    requires |p| > 0 && |q| > 0 && r != []
    requires q[0] !in r && r[0] !in q
    requires p == q || !Contains(s, q)
    ensures !Contains(Replace(s, p, r), q)
    decreases |s|
  {
    if |s| < |p| {
      assert Replace(s, p, r) == s;
    } else if s[..|p|] == p {
      if p != q { NotContainsSuffix(s, |p|, q); }
      ReplaceLeavesNo(s[|p|..], p, r, q);
      ReplaceLeavesNoAfterMatch(s, p, r, q);
    } else {
      if p != q { NotContainsSuffix(s, 1, q); }
      ReplaceLeavesNo(s[1..], p, r, q);
      ReplaceLeavesNoAfterCopy(s, p, r, q);
    }
  }

  /** Inductive step of `ReplaceLeavesNo` where the input starts with `p`. */
  lemma ReplaceLeavesNoAfterMatch(s: string, p: string, r: string, q: string)
    requires |p| > 0 && |q| > 0 && r != [] && q[0] !in r
    requires |s| >= |p| && s[..|p|] == p
    requires !Contains(Replace(s[|p|..], p, r), q)
    ensures !Contains(Replace(s, p, r), q)
  {
    var out := Replace(s, p, r);
    var t := Replace(s[|p|..], p, r);
    assert out == r + t;
    forall i | 0 <= i <= |out| - |q| ensures !OccursAt(out, q, i) {
      if i < |r| {
        assert out[i] == r[i];
        assert out[i] != q[0];
      } else if OccursAt(out, q, i) {
        OccursInSuffix(r, t, q, i);
      }
    }
  }

  /** Inductive step of `ReplaceLeavesNo` where the first character is copied. */
  lemma ReplaceLeavesNoAfterCopy(s: string, p: string, r: string, q: string)
    requires |p| > 0 && |q| > 0 && r != [] && r[0] !in q
    requires |s| >= |p| && s[..|p|] != p
    requires p == q || !Contains(s, q)
    requires !Contains(Replace(s[1..], p, r), q)
    ensures !Contains(Replace(s, p, r), q)
  {
    var out := Replace(s, p, r);
    var t := Replace(s[1..], p, r);
    assert out == [s[0]] + t;
    forall i | 0 <= i <= |out| - |q| ensures !OccursAt(out, q, i) {
      if i == 0 {
        if OccursAt(out, q, 0) {
          ReplaceKeepsHeadOccurrence(s, p, r, q);
        }
        assert !OccursAt(s, q, 0);
      } else if OccursAt(out, q, i) {
        OccursInSuffix([s[0]], t, q, i);
      }
    }
  }

  function Count(s: string, c: char): nat
    decreases |s|
  {
    if s == [] then 0 else (if s[0] == c then 1 else 0) + Count(s[1..], c)
  }

  /** The concatenation of a sequence of sequences, in order. */
  function Flatten<T>(ss: seq<seq<T>>): seq<T>
    decreases |ss|
  {
    if ss == [] then [] else ss[0] + Flatten(ss[1..])
  }

  lemma {:induction false} FlattenAppend<T>(a: seq<seq<T>>, b: seq<seq<T>>)
    ensures Flatten(a + b) == Flatten(a) + Flatten(b)
    decreases |a|
  {
    if a == [] {
      assert a + b == b;
    } else {
      FlattenAppend(a[1..], b);
      assert (a + b)[1..] == a[1..] + b;
    }
  }

  /** The concatenation of `f` applied to each element, in order. */
  function ConcatMap<T, U>(f: T -> seq<U>, xs: seq<T>): seq<U>
    decreases |xs|
  {
    if xs == [] then [] else f(xs[0]) + ConcatMap(f, xs[1..])
  }

  lemma {:induction false} ConcatMapAppend<T, U>(f: T -> seq<U>, a: seq<T>, b: seq<T>)
    ensures ConcatMap(f, a + b) == ConcatMap(f, a) + ConcatMap(f, b)
    decreases |a|
  {
    if a == [] {
      assert a + b == b;
    } else {
      ConcatMapAppend(f, a[1..], b);
      assert (a + b)[0] == a[0];
      assert (a + b)[1..] == a[1..] + b;
    }
  }

  /** An element is in the concatenation exactly when it is in the image
      of some element. */
  lemma {:induction false} ConcatMapMember<T, U>(f: T -> seq<U>, xs: seq<T>, u: U)
    ensures u in ConcatMap(f, xs) <==> exists k :: 0 <= k < |xs| && u in f(xs[k])
    decreases |xs|
  {
    if xs != [] {
      var tail := xs[1..];
      ConcatMapMember(f, tail, u);
      assert ConcatMap(f, xs) == f(xs[0]) + ConcatMap(f, tail);
      if u in ConcatMap(f, xs) {
        if u in f(xs[0]) {
          assert 0 < |xs| && u in f(xs[0]);
        } else {
          var k :| 0 <= k < |tail| && u in f(tail[k]);
          assert tail[k] == xs[k + 1];
          assert 0 <= k + 1 < |xs| && u in f(xs[k + 1]);
        }
      }
      if exists k :: 0 <= k < |xs| && u in f(xs[k]) {
        var k :| 0 <= k < |xs| && u in f(xs[k]);
        if k > 0 {
          assert tail[k - 1] == xs[k];
          assert 0 <= k - 1 < |tail| && u in f(tail[k - 1]);
        }
      }
    }
  }

  lemma ConcatMapMembers<T, U>(f: T -> seq<U>, xs: seq<T>)
    ensures forall u :: u in ConcatMap(f, xs) <==> exists k :: 0 <= k < |xs| && u in f(xs[k])
  {
    forall u ensures u in ConcatMap(f, xs) <==> exists k :: 0 <= k < |xs| && u in f(xs[k]) {
      ConcatMapMember(f, xs, u);
    }
  }

  /** The concatenation of `f` applied to each element, in order, built
      from the back as a loop over a growing prefix builds it. */
  function ConcatMapBack<T, U>(f: T -> seq<U>, xs: seq<T>): seq<U>
    decreases |xs|
  {
    if xs == [] then [] else ConcatMapBack(f, xs[..|xs| - 1]) + f(xs[|xs| - 1])
  }

  lemma {:induction false} ConcatMapBackAll<T, U>(f: T -> seq<U>, xs: seq<T>, p: U -> bool)
    requires forall x, u :: u in f(x) ==> p(u)
    ensures forall u :: u in ConcatMapBack(f, xs) ==> p(u)
    decreases |xs|
  {
    if xs != [] {
      ConcatMapBackAll(f, xs[..|xs| - 1], p);
    }
  }

  /** When `f` yields one element, or none for the elements `drop` picks,
      the result is no longer than the input, and as long exactly when
      nothing is dropped. */
  lemma {:induction false} ConcatMapBackLength<T, U>(f: T -> seq<U>, xs: seq<T>, drop: T -> bool)
    requires forall x :: |f(x)| == if drop(x) then 0 else 1
    ensures |ConcatMapBack(f, xs)| <= |xs|
    ensures |ConcatMapBack(f, xs)| == |xs| <==> forall k :: 0 <= k < |xs| ==> !drop(xs[k])
    decreases |xs|
  {
    if xs != [] {
      var n := |xs| - 1;
      var init := xs[..n];
      ConcatMapBackLength(f, init, drop);
      assert forall k :: 0 <= k < n ==> init[k] == xs[k];
    }
  }

  /** The first present value of `f` over `xs`, in order. */
  function FirstSome<T, U(==)>(xs: seq<T>, f: T -> Option<U>): (r: Option<U>)
    ensures r.None? <==> forall k :: 0 <= k < |xs| ==> f(xs[k]).None?
    ensures r.Some? ==> exists k :: 0 <= k < |xs| && f(xs[k]) == r && forall j :: 0 <= j < k ==> f(xs[j]).None?
    decreases |xs|
  {
    if xs == [] then None
    else if f(xs[0]).Some? then f(xs[0])
    else
      var r := FirstSome(xs[1..], f);
      assert forall k :: 1 <= k < |xs| ==> xs[k] == xs[1..][k - 1];
      if r.Some? then
        var k :| 0 <= k < |xs[1..]| && f(xs[1..][k]) == r && forall j :: 0 <= j < k ==> f(xs[1..][j]).None?;
        assert f(xs[k + 1]) == r;
        r
      else r
  }

  /** The union of `f` over the elements of `xs`. */
  function UnionOf<T, U>(xs: seq<T>, f: T -> set<U>): set<U>
    decreases |xs|
  {
    if xs == [] then {} else UnionOf(xs[..|xs| - 1], f) + f(xs[|xs| - 1])
  }

  lemma {:induction false} UnionOfMembers<T, U>(xs: seq<T>, f: T -> set<U>)
    ensures forall u :: u in UnionOf(xs, f) <==> exists k :: 0 <= k < |xs| && u in f(xs[k])
    decreases |xs|
  {
    if xs != [] {
      var n := |xs| - 1;
      var init := xs[..n];
      UnionOfMembers(init, f);
      assert forall k :: 0 <= k < n ==> init[k] == xs[k];
    }
  }

  /** Flattening one more sequence appends it. */
  lemma FlattenSnoc<T>(ss: seq<seq<T>>, i: nat)
    requires i < |ss|
    ensures Flatten(ss[..i + 1]) == Flatten(ss[..i]) + ss[i]
  {
    assert ss[..i + 1] == ss[..i] + [ss[i]];
    FlattenAppend(ss[..i], [ss[i]]);
    assert Flatten([ss[i]]) == ss[i] + Flatten([]);
  }

  // ---------------------------------------------------------------------
  // Trimming and whitespace splitting
  // ---------------------------------------------------------------------

  function TrimStart(s: string): (r: string)
    ensures |r| <= |s| && r == s[|s| - |r|..]
    ensures r != [] ==> !IsWhitespace(r[0])
    decreases |s|
  {
    if s != [] && IsWhitespace(s[0]) then TrimStart(s[1..]) else s
  }

  function TrimEnd(s: string): (r: string)
    ensures |r| <= |s| && r == s[..|r|]
    ensures r != [] ==> !IsWhitespace(r[|r| - 1])
    decreases |s|
  {
    if s != [] && IsWhitespace(s[|s| - 1]) then TrimEnd(s[..|s| - 1]) else s
  }

  /** `str::trim` */
  function Trim(s: string): (r: string)
    ensures r != [] ==> !IsWhitespace(r[0]) && !IsWhitespace(r[|r| - 1])
  {
    TrimEnd(TrimStart(s))
  }

  /** `str::trim_matches(c)`: strips every leading and trailing `c`. */
  function TrimMatches(s: string, c: char): (r: string)
    ensures r != [] ==> r[0] != c && r[|r| - 1] != c
    decreases |s|
  {
    if s != [] && s[0] == c then TrimMatches(s[1..], c)
    else if s != [] && s[|s| - 1] == c then TrimMatches(s[..|s| - 1], c)
    else s
  }

  /** Length of the leading run of non-whitespace characters. */
  function WordLength(s: string): (n: nat)
    ensures n <= |s|
    ensures forall k :: 0 <= k < n ==> !IsWhitespace(s[k])
    ensures n < |s| ==> IsWhitespace(s[n])
    decreases |s|
  {
    if s == [] || IsWhitespace(s[0]) then 0 else 1 + WordLength(s[1..])
  }

  /** `str::split_whitespace` */
  function SplitWhitespace(s: string): (r: seq<string>)
    decreases |s|
  {
    if s == [] then []
    else if IsWhitespace(s[0]) then SplitWhitespace(s[1..])
    else
      var n := WordLength(s);
      [s[..n]] + SplitWhitespace(s[n..])
  }

  predicate IsWord(w: string) {
    w != [] && forall k :: 0 <= k < |w| ==> !IsWhitespace(w[k])
  }

  /** Every piece that `split_whitespace` yields is a non-empty run of
      non-whitespace characters. */
  lemma {:induction false} SplitWhitespaceWords(s: string)
    ensures forall k :: 0 <= k < |SplitWhitespace(s)| ==> IsWord(SplitWhitespace(s)[k])
    decreases |s|
  {
    if s == [] {
    } else if IsWhitespace(s[0]) {
      SplitWhitespaceWords(s[1..]);
    } else {
      var n := WordLength(s);
      SplitWhitespaceWords(s[n..]);
      assert IsWord(s[..n]);
    }
  }

  /** Splitting a space-joined list of words gives the words back. */
  lemma {:induction false} SplitWhitespaceJoin(ws: seq<string>)
    requires forall k :: 0 <= k < |ws| ==> IsWord(ws[k])
    ensures SplitWhitespace(Join(ws, " ")) == ws
    decreases |ws|
  {
    if |ws| == 0 {
    } else if |ws| == 1 {
      WordLengthOfWord(ws[0], "");
      assert ws[0] + "" == ws[0];
      assert ws[0][|ws[0]|..] == [];
    } else {
      var w := ws[0];
      var rest := Join(ws[1..], " ");
      SplitWhitespaceJoin(ws[1..]);
      var s := w + " " + rest;
      assert Join(ws, " ") == s;
      WordLengthOfWord(w, " " + rest);
      assert s == w + (" " + rest);
      assert s[..|w|] == w;
      assert s[|w|..] == " " + rest;
      assert (" " + rest)[1..] == rest;
      assert SplitWhitespace(s) == [w] + SplitWhitespace(" " + rest);
      assert ws == [w] + ws[1..];
    }
  }

  lemma {:induction false} WordLengthOfWord(w: string, tail: string)
    requires IsWord(w)
    requires tail == [] || IsWhitespace(tail[0])
    ensures WordLength(w + tail) == |w|
    decreases |w|
  {
    if |w| == 1 {
      assert (w + tail)[1..] == tail;
    } else {
      assert IsWord(w[1..]);
      WordLengthOfWord(w[1..], tail);
      assert (w + tail)[1..] == w[1..] + tail;
    }
  }

  // ---------------------------------------------------------------------
  // Decimal formatting
  // ---------------------------------------------------------------------

  function DigitChar(d: nat): (c: char)
    requires d < 10
    ensures IsAsciiDigit(c)
  {
    ('0' as int + d) as char
  }

  /** `{}` formatting of a non-negative integer. */
  function NatToString(n: nat): (r: string)
    ensures |r| >= 1 && forall k :: 0 <= k < |r| ==> IsAsciiDigit(r[k])
    ensures (r[0] == '0') <==> n == 0
    decreases n
  {
    if n < 10 then [DigitChar(n)] else NatToString(n / 10) + [DigitChar(n % 10)]
  }

  /** The value a string of ASCII digits denotes. */
  function DecimalValue(s: string): nat
    requires forall k :: 0 <= k < |s| ==> IsAsciiDigit(s[k])
    decreases |s|
  {
    if s == [] then 0
    else
      assert IsAsciiDigit(s[|s| - 1]);
      DecimalValue(s[..|s| - 1]) * 10 + (s[|s| - 1] as int - '0' as int)
  }

  /** Decimal formatting is faithful: the digits denote the number. */
  lemma {:induction false} NatToStringValue(n: nat)
    ensures DecimalValue(NatToString(n)) == n
    decreases n
  {
    if n >= 10 {
      NatToStringValue(n / 10);
      var r := NatToString(n);
      assert r[..|r| - 1] == NatToString(n / 10);
    }
  }

  /** `{}` formatting of a signed integer. */
  function IntToString(i: int): (r: string)
    ensures i < 0 <==> (r != [] && r[0] == '-')
  {
    if i < 0 then "-" + NatToString(-i) else NatToString(i)
  }
}
