/** Shared vocabulary of the model: optional values and results, the
    filter-map that every record decoder of the app is built from, and the
    handful of string operations (Foundation's trimming, case-insensitive
    comparison, `<` on strings, `joined(separator:)`) the screens rely on. */
module Common {

  datatype Option<T> = None | Some(value: T) {
    function GetOr(default: T): T {
      match this
      case Some(v) => v
      case None => default
    }
  }

  /** The outcome of a call that can throw: the value, or the error's message. */
  datatype Result<T> = Ok(value: T) | Err(message: string)

  // ------------------------------------------------------------------
  // compactMap
  // ------------------------------------------------------------------

  /** Swift's `compactMap`: the images of the elements on which `f` is
      defined, in their original order. */
  function FilterMap<A, B>(s: seq<A>, f: A -> Option<B>): (r: seq<B>)
    ensures |r| <= |s|
    decreases |s|
  {
    if s == [] then []
    else (if f(s[0]).Some? then [f(s[0]).value] else []) + FilterMap(s[1..], f)
  }

  /** The index of `s` that the `k`-th kept element comes from. */
  function Origin<A, B>(s: seq<A>, f: A -> Option<B>, k: nat): (i: nat)
    requires k < |FilterMap(s, f)|
    ensures i < |s| && f(s[i]) == Some(FilterMap(s, f)[k])
    decreases |s|
  {
    var rest := FilterMap(s[1..], f);
    if f(s[0]).Some? then
      assert FilterMap(s, f) == [f(s[0]).value] + rest;
      if k == 0 then 0 else 1 + Origin(s[1..], f, k - 1)
    else
      assert FilterMap(s, f) == rest;
      1 + Origin(s[1..], f, k)
  }

  /** Kept elements appear in the order of the elements they come from. */
  lemma {:induction false} OriginMonotone<A, B>(s: seq<A>, f: A -> Option<B>, j: nat, k: nat)
    requires j < k < |FilterMap(s, f)|
    ensures Origin(s, f, j) < Origin(s, f, k)
    decreases |s|
  {
    if !f(s[0]).Some? {
      assert FilterMap(s, f) == FilterMap(s[1..], f);
      OriginMonotone(s[1..], f, j, k);
    } else if j > 0 {
      assert FilterMap(s, f) == [f(s[0]).value] + FilterMap(s[1..], f);
      OriginMonotone(s[1..], f, j - 1, k - 1);
    }
  }

  /** Every element on which `f` is defined contributes its image. */
  lemma {:induction false} FilterMapKeeps<A, B>(s: seq<A>, f: A -> Option<B>, i: nat)
    requires i < |s| && f(s[i]).Some?
    ensures f(s[i]).value in FilterMap(s, f)
    decreases |s|
  {
    if i > 0 {
      FilterMapKeeps(s[1..], f, i - 1);
    }
  }

  /** Decoding a concatenation decodes each part: nothing is reordered. */
  lemma {:induction false} FilterMapAppend<A, B>(a: seq<A>, b: seq<A>, f: A -> Option<B>)
    ensures FilterMap(a + b, f) == FilterMap(a, f) + FilterMap(b, f)
    decreases |a|
  {
    if a != [] {
      assert (a + b)[0] == a[0] && (a + b)[1..] == a[1..] + b;
      FilterMapAppend(a[1..], b, f);
      var head := if f(a[0]).Some? then [f(a[0]).value] else [];
      calc {
        FilterMap(a + b, f);
        head + FilterMap(a[1..] + b, f);
        head + (FilterMap(a[1..], f) + FilterMap(b, f));
        (head + FilterMap(a[1..], f)) + FilterMap(b, f);
      }
    } else {
      assert a + b == b;
    }
  }

  /** A collection with no malformed element loses nothing; one with only
      malformed elements yields nothing. */
  lemma {:induction false} FilterMapCount<A, B>(s: seq<A>, f: A -> Option<B>)
    ensures (forall x :: x in s ==> f(x).Some?) ==> |FilterMap(s, f)| == |s|
    ensures (forall x :: x in s ==> f(x).None?) ==> FilterMap(s, f) == []
    decreases |s|
  {
    if s != [] {
      FilterMapCount(s[1..], f);
    }
  }

  // ------------------------------------------------------------------
  // Foundation's character sets and trimming
  // ------------------------------------------------------------------

  /** The two `CharacterSet`s the app trims with. `whitespaces` is Unicode
      category Zs plus the tab; `whitespacesAndNewlines` adds U+000A to U+000D,
      U+0085, U+2028 and U+2029. */
  datatype CharacterSet = Whitespaces | WhitespacesAndNewlines {
    predicate Contains(c: char) {
      || c == '\t' || c == ' ' || c == '\U{00A0}' || c == '\U{1680}'
      || ('\U{2000}' <= c <= '\U{200A}')
      || c == '\U{202F}' || c == '\U{205F}' || c == '\U{3000}'
      || (WhitespacesAndNewlines? &&
            (('\n' <= c <= '\r') || c == '\U{0085}' || c == '\U{2028}' || c == '\U{2029}'))
    }
  }

  /** The index of the first character at or after `lo` that is not in
      the set, or `|s|`. */
  function FirstKept(s: string, lo: nat, cs: CharacterSet): (i: nat)
    requires lo <= |s|
    ensures lo <= i <= |s|
    ensures forall k :: lo <= k < i ==> cs.Contains(s[k])
    ensures i == |s| || !cs.Contains(s[i])
    decreases |s| - lo
  {
    if lo < |s| && cs.Contains(s[lo]) then FirstKept(s, lo + 1, cs) else lo
  }

  /** The index just after the last character before `hi` (and at or after
      `lo`) that is not in the set, or `lo`. */
  function LastKept(s: string, lo: nat, hi: nat, cs: CharacterSet): (j: nat)
    requires lo <= hi <= |s|
    ensures lo <= j <= hi
    ensures forall k :: j <= k < hi ==> cs.Contains(s[k])
    ensures j == lo || !cs.Contains(s[j - 1])
    decreases hi - lo
  {
    if lo < hi && cs.Contains(s[hi - 1]) then LastKept(s, lo, hi - 1, cs) else hi
  }

  /** `s.trimmingCharacters(in: cs)`: the middle of `s` left once the
      leading and the trailing characters of the set are dropped. It is empty
      exactly when every character of `s` is in the set, and otherwise
      neither starts nor ends with one. */
  function Trimming(s: string, cs: CharacterSet): (r: string)
    ensures |r| <= |s|
    ensures r == "" <==> forall k :: 0 <= k < |s| ==> cs.Contains(s[k])
    ensures r == "" || (!cs.Contains(r[0]) && !cs.Contains(r[|r| - 1]))
  {
    var i := FirstKept(s, 0, cs);
    var j := LastKept(s, i, |s|, cs);
    assert i < |s| ==> i < j;
    s[i..j]
  }

  /** What trimming keeps is a slice of `s` with only set characters before
      and after it: with `Trimming`'s own contract (no set character at either
      end of a non-empty result) exactly the leading and trailing set
      characters are removed. */
  lemma TrimmingKeepsMiddle(s: string, cs: CharacterSet)
    ensures exists i, j :: && 0 <= i <= j <= |s|
                           && Trimming(s, cs) == s[i..j]
                           && (forall k :: 0 <= k < i ==> cs.Contains(s[k]))
                           && (forall k :: j <= k < |s| ==> cs.Contains(s[k]))
  {
    var i := FirstKept(s, 0, cs);
    var j := LastKept(s, i, |s|, cs);
    assert Trimming(s, cs) == s[i..j];
  }

  /** Trimming twice trims nothing more. */
  lemma TrimmingIdempotent(s: string, cs: CharacterSet)
    ensures Trimming(Trimming(s, cs), cs) == Trimming(s, cs)
  {
    var t := Trimming(s, cs);
    if t != "" {
      assert FirstKept(t, 0, cs) == 0;
      assert LastKept(t, 0, |t|, cs) == |t|;
      assert t[0..|t|] == t;
    }
  }

  // ------------------------------------------------------------------
  // Case-insensitive equality (ASCII letters only)
  // ------------------------------------------------------------------

  function LowerAscii(c: char): char {
    if 'A' <= c <= 'Z' then (c as int + 32) as char else c
  }

  /** `a.caseInsensitiveCompare(b) == .orderedSame`, restricted to ASCII case. */
  predicate SameIgnoringCase(a: string, b: string) {
    |a| == |b| && forall i :: 0 <= i < |a| ==> LowerAscii(a[i]) == LowerAscii(b[i])
  }

  // ------------------------------------------------------------------
  // Lexicographic order on strings (Swift's `<` on String)
  // ------------------------------------------------------------------

  /** `a` sorts no later than `b`, comparing character by character. */
  predicate LexLeq(a: string, b: string)
    decreases |a|
  {
    a == [] || (b != [] && (a[0] < b[0] || (a[0] == b[0] && LexLeq(a[1..], b[1..]))))
  }

  /** Swift's `a < b` on strings. */
  predicate LexLess(a: string, b: string) {
    !LexLeq(b, a)
  }

  lemma {:induction false} LexLeqTotal(a: string, b: string)
    ensures LexLeq(a, b) || LexLeq(b, a)
    decreases |a|
  {
    if a != [] && b != [] && a[0] == b[0] {
      LexLeqTotal(a[1..], b[1..]);
    }
  }

  lemma {:induction false} LexLeqAntisymmetric(a: string, b: string)
    requires LexLeq(a, b) && LexLeq(b, a)
    ensures a == b
    decreases |a|
  {
    if a != [] {
      LexLeqAntisymmetric(a[1..], b[1..]);
      assert a == [a[0]] + a[1..] && b == [b[0]] + b[1..];
    }
  }

  lemma {:induction false} LexLeqTransitive(a: string, b: string, c: string)
    requires LexLeq(a, b) && LexLeq(b, c)
    ensures LexLeq(a, c)
    decreases |a|
  {
    if a != [] && a[0] == b[0] && b[0] == c[0] {
      LexLeqTransitive(a[1..], b[1..], c[1..]);
    }
  }

  /** `<` on strings is a strict total order. */
  lemma LexLessStrictTotal(a: string, b: string, c: string)
    ensures !LexLess(a, a)
    ensures a != b ==> LexLess(a, b) || LexLess(b, a)
    ensures LexLess(a, b) && LexLess(b, c) ==> LexLess(a, c)
  {
    LexLeqTotal(a, a);
    LexLeqTotal(a, b);
    if a != b && !LexLess(a, b) && !LexLess(b, a) {
      LexLeqAntisymmetric(a, b);
    }
    if LexLess(a, b) && LexLess(b, c) {
      LexLeqTotal(a, b);
      LexLeqTotal(b, c);
      if LexLeq(c, a) {
        LexLeqTransitive(b, c, a);
      }
    }
  }

  // ------------------------------------------------------------------
  // joined(separator:)
  // ------------------------------------------------------------------

  function TotalLength(xs: seq<string>): nat {
    if xs == [] then 0 else |xs[0]| + TotalLength(xs[1..])
  }

  /** `xs.joined(separator: sep)`. */
  function Join(xs: seq<string>, sep: string): (r: string)
    ensures |xs| == 0 ==> r == ""
    ensures |xs| > 0 ==> |r| == TotalLength(xs) + (|xs| - 1) * |sep|
    ensures |xs| > 0 ==> r[..|xs[0]|] == xs[0]
    ensures |xs| == 1 ==> r == xs[0]
  {
    if |xs| == 0 then ""
    else if |xs| == 1 then xs[0]
    else xs[0] + sep + Join(xs[1..], sep)
  }

  /** Joining one more string appends the separator and that string: with
      the one-string case this fixes the joined text for every list. */
  lemma {:induction false} JoinSnoc(xs: seq<string>, y: string, sep: string)
    requires xs != []
    ensures Join(xs + [y], sep) == Join(xs, sep) + sep + y
    decreases |xs|
  {
    if |xs| == 1 {
      assert (xs + [y])[1..] == [y];
    } else {
      assert (xs + [y])[1..] == xs[1..] + [y];
      JoinSnoc(xs[1..], y, sep);
    }
  }

  lemma {:induction false} TotalLengthSnoc(xs: seq<string>, y: string)
    ensures TotalLength(xs + [y]) == TotalLength(xs) + |y|
  {
    if xs != [] {
      assert (xs + [y])[1..] == xs[1..] + [y];
      TotalLengthSnoc(xs[1..], y);
    }
  }
}
