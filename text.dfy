/** Optional and fallible values shared by every module. */
module Common {
  datatype Option<T> = None | Some(value: T)

  datatype Result<T, E> = Ok(value: T) | Err(error: E)

  /** 16-bit and 32-bit unsigned integers (Rust u16/u32, Go uint16). */
  type U16 = x: int | 0 <= x <= 0xFFFF
  type U32 = x: int | 0 <= x <= 0xFFFF_FFFF

  function Min(a: int, b: int): int { if a <= b then a else b }
  function Max(a: int, b: int): int { if a >= b then a else b }

  /** No element occurs twice. */
  predicate NoDuplicates<T(==)>(s: seq<T>) {
    forall i, j :: 0 <= i < j < |s| ==> s[i] != s[j]
  }

  /** The values of `m` at `keys`, in that order. */
  function ValuesAt<K, V>(m: map<K, V>, keys: seq<K>): (r: seq<V>)
    requires forall k :: 0 <= k < |keys| ==> keys[k] in m
    ensures |r| == |keys|
    ensures forall k :: 0 <= k < |keys| ==> r[k] == m[keys[k]]
    decreases |keys|
  {
    if keys == [] then [] else ValuesAt(m, keys[..|keys| - 1]) + [m[keys[|keys| - 1]]]
  }

  /** `xs.map(f)`, built from the end as a `forEach` pushing `f(x)` would build it. */
  function MapSeq<A, B>(f: A -> B, xs: seq<A>): (r: seq<B>)
    ensures |r| == |xs|
    decreases |xs|
  {
    if xs == [] then [] else MapSeq(f, xs[..|xs| - 1]) + [f(xs[|xs| - 1])]
  }

  /** The k-th mapped element is `f` of the k-th element. */
  lemma {:induction false} MapSeqAt<A, B>(f: A -> B, xs: seq<A>, k: nat)
    requires k < |xs|
    ensures MapSeq(f, xs)[k] == f(xs[k])
    decreases |xs|
  {
    var init := xs[..|xs| - 1];
    if k < |init| {
      MapSeqAt(f, init, k);
      assert xs[k] == init[k];
    }
  }

  /** Mapping one more element appends its image. */
  lemma MapSeqSnoc<A, B>(f: A -> B, xs: seq<A>, i: nat)
    requires i < |xs|
    ensures MapSeq(f, xs[..i + 1]) == MapSeq(f, xs[..i]) + [f(xs[i])]
  {
    assert xs[..i + 1][..i] == xs[..i];
  }

  /** The values `f` gives over `xs`, in order, skipping the elements it gives none for. */
  function Somes<A, B>(f: A -> Option<B>, xs: seq<A>): (r: seq<B>)
    ensures |r| <= |xs|
    decreases |xs|
  {
    if xs == [] then []
    else
      var y := f(xs[|xs| - 1]);
      Somes(f, xs[..|xs| - 1]) + (if y.Some? then [y.value] else [])
  }

  /** Nothing is kept exactly when `f` gives no value for any element. */
  lemma {:induction false} SomesEmpty<A, B>(f: A -> Option<B>, xs: seq<A>)
    ensures (forall k :: 0 <= k < |xs| ==> f(xs[k]).None?) <==> Somes(f, xs) == []
    decreases |xs|
  {
    if xs != [] {
      var init := xs[..|xs| - 1];
      SomesEmpty(f, init);
      assert forall k :: 0 <= k < |init| ==> init[k] == xs[k];
    }
  }

  /** Every element is kept when `f` gives a value for each. */
  lemma {:induction false} SomesAll<A, B>(f: A -> Option<B>, xs: seq<A>)
    requires forall k :: 0 <= k < |xs| ==> f(xs[k]).Some?
    ensures |Somes(f, xs)| == |xs|
    decreases |xs|
  {
    if xs != [] {
      var init := xs[..|xs| - 1];
      assert forall k :: 0 <= k < |init| ==> init[k] == xs[k];
      SomesAll(f, init);
    }
  }

  /** A duplicate-free sequence listing exactly the elements of a set is as long as the set. */
  lemma {:induction false} DistinctSeqSize<T>(xs: seq<T>, s: set<T>)
    requires NoDuplicates(xs) && forall x :: x in xs <==> x in s
    ensures |xs| == |s|
    decreases |xs|
  {
    if xs != [] {
      var last := xs[|xs| - 1];
      var init := xs[..|xs| - 1];
      assert forall x :: x in init <==> x in s - {last} by {
        forall x ensures x in init <==> x in s - {last} {
          if x in init {
            var k :| 0 <= k < |init| && init[k] == x;
            assert xs[k] == x;
          }
          if x in xs && x != last {
            var k :| 0 <= k < |xs| && xs[k] == x;
            assert k < |xs| - 1;
            assert init[k] == x;
          }
        }
      }
      DistinctSeqSize(init, s - {last});
    }
  }

  /** In a duplicate-free sequence every element occurs at most once. */
  lemma {:induction false} NoDuplicatesOnce<T>(s: seq<T>, x: T)
    requires NoDuplicates(s)
    ensures multiset(s)[x] <= 1
    decreases |s|
  {
    if s != [] {
      var init := s[..|s| - 1];
      assert s == init + [s[|s| - 1]];
      NoDuplicatesOnce(init, x);
      assert forall k :: 0 <= k < |init| ==> init[k] == s[k] != s[|s| - 1];
      assert s[|s| - 1] !in init;
    }
  }

  /** A permutation of a duplicate-free sequence is duplicate-free. */
  lemma DistinctPermutation<T>(a: seq<T>, b: seq<T>)
    requires NoDuplicates(a) && multiset(a) == multiset(b)
    ensures NoDuplicates(b)
  {
    forall i, j | 0 <= i < j < |b| ensures b[i] != b[j] {
      NoDuplicatesOnce(a, b[i]);
      RepeatCountsTwice(b, i, j);
    }
  }

  /** Two equal entries make their element occur at least twice. */
  lemma RepeatCountsTwice<T>(s: seq<T>, i: nat, j: nat)
    requires i < j < |s|
    ensures s[i] == s[j] ==> multiset(s)[s[j]] >= 2
  {
    assert s == s[..j] + [s[j]] + s[j + 1..];
    assert s[i] in s[..j];
  }

  /** The smallest position in `p..n` that `hit` accepts, scanning up from `p`. */
  function FirstHit(hit: nat -> bool, p: nat, n: nat): (r: Option<nat>)
    requires p <= n
    ensures r.Some? ==> p <= r.value <= n
    decreases n - p
  {
    if hit(p) then Some(p)
    else if p == n then None
    else FirstHit(hit, p + 1, n)
  }

  lemma {:induction false} FirstHitLeftmost(hit: nat -> bool, p: nat, n: nat)
    requires p <= n
    ensures var r := FirstHit(hit, p, n);
      && (r.Some? ==> p <= r.value <= n && hit(r.value))
      && (r.Some? ==> forall q :: p <= q < r.value ==> !hit(q))
      && (r.None? <==> forall q :: p <= q <= n ==> !hit(q))
    decreases n - p
  {
    if !hit(p) && p < n {
      FirstHitLeftmost(hit, p + 1, n);
    }
  }

  /** The largest position in `lo..q` that `hit` accepts, scanning down from `q`. */
  function LastHit(hit: nat -> bool, lo: nat, q: nat): (r: Option<nat>)
    requires lo <= q
    ensures r.Some? ==> lo <= r.value <= q
    decreases q
  {
    if hit(q) then Some(q)
    else if q == lo then None
    else LastHit(hit, lo, q - 1)
  }

  lemma {:induction false} LastHitRightmost(hit: nat -> bool, lo: nat, q: nat)
    requires lo <= q
    ensures var r := LastHit(hit, lo, q);
      && (r.Some? ==> lo <= r.value <= q && hit(r.value))
      && (r.Some? ==> forall q' :: r.value < q' <= q ==> !hit(q'))
      && (r.None? <==> forall q' :: lo <= q' <= q ==> !hit(q'))
    decreases q
  {
    if !hit(q) && q > lo {
      LastHitRightmost(hit, lo, q - 1);
    }
  }

  predicate SortedDesc<T>(s: seq<T>, key: T -> int) {
    forall i, j :: 0 <= i < j < |s| ==> key(s[i]) >= key(s[j])
  }

  /** Insert `x` before the first element whose key is not larger. */
  function InsertDesc<T>(x: T, s: seq<T>, key: T -> int): (r: seq<T>)
    ensures multiset(r) == multiset(s) + multiset{x}
    decreases |s|
  {
    if s == [] || key(x) >= key(s[0]) then [x] + s
    else
      assert s == [s[0]] + s[1..];
      [s[0]] + InsertDesc(x, s[1..], key)
  }

  /** `sort.Slice` by a key, largest first (the order among equal keys is not fixed by Go). */
  function SortDesc<T>(s: seq<T>, key: T -> int): (r: seq<T>)
    ensures multiset(r) == multiset(s)
    decreases |s|
  {
    if s == [] then []
    else
      assert s == s[..|s| - 1] + [s[|s| - 1]];
      InsertDesc(s[|s| - 1], SortDesc(s[..|s| - 1], key), key)
  }

  lemma {:induction false} InsertDescSorted<T>(x: T, s: seq<T>, key: T -> int)
    requires SortedDesc(s, key)
    ensures SortedDesc(InsertDesc(x, s, key), key)
    decreases |s|
  {
    if s != [] && key(x) < key(s[0]) {
      var rest := InsertDesc(x, s[1..], key);
      InsertDescSorted(x, s[1..], key);
      forall k | 0 <= k < |rest| ensures key(s[0]) >= key(rest[k]) {
        assert rest[k] in multiset(s[1..]) + multiset{x};
        if rest[k] != x {
          var m :| 0 <= m < |s[1..]| && s[1..][m] == rest[k];
          assert s[m + 1] == rest[k];
        }
      }
    }
  }

  lemma {:induction false} SortDescSorted<T>(s: seq<T>, key: T -> int)
    ensures SortedDesc(SortDesc(s, key), key)
    decreases |s|
  {
    if s != [] {
      SortDescSorted(s[..|s| - 1], key);
      InsertDescSorted(s[|s| - 1], SortDesc(s[..|s| - 1], key), key);
    }
  }

  /** Hash-set iteration: the elements of `s`, each once, in some order. */
  method Enumerate<T>(s: set<T>) returns (r: seq<T>)
    ensures NoDuplicates(r) && |r| == |s|
    ensures forall x :: x in r <==> x in s
  {
    r := [];
    var rest := s;
    while rest != {}
      invariant rest <= s
      invariant NoDuplicates(r)
      invariant forall x :: x in r <==> x in s && x !in rest
      invariant |r| + |rest| == |s|
      decreases |rest|
    {
      var x :| x in rest;
      r := r + [x];
      rest := rest - {x};
    }
  }
}

/**
 * Text helpers over `string` (= `seq<char>`).  Case conversion is ASCII-only;
 * the whitespace sets of JavaScript (`trim`, `\s`) and of Rust
 * (`char::is_whitespace`, regex `\s`) are listed separately because they differ.
 */
module Text {
  import opened Common

  predicate IsUpper(c: char) { 'A' <= c <= 'Z' }
  predicate IsLower(c: char) { 'a' <= c <= 'z' }
  predicate IsDigit(c: char) { '0' <= c <= '9' }
  predicate IsAlpha(c: char) { IsUpper(c) || IsLower(c) }
  predicate IsAlnum(c: char) { IsAlpha(c) || IsDigit(c) }

  function LowerChar(c: char): (r: char)
    ensures !IsUpper(r)
    ensures IsUpper(c) ==> r as int == c as int + 32
    ensures !IsUpper(c) ==> r == c
  {
    if IsUpper(c) then (c as int + 32) as char else c
  }

  function UpperChar(c: char): (r: char)
    ensures !IsLower(r)
    ensures IsLower(c) ==> r as int == c as int - 32
    ensures !IsLower(c) ==> r == c
  {
    if IsLower(c) then (c as int - 32) as char else c
  }

  /** `toLowerCase` / `to_lowercase` restricted to ASCII letters. */
  function Lower(s: string): (r: string)
    ensures |r| == |s|
    ensures forall i :: 0 <= i < |s| ==> r[i] == LowerChar(s[i])
  {
    seq(|s|, i requires 0 <= i < |s| => LowerChar(s[i]))
  }

  /** `toUpperCase` restricted to ASCII letters. */
  function Upper(s: string): (r: string)
    ensures |r| == |s|
    ensures forall i :: 0 <= i < |s| ==> r[i] == UpperChar(s[i])
  {
    seq(|s|, i requires 0 <= i < |s| => UpperChar(s[i]))
  }

  lemma LowerAppend(a: string, b: string)
    ensures Lower(a + b) == Lower(a) + Lower(b)
  {
  }

  lemma LowerSlice(s: string, i: nat, j: nat)
    requires i <= j <= |s|
    ensures Lower(s)[i..j] == Lower(s[i..j])
  {
  }

  predicate EndsWith(s: string, suffix: string) {
    |suffix| <= |s| && s[|s| - |suffix|..] == suffix
  }

  /** `t` occurs in `s` starting at index `i`. */
  predicate OccursAt(s: string, t: string, i: nat) {
    i + |t| <= |s| && s[i..i + |t|] == t
  }

  /** Substring test (`includes`, `contains`, `strings.Contains`). */
  predicate Contains(s: string, t: string)
    decreases |s|
  {
    t <= s || (|s| > 0 && Contains(s[1..], t))
  }

  lemma {:induction false} ContainsIff(s: string, t: string)
    ensures Contains(s, t) <==> exists i :: 0 <= i <= |s| && OccursAt(s, t, i)
    decreases |s|
  {
    if t <= s {
      assert OccursAt(s, t, 0);
    } else if |s| == 0 {
      assert forall i :: 0 <= i <= |s| ==> !OccursAt(s, t, i);
    } else {
      ContainsIff(s[1..], t);
      if Contains(s[1..], t) {
        var i :| 0 <= i <= |s[1..]| && OccursAt(s[1..], t, i);
        assert s[i + 1..i + 1 + |t|] == s[1..][i..i + |t|];
        assert OccursAt(s, t, i + 1);
      } else {
        forall i | 0 <= i <= |s| ensures !OccursAt(s, t, i) {
          if i > 0 {
            if OccursAt(s, t, i) {
              assert s[1..][i - 1..i - 1 + |t|] == s[i..i + |t|];
              assert OccursAt(s[1..], t, i - 1);
            }
          }
        }
      }
    }
  }

  lemma ContainsAt(s: string, t: string, i: nat)
    requires OccursAt(s, t, i)
    ensures Contains(s, t)
  {
    ContainsIff(s, t);
  }

  /** Case-insensitive substring test for a lower-case literal. */
  predicate ContainsCI(s: string, lowerLiteral: string) {
    Contains(Lower(s), lowerLiteral)
  }

  function Repeat(c: char, n: nat): (r: string)
    ensures |r| == n
    ensures forall i :: 0 <= i < n ==> r[i] == c
  {
    seq(n, i => c)
  }

  /**
   * `s.split(sep)` of JavaScript, Go and Rust for a one-character separator:
   * always at least one piece, pieces never contain the separator.
   */
  function Split(s: string, sep: char): (r: seq<string>)
    ensures |r| >= 1
    ensures forall k :: 0 <= k < |r| ==> sep !in r[k]
    decreases |s|
  {
    if s == [] then [[]]
    else
      var rest := Split(s[1..], sep);
      if s[0] == sep then [[]] + rest
      else [[s[0]] + rest[0]] + rest[1..]
  }

  /** Inverse of Split: the pieces re-joined with the separator. */
  function Join(parts: seq<string>, sep: string): string
  {
    if |parts| == 0 then []
    else if |parts| == 1 then parts[0]
    else parts[0] + sep + Join(parts[1..], sep)
  }

  lemma {:induction false} SplitJoin(s: string, sep: char)
    ensures Join(Split(s, sep), [sep]) == s
    decreases |s|
  {
    if s != [] {
      SplitJoin(s[1..], sep);
      var rest := Split(s[1..], sep);
      if s[0] == sep {
        assert Split(s, sep) == [[]] + rest;
        assert Join([[]] + rest, [sep]) == [] + [sep] + Join(rest, [sep]);
      } else {
        var r := [[s[0]] + rest[0]] + rest[1..];
        assert Split(s, sep) == r;
        if |rest| == 1 {
          assert Join(r, [sep]) == [s[0]] + rest[0];
        } else {
          assert r[1..] == rest[1..];
          assert Join(rest, [sep]) == rest[0] + [sep] + Join(rest[1..], [sep]);
          assert Join(r, [sep]) == [s[0]] + rest[0] + [sep] + Join(rest[1..], [sep]);
        }
      }
    }
  }

  /** A separator-free prefix is the first piece; the rest is split on. */
  lemma {:induction false} SplitConcat(a: string, sep: char, b: string)
    requires sep !in a
    ensures Split(a + [sep] + b, sep) == [a] + Split(b, sep)
    decreases |a|
  {
    if a == [] {
      assert a + [sep] + b == [sep] + b;
      assert ([sep] + b)[1..] == b;
    } else {
      assert (a + [sep] + b)[1..] == a[1..] + [sep] + b;
      SplitConcat(a[1..], sep, b);
      assert [a[0]] + a[1..] == a;
    }
  }

  lemma {:induction false} SplitNoSep(a: string, sep: char)
    requires sep !in a
    ensures Split(a, sep) == [a]
    decreases |a|
  {
    if a != [] {
      SplitNoSep(a[1..], sep);
      assert [a[0]] + a[1..] == a;
    }
  }

  /** `s.split(',')[0]`: the text before the first comma. */
  function FirstValue(s: string): (r: string)
    ensures r <= s
    ensures ',' !in r
    ensures ',' !in s ==> r == s
  {
    FirstPiece(s, ',')
  }

  function FirstPiece(s: string, sep: char): (r: string)
    ensures r <= s
    ensures sep !in r
    ensures sep !in s ==> r == s
    ensures r == s || s[|r|] == sep
    ensures r == Split(s, sep)[0]
    decreases |s|
  {
    if s == [] then []
    else if s[0] == sep then []
    else [s[0]] + FirstPiece(s[1..], sep)
  }

  /** `Array.prototype.indexOf` on a string for one character. */
  function IndexOf(s: string, c: char): (r: Option<nat>)
    ensures r.None? <==> c !in s
    ensures r.Some? ==> r.value < |s| && s[r.value] == c && c !in s[..r.value]
    decreases |s|
  {
    if s == [] then None
    else if s[0] == c then Some(0)
    else
      match IndexOf(s[1..], c)
      case None => None
      case Some(k) =>
        assert s[..k + 1] == [s[0]] + s[1..][..k];
        Some(k + 1)
  }

  /** `line.split('\t').map(p => p.trim())`: the trimmed tab-separated fields of a capture line. */
  function TrimmedFields(line: string): seq<string> {
    var ps := Split(line, '\t');
    seq(|ps|, k requires 0 <= k < |ps| => TrimJs(ps[k]))
  }

  /** `parts[i]`, with a missing field read as "" (both are falsy in JavaScript). */
  function FieldAt(parts: seq<string>, i: nat): string {
    if i < |parts| then parts[i] else ""
  }

  /** `.filter(Boolean)`: the non-empty strings, in order. */
  function NonEmpty(xs: seq<string>): (r: seq<string>)
    ensures forall x :: x in r <==> x in xs && x != ""
    decreases |xs|
  {
    if xs == [] then []
    else NonEmpty(xs[..|xs| - 1]) + (if xs[|xs| - 1] != "" then [xs[|xs| - 1]] else [])
  }

  /** JavaScript WhiteSpace and LineTerminator code points (`trim`, regex `\s`). */
  predicate IsJsSpace(c: char) {
    ('\t' <= c <= '\r') || c == ' ' || c == '\U{A0}' || c == '\U{1680}'
    || ('\U{2000}' <= c <= '\U{200A}') || c == '\U{2028}' || c == '\U{2029}'
    || c == '\U{202F}' || c == '\U{205F}' || c == '\U{3000}' || c == '\U{FEFF}'
  }

  /** Unicode White_Space (Rust `char::is_whitespace`, Rust regex `\s`). */
  predicate IsRustSpace(c: char) {
    ('\t' <= c <= '\r') || c == ' ' || c == '\U{85}' || c == '\U{A0}' || c == '\U{1680}'
    || ('\U{2000}' <= c <= '\U{200A}') || c == '\U{2028}' || c == '\U{2029}'
    || c == '\U{202F}' || c == '\U{205F}' || c == '\U{3000}'
  }

  function TrimStartBy(s: string, ws: char -> bool): string
    decreases |s|
  {
    if s != [] && ws(s[0]) then TrimStartBy(s[1..], ws) else s
  }

  function TrimEndBy(s: string, ws: char -> bool): string
    decreases |s|
  {
    if s != [] && ws(s[|s| - 1]) then TrimEndBy(s[..|s| - 1], ws) else s
  }

  /** What trimming the start removes: a prefix of `ws` characters, up to one that is not. */
  lemma {:induction false} TrimStartFacts(s: string, ws: char -> bool)
    ensures var r := TrimStartBy(s, ws);
      |r| <= |s| && r == s[|s| - |r|..]
      && (r == [] || !ws(r[0]))
      && forall k :: 0 <= k < |s| - |r| ==> ws(s[k])
    decreases |s|
  {
    if s != [] && ws(s[0]) {
      TrimStartFacts(s[1..], ws);
    }
  }

  /** What trimming the end removes: a suffix of `ws` characters, back to one that is not. */
  lemma {:induction false} TrimEndFacts(s: string, ws: char -> bool)
    ensures var r := TrimEndBy(s, ws);
      r <= s
      && (r == [] || !ws(r[|r| - 1]))
      && forall k :: |r| <= k < |s| ==> ws(s[k])
    decreases |s|
  {
    if s != [] && ws(s[|s| - 1]) {
      TrimEndFacts(s[..|s| - 1], ws);
    }
  }

  /** JavaScript `String.prototype.trim`. */
  function TrimJs(s: string): string {
    TrimEndBy(TrimStartBy(s, IsJsSpace), IsJsSpace)
  }

  /** Rust `str::trim`. */
  function TrimRust(s: string): string {
    TrimEndBy(TrimStartBy(s, IsRustSpace), IsRustSpace)
  }

  /** A text that neither starts nor ends with white space is its own trim. */
  lemma TrimRustKeeps(s: string)
    requires s != [] && !IsRustSpace(s[0]) && !IsRustSpace(s[|s| - 1])
    ensures TrimRust(s) == s
  {
  }

  /** Every occurrence of `c` replaced by `rep`. */
  function ReplaceChar(s: string, c: char, rep: string): (r: string)
    ensures c !in rep ==> c !in r
    ensures forall x :: x in r ==> x in s || x in rep
    ensures forall x :: x in s && x != c ==> x in r
    decreases |s|
  {
    if s == [] then []
    else (if s[0] == c then rep else [s[0]]) + ReplaceChar(s[1..], c, rep)
  }

  /** Decimal rendering of a natural number (`format!("{}")`, template literals). */
  function NatToString(n: nat): (r: string)
    ensures |r| >= 1
    ensures forall k :: 0 <= k < |r| ==> IsDigit(r[k])
    decreases n
  {
    if n < 10 then [DigitChar(n)] else NatToString(n / 10) + [DigitChar(n % 10)]
  }

  function DigitChar(d: nat): (c: char)
    requires d < 10
    ensures IsDigit(c) && c as int - '0' as int == d
  {
    ('0' as int + d) as char
  }

  function DigitOf(c: char): (d: nat)
    requires IsDigit(c)
    ensures d < 10
  {
    c as int - '0' as int
  }

  /** Value of a non-empty string of ASCII digits. */
  function DigitsValue(s: string): (v: nat)
    requires forall k :: 0 <= k < |s| ==> IsDigit(s[k])
    decreases |s|
  {
    if s == [] then 0 else DigitsValue(s[..|s| - 1]) * 10 + DigitOf(s[|s| - 1])
  }

  lemma {:induction false} DigitsValueOfNatToString(n: nat)
    ensures DigitsValue(NatToString(n)) == n
    decreases n
  {
    if n >= 10 {
      DigitsValueOfNatToString(n / 10);
      var s := NatToString(n / 10) + [DigitChar(n % 10)];
      assert s[..|s| - 1] == NatToString(n / 10);
    }
  }

  predicate AllDigits(s: string) {
    forall k :: 0 <= k < |s| ==> IsDigit(s[k])
  }

  /**
   * `str::parse` for an unsigned Rust integer type with maximum `max`: an
   * optional '+', then one or more ASCII digits (leading zeros allowed) whose
   * value does not exceed `max`.
   */
  function ParseUInt(s: string, max: nat): (r: Option<nat>)
    ensures r.Some? ==> r.value <= max
    ensures r.Some? ==> |s| > 0 && (s[0] == '+' || IsDigit(s[0])) && IsDigit(s[|s| - 1])
  {
    var digits := if |s| > 0 && s[0] == '+' then s[1..] else s;
    if |digits| > 0 && AllDigits(digits) && DigitsValue(digits) <= max then Some(DigitsValue(digits)) else None
  }

  lemma ParseUIntRejects(s: string, max: nat)
    ensures ParseUInt("", max) == None && ParseUInt("+", max) == None
    ensures s != [] && !IsDigit(s[0]) && s[0] != '+' ==> ParseUInt(s, max) == None
  {
  }

  /** Decimal rendering and ParseUInt are inverse up to `max`, with or without '+'. */
  lemma ParseUIntOfNatToString(n: nat, max: nat)
    requires n <= max
    ensures ParseUInt(NatToString(n), max) == Some(n)
    ensures ParseUInt("+" + NatToString(n), max) == Some(n)
  {
    DigitsValueOfNatToString(n);
    assert ("+" + NatToString(n))[1..] == NatToString(n);
  }

  /** Length of the maximal run of characters satisfying `p` from index `i`. */
  function Run(s: string, i: nat, p: char -> bool): (n: nat)
    requires i <= |s|
    ensures i + n <= |s|
    ensures forall k :: i <= k < i + n ==> p(s[k])
    ensures i + n < |s| ==> !p(s[i + n])
    decreases |s| - i
  {
    if i < |s| && p(s[i]) then 1 + Run(s, i + 1, p) else 0
  }
}
