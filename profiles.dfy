/**
 * Scan profiles: validation of a profile's fields (including the port-range
 * grammar), safe-mode clamping, and the create/get/update/delete/list rules of
 * the profile store.  The store is a directory holding one `<name>.json` file
 * per profile; here it is a map from name to profile.
 */
module Profiles {
  import opened Common
  import opened Text
  import opened Models

  const U32_MAX: nat := 0xFFFF_FFFF

  // ---------------------------------------------------------------------
  // Port-range grammar  ^(\d{1,5}(-\d{1,5})?)(,\s*\d{1,5}(-\d{1,5})?)*$

  /**
   * Length of the item `\d{1,5}(-\d{1,5})?` at the start of `t`; `None` when
   * no item of that shape can be followed by a comma or the end.
   */
  function ItemLen(t: string): (r: Option<nat>)
    ensures r.Some? ==> 0 < r.value <= |t|
  {
    var d := Run(t, 0, IsDigit);
    if d < 1 || d > 5 then None
    else if d < |t| && t[d] == '-' then
      var e := Run(t, d + 1, IsDigit);
      if 1 <= e <= 5 then Some(d + 1 + e) else None
    else Some(d)
  }

  /** The repeated tail `(,\s*item)*$`. */
  predicate PatternRest(t: string)
    decreases |t|
  {
    if t == [] then true
    else if t[0] != ',' then false
    else
      var u := t[1..];
      var x := u[Run(u, 0, IsRustSpace)..];
      match ItemLen(x)
      case None => false
      case Some(n) => PatternRest(x[n..])
  }

  predicate MatchesPortPattern(s: string) {
    match ItemLen(s)
    case None => false
    case Some(n) => PatternRest(s[n..])
  }

  /** `part.parse::<u32>()` succeeds with a port number 1..65535. */
  predicate PartOk(part: string) {
    var v := ParseUInt(part, U32_MAX);
    v.Some? && 1 <= v.value <= 65535
  }

  /** `part.parse().unwrap_or(0)`. */
  function ParsedOrZero(part: string): nat {
    match ParseUInt(part, U32_MAX)
    case Some(v) => v
    case None => 0
  }

  /** One comma-separated segment passes the bounds and order checks. */
  predicate SegmentOk(segment: string) {
    PartsOk(Split(TrimRust(segment), '-'))
  }

  /** Every part is a port number and a two-part range is not reversed. */
  predicate PartsOk(parts: seq<string>) {
    AllPartsOk(parts) && (|parts| == 2 ==> ParsedOrZero(parts[0]) <= ParsedOrZero(parts[1]))
  }

  /** What `validate_port_range` accepts. */
  predicate PortRangeValid(range: string) {
    MatchesPortPattern(range) && AllSegmentsOk(Split(range, ','))
  }

  predicate AllSegmentsOk(segments: seq<string>) {
    forall k :: 0 <= k < |segments| ==> SegmentOk(segments[k])
  }

  predicate AllPartsOk(parts: seq<string>) {
    forall q :: 0 <= q < |parts| ==> PartOk(parts[q])
  }

  method ValidatePortRange(range: string) returns (ok: bool)
    ensures ok == PortRangeValid(range)
  {
    if !MatchesPortPattern(range) {
      return false;
    }
    ok := CheckSegments(Split(range, ','));
  }

  /** The loop over the comma-separated segments, stopping at the first bad one. */
  method CheckSegments(segments: seq<string>) returns (ok: bool)
    ensures ok == AllSegmentsOk(segments)
  {
    var i := 0;
    while i < |segments|
      invariant 0 <= i <= |segments|
      invariant forall k :: 0 <= k < i ==> SegmentOk(segments[k])
    {
      var segmentOk := CheckSegment(segments[i]);
      if !segmentOk {
        return false;
      }
      i := i + 1;
    }
    return true;
  }

  /** One segment: trim, split on '-', parse every part, then compare a range's ends. */
  method CheckSegment(segment: string) returns (ok: bool)
    ensures ok == SegmentOk(segment)
  {
    var parts := Split(TrimRust(segment), '-');
    var partsOk := CheckParts(parts);
    if !partsOk {
      return false;
    }
    if |parts| == 2 {
      var start := match ParseUInt(parts[0], U32_MAX) case Some(v) => v case None => 0;
      var end := match ParseUInt(parts[1], U32_MAX) case Some(v) => v case None => 0;
      if start > end {
        return false;
      }
    }
    return true;
  }

  method CheckParts(parts: seq<string>) returns (ok: bool)
    ensures ok == AllPartsOk(parts)
  {
    var j := 0;
    while j < |parts|
      invariant 0 <= j <= |parts|
      invariant forall q :: 0 <= q < j ==> PartOk(parts[q])
    {
      var port := ParseUInt(parts[j], U32_MAX);
      if port.None? || port.value < 1 || port.value > 65535 {
        return false;
      }
      j := j + 1;
    }
    return true;
  }

  // ---------------------------------------------------------------------
  // Shape of accepted ranges

  /** `x` is `d` or `d-d` with one to five ASCII digits in each `d`. */
  predicate WellFormedItem(x: string) {
    var parts := Split(x, '-');
    |parts| <= 2 && forall q :: 0 <= q < |parts| ==> 1 <= |parts[q]| <= 5 && AllDigits(parts[q])
  }

  /** The run of `p`-characters starting at `i` is exactly `n` long. */
  lemma RunIs(s: string, i: nat, n: nat, p: char -> bool)
    requires i + n <= |s|
    requires forall k :: i <= k < i + n ==> p(s[k])
    requires i + n == |s| || !p(s[i + n])
    ensures Run(s, i, p) == n
  {
  }

  predicate DigitPart(a: string) {
    1 <= |a| <= 5 && AllDigits(a)
  }

  lemma SinglePartItem(a: string)
    requires DigitPart(a)
    ensures WellFormedItem(a) && ',' !in a
  {
    SplitNoSep(a, '-');
  }

  lemma DashPartsItem(a: string, b: string)
    requires DigitPart(a) && DigitPart(b)
    ensures WellFormedItem(a + ['-'] + b) && ',' !in a + ['-'] + b
  {
    SplitConcat(a, '-', b);
    SplitNoSep(b, '-');
  }

  /** The text an item covers is well formed, comma-free, and starts and ends with a digit. */
  lemma ItemShape(t: string)
    requires ItemLen(t).Some?
    ensures var n := ItemLen(t).value;
      WellFormedItem(t[..n]) && ',' !in t[..n] && IsDigit(t[0]) && IsDigit(t[n - 1])
  {
    var n := ItemLen(t).value;
    var d := Run(t, 0, IsDigit);
    if d < |t| && t[d] == '-' {
      var e := Run(t, d + 1, IsDigit);
      assert t[..n] == t[..d] + ['-'] + t[d + 1..n];
      DashPartsItem(t[..d], t[d + 1..n]);
    } else {
      SinglePartItem(t[..d]);
    }
  }

  /** Leading Rust whitespace before an item that starts and ends with a non-space is trimmed away. */
  lemma TrimRustPadded(w: string, x: string)
    requires forall k :: 0 <= k < |w| ==> IsRustSpace(w[k])
    requires x != [] && !IsRustSpace(x[0]) && !IsRustSpace(x[|x| - 1])
    ensures TrimRust(w + x) == x
  {
    var s := w + x;
    var r := TrimStartBy(s, IsRustSpace);
    TrimStartFacts(s, IsRustSpace);
    assert s[|w|] == x[0];
    assert r == x;
  }

  /** Every segment, trimmed, is a well-formed item. */
  predicate AllTrimToItems(segments: seq<string>) {
    forall k :: 0 <= k < |segments| ==> WellFormedItem(TrimRust(segments[k]))
  }

  lemma AllTrimToItemsCons(a: string, rest: seq<string>)
    requires WellFormedItem(TrimRust(a)) && AllTrimToItems(rest)
    ensures AllTrimToItems([a] + rest)
  {
  }

  /** What a non-empty matching tail consists of: a comma, spaces, an item, and again a matching tail. */
  lemma PatternRestParts(t: string)
    requires t != [] && PatternRest(t)
    ensures t[0] == ','
    ensures var u := t[1..]; var x := u[Run(u, 0, IsRustSpace)..];
      ItemLen(x).Some? && PatternRest(x[ItemLen(x).value..])
  {
  }

  /** A well-formed item preceded by Rust whitespace. */
  lemma PaddedItem(w: string, x: string)
    requires forall k :: 0 <= k < |w| ==> IsRustSpace(w[k])
    requires ItemLen(x).Some?
    ensures var item := x[..ItemLen(x).value];
      WellFormedItem(TrimRust(w + item)) && ',' !in w + item
  {
    var item := x[..ItemLen(x).value];
    ItemShape(x);
    TrimRustPadded(w, item);
  }

  /** Every comma-separated segment of a matching tail trims to a well-formed item. */
  lemma {:induction false} SegmentsWellFormed(w: string, x: string)
    requires forall k :: 0 <= k < |w| ==> IsRustSpace(w[k])
    requires ItemLen(x).Some? && PatternRest(x[ItemLen(x).value..])
    ensures AllTrimToItems(Split(w + x, ','))
    decreases |x|
  {
    var n := ItemLen(x).value;
    PaddedItem(w, x);
    if n == |x| {
      assert w + x == w + x[..n];
      SplitNoSep(w + x, ',');
    } else {
      var u := x[n + 1..];
      PatternRestParts(x[n..]);
      assert x[n..][1..] == u;
      var m := Run(u, 0, IsRustSpace);
      SegmentsWellFormed(u[..m], u[m..]);
      SliceJoin(u, m);
      ItemThenRest(w, x, n, u);
      AllTrimToItemsCons(w + x[..n], Split(u, ','));
    }
  }

  lemma SliceJoin(s: string, m: nat)
    requires m <= |s|
    ensures s[..m] + s[m..] == s
  {
  }

  /** Splitting a padded item followed by a comma and more text. */
  lemma ItemThenRest(w: string, x: string, n: nat, u: string)
    requires n < |x| && x[n] == ',' && u == x[n + 1..] && ',' !in w + x[..n]
    ensures Split(w + x, ',') == [w + x[..n]] + Split(u, ',')
  {
    assert w + x == (w + x[..n]) + [','] + u;
    SplitConcat(w + x[..n], ',', u);
  }

  /**
   * Soundness of the validator: in an accepted range every segment is one
   * port or a `lo-hi` pair, every number is within 1..65535, and `lo <= hi`.
   */
  lemma AcceptedRangeShape(range: string)
    requires PortRangeValid(range)
    ensures forall k :: 0 <= k < |Split(range, ',')| ==>
      var parts := Split(TrimRust(Split(range, ',')[k]), '-');
      (|parts| == 1 || |parts| == 2)
      && (forall q :: 0 <= q < |parts| ==> AllDigits(parts[q]) && 1 <= DigitsValue(parts[q]) <= 65535)
      && (|parts| == 2 ==> DigitsValue(parts[0]) <= DigitsValue(parts[1]))
  {
    assert [] + range == range;
    SegmentsWellFormed([], range);
    forall k | 0 <= k < |Split(range, ',')|
      ensures var parts := Split(TrimRust(Split(range, ',')[k]), '-');
        (|parts| == 1 || |parts| == 2)
        && (forall q :: 0 <= q < |parts| ==> AllDigits(parts[q]) && 1 <= DigitsValue(parts[q]) <= 65535)
        && (|parts| == 2 ==> DigitsValue(parts[0]) <= DigitsValue(parts[1]))
    {
      var parts := Split(TrimRust(Split(range, ',')[k]), '-');
      assert SegmentOk(Split(range, ',')[k]);
      forall q | 0 <= q < |parts| ensures ParseUInt(parts[q], U32_MAX).value == DigitsValue(parts[q]) {
        assert PartOk(parts[q]);
      }
    }
  }

  // ---------------------------------------------------------------------
  // Ranges written out from port numbers

  datatype PortSpan = Single(port: nat) | Span(lo: nat, hi: nat)

  predicate SpanOk(sp: PortSpan) {
    match sp
    case Single(p) => 1 <= p <= 65535
    case Span(lo, hi) => 1 <= lo <= hi <= 65535
  }

  function RenderSpan(sp: PortSpan): string {
    match sp
    case Single(p) => NatToString(p)
    case Span(lo, hi) => NatToString(lo) + "-" + NatToString(hi)
  }

  /** The spans written out and joined with commas. */
  function RenderSpans(spans: seq<PortSpan>): string
    requires |spans| >= 1
    decreases |spans|
  {
    if |spans| == 1 then RenderSpan(spans[0])
    else RenderSpan(spans[0]) + "," + RenderSpans(spans[1..])
  }

  function Pow10(k: nat): nat {
    if k == 0 then 1 else 10 * Pow10(k - 1)
  }

  lemma {:induction false} DecimalLength(n: nat, k: nat)
    requires k >= 1 && n < Pow10(k)
    ensures |NatToString(n)| <= k
    decreases k
  {
    if n >= 10 {
      assert k != 1;
      assert n / 10 < Pow10(k - 1);
      DecimalLength(n / 10, k - 1);
    }
  }

  lemma FiveDigits(n: nat)
    requires n <= 65535
    ensures 1 <= |NatToString(n)| <= 5
  {
    assert Pow10(5) == 100000;
    DecimalLength(n, 5);
  }

  lemma RenderSpanChars(sp: PortSpan)
    requires SpanOk(sp)
    ensures var x := RenderSpan(sp); x != [] && IsDigit(x[0]) && IsDigit(x[|x| - 1])
    ensures forall c :: c in RenderSpan(sp) ==> IsDigit(c) || c == '-'
  {
  }

  lemma DigitPartOfPort(n: nat)
    requires 1 <= n <= 65535
    ensures DigitPart(NatToString(n)) && DigitsValue(NatToString(n)) == n
  {
    FiveDigits(n);
    DigitsValueOfNatToString(n);
  }

  lemma ItemLenOne(a: string, r: string)
    requires DigitPart(a) && (r == [] || r[0] == ',')
    ensures ItemLen(a + r) == Some(|a|)
  {
    RunIs(a + r, 0, |a|, IsDigit);
  }

  lemma ItemLenTwo(a: string, b: string, r: string)
    requires DigitPart(a) && DigitPart(b) && (r == [] || r[0] == ',')
    ensures ItemLen(a + ['-'] + b + r) == Some(|a| + 1 + |b|)
  {
    var t := a + ['-'] + b + r;
    RunIs(t, 0, |a|, IsDigit);
    RunIs(t, |a| + 1, |b|, IsDigit);
  }

  lemma ItemLenRendered(sp: PortSpan, r: string)
    requires SpanOk(sp)
    requires r == [] || r[0] == ','
    ensures ItemLen(RenderSpan(sp) + r) == Some(|RenderSpan(sp)|)
  {
    match sp
    case Single(p) =>
      DigitPartOfPort(p);
      ItemLenOne(NatToString(p), r);
    case Span(lo, hi) =>
      DigitPartOfPort(lo);
      DigitPartOfPort(hi);
      ItemLenTwo(NatToString(lo), NatToString(hi), r);
  }

  lemma DropPrefix(x: string, y: string)
    ensures (x + y)[|x|..] == y
  {
  }

  /** A comma followed by an item and a matching tail is a matching tail. */
  lemma PatternRestComma(rest: string)
    requires ItemLen(rest).Some? && PatternRest(rest[ItemLen(rest).value..])
    ensures PatternRest([','] + rest)
  {
    DropPrefix([','], rest);
    RunIs(rest, 0, 0, IsRustSpace);
    assert rest[0..] == rest;
  }

  lemma RenderedAlone(sp: PortSpan)
    requires SpanOk(sp)
    ensures ItemLen(RenderSpan(sp)) == Some(|RenderSpan(sp)|)
    ensures PatternRest(RenderSpan(sp)[|RenderSpan(sp)|..])
  {
    var x := RenderSpan(sp);
    ItemLenRendered(sp, []);
    assert x + [] == x;
    DropPrefix(x, []);
  }

  lemma RenderedBeforeComma(sp: PortSpan, rest: string)
    requires SpanOk(sp)
    requires ItemLen(rest).Some? && PatternRest(rest[ItemLen(rest).value..])
    ensures ItemLen(RenderSpan(sp) + ([','] + rest)) == Some(|RenderSpan(sp)|)
    ensures PatternRest((RenderSpan(sp) + ([','] + rest))[|RenderSpan(sp)|..])
  {
    PatternRestComma(rest);
    ItemLenRendered(sp, [','] + rest);
    DropPrefix(RenderSpan(sp), [','] + rest);
  }

  lemma {:induction false} PatternOfRendered(spans: seq<PortSpan>)
    requires |spans| >= 1 && forall k :: 0 <= k < |spans| ==> SpanOk(spans[k])
    ensures ItemLen(RenderSpans(spans)) == Some(|RenderSpan(spans[0])|)
    ensures PatternRest(RenderSpans(spans)[|RenderSpan(spans[0])|..])
    decreases |spans|
  {
    if |spans| == 1 {
      RenderedAlone(spans[0]);
    } else {
      PatternOfRendered(spans[1..]);
      RenderedBeforeComma(spans[0], RenderSpans(spans[1..]));
      assert RenderSpans(spans) == RenderSpan(spans[0]) + ([','] + RenderSpans(spans[1..]));
    }
  }

  lemma {:induction false} SplitRendered(spans: seq<PortSpan>)
    requires |spans| >= 1 && forall k :: 0 <= k < |spans| ==> SpanOk(spans[k])
    ensures |Split(RenderSpans(spans), ',')| == |spans|
    ensures forall k :: 0 <= k < |spans| ==> Split(RenderSpans(spans), ',')[k] == RenderSpan(spans[k])
    decreases |spans|
  {
    RenderSpanChars(spans[0]);
    if |spans| == 1 {
      SplitNoSep(RenderSpan(spans[0]), ',');
    } else {
      SplitRendered(spans[1..]);
      SplitConcat(RenderSpan(spans[0]), ',', RenderSpans(spans[1..]));
    }
  }

  /** `parse::<u32>` of one to five digits is their value. */
  lemma ParseDigits(a: string)
    requires DigitPart(a) && DigitsValue(a) <= 65535
    ensures ParseUInt(a, U32_MAX) == Some(DigitsValue(a))
  {
  }

  lemma PartsOkOne(a: string)
    requires DigitPart(a) && 1 <= DigitsValue(a) <= 65535
    ensures PartsOk([a])
  {
    ParseDigits(a);
  }

  lemma PartsOkTwo(a: string, b: string)
    requires DigitPart(a) && DigitPart(b)
    requires 1 <= DigitsValue(a) <= DigitsValue(b) <= 65535
    ensures PartsOk([a] + [b])
  {
    ParseDigits(a);
    ParseDigits(b);
    assert [a] + [b] == [a, b];
  }

  lemma SegmentOkFrom(x: string, parts: seq<string>)
    requires TrimRust(x) == x && Split(x, '-') == parts && PartsOk(parts)
    ensures SegmentOk(x)
  {
  }

  lemma SegmentOkOne(a: string)
    requires DigitPart(a) && 1 <= DigitsValue(a) <= 65535
    ensures SegmentOk(a)
  {
    assert TrimRust(a) == a by {
      assert [] + a == a;
      TrimRustPadded([], a);
    }
    assert Split(a, '-') == [a] by {
      SplitNoSep(a, '-');
    }
    assert PartsOk([a]) by {
      PartsOkOne(a);
    }
    SegmentOkFrom(a, [a]);
  }

  lemma SegmentOkTwo(a: string, b: string)
    requires DigitPart(a) && DigitPart(b)
    requires 1 <= DigitsValue(a) <= DigitsValue(b) <= 65535
    ensures SegmentOk(a + ['-'] + b)
  {
    var x := a + ['-'] + b;
    assert TrimRust(x) == x by {
      assert [] + x == x;
      TrimRustPadded([], x);
    }
    assert Split(x, '-') == [a] + [b] by {
      SplitConcat(a, '-', b);
      SplitNoSep(b, '-');
    }
    assert PartsOk([a] + [b]) by {
      PartsOkTwo(a, b);
    }
    SegmentOkFrom(x, [a] + [b]);
  }

  lemma SegmentOfRendered(sp: PortSpan)
    requires SpanOk(sp)
    ensures SegmentOk(RenderSpan(sp))
  {
    match sp
    case Single(p) =>
      DigitPartOfPort(p);
      SegmentOkOne(NatToString(p));
    case Span(lo, hi) =>
      DigitPartOfPort(lo);
      DigitPartOfPort(hi);
      SegmentOkTwo(NatToString(lo), NatToString(hi));
  }

  /** Completeness: any list of valid ports and ranges, written out, is accepted. */
  lemma RenderedRangesAccepted(spans: seq<PortSpan>)
    requires |spans| >= 1 && forall k :: 0 <= k < |spans| ==> SpanOk(spans[k])
    ensures PortRangeValid(RenderSpans(spans))
  {
    PatternOfRendered(spans);
    SplitRendered(spans);
    forall k | 0 <= k < |spans| ensures SegmentOk(Split(RenderSpans(spans), ',')[k]) {
      SegmentOfRendered(spans[k]);
    }
  }

  // ---------------------------------------------------------------------
  // Profile validation

  const MSG_NAME_EMPTY := "Name cannot be empty"
  const MSG_NAME_LONG := "Name must be 64 characters or less"
  const MSG_NAME_PATTERN :=
    "Name must start with alphanumeric and contain only alphanumeric, hyphens, underscores, and spaces"
  const MSG_PORTS_EMPTY := "Port range cannot be empty"
  const MSG_PORTS_FORMAT :=
    "Invalid port range format. Use: single port (80), range (1-1024), or comma-separated (21,22,80,443)"
  const MSG_TIMEOUT := "Timeout must be between 100 and 60000 milliseconds"
  const MSG_CHUNK := "Chunk size must be between 1 and 500"

  /** Bytes of the UTF-8 encoding of one character. */
  function Utf8Width(c: char): nat {
    if c as int < 0x80 then 1
    else if c as int < 0x800 then 2
    else if c as int < 0x10000 then 3
    else 4
  }

  /** Rust `str::len`: the UTF-8 byte length. */
  function Utf8Len(s: string): (n: nat)
    ensures n >= |s|
    decreases |s|
  {
    if s == [] then 0 else Utf8Width(s[0]) + Utf8Len(s[1..])
  }

  predicate NameCharOk(c: char) {
    IsAlnum(c) || c == '-' || c == '_' || c == ' '
  }

  /** `^[a-zA-Z0-9][a-zA-Z0-9\-_ ]*$` */
  predicate NamePatternOk(name: string) {
    |name| >= 1 && IsAlnum(name[0]) && forall k :: 1 <= k < |name| ==> NameCharOk(name[k])
  }

  predicate TimeoutOk(t: int) { 100 <= t <= 60000 }

  predicate ChunkSizeOk(c: int) { 1 <= c <= 500 }

  /** A profile `validate` accepts, rule by rule. */
  predicate ProfileValid(p: Profile) {
    NamePatternOk(p.name) && Utf8Len(p.name) <= 64
    && PortRangeValid(p.portRange)
    && TimeoutOk(p.timeout) && ChunkSizeOk(p.chunkSize)
  }

  function NameError(name: string): Option<string> {
    if |name| == 0 then Some(MSG_NAME_EMPTY)
    else if Utf8Len(name) > 64 then Some(MSG_NAME_LONG)
    else if !NamePatternOk(name) then Some(MSG_NAME_PATTERN)
    else None
  }

  function PortRangeError(range: string): Option<string> {
    if |range| == 0 then Some(MSG_PORTS_EMPTY)
    else if !PortRangeValid(range) then Some(MSG_PORTS_FORMAT)
    else None
  }

  function OptionToSeq(o: Option<string>): seq<string> {
    match o
    case None => []
    case Some(m) => [m]
  }

  /** The messages `validate` collects, in the order of its checks. */
  function ValidationErrors(p: Profile): seq<string> {
    OptionToSeq(NameError(p.name)) + OptionToSeq(PortRangeError(p.portRange))
    + (if TimeoutOk(p.timeout) then [] else [MSG_TIMEOUT])
    + (if ChunkSizeOk(p.chunkSize) then [] else [MSG_CHUNK])
  }

  function InvalidProfile(p: Profile): EngineError {
    EngineError(ERR_INVALID_PARAMS, Join(ValidationErrors(p), "; "))
  }

  lemma EmptyRangeRejected()
    ensures !PortRangeValid("")
  {
  }

  lemma NoMessagesIffValid(p: Profile)
    ensures ValidationErrors(p) == [] <==> ProfileValid(p)
  {
    EmptyRangeRejected();
  }

  /** The seven messages are pairwise different, so each names one rule. */
  lemma MessagesDistinct()
    ensures NoDuplicates([MSG_NAME_EMPTY, MSG_NAME_LONG, MSG_NAME_PATTERN,
      MSG_PORTS_EMPTY, MSG_PORTS_FORMAT, MSG_TIMEOUT, MSG_CHUNK])
  {
  }

  /** Exactly one name message when the name is bad, telling which rule it breaks. */
  lemma NameMessages(p: Profile)
    ensures MSG_NAME_EMPTY in ValidationErrors(p) <==> p.name == []
    ensures MSG_NAME_LONG in ValidationErrors(p) <==> p.name != [] && Utf8Len(p.name) > 64
    ensures MSG_NAME_PATTERN in ValidationErrors(p) <==>
      p.name != [] && Utf8Len(p.name) <= 64 && !NamePatternOk(p.name)
  {
    MessagesDistinct();
  }

  /** One port-range message when the range is bad: empty, or not accepted. */
  lemma RangeMessages(p: Profile)
    ensures MSG_PORTS_EMPTY in ValidationErrors(p) <==> p.portRange == []
    ensures MSG_PORTS_FORMAT in ValidationErrors(p) <==> p.portRange != [] && !PortRangeValid(p.portRange)
  {
    MessagesDistinct();
  }

  /** The timeout and chunk-size messages, and at most four messages in all. */
  lemma BoundMessages(p: Profile)
    ensures MSG_TIMEOUT in ValidationErrors(p) <==> !TimeoutOk(p.timeout)
    ensures MSG_CHUNK in ValidationErrors(p) <==> !ChunkSizeOk(p.chunkSize)
    ensures |ValidationErrors(p)| <= 4
  {
    MessagesDistinct();
  }

  /** `validate`: `Ok` with no messages, or `ERR_INVALID_PARAMS` with the messages joined by "; ". */
  method Validate(p: Profile) returns (r: Result<seq<string>, EngineError>)
    ensures r.Ok? <==> ProfileValid(p)
    ensures r.Ok? ==> r.value == []
    ensures r.Err? ==> r.error == InvalidProfile(p)
  {
    var errors: seq<string> := [];
    if |p.name| == 0 {
      errors := errors + [MSG_NAME_EMPTY];
    } else if Utf8Len(p.name) > 64 {
      errors := errors + [MSG_NAME_LONG];
    } else if !NamePatternOk(p.name) {
      errors := errors + [MSG_NAME_PATTERN];
    }
    assert errors == OptionToSeq(NameError(p.name));
    ghost var before := errors;
    if |p.portRange| == 0 {
      errors := errors + [MSG_PORTS_EMPTY];
    } else {
      var ok := ValidatePortRange(p.portRange);
      if !ok {
        errors := errors + [MSG_PORTS_FORMAT];
      }
    }
    assert errors == before + OptionToSeq(PortRangeError(p.portRange));
    before := errors;
    if p.timeout < 100 || p.timeout > 60000 {
      errors := errors + [MSG_TIMEOUT];
    }
    assert errors == before + (if TimeoutOk(p.timeout) then [] else [MSG_TIMEOUT]);
    before := errors;
    if p.chunkSize < 1 || p.chunkSize > 500 {
      errors := errors + [MSG_CHUNK];
    }
    assert errors == before + (if ChunkSizeOk(p.chunkSize) then [] else [MSG_CHUNK]);
    assert errors == ValidationErrors(p);
    NoMessagesIffValid(p);
    if errors != [] {
      return Err(EngineError(ERR_INVALID_PARAMS, Join(errors, "; ")));
    }
    return Ok(errors);
  }

  // ---------------------------------------------------------------------
  // Safe mode

  /** `enforce_safe_mode`: chunk size at most 50, timeout at least 1000, no security audit. */
  function EnforceSafeMode(p: Profile): (r: Profile)
    ensures r.chunkSize <= 50 && r.timeout >= 1000 && !r.securityAudit
    ensures p.chunkSize <= 50 ==> r.chunkSize == p.chunkSize
    ensures p.timeout >= 1000 ==> r.timeout == p.timeout
    ensures r.(chunkSize := p.chunkSize, timeout := p.timeout, securityAudit := p.securityAudit) == p
  {
    p.(chunkSize := if p.chunkSize > 50 then 50 else p.chunkSize,
       timeout := if p.timeout < 1000 then 1000 else p.timeout,
       securityAudit := false)
  }

  lemma SafeModeIdempotent(p: Profile)
    ensures EnforceSafeMode(EnforceSafeMode(p)) == EnforceSafeMode(p)
  {
  }

  /** Clamping never makes a valid profile invalid. */
  lemma SafeModeKeepsValid(p: Profile)
    requires ProfileValid(p)
    ensures ProfileValid(EnforceSafeMode(p))
  {
  }

  /** The profile as written to the store. */
  function AsStored(p: Profile): Profile {
    if p.safeMode then EnforceSafeMode(p) else p
  }

  // ---------------------------------------------------------------------
  // The store

  type Store = map<string, Profile>

  /** The result of an operation together with the store it leaves behind. */
  datatype Outcome<T> = Outcome(result: Result<T, EngineError>, store: Store)

  function NotFound(name: string): EngineError {
    EngineError(ERR_PROFILE_NOT_FOUND, "Profile '" + name + "' not found")
  }

  function AlreadyExists(name: string): EngineError {
    EngineError(ERR_INVALID_PARAMS, "Profile '" + name + "' already exists")
  }

  /** Every file holds a valid profile whose name is its file name. */
  predicate StoreValid(store: Store) {
    forall n :: n in store ==> store[n].name == n && ProfileValid(store[n])
  }

  function GetOutcome(store: Store, name: string): (r: Result<Profile, EngineError>)
    ensures r.Ok? <==> name in store
    ensures r.Ok? ==> r.value == store[name]
    ensures r.Err? ==> r.error == NotFound(name) && r.error.code == ERR_PROFILE_NOT_FOUND
  {
    if name in store then Ok(store[name]) else Err(NotFound(name))
  }

  function CreateOutcome(store: Store, p: Profile): Outcome<Profile> {
    if !ProfileValid(p) then Outcome(Err(InvalidProfile(p)), store)
    else if p.name in store then Outcome(Err(AlreadyExists(p.name)), store)
    else Outcome(Ok(AsStored(p)), store[p.name := AsStored(p)])
  }

  function UpdateOutcome(store: Store, name: string, p: Profile): Outcome<Profile> {
    if name !in store then Outcome(Err(NotFound(name)), store)
    else if !ProfileValid(p) then Outcome(Err(InvalidProfile(p)), store)
    else
      var q := AsStored(p);
      if q.name == name then Outcome(Ok(q), store[name := q])
      else if q.name in store then Outcome(Err(AlreadyExists(q.name)), store)
      else Outcome(Ok(q), (store - {name})[q.name := q])
  }

  function DeleteOutcome(store: Store, name: string): Outcome<()> {
    if name !in store then Outcome(Err(NotFound(name)), store)
    else Outcome(Ok(()), store - {name})
  }

  /**
   * `create` checks validity first (whether or not the name is taken), then the
   * name, and leaves the store alone when it fails.
   */
  lemma CreateFailures(store: Store, p: Profile)
    ensures CreateOutcome(store, p).result.Err? <==> !ProfileValid(p) || p.name in store
    ensures CreateOutcome(store, p).result.Err? ==> CreateOutcome(store, p).store == store
    ensures !ProfileValid(p) ==> CreateOutcome(store, p).result == Err(InvalidProfile(p))
    ensures ProfileValid(p) && p.name in store ==> CreateOutcome(store, p).result == Err(AlreadyExists(p.name))
  {
  }

  /** A successful `create` is seen by `get` under its name, and by no other name. */
  lemma CreateThenGet(store: Store, p: Profile, other: string)
    requires ProfileValid(p) && p.name !in store
    ensures CreateOutcome(store, p).result == Ok(AsStored(p))
    ensures GetOutcome(CreateOutcome(store, p).store, p.name) == Ok(AsStored(p))
    ensures other != p.name ==> GetOutcome(CreateOutcome(store, p).store, other) == GetOutcome(store, other)
  {
  }

  /** Safe mode is applied after validation, so e.g. a timeout of 500 is accepted and stored as 1000. */
  lemma CreateInSafeMode(store: Store, p: Profile)
    requires ProfileValid(p) && p.safeMode && p.name !in store
    ensures var created := CreateOutcome(store, p).result.value;
      created.chunkSize <= 50 && created.timeout >= 1000 && !created.securityAudit
      && (p.timeout < 1000 ==> created.timeout == 1000)
      && (p.chunkSize > 50 ==> created.chunkSize == 50)
      && created.name == p.name && created.portRange == p.portRange
  {
  }

  /** `update` of an absent name fails with ERR_PROFILE_NOT_FOUND before anything else is checked. */
  lemma UpdateAbsent(store: Store, name: string, p: Profile)
    requires name !in store
    ensures UpdateOutcome(store, name, p) == Outcome(Err(NotFound(name)), store)
  {
  }

  /** Renaming onto another existing profile is refused and changes nothing. */
  lemma UpdateRenameOntoExisting(store: Store, name: string, p: Profile)
    requires name in store && ProfileValid(p) && p.name != name && p.name in store
    ensures UpdateOutcome(store, name, p) == Outcome(Err(AlreadyExists(p.name)), store)
  {
  }

  /** A successful rename removes the old key and stores the profile under the new name only. */
  lemma UpdateRenames(store: Store, name: string, p: Profile, other: string)
    requires name in store && ProfileValid(p) && p.name != name && p.name !in store
    ensures var o := UpdateOutcome(store, name, p);
      o.result == Ok(AsStored(p))
      && GetOutcome(o.store, name) == Err(NotFound(name))
      && GetOutcome(o.store, p.name) == Ok(AsStored(p))
      && (other != name && other != p.name ==> GetOutcome(o.store, other) == GetOutcome(store, other))
      && |o.store| == |store|
  {
    var o := UpdateOutcome(store, name, p);
    assert o.store.Keys == store.Keys - {name} + {p.name};
  }

  /** An update that keeps the name replaces that one entry. */
  lemma UpdateInPlace(store: Store, name: string, p: Profile)
    requires name in store && ProfileValid(p) && p.name == name
    ensures UpdateOutcome(store, name, p) == Outcome(Ok(AsStored(p)), store[name := AsStored(p)])
    ensures UpdateOutcome(store, name, p).store.Keys == store.Keys
  {
  }

  /** `delete` fails on an absent name; otherwise `get` no longer finds the name and nothing else changes. */
  lemma DeleteThenGet(store: Store, name: string, other: string)
    ensures DeleteOutcome(store, name).result.Err? <==> name !in store
    ensures name !in store ==> DeleteOutcome(store, name) == Outcome(Err(NotFound(name)), store)
    ensures GetOutcome(DeleteOutcome(store, name).store, name) == Err(NotFound(name))
    ensures other != name ==> GetOutcome(DeleteOutcome(store, name).store, other) == GetOutcome(store, other)
  {
  }

  lemma StoreValidPut(store: Store, q: Profile)
    requires StoreValid(store) && ProfileValid(q)
    ensures StoreValid(store[q.name := q])
  {
  }

  lemma StoreValidRemove(store: Store, name: string)
    requires StoreValid(store)
    ensures StoreValid(store - {name})
  {
  }

  /** What is stored is valid and keeps its name. */
  lemma AsStoredValid(p: Profile)
    requires ProfileValid(p)
    ensures ProfileValid(AsStored(p)) && AsStored(p).name == p.name
  {
    SafeModeKeepsValid(p);
  }

  /** `create` keeps every file a valid profile stored under its own name. */
  lemma CreateKeepsStoreValid(store: Store, p: Profile)
    requires StoreValid(store)
    ensures StoreValid(CreateOutcome(store, p).store)
  {
    if ProfileValid(p) {
      AsStoredValid(p);
      StoreValidPut(store, AsStored(p));
    }
  }

  lemma UpdateKeepsStoreValid(store: Store, name: string, p: Profile)
    requires StoreValid(store)
    ensures StoreValid(UpdateOutcome(store, name, p).store)
  {
    if name in store && ProfileValid(p) {
      var q := AsStored(p);
      AsStoredValid(p);
      if q.name == name {
        StoreValidPut(store, q);
      } else {
        StoreValidRemove(store, name);
        StoreValidPut(store - {name}, q);
      }
    }
  }

  lemma DeleteKeepsStoreValid(store: Store, name: string)
    requires StoreValid(store)
    ensures StoreValid(DeleteOutcome(store, name).store)
  {
    StoreValidRemove(store, name);
  }

  // ---------------------------------------------------------------------
  // Listing order

  /** Lexicographic order on code points (Rust `String::cmp`). */
  predicate LexLe(a: string, b: string)
    decreases |a|
  {
    a == [] || (b != [] && (a[0] < b[0] || (a[0] == b[0] && LexLe(a[1..], b[1..]))))
  }

  lemma {:induction false} LexTotal(a: string, b: string)
    ensures LexLe(a, b) || LexLe(b, a)
    decreases |a|
  {
    if a != [] && b != [] && a[0] == b[0] {
      LexTotal(a[1..], b[1..]);
    }
  }

  lemma {:induction false} LexTrans(a: string, b: string, c: string)
    requires LexLe(a, b) && LexLe(b, c)
    ensures LexLe(a, c)
    decreases |a|
  {
    if a != [] && b != [] && c != [] && a[0] == b[0] && b[0] == c[0] {
      LexTrans(a[1..], b[1..], c[1..]);
    }
  }

  /** Ordering by lower-cased name. */
  predicate NameLe(p: Profile, q: Profile) {
    LexLe(Lower(p.name), Lower(q.name))
  }

  predicate SortedByName(ps: seq<Profile>) {
    forall i, j :: 0 <= i < j < |ps| ==> NameLe(ps[i], ps[j])
  }

  /** `p` placed before the first profile it does not sort after. */
  function Insert(p: Profile, ps: seq<Profile>): (r: seq<Profile>)
    ensures multiset(r) == multiset(ps) + multiset{p}
    decreases |ps|
  {
    if ps == [] then [p]
    else if NameLe(p, ps[0]) then [p] + ps
    else
      assert ps == [ps[0]] + ps[1..];
      [ps[0]] + Insert(p, ps[1..])
  }

  /** Stable insertion sort by lower-cased name (`sort_by` on the lowered names). */
  function SortByName(ps: seq<Profile>): (r: seq<Profile>)
    ensures multiset(r) == multiset(ps)
    decreases |ps|
  {
    if ps == [] then []
    else
      assert ps == [ps[0]] + ps[1..];
      Insert(ps[0], SortByName(ps[1..]))
  }

  lemma {:induction false} InsertSorted(p: Profile, ps: seq<Profile>)
    requires SortedByName(ps)
    ensures SortedByName(Insert(p, ps))
    decreases |ps|
  {
    if ps == [] {
    } else if NameLe(p, ps[0]) {
      forall j | 0 <= j < |ps| ensures NameLe(p, ps[j]) {
        if j > 0 {
          LexTrans(Lower(p.name), Lower(ps[0].name), Lower(ps[j].name));
        }
      }
      assert Insert(p, ps) == [p] + ps;
    } else {
      InsertSorted(p, ps[1..]);
      LexTotal(Lower(p.name), Lower(ps[0].name));
      var r := Insert(p, ps[1..]);
      forall j | 0 <= j < |r| ensures NameLe(ps[0], r[j]) {
        assert r[j] in multiset(r);
        if r[j] != p {
          assert r[j] in multiset(ps[1..]);
          var k :| 0 <= k < |ps[1..]| && ps[1..][k] == r[j];
          assert ps[k + 1] == r[j];
        }
      }
      assert Insert(p, ps) == [ps[0]] + r;
    }
  }

  lemma {:induction false} SortByNameSorted(ps: seq<Profile>)
    ensures SortedByName(SortByName(ps))
    decreases |ps|
  {
    if ps != [] {
      SortByNameSorted(ps[1..]);
      InsertSorted(ps[0], SortByName(ps[1..]));
    }
  }

  /** The profiles stored under `names`, in that order. */
  /** In a valid store the listing holds each stored profile once, under its own name. */
  lemma ListedProfiles(store: Store, names: seq<string>, ps: seq<Profile>)
    requires StoreValid(store)
    requires NoDuplicates(names) && forall n :: n in names <==> n in store
    requires multiset(ps) == multiset(ValuesAt(store, names))
    ensures |ps| == |store|
    ensures forall p :: p in ps <==> p.name in store && store[p.name] == p
  {
    var vs := ValuesAt(store, names);
    DistinctSeqSize(names, store.Keys);
    assert |ps| == |multiset(ps)| == |multiset(vs)| == |vs| == |names|;
    forall p ensures p in ps <==> p.name in store && store[p.name] == p {
      assert p in ps <==> p in multiset(vs);
      if p in vs {
        var k :| 0 <= k < |vs| && vs[k] == p;
        assert store[names[k]] == p;
      }
      if p.name in store && store[p.name] == p {
        var k :| 0 <= k < |names| && names[k] == p.name;
        assert vs[k] == p;
      }
    }
  }

  // ---------------------------------------------------------------------
  // The manager

  /** `ProfileManager` over its profiles directory. */
  class ProfileManager {
    var profiles: Store

    /** A manager over a directory that already holds `existing`. */
    constructor(existing: Store)
      ensures profiles == existing
    {
      profiles := existing;
    }

    method Get(name: string) returns (r: Result<Profile, EngineError>)
      ensures r == GetOutcome(profiles, name)
    {
      if name !in profiles {
        return Err(NotFound(name));
      }
      return Ok(profiles[name]);
    }

    method Create(p: Profile) returns (r: Result<Profile, EngineError>)
      modifies this
      ensures Outcome(r, profiles) == CreateOutcome(old(profiles), p)
    {
      var v := Validate(p);
      if v.Err? {
        return Err(v.error);
      }
      if p.name in profiles {
        return Err(AlreadyExists(p.name));
      }
      var q := p;
      if q.safeMode {
        q := EnforceSafeMode(q);
      }
      profiles := profiles[q.name := q];
      return Ok(q);
    }

    method Update(name: string, p: Profile) returns (r: Result<Profile, EngineError>)
      modifies this
      ensures Outcome(r, profiles) == UpdateOutcome(old(profiles), name, p)
    {
      if name !in profiles {
        return Err(NotFound(name));
      }
      var v := Validate(p);
      if v.Err? {
        return Err(v.error);
      }
      var q := p;
      if q.safeMode {
        q := EnforceSafeMode(q);
      }
      if q.name != name {
        if q.name in profiles {
          return Err(AlreadyExists(q.name));
        }
        profiles := profiles - {name};
      }
      profiles := profiles[q.name := q];
      return Ok(q);
    }

    method Delete(name: string) returns (r: Result<(), EngineError>)
      modifies this
      ensures Outcome(r, profiles) == DeleteOutcome(old(profiles), name)
    {
      if name !in profiles {
        return Err(NotFound(name));
      }
      profiles := profiles - {name};
      return Ok(());
    }

    /**
     * `list`: every stored profile, read in directory order (`names`) and
     * sorted by lower-cased name.
     */
    method List() returns (ps: seq<Profile>, ghost names: seq<string>)
      ensures NoDuplicates(names) && forall n :: n in names <==> n in profiles
      ensures multiset(ps) == multiset(ValuesAt(profiles, names))
      ensures SortedByName(ps)
    {
      var keys := Enumerate(profiles.Keys);
      var found: seq<Profile> := [];
      var i := 0;
      while i < |keys|
        invariant 0 <= i <= |keys|
        invariant found == ValuesAt(profiles, keys[..i])
      {
        assert keys[..i + 1][..i] == keys[..i];
        found := found + [profiles[keys[i]]];
        i := i + 1;
      }
      assert keys[..i] == keys;
      names := keys;
      ps := SortByName(found);
      SortByNameSorted(found);
    }
  }
}
