/**
  Cutting text to a number of UTF-8 bytes.

  A string is the sequence of its code points, where a surrogate that has no partner counts
  as one code point of its own.  Encoding writes U+FFFD for it.
 */
module Utf8 {
  import opened Wrappers

  const REPLACEMENT := 0xFFFD
  const HARD_MAX_SNAPSHOT_BYTES := 4194304
  const DEFAULT_MAX_BYTES := 16000.0

  type CodePoint = c: nat | c <= 0x10FFFF
  type Text = seq<CodePoint>
  type Bytes = seq<nat>

  predicate IsSurrogate(c: CodePoint) { 0xD800 <= c <= 0xDFFF }

  /** What becomes of a code point when it is encoded and decoded again. */
  function Cooked(c: CodePoint): CodePoint { if IsSurrogate(c) then REPLACEMENT else c }

  function CookedText(t: Text): (r: Text)
    ensures |r| == |t|
  {
    if t == [] then [] else [Cooked(t[0])] + CookedText(t[1..])
  }

  // ---------------------------------------------------------------- encoding (RFC 3629, section 3)

  function Size(c: CodePoint): (n: nat)
    ensures 1 <= n <= 4
  {
    if c < 0x80 then 1 else if c < 0x800 then 2 else if c < 0x1_0000 then 3 else 4
  }

  function EncodeOne(c: CodePoint): (b: Bytes)
    ensures |b| == Size(c)
  {
    var u: nat := Cooked(c);
    if u < 0x80 then [u]
    else if u < 0x800 then [0xC0 + u / 0x40, 0x80 + u % 0x40]
    else if u < 0x1_0000 then [0xE0 + u / 0x1000, 0x80 + u / 0x40 % 0x40, 0x80 + u % 0x40]
    else [0xF0 + u / 0x4_0000, 0x80 + u / 0x1000 % 0x40, 0x80 + u / 0x40 % 0x40, 0x80 + u % 0x40]
  }

  function Encode(t: Text): Bytes { if t == [] then [] else EncodeOne(t[0]) + Encode(t[1..]) }

  function ByteLength(t: Text): (n: nat)
    ensures n == |Encode(t)|
  {
    if t == [] then 0 else Size(t[0]) + ByteLength(t[1..])
  }

  // ---------------------------------------------------------------- decoding with replacement

  predicate IsTail(b: nat) { 0x80 <= b <= 0xBF }

  datatype Decoded = Decoded(c: CodePoint, used: nat)

  /** One step of the decoder: a whole character, or U+FFFD for a malformed or unfinished beginning. */
  function DecodeOne(b: Bytes): (d: Decoded)
    requires b != []
    ensures 1 <= d.used <= |b|
  {
    if b[0] < 0x80 then Decoded(b[0], 1)
    else if 0xC2 <= b[0] <= 0xDF then
      if |b| < 2 || !IsTail(b[1]) then Decoded(REPLACEMENT, 1)
      else Decoded((b[0] - 0xC0) * 0x40 + (b[1] - 0x80), 2)
    else if 0xE0 <= b[0] <= 0xEF then
      var lower, upper := if b[0] == 0xE0 then 0xA0 else 0x80, if b[0] == 0xED then 0x9F else 0xBF;
      if |b| < 2 || !(lower <= b[1] <= upper) then Decoded(REPLACEMENT, 1)
      else if |b| < 3 || !IsTail(b[2]) then Decoded(REPLACEMENT, 2)
      else Decoded((b[0] - 0xE0) * 0x1000 + (b[1] - 0x80) * 0x40 + (b[2] - 0x80), 3)
    else if 0xF0 <= b[0] <= 0xF4 then
      var lower, upper := if b[0] == 0xF0 then 0x90 else 0x80, if b[0] == 0xF4 then 0x8F else 0xBF;
      if |b| < 2 || !(lower <= b[1] <= upper) then Decoded(REPLACEMENT, 1)
      else if |b| < 3 || !IsTail(b[2]) then Decoded(REPLACEMENT, 2)
      else if |b| < 4 || !IsTail(b[3]) then Decoded(REPLACEMENT, 3)
      else
        Decoded((b[0] - 0xF0) * 0x4_0000 + (b[1] - 0x80) * 0x1000 + (b[2] - 0x80) * 0x40 + (b[3] - 0x80), 4)
    else Decoded(REPLACEMENT, 1)
  }

  function Decode(b: Bytes): Text {
    if b == [] then [] else var d := DecodeOne(b); [d.c] + Decode(b[d.used..])
  }

  // ---------------------------------------------------------------- truncation

  datatype Bounded = Bounded(value: Text, bytes: nat, truncated: bool)

  function StripReplacements(t: Text): Text {
    if t != [] && t[|t| - 1] == REPLACEMENT then StripReplacements(t[..|t| - 1]) else t
  }

  function Limit(maxBytes: real): nat { if maxBytes < 0.0 then 0 else maxBytes.Floor }

  function TruncateUtf8(value: Text, maxBytes: real): Bounded {
    var safeMax, bytes := Limit(maxBytes), Encode(value);
    if |bytes| <= safeMax then Bounded(value, |bytes|, false)
    else if safeMax == 0 then Bounded([], 0, true)
    else
      var bounded := StripReplacements(Decode(bytes[..safeMax]));
      Bounded(bounded, ByteLength(bounded), true)
  }

  // ---------------------------------------------------------------- the decoder reads the encoder

  lemma TwoBytes(u: nat)
    requires 0x80 <= u < 0x800
    ensures 0xC2 <= 0xC0 + u / 0x40 <= 0xDF && u == u / 0x40 * 0x40 + u % 0x40
  {
  }

  lemma ThreeBytes(u: nat)
    requires 0x800 <= u < 0x1_0000
    ensures u / 0x1000 <= 0xF && u / 0x40 % 0x40 < 0x40
    ensures u == u / 0x1000 * 0x1000 + u / 0x40 % 0x40 * 0x40 + u % 0x40
    ensures u / 0x1000 == 0 ==> u / 0x40 % 0x40 >= 0x20
    ensures u / 0x1000 == 0xD && (u < 0xD800 || u > 0xDFFF) ==> u / 0x40 % 0x40 < 0x20
  {
    var v := u / 0x40;
    assert v / 0x40 == u / 0x1000;
    assert u == v * 0x40 + u % 0x40 && v == v / 0x40 * 0x40 + v % 0x40;
  }

  lemma FourBytes(u: nat)
    requires 0x1_0000 <= u <= 0x10FFFF
    ensures u / 0x4_0000 <= 4 && u / 0x1000 % 0x40 < 0x40 && u / 0x40 % 0x40 < 0x40
    ensures u == u / 0x4_0000 * 0x4_0000 + u / 0x1000 % 0x40 * 0x1000 + u / 0x40 % 0x40 * 0x40 + u % 0x40
    ensures u / 0x4_0000 == 0 ==> u / 0x1000 % 0x40 >= 0x10
    ensures u / 0x4_0000 == 4 ==> u / 0x1000 % 0x40 < 0x10
  {
    var v, w := u / 0x40, u / 0x1000;
    assert v / 0x40 == w && w / 0x40 == u / 0x4_0000;
    assert u == v * 0x40 + u % 0x40 && v == w * 0x40 + v % 0x40 && w == w / 0x40 * 0x40 + w % 0x40;
  }

  /** A whole encoded character decodes to itself, whatever follows. */
  lemma DecodeOneReadsOne(c: CodePoint, rest: Bytes)
    ensures DecodeOne(EncodeOne(c) + rest) == Decoded(Cooked(c), Size(c))
  {
    var u: nat := Cooked(c);
    if 0x80 <= u < 0x800 {
      TwoBytes(u);
    } else if 0x800 <= u < 0x1_0000 {
      ThreeBytes(u);
    } else if 0x1_0000 <= u {
      FourBytes(u);
    }
  }

  /** A character cut short decodes to a single U+FFFD. */
  lemma DecodeOneOfAPart(c: CodePoint, n: nat)
    requires 0 < n < Size(c)
    ensures DecodeOne(EncodeOne(c)[..n]) == Decoded(REPLACEMENT, n)
  {
    var u: nat := Cooked(c);
    if 0x80 <= u < 0x800 {
      TwoBytes(u);
    } else if 0x800 <= u < 0x1_0000 {
      ThreeBytes(u);
    } else if 0x1_0000 <= u {
      FourBytes(u);
    }
  }

  // ---------------------------------------------------------------- the longest prefix that fits

  /** How many code points from the front fit into `n` bytes. */
  function Fit(t: Text, n: nat): (k: nat)
    ensures k <= |t|
  {
    if t == [] || Size(t[0]) > n then 0 else 1 + Fit(t[1..], n - Size(t[0]))
  }

  lemma {:induction false} FitIsLongest(t: Text, n: nat, k: nat)
    requires k <= |t|
    ensures k <= Fit(t, n) <==> ByteLength(t[..k]) <= n
  {
    if k > 0 {
      assert t[..k][1..] == t[1..][..k - 1];
      if Size(t[0]) <= n { FitIsLongest(t[1..], n - Size(t[0]), k - 1); }
    }
  }

  lemma DecodeReadsOneMore(c: CodePoint, rest: Bytes)
    ensures Decode(EncodeOne(c) + rest) == [Cooked(c)] + Decode(rest)
  {
    DecodeOneReadsOne(c, rest);
    assert (EncodeOne(c) + rest)[Size(c)..] == rest;
  }

  lemma DecodeOfAPart(c: CodePoint, n: nat)
    requires 0 < n < Size(c)
    ensures Decode(EncodeOne(c)[..n]) == [REPLACEMENT]
  {
    DecodeOneOfAPart(c, n);
    assert EncodeOne(c)[..n][n..] == [];
  }

  /** The characters that fit, and one U+FFFD if one was cut. */
  function CutText(t: Text, n: nat): Text {
    if t == [] || n == 0 then []
    else if Size(t[0]) > n then [REPLACEMENT]
    else [Cooked(t[0])] + CutText(t[1..], n - Size(t[0]))
  }

  lemma {:induction false} CutTextIsTheFittingPrefix(t: Text, n: nat)
    requires n <= ByteLength(t)
    ensures var k := Fit(t, n);
            CutText(t, n) == CookedText(t[..k]) + if ByteLength(t[..k]) < n then [REPLACEMENT] else []
  {
    if t == [] || n == 0 || Size(t[0]) > n {
      assert t[..0] == [] && CookedText([]) == [];
    } else {
      var m := n - Size(t[0]);
      var k := Fit(t[1..], m);
      CutTextIsTheFittingPrefix(t[1..], m);
      assert t[..k + 1][1..] == t[1..][..k];
    }
  }

  /** Cutting an encoded text anywhere and decoding it gives just that. */
  lemma {:induction false} DecodeOfCutText(t: Text, n: nat)
    requires n <= |Encode(t)|
    ensures Decode(Encode(t)[..n]) == CutText(t, n)
  {
    if t != [] && n > 0 {
      if Size(t[0]) <= n {
        var m := n - Size(t[0]);
        assert Encode(t)[..n] == EncodeOne(t[0]) + Encode(t[1..])[..m];
        DecodeReadsOneMore(t[0], Encode(t[1..])[..m]);
        DecodeOfCutText(t[1..], m);
      } else {
        assert Encode(t)[..n] == EncodeOne(t[0])[..n];
        DecodeOfAPart(t[0], n);
      }
    }
  }

  // ---------------------------------------------------------------- what truncation returns

  lemma {:induction false} StripForgetsTheEnd(t: Text)
    ensures StripReplacements(t + [REPLACEMENT]) == StripReplacements(t)
  {
    assert (t + [REPLACEMENT])[..|t|] == t;
  }

  lemma {:induction false} StripGivesAPrefix(t: Text)
    ensures StripReplacements(t) <= t
    ensures StripReplacements(t) == t <==> (t != [] ==> t[|t| - 1] != REPLACEMENT)
  {
    if t != [] && t[|t| - 1] == REPLACEMENT { StripGivesAPrefix(t[..|t| - 1]); }
  }

  lemma {:induction false} PrefixesAreShorter(t: Text, k: nat)
    requires k <= |t|
    ensures ByteLength(t[..k]) <= ByteLength(t)
  {
    if k > 0 {
      assert t[..k][1..] == t[1..][..k - 1];
      PrefixesAreShorter(t[1..], k - 1);
    }
  }

  lemma {:induction false} CookingKeepsTheLength(t: Text)
    ensures ByteLength(CookedText(t)) == ByteLength(t)
  {
    if t != [] {
      CookingKeepsTheLength(t[1..]);
      assert CookedText(t)[1..] == CookedText(t[1..]);
    }
  }

  /** The part of the text that truncation keeps: what fits, without the replacement characters at its end. */
  function Kept(value: Text, max: nat): Text {
    if ByteLength(value) <= max then value else StripReplacements(CookedText(value[..Fit(value, max)]))
  }

  lemma CutTextDecodesToKept(value: Text, max: nat)
    requires ByteLength(value) > max
    ensures StripReplacements(Decode(Encode(value)[..max])) == Kept(value, max)
  {
    DecodeOfCutText(value, max);
    CutTextIsTheFittingPrefix(value, max);
    var fitting := CookedText(value[..Fit(value, max)]);
    StripForgetsTheEnd(fitting);
    assert fitting + [] == fitting;
  }

  lemma KeptFits(value: Text, max: nat)
    ensures ByteLength(Kept(value, max)) <= max
  {
    if ByteLength(value) > max {
      var k := Fit(value, max);
      var fitting := CookedText(value[..k]);
      StripGivesAPrefix(fitting);
      var n := |StripReplacements(fitting)|;
      assert StripReplacements(fitting) == fitting[..n];
      PrefixesAreShorter(fitting, n);
      CookingKeepsTheLength(value[..k]);
      FitIsLongest(value, max, k);
    }
  }

  /** For every text and limit, the result is the kept part with its exact byte count. */
  lemma TruncationKeepsWhatFits(value: Text, maxBytes: real)
    ensures var r, max := TruncateUtf8(value, maxBytes), Limit(maxBytes);
            && r.value == Kept(value, max)
            && r.bytes == ByteLength(r.value) == |Encode(r.value)| <= max
            && (r.truncated <==> ByteLength(value) > max)
  {
    var r, max := TruncateUtf8(value, maxBytes), Limit(maxBytes);
    KeptFits(value, max);
    if ByteLength(value) > max {
      CutTextDecodesToKept(value, max);
      if max == 0 { assert Encode(value)[..0] == []; }
    }
  }

  /** Text is reported as truncated exactly when some of it was dropped. */
  lemma TruncatedMeansShorter(value: Text, maxBytes: real)
    ensures var r := TruncateUtf8(value, maxBytes);
            && (r.truncated <==> |r.value| < |value|)
            && (!r.truncated ==> r.value == value)
  {
    TruncationKeepsWhatFits(value, maxBytes);
    var max := Limit(maxBytes);
    if ByteLength(value) > max {
      var k := Fit(value, max);
      StripGivesAPrefix(CookedText(value[..k]));
      assert value[..|value|] == value;
      FitIsLongest(value, max, |value|);
    }
  }

  /** The longest prefix of whole characters that fits. */
  ghost predicate IsLongestPrefix(p: Text, value: Text, max: nat) {
    && p <= value && ByteLength(p) <= max
    && forall k :: |p| < k <= |value| ==> ByteLength(value[..k]) > max
  }

  lemma FittingPrefixIsLongest(value: Text, max: nat)
    ensures IsLongestPrefix(value[..Fit(value, max)], value, max)
  {
    FitIsLongest(value, max, Fit(value, max));
    forall j | Fit(value, max) < j <= |value| ensures ByteLength(value[..j]) > max { FitIsLongest(value, max, j); }
  }

  /** A text that fits is its own fitting prefix. */
  lemma WholeTextFits(value: Text, max: nat)
    ensures ByteLength(value) <= max <==> Fit(value, max) == |value|
  {
    FitIsLongest(value, max, |value|);
    assert value[..|value|] == value;
  }

  predicate WellFormed(t: Text) { forall i :: 0 <= i < |t| ==> !IsSurrogate(t[i]) }

  lemma {:induction false} WellFormedTextIsCooked(t: Text)
    requires WellFormed(t)
    ensures CookedText(t) == t
  {
    if t != [] { WellFormedTextIsCooked(t[1..]); }
  }

  /**
    For well-formed text the result is the longest prefix that fits, unless that prefix ends in
    a genuine U+FFFD: then those at its end are dropped as well.
   */
  lemma TruncationIsTheLongestPrefix(value: Text, maxBytes: real)
    requires WellFormed(value)
    ensures var r, max := TruncateUtf8(value, maxBytes), Limit(maxBytes);
            var p := value[..Fit(value, max)];
            && IsLongestPrefix(p, value, max)
            && (r.value == p <==> !r.truncated || p == [] || p[|p| - 1] != REPLACEMENT)
  {
    var max := Limit(maxBytes);
    var p := value[..Fit(value, max)];
    TruncationKeepsWhatFits(value, maxBytes);
    FittingPrefixIsLongest(value, max);
    WholeTextFits(value, max);
    WellFormedTextIsCooked(p);
    StripGivesAPrefix(p);
  }

  /** A genuine U+FFFD before the cut is lost although it fits. */
  lemma GenuineReplacementIsLost()
    ensures var value := [REPLACEMENT, 0x61];
            TruncateUtf8(value, 3.0).value == [] && IsLongestPrefix([REPLACEMENT], value, 3)
  {
    var value: Text := [REPLACEMENT, 0x61];
    TruncationIsTheLongestPrefix(value, 3.0);
    assert value[1..] == [0x61] && [0x61][1..] == [];
    assert Fit(value, 3) == 1 && value[..1] == [REPLACEMENT] && ByteLength(value) == 4;
    TruncationKeepsWhatFits(value, 3.0);
    assert CookedText(value[..1]) == [REPLACEMENT];
    StripForgetsTheEnd([]);
    assert [] + [REPLACEMENT] == [REPLACEMENT];
  }

  // ---------------------------------------------------------------- compact snapshots

  /** A snapshot as it comes in; an absent title, address or text is an empty one. */
  datatype Snapshot<T> = Snapshot(title: Text, url: Text, targets: seq<T>, text: Text,
                                  generation: int, pageGeneration: Option<int>)

  datatype Format = Structured | Compact

  /** How one field, one target and the page text are written: these three are parameters. */
  datatype Formatter<!T> = Formatter(singleLine: (Text, nat) -> Text, target: T -> Text, compactText: Text -> Text)

  datatype Compacted<T> = Compacted(targets: seq<T>, text: Text, pageRevision: int, format: Format, content: Bounded)

  const NEWLINE: CodePoint := 10

  function Join(lines: seq<Text>): Text {
    if lines == [] then [] else if |lines| == 1 then lines[0] else lines[0] + [NEWLINE] + Join(lines[1..])
  }

  function Clamp(maxBytes: Option<real>): (n: nat)
    ensures 100 <= n <= HARD_MAX_SNAPSHOT_BYTES
  {
    var asked := (if maxBytes.Some? then maxBytes.value else DEFAULT_MAX_BYTES).Floor;
    if asked < 100 then 100 else if asked > HARD_MAX_SNAPSHOT_BYTES then HARD_MAX_SNAPSHOT_BYTES else asked
  }

  function Ascii(s: string): Text
    requires forall i :: 0 <= i < |s| ==> s[i] as int < 128
  {
    seq(|s|, i requires 0 <= i < |s| => s[i] as int)
  }

  const PAGE_PREFIX: Text := Ascii("Page: ")
  const URL_PREFIX: Text := Ascii("URL: ")
  const TEXT_HEADING: Text := Ascii("Text:")

  /** The lines on the page itself: a title and an address that are there. */
  function HeadLines<T>(f: Formatter<T>, snapshot: Snapshot<T>): seq<Text> {
    (if snapshot.title != [] then [PAGE_PREFIX + f.singleLine(snapshot.title, 500)] else [])
    + (if snapshot.url != [] then [URL_PREFIX + f.singleLine(snapshot.url, 2048)] else [])
  }

  function TargetLines<T>(f: Formatter<T>, targets: seq<T>): (lines: seq<Text>)
    ensures |lines| == |targets| && forall k :: 0 <= k < |targets| ==> lines[k] == f.target(targets[k])
  {
    seq(|targets|, k requires 0 <= k < |targets| => f.target(targets[k]))
  }

  function TextLines<T>(f: Formatter<T>, snapshot: Snapshot<T>): seq<Text> {
    if snapshot.text != [] then [TEXT_HEADING, f.compactText(snapshot.text)] else []
  }

  /** Two parts with an empty line between them when both have lines. */
  function Apart(a: seq<Text>, b: seq<Text>): seq<Text> {
    if a != [] && b != [] then a + [[]] + b else a + b
  }

  /** The page, its targets and its text, set apart by empty lines. */
  function Lines<T>(f: Formatter<T>, snapshot: Snapshot<T>): seq<Text> {
    Apart(Apart(HeadLines(f, snapshot), TargetLines(f, snapshot.targets)), TextLines(f, snapshot))
  }

  /** The text stands somewhere in the content as it is. */
  ghost predicate Holds(content: Text, t: Text) {
    exists i, j :: 0 <= i <= j <= |content| && content[i..j] == t
  }

  method FormatTargets<T>(f: Formatter<T>, targets: seq<T>) returns (lines: seq<Text>)
    ensures lines == TargetLines(f, targets)
  {
    lines := [];
    for i := 0 to |targets|
      invariant lines == TargetLines(f, targets)[..i]
    {
      lines := lines + [f.target(targets[i])];
    }
  }

  method FormatLines<T>(f: Formatter<T>, snapshot: Snapshot<T>) returns (lines: seq<Text>)
    ensures lines == Lines(f, snapshot)
  {
    lines := [];
    if snapshot.title != [] { lines := lines + [PAGE_PREFIX + f.singleLine(snapshot.title, 500)]; }
    if snapshot.url != [] { lines := lines + [URL_PREFIX + f.singleLine(snapshot.url, 2048)]; }
    assert lines == HeadLines(f, snapshot);
    if |lines| > 0 && |snapshot.targets| > 0 { lines := lines + [[]]; }
    var targetLines := FormatTargets(f, snapshot.targets);
    lines := lines + targetLines;
    assert lines == Apart(HeadLines(f, snapshot), TargetLines(f, snapshot.targets));
    if snapshot.text != [] {
      if |lines| > 0 { lines := lines + [[]]; }
      lines := lines + [TEXT_HEADING];
      lines := lines + [f.compactText(snapshot.text)];
    }
  }

  method AddCompactSnapshotContent<T>(f: Formatter<T>, snapshot: Snapshot<T>, maxBytes: Option<real>,
                                       format: Option<Format>)
    returns (result: Compacted<T>)
    ensures result.content == TruncateUtf8(Join(Lines(f, snapshot)), Clamp(maxBytes) as real)
    ensures |Encode(result.content.value)| == result.content.bytes <= Clamp(maxBytes) <= HARD_MAX_SNAPSHOT_BYTES
    ensures result.targets == (if format == Some(Compact) then [] else snapshot.targets)
    ensures result.text == (if format == Some(Compact) then [] else snapshot.text)
    ensures result.format.Compact? <==> format == Some(Compact)
    ensures snapshot.pageGeneration in {None, Some(result.pageRevision)}
    ensures snapshot.pageGeneration.None? ==> result.pageRevision == snapshot.generation
    ensures !result.content.truncated ==>
              && (forall t :: t in snapshot.targets ==> Holds(result.content.value, f.target(t)))
              && (snapshot.text != [] ==> Holds(result.content.value, f.compactText(snapshot.text)))
  {
    var lines := FormatLines(f, snapshot);
    var joined := Join(lines);
    var limit := Clamp(maxBytes);
    var bounded := TruncateUtf8(joined, limit as real);
    TruncationKeepsWhatFits(joined, limit as real);
    NothingIsMissing(f, snapshot);
    var revision := if snapshot.pageGeneration.Some? then snapshot.pageGeneration.value else snapshot.generation;
    result := Compacted(snapshot.targets, snapshot.text, revision,
                        if format.Some? then format.value else Structured, bounded);
    if format == Some(Compact) { result := result.(targets := [], text := []); }
  }

  lemma NothingIsMissing<T>(f: Formatter<T>, snapshot: Snapshot<T>)
    ensures var joined := Join(Lines(f, snapshot));
            && (forall t :: t in snapshot.targets ==> Holds(joined, f.target(t)))
            && (snapshot.text != [] ==> Holds(joined, f.compactText(snapshot.text)))
  {
    var lines := Lines(f, snapshot);
    forall t | t in snapshot.targets ensures Holds(Join(lines), f.target(t)) {
      var k :| 0 <= k < |snapshot.targets| && snapshot.targets[k] == t;
      assert TargetLines(f, snapshot.targets)[k] in lines;
      JoinHoldsItsLines(lines, f.target(t));
    }
    if snapshot.text != [] {
      assert TextLines(f, snapshot)[1] in lines;
      JoinHoldsItsLines(lines, f.compactText(snapshot.text));
    }
  }

  lemma SliceOfTheRest(front: Text, rest: Text, i: nat, j: nat)
    requires i <= j <= |rest|
    ensures (front + rest)[|front| + i..|front| + j] == rest[i..j]
  {
  }

  lemma {:induction false} JoinHoldsItsLines(lines: seq<Text>, t: Text)
    requires t in lines
    ensures Holds(Join(lines), t)
  {
    var all := Join(lines);
    if t == lines[0] {
      assert all[0..|t|] == t;
    } else {
      assert lines == [lines[0]] + lines[1..] && t in lines[1..];
      JoinHoldsItsLines(lines[1..], t);
      var rest := Join(lines[1..]);
      var i, j :| 0 <= i <= j <= |rest| && rest[i..j] == t;
      var front := lines[0] + [NEWLINE];
      assert all == front + rest;
      SliceOfTheRest(front, rest, i, j);
    }
  }

  /** The limit for compact content: the whole bytes asked for, 16000 if none, but at least 100 and at most 4 MiB. */
  lemma LimitIsClamped(maxBytes: Option<real>, whole: int)
    requires maxBytes.Some? ==> whole as real <= maxBytes.value < whole as real + 1.0
    ensures maxBytes.None? ==> Clamp(maxBytes) == 16000
    ensures maxBytes.Some? && whole < 100 ==> Clamp(maxBytes) == 100
    ensures maxBytes.Some? && 100 <= whole <= 4 * 1024 * 1024 ==> Clamp(maxBytes) == whole
    ensures maxBytes.Some? && whole > 4 * 1024 * 1024 ==> Clamp(maxBytes) == 4 * 1024 * 1024
  {
    if maxBytes.Some? { assert maxBytes.value.Floor == whole; }
  }

  /** The decoder takes nothing but encodings for characters: whatever else there is becomes U+FFFD. */
  lemma OnlyEncodingsDecode(b: Bytes)
    requires b != [] && DecodeOne(b).c != REPLACEMENT
    ensures b[..DecodeOne(b).used] == EncodeOne(DecodeOne(b).c)
  {
    var d := DecodeOne(b);
    if d.used == 2 {
      TwoByteDigits(b[0] - 0xC0, b[1] - 0x80);
    } else if d.used == 3 {
      ThreeByteDigits(b[0] - 0xE0, b[1] - 0x80, b[2] - 0x80);
    } else if d.used == 4 {
      FourByteDigits(b[0] - 0xF0, b[1] - 0x80, b[2] - 0x80, b[3] - 0x80);
    }
  }

  lemma TwoByteDigits(x: nat, y: nat)
    requires y < 0x40
    ensures var u := x * 0x40 + y; u / 0x40 == x && u % 0x40 == y
  {
  }

  lemma ThreeByteDigits(x: nat, y: nat, z: nat)
    requires y < 0x40 && z < 0x40
    ensures var u := x * 0x1000 + y * 0x40 + z; u / 0x1000 == x && u / 0x40 % 0x40 == y && u % 0x40 == z
  {
  }

  lemma FourByteDigits(w: nat, x: nat, y: nat, z: nat)
    requires x < 0x40 && y < 0x40 && z < 0x40
    ensures var u := w * 0x4_0000 + x * 0x1000 + y * 0x40 + z;
            u / 0x4_0000 == w && u / 0x1000 % 0x40 == x && u / 0x40 % 0x40 == y && u % 0x40 == z
  {
    var v := w * 0x40 + x;
    ThreeByteDigits(v, y, z);
    assert w * 0x4_0000 + x * 0x1000 + y * 0x40 + z == v * 0x1000 + y * 0x40 + z;
    TwoByteDigits(w, x);
    QuotientOfQuotient(v * 0x1000 + y * 0x40 + z);
  }

  lemma QuotientOfQuotient(u: nat)
    ensures u / 0x4_0000 == u / 0x1000 / 0x40
  {
  }

  /** Lines with a line end before each. */
  function Below(lines: seq<Text>): Text {
    if lines == [] then [] else [10] + lines[0] + Below(lines[1..])
  }

  lemma {:induction false} JoinIsFirstAndBelow(lines: seq<Text>)
    requires lines != []
    ensures Join(lines) == lines[0] + Below(lines[1..])
  {
    if |lines| == 1 {
      assert lines[0] + [] == lines[0];
    } else {
      JoinIsFirstAndBelow(lines[1..]);
    }
  }

  lemma {:induction false} BelowInTwoParts(a: seq<Text>, b: seq<Text>)
    ensures Below(a + b) == Below(a) + Below(b)
  {
    if a == [] {
      assert a + b == b;
    } else {
      BelowInTwoParts(a[1..], b);
      assert (a + b)[1..] == a[1..] + b;
      assert Below(a) + Below(b) == [10] + a[0] + (Below(a[1..]) + Below(b));
    }
  }

  /** The lines of the targets, each below the one before, after an empty line. */
  function TargetBlock<T>(f: Formatter<T>, targets: seq<T>): Text {
    if targets == [] then [] else Below([[]] + TargetLines(f, targets))
  }

  lemma OneLineBelow(line: Text)
    ensures Below([line]) == [10] + line
  {
    assert [line][1..] == [];
  }

  /**
    The content of a snapshot that has title, address and text: two lines on the page, the targets
    after an empty line, and after another the page text under its heading.
   */
  lemma ContentIsLaidOut<T>(f: Formatter<T>, snapshot: Snapshot<T>)
    requires snapshot.title != [] && snapshot.url != [] && snapshot.text != []
    ensures Join(Lines(f, snapshot)) ==
            (Ascii("Page: ") + f.singleLine(snapshot.title, 500))
            + ([10] + (Ascii("URL: ") + f.singleLine(snapshot.url, 2048)))
            + TargetBlock(f, snapshot.targets)
            + Below([[], Ascii("Text:"), f.compactText(snapshot.text)])
  {
    var page, url := PAGE_PREFIX + f.singleLine(snapshot.title, 500), URL_PREFIX + f.singleLine(snapshot.url, 2048);
    var targets, text := TargetLines(f, snapshot.targets), [TEXT_HEADING, f.compactText(snapshot.text)];
    var middle := if targets == [] then [] else [[]] + targets;
    var lines := Lines(f, snapshot);
    assert lines == [page] + ([url] + (middle + ([[]] + text)));
    assert lines[1..] == [url] + (middle + ([[]] + text));
    JoinIsFirstAndBelow(lines);
    BelowInTwoParts([url], middle + ([[]] + text));
    BelowInTwoParts(middle, [[]] + text);
    OneLineBelow(url);
    assert [[]] + text == [[], TEXT_HEADING, f.compactText(snapshot.text)];
    assert Below(middle) == TargetBlock(f, snapshot.targets);
  }

  /** What is absent leaves no line: the content of a snapshot with nothing but targets is their lines. */
  lemma AbsentPartsLeaveNothing<T>(f: Formatter<T>, snapshot: Snapshot<T>)
    requires snapshot.title == [] && snapshot.url == [] && snapshot.text == []
    ensures Lines(f, snapshot) == TargetLines(f, snapshot.targets)
  {
  }
}
