/** The byte format of one evaluation checkpoint. Doubles are carried as their 64-bit words. */
module CheckpointCodec {
  import opened Common

  type Byte = x: int | 0 <= x < 256
  type Word = x: int | 0 <= x < 0x1_0000_0000_0000_0000

  datatype Failure =
    | ReasonTooLong | SizeInvalid | ReadFailed | Sha256Invalid | MagicInvalid | IdentityInvalid | IndexInvalid
    | Truncated
    | ReasonInvalid | ConfigurationInvalid | TrailingData

  type Result<T> = Fallible<T, Failure>

  // Six doubles.
  datatype MetricSet = MetricSet(
    overallGlyphRecall: Word, smallGlyphRecall: Word, protectedFraction: Word, falseProtectedFraction: Word,
    falseDiscoveryFraction: Word, staticMapChangeFraction: Word)

  const STRATA: nat := 7

  datatype Metrics = Metrics(aggregate: MetricSet, perStratum: seq<MetricSet>, p95Sequence: MetricSet,
                             processingP95: Word)

  datatype Configuration = Configuration(
    gradientWeight: Word, contrastWeight: Word, edgePairWeight: Word, smallStructureWeight: Word,
    entryThreshold: Word, exitThreshold: Word, previousScoreCoefficient: Word, dilationRadiusTiles: nat)

  datatype CandidateResult = CandidateResult(passed: bool, reason: seq<Byte>, configuration: Configuration,
                                             metrics: Metrics)

  const ZeroSet := MetricSet(0, 0, 0, 0, 0, 0)
  const ZeroMetrics := Metrics(ZeroSet, [ZeroSet, ZeroSet, ZeroSet, ZeroSet, ZeroSet, ZeroSet, ZeroSet], ZeroSet, 0)

  const MAGIC: seq<Byte> := [83, 65, 76, 82, 83, 76, 84, 49]
  const MAXIMUM_SIZE: nat := 4096
  const TWO_32: nat := 0x1_0000_0000

  // -------- little-endian numbers --------

  function Pow256(n: nat): nat { if n == 0 then 1 else 256 * Pow256(n - 1) }

  function LE(value: nat, n: nat): (b: seq<Byte>)
    ensures |b| == n
  {
    if n == 0 then [] else [value % 256] + LE(value / 256, n - 1)
  }

  function FromLE(b: seq<Byte>): nat {
    if b == [] then 0 else b[0] + 256 * FromLE(b[1..])
  }

  /** Decoding inverts encoding below the width. */
  lemma {:induction false} FromLEOfLE(value: nat, n: nat)
    requires value < Pow256(n)
    ensures FromLE(LE(value, n)) == value
  {
    if n > 0 {
      assert value / 256 < Pow256(n - 1);
      FromLEOfLE(value / 256, n - 1);
      assert LE(value, n)[1..] == LE(value / 256, n - 1);
    }
  }

  /** And encoding inverts decoding. */
  lemma {:induction false} LEOfFromLE(b: seq<Byte>)
    ensures FromLE(b) < Pow256(|b|) && LE(FromLE(b), |b|) == b
  {
    if b != [] {
      LEOfFromLE(b[1..]);
      var rest := FromLE(b[1..]);
      assert (b[0] + 256 * rest) % 256 == b[0] && (b[0] + 256 * rest) / 256 == rest;
      assert b == [b[0]] + b[1..];
    }
  }

  lemma Widths()
    ensures Pow256(2) == 65536 && Pow256(4) == TWO_32 && Pow256(8) == 0x1_0000_0000_0000_0000
  {
    assert Pow256(1) == 256;
    assert Pow256(2) == 65536;
    assert Pow256(3) == 16777216;
    assert Pow256(4) == TWO_32;
    assert Pow256(5) == 256 * TWO_32;
    assert Pow256(6) == 65536 * TWO_32;
    assert Pow256(7) == 16777216 * TWO_32;
  }

  function Take(input: seq<Byte>, offset: nat, n: nat): Result<(nat, nat)> {
    if offset + n > |input| then Err(Truncated) else Ok((FromLE(input[offset..offset + n]), offset + n))
  }

  lemma TakeAt(input: seq<Byte>, offset: nat, value: nat, n: nat, rest: seq<Byte>)
    requires offset <= |input| && input[offset..] == LE(value, n) + rest && value < Pow256(n)
    ensures Take(input, offset, n) == Ok((value, offset + n)) && input[offset + n..] == rest
  {
    assert |input[offset..]| == n + |rest|;
    assert input[offset..offset + n] == input[offset..][..n] == LE(value, n);
    assert input[offset + n..] == input[offset..][n..];
    FromLEOfLE(value, n);
  }

  lemma TakeFrom(input: seq<Byte>, offset: nat, n: nat)
    requires offset <= |input| && Take(input, offset, n).Ok?
    ensures var (value, next) := Take(input, offset, n).value;
            && next == offset + n <= |input| && value < Pow256(n)
            && input[offset..] == LE(value, n) + input[next..]
  {
    LEOfFromLE(input[offset..offset + n]);
    assert input[offset..] == input[offset..offset + n] + input[offset + n..];
  }

  // -------- runs of words --------

  function WordsBytes(ws: seq<Word>): seq<Byte> {
    if ws == [] then [] else LE(ws[0], 8) + WordsBytes(ws[1..])
  }

  function TakeWord(input: seq<Byte>, offset: nat): (r: Result<(Word, nat)>)
  {
    if offset + 8 > |input| then Err(Truncated)
    else
      LEOfFromLE(input[offset..offset + 8]);
      Widths();
      Ok((FromLE(input[offset..offset + 8]), offset + 8))
  }

  function TakeWords(input: seq<Byte>, offset: nat, count: nat): (r: Result<(seq<Word>, nat)>)
    ensures r.Ok? ==> |r.value.0| == count
    decreases count
  {
    if count == 0 then Ok(([], offset))
    else
      var (w, next) :- TakeWord(input, offset);
      var (ws, end) :- TakeWords(input, next, count - 1);
      Ok(([w] + ws, end))
  }

  lemma {:induction false} TakeWordsAt(input: seq<Byte>, offset: nat, ws: seq<Word>, rest: seq<Byte>)
    requires offset <= |input| && input[offset..] == WordsBytes(ws) + rest
    ensures TakeWords(input, offset, |ws|) == Ok((ws, offset + 8 * |ws|))
    ensures offset + 8 * |ws| <= |input| && input[offset + 8 * |ws|..] == rest
    decreases ws
  {
    if ws == [] {
      assert WordsBytes(ws) + rest == rest;
    } else {
      Widths();
      assert WordsBytes(ws) + rest == LE(ws[0], 8) + (WordsBytes(ws[1..]) + rest);
      TakeAt(input, offset, ws[0], 8, WordsBytes(ws[1..]) + rest);
      TakeWordsAt(input, offset + 8, ws[1..], rest);
      assert [ws[0]] + ws[1..] == ws;
    }
  }

  lemma {:induction false} TakeWordsFrom(input: seq<Byte>, offset: nat, count: nat)
    requires offset <= |input| && TakeWords(input, offset, count).Ok?
    ensures var (ws, end) := TakeWords(input, offset, count).value;
            end == offset + 8 * count <= |input| && input[offset..] == WordsBytes(ws) + input[end..]
    decreases count
  {
    if count == 0 {
      assert WordsBytes([]) + input[offset..] == input[offset..];
    } else {
      Widths();
      TakeFrom(input, offset, 8);
      var (w, next) := TakeWord(input, offset).value;
      TakeWordsFrom(input, next, count - 1);
      var (ws, end) := TakeWords(input, next, count - 1).value;
      assert ([w] + ws)[1..] == ws;
      assert LE(w, 8) + (WordsBytes(ws) + input[end..]) == WordsBytes([w] + ws) + input[end..];
    }
  }

  lemma {:induction false} WordsLength(ws: seq<Word>)
    ensures |WordsBytes(ws)| == 8 * |ws|
  {
    if ws != [] {
      WordsLength(ws[1..]);
    }
  }

  // -------- records as runs of words --------

  function SetWords(m: MetricSet): seq<Word> {
    [m.overallGlyphRecall, m.smallGlyphRecall, m.protectedFraction, m.falseProtectedFraction, m.falseDiscoveryFraction,
     m.staticMapChangeFraction]
  }

  function SetFrom(ws: seq<Word>): MetricSet
    requires |ws| == 6
  {
    MetricSet(ws[0], ws[1], ws[2], ws[3], ws[4], ws[5])
  }

  function SetsWords(ms: seq<MetricSet>): (ws: seq<Word>)
    ensures |ws| == 6 * |ms|
  {
    if ms == [] then [] else SetWords(ms[0]) + SetsWords(ms[1..])
  }

  function SetsFrom(ws: seq<Word>): seq<MetricSet>
    requires |ws| % 6 == 0
  {
    if ws == [] then [] else [SetFrom(ws[..6])] + SetsFrom(ws[6..])
  }

  lemma {:induction false} SetsRoundTrip(ms: seq<MetricSet>)
    ensures SetsFrom(SetsWords(ms)) == ms
  {
    if ms != [] {
      SetsRoundTrip(ms[1..]);
      assert SetsWords(ms)[..6] == SetWords(ms[0]) && SetsWords(ms)[6..] == SetsWords(ms[1..]);
    }
  }

  lemma {:induction false} SetsBack(ws: seq<Word>)
    requires |ws| % 6 == 0
    ensures SetsWords(SetsFrom(ws)) == ws && 6 * |SetsFrom(ws)| == |ws|
  {
    if ws != [] {
      SetsBack(ws[6..]);
      assert ws == ws[..6] + ws[6..];
      assert SetWords(SetFrom(ws[..6])) == ws[..6];
      assert SetsFrom(ws)[1..] == SetsFrom(ws[6..]);
    }
  }

  const METRIC_WORDS: nat := 6 * (STRATA + 2) + 1

  function AllSets(m: Metrics): seq<MetricSet> { [m.aggregate] + m.perStratum + [m.p95Sequence] }

  function MetricsWords(m: Metrics): (ws: seq<Word>)
    requires |m.perStratum| == STRATA
    ensures |ws| == METRIC_WORDS
  {
    SetsWords(AllSets(m)) + [m.processingP95]
  }

  function MetricsFrom(ws: seq<Word>): Metrics
    requires |ws| == METRIC_WORDS
  {
    var sets := SetsFrom(ws[..METRIC_WORDS - 1]);
    SetsBack(ws[..METRIC_WORDS - 1]);
    Metrics(sets[0], sets[1..STRATA + 1], sets[STRATA + 1], ws[METRIC_WORDS - 1])
  }

  lemma MetricsRoundTrip(m: Metrics)
    requires |m.perStratum| == STRATA
    ensures MetricsFrom(MetricsWords(m)) == m
  {
    var ws := MetricsWords(m);
    assert ws[..METRIC_WORDS - 1] == SetsWords(AllSets(m));
    SetsRoundTrip(AllSets(m));
    assert AllSets(m)[1..STRATA + 1] == m.perStratum;
  }

  lemma MetricsBack(ws: seq<Word>)
    requires |ws| == METRIC_WORDS
    ensures |MetricsFrom(ws).perStratum| == STRATA && MetricsWords(MetricsFrom(ws)) == ws
  {
    var front := ws[..METRIC_WORDS - 1];
    SetsBack(front);
    var sets := SetsFrom(front);
    assert sets == [sets[0]] + sets[1..STRATA + 1] + [sets[STRATA + 1]];
    assert AllSets(MetricsFrom(ws)) == sets;
    assert ws == front + [ws[METRIC_WORDS - 1]];
  }

  function ConfigurationWords(c: Configuration): seq<Word> {
    [c.gradientWeight, c.contrastWeight, c.edgePairWeight, c.smallStructureWeight, c.entryThreshold, c.exitThreshold,
     c.previousScoreCoefficient]
  }

  function ConfigurationFrom(ws: seq<Word>, radius: nat): Configuration
    requires |ws| == 7
  {
    Configuration(ws[0], ws[1], ws[2], ws[3], ws[4], ws[5], ws[6], radius)
  }

  // -------- double comparison --------

  // Exponent all ones and a fraction.
  predicate IsNaN(w: Word) { w % 0x8000_0000_0000_0000 > 0x7FF0_0000_0000_0000 }
  predicate IsZero(w: Word) { w % 0x8000_0000_0000_0000 == 0 }
  predicate SameDouble(a: Word, b: Word) { !IsNaN(a) && !IsNaN(b) && (a == b || (IsZero(a) && IsZero(b))) }

  predicate SameConfiguration(a: Configuration, b: Configuration) {
    && (forall i :: 0 <= i < 7 ==> SameDouble(ConfigurationWords(a)[i], ConfigurationWords(b)[i]))
    && a.dilationRadiusTiles == b.dilationRadiusTiles
  }

  // -------- the format --------

  function Tail(r: CandidateResult): seq<Byte>
    requires |r.metrics.perStratum| == STRATA
  {
    if r.passed then WordsBytes(MetricsWords(r.metrics)) else []
  }

  function FromConfiguration(r: CandidateResult): seq<Byte>
    requires |r.metrics.perStratum| == STRATA
  {
    WordsBytes(ConfigurationWords(r.configuration)) + (LE(r.configuration.dilationRadiusTiles % TWO_32, 4) + Tail(r))
  }

  function FromIndex(index: nat, r: CandidateResult, flag: Byte): seq<Byte>
    requires |r.metrics.perStratum| == STRATA
  {
    LE(index % TWO_32, 4) + ([flag] + (LE(|r.reason|, 2) + (r.reason + FromConfiguration(r))))
  }

  function Body(index: nat, r: CandidateResult, identity: seq<Byte>, flag: Byte): seq<Byte>
    requires |r.metrics.perStratum| == STRATA
  {
    MAGIC + (identity + FromIndex(index, r, flag))
  }

  type Sha256 = seq<Byte> -> seq<Byte>

  ghost predicate IsSha256(digest: Sha256) { forall b :: |digest(b)| == 32 }

  function Serialize(index: nat, r: CandidateResult, identity: seq<Byte>, digest: Sha256): Result<seq<Byte>>
    requires |r.metrics.perStratum| == STRATA
  {
    if |r.reason| > 65535 then Err(ReasonTooLong)
    else
      var body := Body(index, r, identity, if r.passed then 1 else 0);
      Ok(body + digest(body))
  }

  // What follows the configuration, up to the end of the body.
  function ParseMetrics(body: seq<Byte>, offset: nat, passed: bool): Result<(Metrics, nat)> {
    if !passed then Ok((ZeroMetrics, offset))
    else
      var (ws, end) :- TakeWords(body, offset, METRIC_WORDS);
      Ok((MetricsFrom(ws), end))
  }

  function ParseFrom(body: seq<Byte>, offset: nat, passed: bool, reason: seq<Byte>,
                     expected: Configuration): Result<CandidateResult> {
    var (ws, afterWords) :- TakeWords(body, offset, 7);
    var (radius, afterRadius) :- Take(body, afterWords, 4);
    var configuration := ConfigurationFrom(ws, radius);
    if !SameConfiguration(configuration, expected) then Err(ConfigurationInvalid)
    else
      var (metrics, end) :- ParseMetrics(body, afterRadius, passed);
      if end != |body| then Err(TrailingData) else Ok(CandidateResult(passed, reason, configuration, metrics))
  }

  function ParseBody(body: seq<Byte>, index: nat, expected: Configuration): Result<CandidateResult> {
    var (found, afterIndex) :- Take(body, 40, 4);
    if found != index || afterIndex >= |body| then Err(IndexInvalid)
    else
      var (size, afterSize) :- Take(body, afterIndex + 1, 2);
      if afterSize + size > |body| then Err(ReasonInvalid)
      else ParseFrom(body, afterSize + size, body[afterIndex] != 0, body[afterSize..afterSize + size], expected)
  }

  function Parse(bytes: seq<Byte>, index: nat, expected: Configuration, identity: seq<Byte>,
                 digest: Sha256): Result<CandidateResult>
    requires |identity| == 32
  {
    if |bytes| > MAXIMUM_SIZE then Err(SizeInvalid)
    else if |bytes| < |MAGIC| + 32 + 32 then Err(ReadFailed)
    else
      var body := bytes[..|bytes| - 32];
      if digest(body) != bytes[|bytes| - 32..] then Err(Sha256Invalid)
      else if bytes[..8] != MAGIC then Err(MagicInvalid)
      else if bytes[8..40] != identity then Err(IdentityInvalid)
      else ParseBody(body, index, expected)
  }
}
