/** Parsing inverts serializing exactly when the checkpoint fits, and accepts nothing but serializations. */
module CheckpointRoundTrip {
  import opened Common
  import opened CheckpointCodec

  // What a failed candidate's metrics become: they are not written.
  function Canonical(r: CandidateResult): CandidateResult { if r.passed then r else r.(metrics := ZeroMetrics) }

  // What survives the 32-bit fields.
  function Narrowed(c: Configuration): Configuration { c.(dilationRadiusTiles := c.dilationRadiusTiles % TWO_32) }

  ghost predicate NoNaN(c: Configuration) { forall i :: 0 <= i < 7 ==> !IsNaN(ConfigurationWords(c)[i]) }

  function EncodedSize(r: CandidateResult): nat { 139 + |r.reason| + (if r.passed then 8 * METRIC_WORDS else 0) }

  lemma BodySize(index: nat, r: CandidateResult, identity: seq<Byte>, flag: Byte)
    requires |r.metrics.perStratum| == STRATA && |identity| == 32
    ensures |Body(index, r, identity, flag)| == EncodedSize(r) - 32
  {
    WordsLength(ConfigurationWords(r.configuration));
    WordsLength(MetricsWords(r.metrics));
  }

  lemma SameExactly(c: Configuration)
    ensures SameConfiguration(Narrowed(c), c) <==> NoNaN(c) && c.dilationRadiusTiles < TWO_32
  {}

  lemma WordsBack(c: Configuration)
    ensures ConfigurationFrom(ConfigurationWords(c), c.dilationRadiusTiles % TWO_32) == Narrowed(c)
  {}

  // The parser from the configuration on, at the place where the printer put it.
  lemma ParseFromAt(body: seq<Byte>, offset: nat, r: CandidateResult)
    requires |r.metrics.perStratum| == STRATA && offset <= |body| && body[offset..] == FromConfiguration(r)
    ensures ParseFrom(body, offset, r.passed, r.reason, r.configuration) ==
            if SameConfiguration(Narrowed(r.configuration), r.configuration)
            then Ok(Canonical(r.(configuration := Narrowed(r.configuration)))) else Err(ConfigurationInvalid)
  {
    hide WordsBytes, LE, Take, TakeWords, MetricsWords, MetricsFrom, SameConfiguration, ConfigurationWords;
    var c := r.configuration;
    var ws := ConfigurationWords(c);
    assert |ws| == 7 by { SevenWords(c); }
    TakeWordsAt(body, offset, ws, LE(c.dilationRadiusTiles % TWO_32, 4) + Tail(r));
    Widths();
    TakeAt(body, offset + 56, c.dilationRadiusTiles % TWO_32, 4, Tail(r));
    WordsBack(c);
    if r.passed {
      var ms := MetricsWords(r.metrics);
      assert WordsBytes(ms) + [] == WordsBytes(ms);
      TakeWordsAt(body, offset + 60, ms, []);
      MetricsRoundTrip(r.metrics);
    }
  }

  lemma SevenWords(c: Configuration)
    ensures |ConfigurationWords(c)| == 7
  {}

  lemma ParseBodyAt(body: seq<Byte>, index: nat, r: CandidateResult)
    requires |r.metrics.perStratum| == STRATA && |r.reason| <= 65535 && 40 <= |body|
    requires body[40..] == FromIndex(index, r, if r.passed then 1 else 0)
    ensures ParseBody(body, index, r.configuration) ==
            if index >= TWO_32 then Err(IndexInvalid)
            else ParseFrom(body, 47 + |r.reason|, r.passed, r.reason, r.configuration)
    ensures 47 + |r.reason| <= |body| && body[47 + |r.reason|..] == FromConfiguration(r)
  {
    hide LE, Take, ParseFrom, FromConfiguration;
    var flag: Byte := if r.passed then 1 else 0;
    Widths();
    var afterFlag := LE(|r.reason|, 2) + (r.reason + FromConfiguration(r));
    TakeAt(body, 40, index % TWO_32, 4, [flag] + afterFlag);
    assert body[44..][0] == body[44] == flag;
    assert body[45..] == body[44..][1..] == afterFlag;
    TakeAt(body, 45, |r.reason|, 2, r.reason + FromConfiguration(r));
    assert body[47..][..|r.reason|] == r.reason;
    assert body[47..47 + |r.reason|] == body[47..][..|r.reason|];
    assert body[47 + |r.reason|..] == body[47..][|r.reason|..];
  }

  // The part of the condition that is not about size.
  ghost predicate Narrow(index: nat, r: CandidateResult) {
    index < TWO_32 && r.configuration.dilationRadiusTiles < TWO_32 && NoNaN(r.configuration)
  }

  /** A printed checkpoint parses back to the same result exactly when it is at most 4096 bytes long, its index and
      radius fit 32 bits and no configuration value is NaN; otherwise it is refused. */
  lemma RoundTripExactly(index: nat, r: CandidateResult, identity: seq<Byte>, digest: Sha256)
    requires |r.metrics.perStratum| == STRATA && |r.reason| <= 65535 && |identity| == 32 && IsSha256(digest)
    ensures Serialize(index, r, identity, digest).Ok? && |Serialize(index, r, identity, digest).value| == EncodedSize(r)
    ensures var parsed := Parse(Serialize(index, r, identity, digest).value, index, r.configuration, identity, digest);
            if EncodedSize(r) <= 4096 && Narrow(index, r) then parsed == Ok(Canonical(r)) else parsed.Err?
  {
    hide FromIndex, ParseBody, ParseFrom, SameConfiguration, NoNaN;
    var flag: Byte := if r.passed then 1 else 0;
    var body := Body(index, r, identity, flag);
    BodySize(index, r, identity, flag);
    var bytes := body + digest(body);
    assert bytes[..|bytes| - 32] == body && bytes[|bytes| - 32..] == digest(body);
    assert bytes[..8] == MAGIC && bytes[8..40] == identity;
    assert body[40..] == FromIndex(index, r, flag);
    ParseBodyAt(body, index, r);
    ParseFromAt(body, 47 + |r.reason|, r);
    SameExactly(r.configuration);
  }

  // -------- nothing else is accepted --------

  lemma ParseFromBack(body: seq<Byte>, offset: nat, passed: bool, reason: seq<Byte>, expected: Configuration)
    requires offset <= |body| && ParseFrom(body, offset, passed, reason, expected).Ok?
    ensures var r := ParseFrom(body, offset, passed, reason, expected).value;
            && r.passed == passed && r.reason == reason && |r.metrics.perStratum| == STRATA
            && r.configuration.dilationRadiusTiles < TWO_32
            && body[offset..] == FromConfiguration(r)
  {
    hide WordsBytes, LE, Take, TakeWords, MetricsWords, MetricsFrom, SameConfiguration;
    Widths();
    TakeWordsFrom(body, offset, 7);
    var (ws, afterWords) := TakeWords(body, offset, 7).value;
    TakeFrom(body, afterWords, 4);
    var (radius, afterRadius) := Take(body, afterWords, 4).value;
    assert ConfigurationWords(ConfigurationFrom(ws, radius)) == ws;
    var r := ParseFrom(body, offset, passed, reason, expected).value;
    if passed {
      TakeWordsFrom(body, afterRadius, METRIC_WORDS);
      var (ms, end) := TakeWords(body, afterRadius, METRIC_WORDS).value;
      MetricsBack(ms);
      assert body[end..] == [];
      assert WordsBytes(ms) + [] == WordsBytes(ms);
      assert body[afterRadius..] == Tail(r);
    } else {
      assert body[afterRadius..] == [] == Tail(r);
    }
  }

  lemma ParseBodyBack(body: seq<Byte>, index: nat, expected: Configuration)
    requires 40 <= |body| && ParseBody(body, index, expected).Ok?
    ensures var r := ParseBody(body, index, expected).value;
            && |r.metrics.perStratum| == STRATA && |r.reason| <= 65535 && index < TWO_32 && 44 < |body|
            && r.passed == (body[44] != 0)
            && body[40..] == FromIndex(index, r, body[44])
  {
    hide LE, Take, ParseFrom, FromConfiguration;
    Widths();
    TakeFrom(body, 40, 4);
    var (found, afterIndex) := Take(body, 40, 4).value;
    TakeFrom(body, 45, 2);
    var (size, afterSize) := Take(body, 45, 2).value;
    var reason := body[47..47 + size];
    ParseFromBack(body, 47 + size, body[44] != 0, reason, expected);
    var r := ParseBody(body, index, expected).value;
    assert body[44..] == [body[44]] + body[45..];
    assert body[47..] == reason + body[47 + size..];
  }

  /** An accepted checkpoint is the serialization of the result it parses to, except that any nonzero passed byte is
      accepted where the printer writes one. */
  lemma AcceptedIsSerialized(bytes: seq<Byte>, index: nat, expected: Configuration, identity: seq<Byte>, digest: Sha256)
    requires |identity| == 32 && IsSha256(digest) && Parse(bytes, index, expected, identity, digest).Ok?
    ensures var r := Parse(bytes, index, expected, identity, digest).value;
            && |r.metrics.perStratum| == STRATA && 44 < |bytes|
            && (Serialize(index, r, identity, digest) == Ok(bytes) <==> bytes[44] <= 1)
  {
    hide FromIndex, ParseBody;
    var body := bytes[..|bytes| - 32];
    ParseBodyBack(body, index, expected);
    var r := ParseBody(body, index, expected).value;
    assert bytes == body + bytes[|bytes| - 32..];
    assert body[..8] == bytes[..8] && body[8..40] == bytes[8..40];
    assert body == MAGIC + (identity + body[40..]);
    assert body == Body(index, r, identity, bytes[44]);
    if bytes[44] > 1 {
      FlagShows(index, r, identity, digest, bytes[44]);
    }
  }

  // A body with another passed byte is another file.
  lemma FlagShows(index: nat, r: CandidateResult, identity: seq<Byte>, digest: Sha256, flag: Byte)
    requires |r.metrics.perStratum| == STRATA && |identity| == 32 && flag > 1
    ensures Serialize(index, r, identity, digest).Ok? ==>
              Serialize(index, r, identity, digest).value != Body(index, r, identity, flag)
              + digest(Body(index, r, identity, flag))
  {
    var one: Byte := if r.passed then 1 else 0;
    var a, b := Body(index, r, identity, one), Body(index, r, identity, flag);
    assert a[44] == one && b[44] == flag;
    assert (a + digest(a))[44] == one && (b + digest(b))[44] == flag;
  }
}
