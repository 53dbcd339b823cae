/** Where each field of a checkpoint lies in the file, byte by byte. */
module CheckpointLayout {
  import opened Common
  import opened CheckpointCodec
  import opened CheckpointRoundTrip
  import Files = CheckpointFiles

  /** The i-th byte of a number is its i-th digit to base 256, lowest first. */
  lemma {:induction false} DigitAt(value: nat, n: nat, i: nat)
    requires i < n
    ensures Pow256(i) > 0 && LE(value, n)[i] == (value / Pow256(i)) % 256
    decreases n
  {
    Files.LESnoc(value, n - 1);
    if i < n - 1 {
      DigitAt(value, n - 1, i);
    }
  }

  // The word at an offset.
  function WordAt(bytes: seq<Byte>, offset: nat): nat
    requires offset + 8 <= |bytes|
  {
    FromLE(bytes[offset..offset + 8])
  }

  lemma {:induction false} WordIn(ws: seq<Word>, before: seq<Byte>, after: seq<Byte>, k: nat)
    requires k < |ws|
    ensures |before + WordsBytes(ws) + after| >= |before| + 8 * k + 8
    ensures WordAt(before + WordsBytes(ws) + after, |before| + 8 * k) == ws[k]
    decreases |ws|
  {
    WordsLength(ws);
    Widths();
    var all := before + WordsBytes(ws) + after;
    var rest := WordsBytes(ws[1..]);
    assert WordsBytes(ws) == LE(ws[0], 8) + rest;
    if k == 0 {
      assert all[|before|..|before| + 8] == LE(ws[0], 8);
      FromLEOfLE(ws[0], 8);
    } else {
      WordIn(ws[1..], before + LE(ws[0], 8), after, k - 1);
      assert all == (before + LE(ws[0], 8)) + rest + after;
    }
  }

  // The fields of a set of metrics, of a configuration, in the order in which they are declared.
  function Field(m: MetricSet, j: nat): Word
    requires j < 6
  {
    if j == 0 then m.overallGlyphRecall else if j == 1 then m.smallGlyphRecall else if j == 2 then m.protectedFraction
    else if j == 3 then m.falseProtectedFraction else if j == 4 then m.falseDiscoveryFraction
    else m.staticMapChangeFraction
  }

  lemma {:induction false} SetAt(ms: seq<MetricSet>, i: nat, j: nat)
    requires i < |ms| && j < 6
    ensures SetsWords(ms)[6 * i + j] == Field(ms[i], j)
    decreases |ms|
  {
    if i > 0 {
      SetAt(ms[1..], i - 1, j);
      assert SetsWords(ms)[6 * i + j] == SetsWords(ms[1..])[6 * (i - 1) + j];
    }
  }

  /** The metrics of a pass: the aggregate, the strata in order, the 95th percentile, each with its six fields in order,
      and the processing time. */
  lemma MetricsOrder(m: Metrics, i: nat, j: nat)
    requires |m.perStratum| == STRATA && j < 6
    ensures MetricsWords(m)[j] == Field(m.aggregate, j)
    ensures i < 7 ==> MetricsWords(m)[6 + 6 * i + j] == Field(m.perStratum[i], j)
    ensures MetricsWords(m)[48 + j] == Field(m.p95Sequence, j) && MetricsWords(m)[54] == m.processingP95
  {
    var sets := AllSets(m);
    SetAt(sets, 0, j);
    SetAt(sets, 8, j);
    if i < 7 { SetAt(sets, i + 1, j); }
  }

  // The file without its digest, in its parts.
  lemma Parts(index: nat, r: CandidateResult, identity: seq<Byte>, flag: Byte)
    requires |r.metrics.perStratum| == STRATA && |identity| == 32
    ensures var head := MAGIC + identity + LE(index % TWO_32, 4) + [flag] + LE(|r.reason|, 2) + r.reason;
            && |head| == 47 + |r.reason|
            && Body(index, r, identity, flag)
               == head + WordsBytes(ConfigurationWords(r.configuration))
                  + (LE(r.configuration.dilationRadiusTiles % TWO_32, 4) + Tail(r))
  {
    hide LE, WordsBytes, MetricsWords, ConfigurationWords, Tail;
  }

  /** The layout: the eight bytes of SALRSLT1, the identity, the index in four bytes, the passed byte, the length of the
      reason in two, the reason, and last the digest of everything before it. */
  lemma HeaderLayout(index: nat, r: CandidateResult, identity: seq<Byte>, digest: Sha256)
    requires |r.metrics.perStratum| == STRATA && |r.reason| <= 65535 && |identity| == 32 && IsSha256(digest)
    requires index < 0x1_0000_0000
    ensures var file := Serialize(index, r, identity, digest).value; var n := |r.reason|;
            && |file| == 139 + n + (if r.passed then 440 else 0)
            && file[..8] == [83, 65, 76, 82, 83, 76, 84, 49] && file[8..40] == identity
            && file[40..44] == [index % 256, index / 256 % 256, index / 65536 % 256, index / 16777216 % 256]
            && file[44] == (if r.passed then 1 else 0) && file[45..47] == [n % 256, n / 256 % 256]
            && file[47..47 + n] == r.reason
            && file[|file| - 32..] == digest(file[..|file| - 32])
  {
    hide FromConfiguration, LE, EncodedSize;
    var flag: Byte := if r.passed then 1 else 0;
    var body := Body(index, r, identity, flag);
    var file := body + digest(body);
    BodySize(index, r, identity, flag);
    Sizes(r);
    assert file[..|file| - 32] == body && file[|file| - 32..] == digest(body);
    Digits4(index);
    Digits2(|r.reason|);
    var a := LE(|r.reason|, 2) + (r.reason + FromConfiguration(r));
    var b := LE(index % TWO_32, 4) + ([flag] + a);
    assert body == MAGIC + (identity + b);
    assert file[..8] == MAGIC && file[8..40] == identity;
    assert body[40..] == b;
    assert file[40..44] == b[..4] == LE(index % TWO_32, 4);
    assert body[45..] == b[5..] == a;
    assert file[45..47] == a[..2] == LE(|r.reason|, 2);
    assert file[47..47 + |r.reason|] == a[2..2 + |r.reason|] == r.reason;
  }

  lemma Sizes(r: CandidateResult)
    ensures EncodedSize(r) == 139 + |r.reason| + (if r.passed then 440 else 0)
  {}

  lemma Digits4(v: nat)
    requires v < 0x1_0000_0000
    ensures LE(v, 4) == [v % 256, v / 256 % 256, v / 65536 % 256, v / 16777216 % 256]
  {
    Widths();
    DigitAt(v, 4, 0);
    DigitAt(v, 4, 1);
    DigitAt(v, 4, 2);
    DigitAt(v, 4, 3);
  }

  lemma Digits2(v: nat)
    ensures LE(v, 2) == [v % 256, v / 256 % 256]
  {
    DigitAt(v, 2, 0);
    DigitAt(v, 2, 1);
  }

  /** After the reason the configuration: its seven doubles in order, eight bytes each, and the radius in four; then,
      for a pass, the 55 words of the metrics. */
  lemma ValuesLayout(index: nat, r: CandidateResult, identity: seq<Byte>, digest: Sha256, k: nat)
    requires |r.metrics.perStratum| == STRATA && |r.reason| <= 65535 && |identity| == 32 && IsSha256(digest)
    ensures var file := Serialize(index, r, identity, digest).value; var at := 47 + |r.reason|;
            var c := r.configuration;
            && |file| >= at + 60 + 32
            && WordAt(file, at) == c.gradientWeight && WordAt(file, at + 8) == c.contrastWeight
            && WordAt(file, at + 16) == c.edgePairWeight && WordAt(file, at + 24) == c.smallStructureWeight
            && WordAt(file, at + 32) == c.entryThreshold && WordAt(file, at + 40) == c.exitThreshold
            && WordAt(file, at + 48) == c.previousScoreCoefficient
            && FromLE(file[at + 56..at + 60]) == c.dilationRadiusTiles % 0x1_0000_0000
            && (r.passed && k < 55 ==>
                  |file| >= at + 60 + 8 * k + 8 && WordAt(file, at + 60 + 8 * k) == MetricsWords(r.metrics)[k])
  {
    hide Body, MetricsWords, WordsBytes, LE, FromLE;
    var flag: Byte := if r.passed then 1 else 0;
    var body := Body(index, r, identity, flag);
    Parts(index, r, identity, flag);
    BodySize(index, r, identity, flag);
    var head := MAGIC + identity + LE(index % TWO_32, 4) + [flag] + LE(|r.reason|, 2) + r.reason;
    var ws := ConfigurationWords(r.configuration);
    var radius := LE(r.configuration.dilationRadiusTiles % TWO_32, 4);
    var file := body + digest(body);
    var after := radius + Tail(r) + digest(body);
    assert file == head + WordsBytes(ws) + after;
    WordIn(ws, head, after, 0);
    WordIn(ws, head, after, 1);
    WordIn(ws, head, after, 2);
    WordIn(ws, head, after, 3);
    WordIn(ws, head, after, 4);
    WordIn(ws, head, after, 5);
    WordIn(ws, head, after, 6);
    WordsLength(ws);
    var at := |head|;
    Widths();
    FromLEOfLE(r.configuration.dilationRadiusTiles % TWO_32, 4);
    assert file[at + 56..at + 60] == radius;
    if r.passed && k < 55 {
      var ms := MetricsWords(r.metrics);
      var before := head + WordsBytes(ws) + radius;
      assert file == before + WordsBytes(ms) + digest(body);
      WordIn(ms, before, digest(body), k);
    }
  }
}
