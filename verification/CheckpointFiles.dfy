/** The checkpoint printer and parser as the loops they are: bytes appended to a vector, an offset advanced through a
    span. */
module CheckpointFiles {
  import opened Common
  import opened CheckpointCodec

  // The last byte written is the highest one.
  lemma {:induction false} LESnoc(value: nat, n: nat)
    ensures Pow256(n) > 0 && LE(value, n + 1) == LE(value, n) + [(value / Pow256(n)) % 256]
    decreases n
  {
    if n == 0 {
      assert LE(value, 1) == [value % 256];
    } else {
      LESnoc(value / 256, n - 1);
      DivideTwice(value, Pow256(n - 1));
    }
  }

  lemma DivideTwice(value: nat, m: nat)
    requires m > 0
    ensures value / 256 / m == value / (256 * m)
  {
    var q, low := value / 256 / m, value / 256 % m;
    assert value / 256 == m * q + low;
    assert value == 256 * m * q + (256 * low + value % 256);
    Quotient(value, 256 * m, q, 256 * low + value % 256);
  }

  lemma Quotient(value: nat, m: nat, q: nat, low: nat)
    requires m > 0 && value == m * q + low && low < m
    ensures value / m == q
  {
    var gap := value / m - q;
    assert m * gap == low - value % m;
    assert gap >= 1 ==> m * gap >= m;
    assert gap <= -1 ==> m * gap + m <= 0;
  }

  lemma {:induction false} FromLESnoc(b: seq<Byte>, last: Byte)
    ensures FromLE(b + [last]) == FromLE(b) + last * Pow256(|b|)
  {
    if b == [] {
      assert (b + [last])[1..] == [];
    } else {
      FromLESnoc(b[1..], last);
      assert (b + [last])[1..] == b[1..] + [last];
      var p := Pow256(|b| - 1);
      assert 256 * (last * p) == last * (256 * p);
    }
  }

  lemma {:induction false} WordsSnoc(ws: seq<Word>, last: Word)
    ensures WordsBytes(ws + [last]) == WordsBytes(ws) + LE(last, 8)
  {
    if ws == [] {
      assert (ws + [last])[1..] == [];
      assert LE(last, 8) + [] == LE(last, 8);
    } else {
      WordsSnoc(ws[1..], last);
      assert (ws + [last])[1..] == ws[1..] + [last];
    }
  }

  /** `append_u16`, `append_u32`, `append_u64`: one byte a turn, lowest first. */
  method AppendNumber(output: seq<Byte>, value: nat, n: nat) returns (out: seq<Byte>)
    ensures out == output + LE(value, n)
  {
    hide LE;
    out := output;
    var shift := 1;
    assert LE(value, 0) == [];
    for i := 0 to n
      invariant shift == Pow256(i)
      invariant out == output + LE(value, i)
    {
      LESnoc(value, i);
      out := out + [(value / shift) % 256];
      shift := 256 * shift;
    }
  }

  /** `append_double` and `append_metric_set`, over a run of words. */
  method AppendWords(output: seq<Byte>, ws: seq<Word>) returns (out: seq<Byte>)
    ensures out == output + WordsBytes(ws)
  {
    hide WordsBytes, LE;
    out := output;
    assert |WordsBytes([])| == 0 by { WordsLength([]); }
    for i := 0 to |ws|
      invariant out == output + WordsBytes(ws[..i])
    {
      out := AppendNumber(out, ws[i], 8);
      WordsSnoc(ws[..i], ws[i]);
      assert ws[..i] + [ws[i]] == ws[..i + 1];
    }
    assert ws[..|ws|] == ws;
  }

  method SerializeResult(index: nat, r: CandidateResult, identity: seq<Byte>, digest: Sha256)
    returns (out: Result<seq<Byte>>)
    requires |r.metrics.perStratum| == STRATA
    ensures out == Serialize(index, r, identity, digest)
  {
    hide LE, WordsBytes, MetricsWords, ConfigurationWords;
    if |r.reason| > 65535 {
      return Err(ReasonTooLong);
    }
    var flag: Byte := if r.passed then 1 else 0;
    var output := MAGIC + identity;
    output := AppendNumber(output, index % TWO_32, 4);
    output := output + [flag];
    output := AppendNumber(output, |r.reason|, 2);
    output := output + r.reason;
    output := AppendWords(output, ConfigurationWords(r.configuration));
    output := AppendNumber(output, r.configuration.dilationRadiusTiles % TWO_32, 4);
    if r.passed {
      output := AppendWords(output, MetricsWords(r.metrics));
    }
    Regroup(index, r, identity, flag);
    assert output == Body(index, r, identity, flag);
    out := Ok(output + digest(output));
  }

  // The format is the same however its parts are bracketed.
  lemma Regroup(index: nat, r: CandidateResult, identity: seq<Byte>, flag: Byte)
    requires |r.metrics.perStratum| == STRATA
    ensures Body(index, r, identity, flag) ==
            MAGIC + identity + LE(index % TWO_32, 4) + [flag] + LE(|r.reason|, 2) + r.reason
            + WordsBytes(ConfigurationWords(r.configuration)) + LE(r.configuration.dilationRadiusTiles % TWO_32, 4)
            + Tail(r)
  {
    hide LE, WordsBytes, MetricsWords, ConfigurationWords, Tail;
  }

  /** `take_u16`, `take_u32`, `take_u64`: the offset moves only when enough bytes are left. */
  method TakeNumber(input: seq<Byte>, offset: nat, n: nat) returns (r: Result<nat>, next: nat)
    ensures match Take(input, offset, n)
            case Ok((value, end)) => r == Ok(value) && next == end
            case Err(f) => r == Err(f) && next == offset
  {
    next := offset;
    if offset + n > |input| {
      return Err(Truncated), offset;
    }
    var value: nat, shift: nat := 0, 1;
    for i := 0 to n
      invariant shift == Pow256(i)
      invariant value == FromLE(input[offset..offset + i])
    {
      FromLESnoc(input[offset..offset + i], input[offset + i]);
      assert input[offset..offset + i] + [input[offset + i]] == input[offset..offset + i + 1];
      value := value + input[offset + i] * shift;
      shift := 256 * shift;
    }
    r, next := Ok(value), offset + n;
  }

  function Prefixed(ws: seq<Word>, rest: Result<(seq<Word>, nat)>): Result<(seq<Word>, nat)> {
    var (tail, end) :- rest;
    Ok((ws + tail, end))
  }

  lemma WordTaken(input: seq<Byte>, at: nat)
    ensures match Take(input, at, 8)
            case Ok((value, next)) => value < 0x1_0000_0000_0000_0000 && TakeWord(input, at) == Ok((value, next))
            case Err(f) => TakeWord(input, at) == Err(f)
  {
    if at + 8 <= |input| {
      LEOfFromLE(input[at..at + 8]);
      Widths();
    }
  }

  /** `take_double` and `take_metric_set`, over a run of words. */
  method TakeRun(input: seq<Byte>, offset: nat, count: nat) returns (r: Result<(seq<Word>, nat)>)
    ensures r == TakeWords(input, offset, count)
  {
    hide Take, TakeWord;
    var ws: seq<Word>, at := [], offset;
    ghost var whole := TakeWords(input, offset, count);
    assert whole.Ok? ==> [] + whole.value.0 == whole.value.0;
    for i := 0 to count
      invariant |ws| == i
      invariant Prefixed(ws, TakeWords(input, at, count - i)) == whole
    {
      var w, next := TakeNumber(input, at, 8);
      WordTaken(input, at);
      if w.Err? {
        return Err(w.failure);
      }
      ghost var rest := TakeWords(input, next, count - i - 1);
      assert rest.Ok? ==> ws + ([w.value] + rest.value.0) == ws + [w.value] + rest.value.0;
      var value: Word := w.value;
      ws, at := ws + [value], next;
    }
    assert ws + [] == ws;
    r := Ok((ws, at));
  }

  method ParseResult(bytes: seq<Byte>, index: nat, expected: Configuration, identity: seq<Byte>, digest: Sha256)
    returns (r: Result<CandidateResult>)
    requires |identity| == 32
    ensures r == Parse(bytes, index, expected, identity, digest)
  {
    hide Take, TakeWords, MetricsFrom, SameConfiguration;
    if |bytes| > MAXIMUM_SIZE {
      return Err(SizeInvalid);
    }
    if |bytes| < |MAGIC| + 32 + 32 {
      return Err(ReadFailed);
    }
    var body := bytes[..|bytes| - 32];
    if digest(body) != bytes[|bytes| - 32..] {
      return Err(Sha256Invalid);
    }
    var offset := 0;
    if bytes[..8] != MAGIC {
      return Err(MagicInvalid);
    }
    offset := offset + |MAGIC|;
    if bytes[offset..offset + 32] != identity {
      return Err(IdentityInvalid);
    }
    offset := offset + |identity|;
    var found, afterIndex := TakeNumber(body, offset, 4);
    if found.Err? {
      return Err(found.failure);
    }
    if found.value != index || afterIndex >= |body| {
      return Err(IndexInvalid);
    }
    var passed := body[afterIndex] != 0;
    var size, afterSize := TakeNumber(body, afterIndex + 1, 2);
    if size.Err? {
      return Err(size.failure);
    }
    if afterSize + size.value > |body| {
      return Err(ReasonInvalid);
    }
    var reason := body[afterSize..afterSize + size.value];
    r := ParseRest(body, afterSize + size.value, passed, reason, expected);
  }

  method ParseRest(body: seq<Byte>, offset: nat, passed: bool, reason: seq<Byte>, expected: Configuration)
    returns (r: Result<CandidateResult>)
    ensures r == ParseFrom(body, offset, passed, reason, expected)
  {
    hide Take, TakeWords, MetricsFrom, SameConfiguration;
    var words := TakeRun(body, offset, 7);
    if words.Err? {
      return Err(words.failure);
    }
    var radius, at := TakeNumber(body, words.value.1, 4);
    if radius.Err? {
      return Err(radius.failure);
    }
    var configuration := ConfigurationFrom(words.value.0, radius.value);
    if !SameConfiguration(configuration, expected) {
      return Err(ConfigurationInvalid);
    }
    var metrics := ZeroMetrics;
    if passed {
      var taken := TakeRun(body, at, METRIC_WORDS);
      if taken.Err? {
        return Err(taken.failure);
      }
      metrics, at := MetricsFrom(taken.value.0), taken.value.1;
    }
    if at != |body| {
      return Err(TrailingData);
    }
    r := Ok(CandidateResult(passed, reason, configuration, metrics));
  }
}
