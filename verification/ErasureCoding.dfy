/** `encode_data` and `decode_data` of the storage node's `network.rs`, over a
    model of the Reed-Solomon crate they call: a codeword is a polynomial with 30
    coefficients evaluated at 0 .. 44, chosen so that its first 30 symbols are the
    data. */
module ErasureCoding {
  import opened Wrappers
  import opened Galois
  import opened Polynomials

  const DATA_SHARDS := 30
  const PARITY_SHARDS := 15
  const TOTAL_SHARDS := DATA_SHARDS + PARITY_SHARDS

  type Bytes = seq<Elem>

  // ----- The code, one symbol of each shard at a time -----

  function Point(i: nat): Elem
    requires i < TOTAL_SHARDS
  {
    i as bv8
  }

  function Points(idx: seq<nat>): seq<Elem>
    requires forall k :: 0 <= k < |idx| ==> idx[k] < TOTAL_SHARDS
  {
    seq(|idx|, k requires 0 <= k < |idx| => Point(idx[k]))
  }

  predicate Increasing(idx: seq<nat>) {
    && (forall k :: 0 <= k < |idx| ==> idx[k] < TOTAL_SHARDS)
    && forall j, k :: 0 <= j < k < |idx| ==> idx[j] < idx[k]
  }

  lemma PointsDistinct(idx: seq<nat>)
    requires Increasing(idx)
    ensures Distinct(Points(idx))
  {
    forall j, k | 0 <= j < k < |idx| ensures Points(idx)[j] != Points(idx)[k] {
      PointInjective(idx[j], idx[k]);
    }
  }

  lemma PointInjective(i: nat, j: nat)
    requires i < j < TOTAL_SHARDS
    ensures Point(i) != Point(j)
  {
    PointValue(i);
    PointValue(j);
  }

  lemma PointValue(i: nat)
    requires i < TOTAL_SHARDS
    ensures (i as bv8) as int == i
  {
  }

  function Upto(n: nat): (idx: seq<nat>)
    ensures |idx| == n && forall k :: 0 <= k < n ==> idx[k] == k
  {
    seq(n, k requires 0 <= k < n => k)
  }

  /** The symbol of shard `i` that goes with the symbols `vals` of shards `idx`. */
  function Symbol(idx: seq<nat>, vals: Bytes, i: nat): Elem
    requires |idx| == |vals| && i < TOTAL_SHARDS
    requires forall k :: 0 <= k < |idx| ==> idx[k] < TOTAL_SHARDS
  {
    Eval(Interpolate(Points(idx), vals), Point(i))
  }

  function CodeSymbol(data: Bytes, i: nat): Elem
    requires |data| == DATA_SHARDS && i < TOTAL_SHARDS
  {
    Symbol(Upto(DATA_SHARDS), data, i)
  }

  /** Data symbols are unchanged by encoding. */
  lemma Systematic(data: Bytes, i: nat)
    requires |data| == DATA_SHARDS && i < DATA_SHARDS
    ensures CodeSymbol(data, i) == data[i]
  {
    hide Eval, Interpolate;
    PointsDistinct(Upto(DATA_SHARDS));
    InterpolateHits(Points(Upto(DATA_SHARDS)), data, i);
  }

  /** Any 30 symbols of a codeword determine all 45. */
  lemma AnyThirtyDetermine(data: Bytes, idx: seq<nat>, vals: Bytes, i: nat)
    requires |data| == |idx| == |vals| == DATA_SHARDS && Increasing(idx) && i < TOTAL_SHARDS
    requires forall k :: 0 <= k < DATA_SHARDS ==> vals[k] == CodeSymbol(data, idx[k])
    ensures Symbol(idx, vals, i) == CodeSymbol(data, i)
  {
    hide Eval, Interpolate;
    var p, q := Interpolate(Points(Upto(DATA_SHARDS)), data), Interpolate(Points(idx), vals);
    PointsDistinct(idx);
    forall k | 0 <= k < DATA_SHARDS ensures Eval(q, Points(idx)[k]) == Eval(p, Points(idx)[k]) {
      InterpolateHits(Points(idx), vals, k);
      assert vals[k] == CodeSymbol(data, idx[k]);
    }
    Unique(q, p, Points(idx), Point(i));
  }

  /** A codeword is the values at 0 .. 44 of whatever polynomial with 30 coefficients
      takes the data at 0 .. 29. */
  lemma SymbolsArePolynomial(data: Bytes, p: seq<Elem>, i: nat)
    requires |data| == |p| == 30 && i < 45
    requires forall k: nat :: k < 30 ==> Eval(p, k as bv8) == data[k]
    ensures CodeSymbol(data, i) == Eval(p, i as bv8)
  {
    hide Eval, Interpolate;
    var idx := Upto(DATA_SHARDS);
    PointsDistinct(idx);
    var q := Interpolate(Points(idx), data);
    forall k | 0 <= k < DATA_SHARDS ensures Eval(q, Points(idx)[k]) == Eval(p, Points(idx)[k]) {
      InterpolateHits(Points(idx), data, k);
    }
    Unique(q, p, Points(idx), Point(i));
  }

  // ----- The crate: encode and reconstruct -----

  type Shards = seq<Bytes>
  type Received = seq<Option<Bytes>>

  function Column(shards: Shards, size: nat, c: nat): (col: Bytes)
    requires c < size && forall i :: 0 <= i < |shards| ==> |shards[i]| == size
    ensures |col| == |shards|
  {
    seq(|shards|, i requires 0 <= i < |shards| => shards[i][c])
  }

  /** Shard `i` of the codewords whose symbols at `idx` are the shards `known`. */
  function ShardFrom(idx: seq<nat>, known: Shards, size: nat, i: nat): (s: Bytes)
    requires |idx| == |known| && i < TOTAL_SHARDS
    requires forall k :: 0 <= k < |idx| ==> idx[k] < TOTAL_SHARDS
    requires forall k :: 0 <= k < |known| ==> |known[k]| == size
    ensures |s| == size
  {
    seq(size, c requires 0 <= c < size => Symbol(idx, Column(known, size, c), i))
  }

  /** The shards of a codeword: the data shards as they are, then parity. */
  function WithParity(data: Shards, size: nat): (s: Shards)
    requires |data| == DATA_SHARDS && forall k :: 0 <= k < |data| ==> |data[k]| == size
    ensures |s| == TOTAL_SHARDS
  {
    data + seq(PARITY_SHARDS, j requires 0 <= j < PARITY_SHARDS =>
                 ShardFrom(Upto(DATA_SHARDS), data, size, DATA_SHARDS + j))
  }

  /** The indices of the first `n` shards present, from `from` on. */
  function Present(r: Received, from: nat, n: nat): (idx: seq<nat>)
    requires from <= |r|
    ensures |idx| <= n && forall k :: 0 <= k < |idx| ==> from <= idx[k] < |r| && r[idx[k]].Some?
    ensures forall j, k :: 0 <= j < k < |idx| ==> idx[j] < idx[k]
    decreases |r| - from
  {
    if from == |r| || n == 0 then []
    else if r[from].Some? then [from] + Present(r, from + 1, n - 1)
    else Present(r, from + 1, n)
  }

  predicate SameSize(r: Received) {
    forall i, j :: 0 <= i < |r| && 0 <= j < |r| && r[i].Some? && r[j].Some? ==> |r[i].value| == |r[j].value|
  }

  /** What the crate does with a list of shards: one of another length, unusable
      shards and too few of them are errors; otherwise each missing shard is
      computed from the first 30. */
  function Reconstruct(r: Received): (res: Result<Received>)
    ensures res.Ok? ==> |r| == |res.value| == TOTAL_SHARDS && forall i :: 0 <= i < TOTAL_SHARDS ==> res.value[i].Some?
  {
    if |r| < TOTAL_SHARDS then Err("TooFewShards")
    else if |r| > TOTAL_SHARDS then Err("TooManyShards")
    else
      var idx := Present(r, 0, DATA_SHARDS);
      if !SameSize(r) then Err("IncorrectShardSize")
      else if idx != [] && r[idx[0]].value == [] then Err("EmptyShard")
      else if |idx| < DATA_SHARDS then Err("TooFewShardsPresent")
      else
        var size := |r[idx[0]].value|;
        var known: Shards := seq(DATA_SHARDS, k requires 0 <= k < DATA_SHARDS => r[idx[k]].value);
        Ok(seq(TOTAL_SHARDS, i requires 0 <= i < TOTAL_SHARDS =>
                 if r[i].Some? then r[i] else Some(ShardFrom(idx, known, size, i))))
  }

  // ----- network.rs -----

  function ShardSize(len: nat): nat { (len + DATA_SHARDS - 1) / DATA_SHARDS }

  /** The least size at which 30 shards hold the data. */
  lemma ShardSizeIsLeast(len: nat, size: nat)
    ensures 30 * size >= len <==> size >= ShardSize(len)
  {
  }

  /** Bytes `from` up to `from + n` of `data`, zeros past its end. */
  function Window(data: Bytes, from: nat, n: nat): (w: Bytes)
    ensures |w| == n
  {
    seq(n, k requires 0 <= k < n => if from + k < |data| then data[from + k] else 0)
  }

  function Stripes(data: Bytes): (s: Shards)
    ensures |s| == DATA_SHARDS && forall i :: 0 <= i < |s| ==> |s[i]| == ShardSize(|data|)
  {
    seq(DATA_SHARDS, i requires 0 <= i < DATA_SHARDS => Window(data, i * ShardSize(|data|), ShardSize(|data|)))
  }

  /** What `encode_data` is to compute. */
  function Encoded(data: Bytes): (res: Result<Shards>)
    ensures res.Ok? <==> data != []
  {
    if data == [] then Err("EmptyShard") else Ok(WithParity(Stripes(data), ShardSize(|data|)))
  }

  /** Splits the data over 30 shards, the last ones padded, and adds 15 of parity. */
  method EncodeData(data: Bytes) returns (res: Result<Shards>)
    ensures res == Encoded(data)
    ensures res.Ok? <==> data != []
    ensures res.Ok? ==>
              && |res.value| == 45
              && var size := |res.value[0]|;
                 && 30 * (size - 1) < |data| <= 30 * size
                 && (forall i :: 0 <= i < 45 ==> |res.value[i]| == size)
                 && forall i, k :: 0 <= i < 30 && 0 <= k < size ==>
                      res.value[i][k] == if i * size + k < |data| then data[i * size + k] else 0
  {
    hide Stripes, WithParity;
    var shardSize := (|data| + DATA_SHARDS - 1) / DATA_SHARDS;
    var shards := Split(data, shardSize);
    if shardSize == 0 {
      return Err("EmptyShard");
    }
    EncodedShape(data);
    return Ok(WithParity(shards, shardSize));
  }

  method Split(data: Bytes, shardSize: nat) returns (shards: Shards)
    requires shardSize == ShardSize(|data|)
    ensures shards == Stripes(data)
  {
    hide Window;
    shards := seq(DATA_SHARDS, _ => seq(shardSize, _ => 0));
    for i := 0 to DATA_SHARDS
      invariant |shards| == DATA_SHARDS
      invariant forall j :: 0 <= j < i ==> shards[j] == Window(data, j * shardSize, shardSize)
      invariant forall j :: i <= j < DATA_SHARDS ==> shards[j] == seq(shardSize, _ => 0)
    {
      var start := i * shardSize;
      var end := if start + shardSize <= |data| then start + shardSize else |data|;
      WindowFilled(data, start, end, shardSize);
      if end > start {
        shards := shards[i := data[start..end] + shards[i][end - start..]];
      }
    }
    assert shards == Stripes(data);
  }

  lemma WindowFilled(data: Bytes, start: nat, end: nat, size: nat)
    requires end == if start + size <= |data| then start + size else |data|
    ensures var zeros: Bytes := seq(size, _ => 0);
            Window(data, start, size) == if end > start then data[start..end] + zeros[end - start..] else zeros
  {
  }

  lemma EncodedShape(data: Bytes)
    requires data != []
    ensures var s, size := Encoded(data).value, ShardSize(|data|);
            && 30 * (size - 1) < |data| <= 30 * size && |s| == 45
            && (forall i :: 0 <= i < 45 ==> |s[i]| == size)
            && forall i, k :: 0 <= i < 30 && 0 <= k < size ==>
                 s[i][k] == if i * size + k < |data| then data[i * size + k] else 0
  {
    hide ShardFrom;
    CodewordSizes(Stripes(data), ShardSize(|data|));
    ShardSizeIsLeast(|data|, ShardSize(|data|));
    ShardSizeIsLeast(|data|, ShardSize(|data|) - 1);
  }

  function Concat(shards: Shards): Bytes {
    if shards == [] then [] else Concat(shards[..|shards| - 1]) + shards[|shards| - 1]
  }

  function DataPart(r: Received): Shards
    requires |r| == TOTAL_SHARDS && forall i :: 0 <= i < TOTAL_SHARDS ==> r[i].Some?
  {
    seq(DATA_SHARDS, i requires 0 <= i < DATA_SHARDS => r[i].value)
  }

  function Truncate(s: Bytes, n: nat): Bytes { if n <= |s| then s[..n] else s }

  /** What `decode_data` is to compute. */
  function Decoded(r: Received, originalLen: nat): Result<Bytes> {
    match Reconstruct(r)
    case Err(e) => Err(e)
    case Ok(full) => Ok(Truncate(Concat(DataPart(full)), originalLen))
  }

  method DecodeData(r: Received, originalLen: nat) returns (res: Result<Bytes>)
    ensures res == Decoded(r, originalLen)
    ensures |r| != TOTAL_SHARDS ==> res.Err?
  {
    hide Reconstruct;
    var reconstructed := Reconstruct(r);
    if reconstructed.Err? {
      return Err(reconstructed.error);
    }
    var shards := reconstructed.value;
    var result: Bytes := [];
    for i := 0 to DATA_SHARDS
      invariant result == Concat(DataPart(shards)[..i])
    {
      if shards[i].Some? {
        result := result + shards[i].value;
      }
      assert DataPart(shards)[..i + 1][..i] == DataPart(shards)[..i];
    }
    assert DataPart(shards)[..DATA_SHARDS] == DataPart(shards);
    if originalLen <= |result| {
      result := result[..originalLen];
    }
    return Ok(result);
  }

  // ----- Round trip -----

  lemma PresentFacts(r: Received, from: nat, n: nat)
    requires from <= |r|
    ensures |Present(r, from, n)| == n <==> Count(r, from) >= n
    ensures Present(r, from, n) == [] <==> n == 0 || Count(r, from) == 0
    decreases |r| - from
  {
    if from < |r| && n > 0 {
      PresentFacts(r, from + 1, if r[from].Some? then n - 1 else n);
    }
  }

  /** How many shards from `from` on are present. */
  function Count(r: Received, from: nat): nat
    requires from <= |r|
    decreases |r| - from
  {
    if from == |r| then 0 else (if r[from].Some? then 1 else 0) + Count(r, from + 1)
  }

  /** `r` is what is left of `shards` when some of them are lost. */
  ghost predicate SurvivorsOf(r: Received, shards: Shards) {
    |r| == |shards| && forall i :: 0 <= i < |r| && r[i].Some? ==> r[i].value == shards[i]
  }

  lemma CodewordShard(stripes: Shards, size: nat, i: nat)
    requires |stripes| == DATA_SHARDS && (forall k :: 0 <= k < |stripes| ==> |stripes[k]| == size) && i < TOTAL_SHARDS
    ensures WithParity(stripes, size)[i] == ShardFrom(Upto(DATA_SHARDS), stripes, size, i)
  {
    hide Symbol;
    if i < DATA_SHARDS {
      forall c | 0 <= c < size ensures stripes[i][c] == Symbol(Upto(DATA_SHARDS), Column(stripes, size, c), i) {
        Systematic(Column(stripes, size, c), i);
      }
    }
  }

  /** A shard computed from any 30 shards of a codeword is the codeword's own. */
  lemma ShardRecovered(stripes: Shards, size: nat, idx: seq<nat>, known: Shards, i: nat)
    requires |stripes| == DATA_SHARDS && (forall k :: 0 <= k < |stripes| ==> |stripes[k]| == size)
    requires |idx| == |known| == DATA_SHARDS && Increasing(idx) && i < TOTAL_SHARDS
    requires forall k :: 0 <= k < DATA_SHARDS ==> known[k] == WithParity(stripes, size)[idx[k]] && |known[k]| == size
    ensures ShardFrom(idx, known, size, i) == WithParity(stripes, size)[i]
  {
    hide Symbol, WithParity;
    CodewordShard(stripes, size, i);
    forall c | 0 <= c < size
      ensures Symbol(idx, Column(known, size, c), i) == Symbol(Upto(DATA_SHARDS), Column(stripes, size, c), i)
    {
      forall k | 0 <= k < DATA_SHARDS
        ensures Column(known, size, c)[k] == CodeSymbol(Column(stripes, size, c), idx[k])
      {
        CodewordShard(stripes, size, idx[k]);
      }
      AnyThirtyDetermine(Column(stripes, size, c), idx, Column(known, size, c), i);
    }
  }

  lemma CodewordSizes(stripes: Shards, size: nat)
    requires |stripes| == DATA_SHARDS && forall k :: 0 <= k < |stripes| ==> |stripes[k]| == size
    ensures forall i :: 0 <= i < TOTAL_SHARDS ==> |WithParity(stripes, size)[i]| == size
  {
    hide ShardFrom;
    forall i | 0 <= i < TOTAL_SHARDS ensures |WithParity(stripes, size)[i]| == size {
      CodewordShard(stripes, size, i);
    }
  }

  /** From at least 30 survivors the crate recovers every shard; from fewer it reports an error. */
  lemma ReconstructsCodeword(stripes: Shards, size: nat, r: Received)
    requires |stripes| == DATA_SHARDS && size > 0 && forall k :: 0 <= k < |stripes| ==> |stripes[k]| == size
    requires SurvivorsOf(r, WithParity(stripes, size))
    ensures Reconstruct(r).Ok? <==> Count(r, 0) >= DATA_SHARDS
    ensures Reconstruct(r).Ok? ==>
              forall i :: 0 <= i < TOTAL_SHARDS ==> Reconstruct(r).value[i] == Some(WithParity(stripes, size)[i])
  {
    hide WithParity, ShardFrom;
    CodewordSizes(stripes, size);
    PresentFacts(r, 0, DATA_SHARDS);
    var idx := Present(r, 0, DATA_SHARDS);
    assert SameSize(r);
    if |idx| == DATA_SHARDS {
      var known: Shards := seq(DATA_SHARDS, k requires 0 <= k < DATA_SHARDS => r[idx[k]].value);
      assert r[idx[0]].Some? && |r[idx[0]].value| == size;
      forall i | 0 <= i < TOTAL_SHARDS ensures ShardFrom(idx, known, size, i) == WithParity(stripes, size)[i] {
        ShardRecovered(stripes, size, idx, known, i);
      }
    }
  }

  lemma {:induction false} ConcatWindows(shards: Shards, data: Bytes, size: nat)
    requires forall i :: 0 <= i < |shards| ==> shards[i] == Window(data, i * size, size)
    ensures Concat(shards) == Window(data, 0, |shards| * size)
  {
    if shards != [] {
      var last := |shards| - 1;
      ConcatWindows(shards[..last], data, size);
      assert |shards| * size == last * size + size;
    }
  }

  lemma EnoughWindows(len: nat)
    ensures DATA_SHARDS * ShardSize(len) >= len
    ensures len > 0 ==> ShardSize(len) > 0
  {
  }

  /** Every shard set left of an encoded file decodes to the file if it holds
      30 shards, and to an error otherwise. */
  lemma RoundTrip(data: Bytes, r: Received)
    requires data != [] && SurvivorsOf(r, Encoded(data).value)
    ensures Count(r, 0) >= DATA_SHARDS ==> Decoded(r, |data|) == Ok(data)
    ensures Count(r, 0) < DATA_SHARDS ==> Decoded(r, |data|).Err?
  {
    hide WithParity, Reconstruct, Concat, Window;
    var stripes, size := Stripes(data), ShardSize(|data|);
    EnoughWindows(|data|);
    ReconstructsCodeword(stripes, size, r);
    if Count(r, 0) >= DATA_SHARDS {
      var full := Reconstruct(r).value;
      DataShardsKept(stripes, size, full);
      StripesConcat(data);
    }
  }

  lemma DataShardsKept(stripes: Shards, size: nat, full: Received)
    requires |stripes| == DATA_SHARDS && forall k :: 0 <= k < |stripes| ==> |stripes[k]| == size
    requires |full| == TOTAL_SHARDS
    requires forall i :: 0 <= i < TOTAL_SHARDS ==> full[i] == Some(WithParity(stripes, size)[i])
    ensures DataPart(full) == stripes
  {
    hide ShardFrom;
  }

  lemma StripesConcat(data: Bytes)
    ensures Truncate(Concat(Stripes(data)), |data|) == data
  {
    hide Concat;
    ConcatWindows(Stripes(data), data, ShardSize(|data|));
    EnoughWindows(|data|);
    assert |Stripes(data)| * ShardSize(|data|) >= |data|;
    assert Window(data, 0, DATA_SHARDS * ShardSize(|data|))[..|data|] == data;
  }
}
