/**
 * statfs: block counts accumulated over the tiers in 64-bit unsigned arithmetic.
 */
module StatFs {

  const WORD := 0x1_0000_0000_0000_0000

  type Word = x: int | 0 <= x < WORD witness 0

  /** Reduction modulo 2^64. */
  function Wrap(x: int): Word
    decreases if x < 0 then WORD - x else x
  {
    if x < 0 then Wrap(x + WORD) else if x >= WORD then Wrap(x - WORD) else x
  }

  lemma {:induction false} WrapOffset(x: int) returns (k: int)
    ensures Wrap(x) == x + k * WORD
    decreases if x < 0 then WORD - x else x
  {
    if x < 0 {
      k := WrapOffset(x + WORD);
      k := k + 1;
    } else if x >= WORD {
      k := WrapOffset(x - WORD);
      k := k - 1;
    } else {
      k := 0;
    }
  }

  lemma {:induction false} WrapShift(x: int, k: nat)
    ensures Wrap(x + k * WORD) == Wrap(x) == Wrap(x - k * WORD)
  {
    if k > 0 {
      WrapShift(x, k - 1);
      WrapOnce(x + (k - 1) * WORD);
      WrapOnce(x - k * WORD);
    }
  }

  lemma WrapOnce(x: int)
    ensures Wrap(x + WORD) == Wrap(x)
    decreases if x < 0 then -x else x
  {
  }

  /** What the operating system reports for the file system under a tier. */
  datatype FsStats = FsStats(bsize: Word, frsize: Word, files: Word, ffree: Word, favail: Word)

  function BlockSize(s: FsStats): Word { s.bsize }
  function FragmentSize(s: FsStats): Word { s.frsize }
  function Files(s: FsStats): Word { s.files }
  function FreeFiles(s: FsStats): Word { s.ffree }
  function AvailableFiles(s: FsStats): Word { s.favail }

  datatype Query = Stats(stats: FsStats) | Failed(errno: int)

  datatype TierUse = TierUse(quota: Word, usage: Word, query: Query)
  {
    /** A file system reports a positive block size. */
    predicate Sane() {
      query.Stats? ==> query.stats.bsize > 0
    }

    function QuotaBlocks(): int
      requires query.Stats? && Sane()
    {
      quota / query.stats.bsize
    }

    function UsedBlocks(): int
      requires query.Stats? && Sane()
    {
      usage / query.stats.bsize
    }
  }

  datatype Report = Report(bsize: Word, frsize: Word, blocks: Word, bfree: Word, bavail: Word,
                           files: Word, ffree: Word, favail: Word)

  const ENOENT := 2

  predicate AllAnswer(tiers: seq<TierUse>) {
    forall t <- tiers :: t.query.Stats? && t.Sane()
  }

  function Blocks(tiers: seq<TierUse>): int
    requires AllAnswer(tiers)
  {
    if tiers == [] then 0 else Blocks(tiers[..|tiers| - 1]) + tiers[|tiers| - 1].QuotaBlocks()
  }

  function Used(tiers: seq<TierUse>): int
    requires AllAnswer(tiers)
  {
    if tiers == [] then 0 else Used(tiers[..|tiers| - 1]) + tiers[|tiers| - 1].UsedBlocks()
  }

  /** The first value that is not zero, or zero. */
  function FirstNonzero(values: seq<Word>): Word {
    if values == [] then 0 else if values[0] != 0 then values[0] else FirstNonzero(values[1..])
  }

  lemma {:induction false} FirstNonzeroAppend(values: seq<Word>, last: Word)
    ensures FirstNonzero(values + [last]) == if FirstNonzero(values) != 0 then FirstNonzero(values) else last
  {
    if values == [] {
      assert (values + [last])[1..] == [];
    } else {
      FirstNonzeroAppend(values[1..], last);
      assert (values + [last])[1..] == values[1..] + [last];
    }
  }

  function Total(values: seq<Word>): nat {
    if values == [] then 0 else Total(values[..|values| - 1]) + values[|values| - 1]
  }

  function Field(tiers: seq<TierUse>, f: FsStats -> Word): (values: seq<Word>)
    requires AllAnswer(tiers)
  {
    seq(|tiers|, i requires 0 <= i < |tiers| => f(tiers[i].query.stats))
  }

  /** The report accumulated over the tiers, before the totals are combined. */
  function Accumulated(tiers: seq<TierUse>): Report
    requires AllAnswer(tiers)
  {
    Report(FirstNonzero(Field(tiers, BlockSize)), FirstNonzero(Field(tiers, FragmentSize)),
           Wrap(Blocks(tiers)), Wrap(-Used(tiers)), 0,
           Wrap(Total(Field(tiers, Files))),
           FirstNonzero(Field(tiers, FreeFiles)), FirstNonzero(Field(tiers, AvailableFiles)))
  }

  /** Wrapping after every addition is wrapping once at the end. */
  lemma WrapAdd(a: int, b: int)
    ensures Wrap(Wrap(a) + b) == Wrap(a + b)
  {
    var k := WrapOffset(a);
    if k >= 0 {
      WrapShift(a + b, k);
    } else {
      WrapShift(a + b, -k);
    }
  }

  lemma FieldStep(before: seq<TierUse>, t: TierUse, f: FsStats -> Word)
    requires AllAnswer(before + [t]) && AllAnswer(before)
    ensures Field(before + [t], f) == Field(before, f) + [f(t.query.stats)]
    ensures FirstNonzero(Field(before + [t], f))
         == if FirstNonzero(Field(before, f)) != 0 then FirstNonzero(Field(before, f)) else f(t.query.stats)
    ensures Wrap(Total(Field(before + [t], f))) == Wrap(Wrap(Total(Field(before, f))) + f(t.query.stats))
  {
    var values := Field(before, f);
    assert Field(before + [t], f) == values + [f(t.query.stats)];
    FirstNonzeroAppend(values, f(t.query.stats));
    assert (values + [f(t.query.stats)])[..|values|] == values;
    WrapAdd(Total(values), f(t.query.stats));
  }

  lemma BlocksStep(before: seq<TierUse>, t: TierUse)
    requires AllAnswer(before + [t]) && AllAnswer(before)
    ensures Blocks(before + [t]) == Blocks(before) + t.QuotaBlocks()
    ensures Used(before + [t]) == Used(before) + t.UsedBlocks()
    ensures Wrap(Blocks(before + [t])) == Wrap(Wrap(Blocks(before)) + t.QuotaBlocks())
    ensures Wrap(-Used(before + [t])) == Wrap(Wrap(-Used(before)) - t.UsedBlocks())
  {
    assert (before + [t])[..|before|] == before;
    WrapAdd(Blocks(before), t.QuotaBlocks());
    WrapAdd(-Used(before), -t.UsedBlocks());
  }

  lemma FieldsStep(before: seq<TierUse>, t: TierUse)
    requires AllAnswer(before) && t.query.Stats? && t.Sane()
    ensures AllAnswer(before + [t])
    ensures var a, r, stats := Accumulated(before), Accumulated(before + [t]), t.query.stats;
      && r.bsize == (if a.bsize != 0 then a.bsize else stats.bsize)
      && r.frsize == (if a.frsize != 0 then a.frsize else stats.frsize)
      && r.ffree == (if a.ffree != 0 then a.ffree else stats.ffree)
      && r.favail == (if a.favail != 0 then a.favail else stats.favail)
      && r.bavail == a.bavail == 0
  {
    FieldStep(before, t, BlockSize);
    FieldStep(before, t, FragmentSize);
    FieldStep(before, t, FreeFiles);
    FieldStep(before, t, AvailableFiles);
  }

  lemma FilesStep(before: seq<TierUse>, t: TierUse)
    requires AllAnswer(before) && t.query.Stats? && t.Sane()
    ensures AllAnswer(before + [t])
    ensures Accumulated(before + [t]).files == Wrap(Accumulated(before).files + t.query.stats.files)
  {
    FieldStep(before, t, Files);
  }

  lemma TotalsStep(before: seq<TierUse>, t: TierUse)
    requires AllAnswer(before) && t.query.Stats? && t.Sane()
    ensures AllAnswer(before + [t])
    ensures var a, r := Accumulated(before), Accumulated(before + [t]);
      && r.blocks == Wrap(a.blocks + t.QuotaBlocks())
      && r.bfree == Wrap(a.bfree - t.UsedBlocks())
  {
    BlocksStep(before, t);
  }

  /** One turn of the loop over the tiers. */
  method AddTier(t: TierUse, stbuf: Report, ghost before: seq<TierUse>) returns (r: Report)
    requires AllAnswer(before) && t.query.Stats? && t.Sane() && stbuf == Accumulated(before)
    ensures AllAnswer(before + [t]) && r == Accumulated(before + [t])
  {
    var stats := t.query.stats;
    FieldsStep(before, t);
    FilesStep(before, t);
    TotalsStep(before, t);
    r := stbuf;
    if r.bsize == 0 { r := r.(bsize := stats.bsize); }
    if r.frsize == 0 { r := r.(frsize := stats.frsize); }
    r := r.(blocks := Wrap(r.blocks + t.quota / stats.bsize));
    r := r.(bfree := Wrap(r.bfree - t.usage / stats.bsize));
    r := r.(files := Wrap(r.files + stats.files));
    if r.ffree == 0 { r := r.(ffree := stats.ffree); }
    if r.favail == 0 { r := r.(favail := stats.favail); }
  }

  /** The free-block count reported for all the tiers. */
  function Free(tiers: seq<TierUse>): Word
    requires AllAnswer(tiers)
  {
    Wrap(Blocks(tiers) - Used(tiers))
  }

  /** Fails as the first failing query does, and reports wrapped totals otherwise. */
  method Statfs(tiers: seq<TierUse>) returns (res: int, stbuf: Report)
    requires forall t <- tiers :: t.Sane()
    ensures tiers == [] ==> res == -ENOENT
    ensures tiers != [] && AllAnswer(tiers) ==> res == 0
    ensures !AllAnswer(tiers) ==>
      exists i: nat :: i < |tiers| && AllAnswer(tiers[..i]) && tiers[i].query == Failed(-res)
    ensures AllAnswer(tiers) ==> stbuf == Accumulated(tiers).(bfree := Free(tiers), bavail := Free(tiers))
  {
    stbuf := Report(0, 0, 0, 0, 0, 0, 0, 0);
    res := -ENOENT;
    for i := 0 to |tiers|
      invariant AllAnswer(tiers[..i])
      invariant res == if i == 0 then -ENOENT else 0
      invariant stbuf == Accumulated(tiers[..i])
    {
      var t := tiers[i];
      if t.query.Failed? {
        return -t.query.errno, stbuf;
      }
      assert tiers[..i + 1] == tiers[..i] + [t];
      stbuf := AddTier(t, stbuf, tiers[..i]);
      res := 0;
    }
    assert tiers[..|tiers|] == tiers;
    WrapAdd(-Used(tiers), Wrap(Blocks(tiers)));
    WrapAdd(Blocks(tiers), -Used(tiers));
    stbuf := stbuf.(bfree := Wrap(stbuf.bfree + stbuf.blocks));
    stbuf := stbuf.(bavail := stbuf.bfree);
  }

  /**
   * The free count is the true difference exactly when usage stays within the quotas overall and the
   * difference fits; a pool over its quotas reports the shortfall below 2^64 instead.
   */
  lemma FreeIsExactIff(tiers: seq<TierUse>)
    requires AllAnswer(tiers)
    ensures Free(tiers) == Blocks(tiers) - Used(tiers) <==> 0 <= Blocks(tiers) - Used(tiers) < WORD
    ensures 0 < Used(tiers) - Blocks(tiers) < WORD ==> Free(tiers) == WORD - (Used(tiers) - Blocks(tiers))
  {
    WrapOnce(Blocks(tiers) - Used(tiers));
  }

  /** Tiers each within quota never exceed the quotas overall. */
  lemma {:induction false} WithinQuotasFits(tiers: seq<TierUse>)
    requires AllAnswer(tiers) && forall t <- tiers :: t.usage <= t.quota
    ensures Used(tiers) <= Blocks(tiers)
  {
    if tiers != [] {
      WithinQuotasFits(tiers[..|tiers| - 1]);
      var t := tiers[|tiers| - 1];
      assert t in tiers;
      Floor(t.usage, t.query.stats.bsize);
      Floor(t.quota, t.query.stats.bsize);
      QuotientOrder(t.usage, t.quota, t.query.stats.bsize, t.UsedBlocks(), t.QuotaBlocks());
    }
  }

  lemma Floor(x: nat, d: nat)
    requires d > 0
    ensures d * (x / d) <= x < d * (x / d) + d
  {
  }

  lemma Distribute(b: int, x: int, y: int)
    ensures b * (x + y) == b * x + b * y
  {
  }

  lemma Product(d: nat, x: int, y: int)
    requires x <= y
    ensures d * x <= d * y
  {
  }

  lemma QuotientOrder(a: nat, b: nat, d: nat, q: int, r: int)
    requires a <= b && d * q <= a && b < d * r + d
    ensures q <= r
  {
    Distribute(d, r, 1);
    if q > r {
      Product(d, r + 1, q);
    }
  }

  /** Free bytes by the tiers' own counts. */
  function FreeBytes(tiers: seq<TierUse>): int {
    if tiers == [] then 0 else FreeBytes(tiers[..|tiers| - 1]) + tiers[|tiers| - 1].quota - tiers[|tiers| - 1].usage
  }

  /** Off by less than a block for each of n tiers. */
  predicate Close(error: int, n: nat, b: nat) {
    if n == 0 then error == 0 else -(n * b) < error < n * b
  }

  lemma ErrorStep(b: nat, n: nat, blocks: int, bytes: int, q: int, u: int, quota: int, usage: int)
    requires b > 0 && Close(b * blocks - bytes, n, b)
    requires b * q <= quota < b * q + b && b * u <= usage < b * u + b
    ensures Close(b * (blocks + (q - u)) - (bytes + quota - usage), n + 1, b)
  {
  }

  lemma {:induction false} BlockError(tiers: seq<TierUse>, b: nat)
    requires b > 0 && AllAnswer(tiers) && forall t <- tiers :: t.query.stats.bsize == b
    ensures Close(b * (Blocks(tiers) - Used(tiers)) - FreeBytes(tiers), |tiers|, b)
  {
    if tiers != [] {
      var before, t := tiers[..|tiers| - 1], tiers[|tiers| - 1];
      BlockError(before, b);
      assert t in tiers;
      Floor(t.quota, b);
      Floor(t.usage, b);
      var q, u := t.QuotaBlocks(), t.UsedBlocks();
      ErrorStep(b, |before|, Blocks(before) - Used(before), FreeBytes(before), q, u, t.quota, t.usage);
      assert Blocks(tiers) - Used(tiers) == Blocks(before) - Used(before) + (q - u);
    }
  }

  /**
   * Each division drops less than a block: with one block size the free bytes reported are less
   * than n blocks away from the exact figure, as long as the count itself is not wrapped.
   */
  lemma {:induction false} RoundingError(tiers: seq<TierUse>, b: nat)
    requires b > 0 && AllAnswer(tiers) && forall t <- tiers :: t.query.stats.bsize == b
    requires 0 <= Blocks(tiers) - Used(tiers) < WORD
    ensures Close(b * Free(tiers) - FreeBytes(tiers), |tiers|, b)
  {
    BlockError(tiers, b);
    FreeIsExactIff(tiers);
  }

  /** The block size reported is the first tier's. */
  lemma ReportedBlockSize(tiers: seq<TierUse>)
    requires tiers != [] && AllAnswer(tiers)
    ensures Accumulated(tiers).bsize == tiers[0].query.stats.bsize
  {
    var values := Field(tiers, BlockSize);
    assert tiers[0] in tiers && values[0] == BlockSize(tiers[0].query.stats);
  }

  // ------------------------------------------------- different block sizes

  /** A pool over file systems with the given answers, every tier within its quota. */
  predicate Pool(tiers: seq<TierUse>, answers: seq<FsStats>) {
    |tiers| == |answers| && forall i :: 0 <= i < |tiers| ==>
      tiers[i].query == Stats(answers[i]) && tiers[i].Sane() && tiers[i].usage <= tiers[i].quota
  }

  /** Only tier j has a quota, and nothing is used. */
  function OnlyTier(answers: seq<FsStats>, j: nat, quota: Word): (tiers: seq<TierUse>)
    ensures |tiers| == |answers|
    ensures forall i :: 0 <= i < |tiers| ==> tiers[i] == TierUse(if i == j then quota else 0, 0, Stats(answers[i]))
  {
    seq(|answers|, i requires 0 <= i < |answers| => TierUse(if i == j then quota else 0, 0, Stats(answers[i])))
  }

  lemma ZeroBlocks(d: nat)
    requires d > 0
    ensures 0 / d == 0
  {
  }

  lemma {:induction false} OnlyTierCounts(tiers: seq<TierUse>, j: nat)
    requires AllAnswer(tiers)
    requires forall i :: 0 <= i < |tiers| ==> tiers[i].usage == 0 && (i != j ==> tiers[i].quota == 0)
    ensures Used(tiers) == 0
    ensures Blocks(tiers) == if j < |tiers| then tiers[j].QuotaBlocks() else 0
    ensures FreeBytes(tiers) == if j < |tiers| then tiers[j].quota else 0
  {
    if tiers != [] {
      var n := |tiers| - 1;
      OnlyTierCounts(tiers[..n], j);
      assert tiers[n] in tiers;
      ZeroBlocks(tiers[n].query.stats.bsize);
    }
  }

  lemma Quotient(x: nat, d: nat)
    requires d > 0
    ensures (x * d) / d == x
  {
    Floor(x * d, d);
    QuotientOrder(x * d, x * d, d, x, (x * d) / d);
    QuotientOrder(x * d, x * d, d, (x * d) / d, x);
  }

  lemma FarApart(n: nat, a: nat, b: nat)
    requires n > 0 && a > 0 && a != b
    ensures !Close(a * (n * a) - (n * a) * b, n, a)
  {
    var e := n * a;
    assert a * e - e * b == e * (a - b);
    if a > b {
      Product(e, 1, a - b);
    } else {
      Product(e, 1, b - a);
      assert e * (b - a) == -(e * (a - b));
    }
  }

  /** A tier whose block size is not the one reported, with a quota of n b0 bj bytes, breaks the bound. */
  lemma {:induction false} MixedBlockSizes(answers: seq<FsStats>, j: nat) returns (tiers: seq<TierUse>)
    requires j < |answers| && forall a <- answers :: a.bsize > 0
    requires answers[j].bsize != answers[0].bsize && |answers| * answers[0].bsize * answers[j].bsize < WORD
    ensures Pool(tiers, answers) && AllAnswer(tiers) && Blocks(tiers) < WORD
    ensures var b := Accumulated(tiers).bsize; !Close(b * Free(tiers) - FreeBytes(tiers), |tiers|, b)
  {
    var n, b, d := |answers|, answers[0].bsize, answers[j].bsize;
    assert answers[0] in answers && answers[j] in answers;
    var blocks := n * b;
    Product(blocks, 1, d);
    tiers := OnlyTier(answers, j, blocks * d);
    OnlyTierCounts(tiers, j);
    Quotient(blocks, d);
    assert Blocks(tiers) == blocks && Free(tiers) == blocks && FreeBytes(tiers) == blocks * d;
    ReportedBlockSize(tiers);
    FarApart(n, b, d);
  }

  /**
   * The bound in units of the block size reported holds for every pool over the given file systems
   * exactly when all their block sizes are that one.
   */
  lemma {:induction false} BlockSizesIff(answers: seq<FsStats>)
    requires answers != [] && forall a <- answers :: a.bsize > 0
    requires forall a <- answers :: |answers| * answers[0].bsize * a.bsize < WORD
    ensures (forall tiers :: Pool(tiers, answers) && AllAnswer(tiers) && Blocks(tiers) < WORD ==>
              var b := Accumulated(tiers).bsize; Close(b * Free(tiers) - FreeBytes(tiers), |tiers|, b))
       <==> forall a <- answers :: a.bsize == answers[0].bsize
  {
    if forall a <- answers :: a.bsize == answers[0].bsize {
      forall tiers | Pool(tiers, answers) && AllAnswer(tiers) && Blocks(tiers) < WORD
        ensures var b := Accumulated(tiers).bsize; Close(b * Free(tiers) - FreeBytes(tiers), |tiers|, b)
      {
        SameSizePool(tiers, answers);
      }
    } else {
      var a :| a in answers && a.bsize != answers[0].bsize;
      var j: nat :| j < |answers| && answers[j] == a;
      var tiers := MixedBlockSizes(answers, j);
    }
  }

  lemma {:induction false} SameSizePool(tiers: seq<TierUse>, answers: seq<FsStats>)
    requires answers != [] && Pool(tiers, answers) && AllAnswer(tiers) && Blocks(tiers) < WORD
    requires forall a <- answers :: a.bsize == answers[0].bsize
    ensures var b := Accumulated(tiers).bsize; Close(b * Free(tiers) - FreeBytes(tiers), |tiers|, b)
  {
    ReportedBlockSize(tiers);
    forall t | t in tiers
      ensures t.query.stats.bsize == answers[0].bsize && t.usage <= t.quota
    {
      var i :| 0 <= i < |tiers| && tiers[i] == t;
      assert answers[i] in answers;
    }
    WithinQuotasFits(tiers);
    UsedNotNegative(tiers);
    RoundingError(tiers, answers[0].bsize);
  }

  lemma {:induction false} UsedNotNegative(tiers: seq<TierUse>)
    requires AllAnswer(tiers)
    ensures 0 <= Used(tiers)
  {
    if tiers != [] {
      var t := tiers[|tiers| - 1];
      assert t in tiers;
      UsedNotNegative(tiers[..|tiers| - 1]);
    }
  }
}
