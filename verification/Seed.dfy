/** The seed generator: splitting a total across tenants by weight, and batching rows into numbered placeholders. */
module Seed {
  import opened Calendar

  const BATCH_SIZE := 500

  // ---- apportionment ----

  datatype SeedTenant = SeedTenant(id: string, employeeCount: nat)

  function WeightSum(tenants: seq<SeedTenant>): nat {
    if tenants == [] then 0 else WeightSum(tenants[..|tenants| - 1]) + tenants[|tenants| - 1].employeeCount
  }

  predicate Splittable(tenants: seq<SeedTenant>) {
    && (forall i, j :: 0 <= i < j < |tenants| ==> tenants[i].id != tenants[j].id)
    && (forall i :: 0 <= i < |tenants| ==> tenants[i].employeeCount > 0)
  }

  /** Sum of the counts that a map gives to the tenants. */
  function CountSum(counts: map<string, int>, tenants: seq<SeedTenant>): int
    requires forall i :: 0 <= i < |tenants| ==> tenants[i].id in counts
  {
    if tenants == [] then 0 else
      CountSum(counts, tenants[..|tenants| - 1]) + counts[tenants[|tenants| - 1].id]
  }

  /** Twice the weight sum times the distance of a count from its exact quota. */
  function Error2(count: int, total: nat, weight: nat, sum: nat): int {
    2 * sum * count - 2 * total * weight
  }

  predicate Within(x: int, bound: int) {
    -bound <= x <= bound
  }

  /** The nearest whole number, the upper one of two that are equally near. */
  predicate IsRoundedHalfUp(count: int, total: nat, weight: nat, sum: nat) {
    0 - sum < Error2(count, total, weight, sum) <= sum
  }

  /** Half-up rounding is at most one half away. */
  lemma RoundingError(total: nat, weight: nat, sum: nat)
    requires sum > 0
    ensures Within(Error2(RoundDiv(total * weight, sum), total, weight, sum), sum)
    ensures IsRoundedHalfUp(RoundDiv(total * weight, sum), total, weight, sum)
  {
    var a, b := 2 * (total * weight) + sum, 2 * sum;
    var q := a / b;
    assert q * b + a % b == a && 0 <= a % b < b;
    assert 2 * sum * q == q * b;
    assert 2 * total * weight == 2 * (total * weight);
  }

  function Rounded(tenants: seq<SeedTenant>, total: nat, sum: nat): seq<int>
    requires sum > 0
  {
    seq(|tenants|, i requires 0 <= i < |tenants| => RoundDiv(total * tenants[i].employeeCount, sum))
  }

  function SeqSum(s: seq<int>): int {
    if s == [] then 0 else SeqSum(s[..|s| - 1]) + s[|s| - 1]
  }

  /** The rounding errors of n tenants add up to at most n halves. */
  lemma {:induction false} ErrorsAddUp(tenants: seq<SeedTenant>, total: nat, sum: nat)
    requires sum > 0
    ensures Within(2 * sum * SeqSum(Rounded(tenants, total, sum)) - 2 * total * WeightSum(tenants), |tenants| * sum)
  {
    if tenants != [] {
      var n := |tenants| - 1;
      var front, w := tenants[..n], tenants[n].employeeCount;
      ErrorsAddUp(front, total, sum);
      RoundingError(total, w, sum);
      assert Rounded(tenants, total, sum)[..n] == Rounded(front, total, sum);
      var x, y := SeqSum(Rounded(front, total, sum)), RoundDiv(total * w, sum);
      assert SeqSum(Rounded(tenants, total, sum)) == x + y;
      assert 2 * sum * (x + y) == 2 * sum * x + 2 * sum * y;
      assert 2 * total * (WeightSum(front) + w) == 2 * total * WeightSum(front) + 2 * total * w;
      assert (n + 1) * sum == n * sum + sum;
    }
  }

  lemma {:induction false} SumsSplitFirst(tenants: seq<SeedTenant>, total: nat, sum: nat)
    requires sum > 0 && tenants != []
    ensures WeightSum(tenants) == tenants[0].employeeCount + WeightSum(tenants[1..])
    ensures SeqSum(Rounded(tenants, total, sum)) == RoundDiv(total * tenants[0].employeeCount, sum) + SeqSum(Rounded(tenants[1..], total, sum))
  {
    var n := |tenants| - 1;
    assert Rounded(tenants, total, sum)[..n] == Rounded(tenants[..n], total, sum);
    if n > 0 {
      SumsSplitFirst(tenants[..n], total, sum);
      assert tenants[1..][..n - 1] == tenants[..n][1..];
      assert Rounded(tenants[1..], total, sum)[..n - 1] == Rounded(tenants[..n][1..], total, sum);
    }
  }

  lemma DriftIsTheRestsError(total: nat, sum: nat, rest: int, w0: nat, wr: nat, first: int)
    requires sum == w0 + wr && first == total - rest
    ensures 2 * sum * first - 2 * total * w0 == -(2 * sum * rest - 2 * total * wr)
  {
    assert 2 * sum * first == 2 * sum * total - 2 * sum * rest;
    assert 2 * total * sum == 2 * total * w0 + 2 * total * wr;
  }

  /** The first tenant's count when it takes the drift. */
  lemma FirstTakesTheDrift(tenants: seq<SeedTenant>, total: nat, sum: nat, first: int)
    requires tenants != [] && sum == WeightSum(tenants) > 0
    requires first == total - SeqSum(Rounded(tenants[1..], total, sum))
    ensures Within(Error2(first, total, tenants[0].employeeCount, sum), (|tenants| - 1) * sum)
  {
    var rest, w0, wr := SeqSum(Rounded(tenants[1..], total, sum)), tenants[0].employeeCount, WeightSum(tenants[1..]);
    ErrorsAddUp(tenants[1..], total, sum);
    SumsSplitFirst(tenants, total, sum);
    DriftIsTheRestsError(total, sum, rest, w0, wr, first);
  }

  lemma {:induction false} SumOfRounded(counts: map<string, int>, tenants: seq<SeedTenant>, total: nat, sum: nat)
    requires sum > 0
    requires forall i :: 0 <= i < |tenants| ==>
      tenants[i].id in counts && counts[tenants[i].id] == RoundDiv(total * tenants[i].employeeCount, sum)
    ensures CountSum(counts, tenants) == SeqSum(Rounded(tenants, total, sum))
  {
    if tenants != [] {
      var n := |tenants| - 1;
      SumOfRounded(counts, tenants[..n], total, sum);
      assert Rounded(tenants, total, sum)[..n] == Rounded(tenants[..n], total, sum);
    }
  }

  lemma {:induction false} SumWithNewFirst(counts: map<string, int>, counts': map<string, int>, tenants: seq<SeedTenant>)
    requires tenants != [] && Splittable(tenants)
    requires forall i :: 0 <= i < |tenants| ==> tenants[i].id in counts && tenants[i].id in counts'
    requires forall i :: 0 < i < |tenants| ==> counts'[tenants[i].id] == counts[tenants[i].id]
    ensures CountSum(counts', tenants) - counts'[tenants[0].id] == CountSum(counts, tenants) - counts[tenants[0].id]
  {
    if |tenants| > 1 {
      SumWithNewFirst(counts, counts', tenants[..|tenants| - 1]);
    }
  }

  lemma {:induction false} WeightsArePositive(tenants: seq<SeedTenant>)
    requires Splittable(tenants) && tenants != []
    ensures WeightSum(tenants) > 0
  {
  }

  /**
    The counts add up to the total; every tenant but the first is within one half of its exact quota, and the
    first, which takes the rounding drift, within (n - 1) halves.
  */
  method Distribute(tenants: seq<SeedTenant>, total: nat) returns (counts: map<string, int>)
    requires Splittable(tenants)
    ensures forall i :: 0 <= i < |tenants| ==> tenants[i].id in counts
    ensures tenants != [] ==> CountSum(counts, tenants) == total
    ensures forall i :: 0 < i < |tenants| ==>
      && Within(Error2(counts[tenants[i].id], total, tenants[i].employeeCount, WeightSum(tenants)), WeightSum(tenants))
      && IsRoundedHalfUp(counts[tenants[i].id], total, tenants[i].employeeCount, WeightSum(tenants))
    ensures tenants != [] ==>
      Within(Error2(counts[tenants[0].id], total, tenants[0].employeeCount, WeightSum(tenants)), (|tenants| - 1) * WeightSum(tenants))
  {
    counts := map[];
    if tenants == [] {
      return;
    }
    var sum := WeightSum(tenants);
    WeightsArePositive(tenants);
    var handedOut := 0;
    for i := 0 to |tenants|
      invariant forall k :: 0 <= k < i ==>
        tenants[k].id in counts && counts[tenants[k].id] == RoundDiv(total * tenants[k].employeeCount, sum)
      invariant handedOut == SeqSum(Rounded(tenants, total, sum)[..i])
    {
      var c := RoundDiv(total * tenants[i].employeeCount, sum);
      counts := counts[tenants[i].id := c];
      handedOut := handedOut + c;
      assert Rounded(tenants, total, sum)[..i + 1][..i] == Rounded(tenants, total, sum)[..i];
    }
    ghost var rounded := counts;
    assert Rounded(tenants, total, sum)[..|tenants|] == Rounded(tenants, total, sum);
    var first := tenants[0];
    counts := counts[first.id := counts[first.id] + (total - handedOut)];
    SumsSplitFirst(tenants, total, sum);
    FirstTakesTheDrift(tenants, total, sum, counts[first.id]);
    SumOfRounded(rounded, tenants, total, sum);
    SumWithNewFirst(rounded, counts, tenants);
    forall i | 0 < i < |tenants|
      ensures Within(Error2(counts[tenants[i].id], total, tenants[i].employeeCount, sum), sum)
      ensures IsRoundedHalfUp(counts[tenants[i].id], total, tenants[i].employeeCount, sum)
    {
      assert tenants[i].id != first.id;
      RoundingError(total, tenants[i].employeeCount, sum);
    }
  }

  /** The five configured tenants, largest first, whatever their ids. */
  predicate Configured(tenants: seq<SeedTenant>) {
    && |tenants| == 5
    && tenants[0].employeeCount == 50000
    && tenants[1].employeeCount == 25000
    && tenants[2].employeeCount == 15000
    && tenants[3].employeeCount == 7000
    && tenants[4].employeeCount == 3000
  }

  /**
    With the configured weights no tenant gets a negative count, for every total, not even the first one, which
    pays for all the rounding.
  */
  lemma ConfiguredCountsAreNonNegative(tenants: seq<SeedTenant>, total: nat, counts: map<string, int>)
    requires Configured(tenants)
    requires forall i :: 0 <= i < |tenants| ==> tenants[i].id in counts
    requires CountSum(counts, tenants) == total
    requires forall i :: 0 < i < |tenants| ==>
      Within(Error2(counts[tenants[i].id], total, tenants[i].employeeCount, WeightSum(tenants)), WeightSum(tenants))
    ensures forall i :: 0 <= i < |tenants| ==> counts[tenants[i].id] >= 0
  {
    ConfiguredSums(counts, tenants);
    var c := seq(5, i requires 0 <= i < 5 => counts[tenants[i].id]);
    forall i | 0 < i < 5 ensures QuotaBounds(c[i], total, tenants[i].employeeCount / 1000) {
      HalfAQuota(c[i], total, tenants[i].employeeCount);
    }
    FirstPays(total, c[0], c[1], c[2], c[3], c[4]);
    assert forall i :: 0 <= i < 5 ==> c[i] >= 0;
  }

  lemma HalfAQuota(count: int, total: nat, weight: nat)
    requires weight % 1000 == 0
    requires Within(Error2(count, total, weight, 100000), 100000)
    ensures QuotaBounds(count, total, weight / 1000)
  {
    var percent := weight / 1000;
    assert 2 * total * weight == 2000 * (total * percent);
  }

  /** A count within one half of its quota, for a weight given in percent. */
  predicate QuotaBounds(count: int, total: nat, percent: nat) {
    total * percent - 50 <= 100 * count <= total * percent + 50
  }

  lemma FirstPays(total: nat, alpha: int, beta: int, gamma: int, delta: int, epsilon: int)
    requires alpha + beta + gamma + delta + epsilon == total
    requires QuotaBounds(beta, total, 25) && QuotaBounds(gamma, total, 15)
    requires QuotaBounds(delta, total, 7) && QuotaBounds(epsilon, total, 3)
    ensures alpha >= 0 && beta >= 0 && gamma >= 0 && delta >= 0 && epsilon >= 0
  {
  }

  lemma ConfiguredSums(counts: map<string, int>, tenants: seq<SeedTenant>)
    requires Configured(tenants)
    requires forall i :: 0 <= i < |tenants| ==> tenants[i].id in counts
    ensures WeightSum(tenants) == 100000
    ensures CountSum(counts, tenants) ==
      counts[tenants[0].id] + counts[tenants[1].id] + counts[tenants[2].id] + counts[tenants[3].id] + counts[tenants[4].id]
  {
    forall k | 0 < k <= 5
      ensures CountSum(counts, tenants[..k]) == CountSum(counts, tenants[..k - 1]) + counts[tenants[k - 1].id]
      ensures WeightSum(tenants[..k]) == WeightSum(tenants[..k - 1]) + tenants[k - 1].employeeCount
    {
      assert tenants[..k][..k - 1] == tenants[..k - 1];
    }
    assert tenants[..5] == tenants && tenants[..0] == [];
  }

  // ---- batches ----

  /** One INSERT: the bound parameters, and per row the parameter numbers its cells name. */
  datatype Insert<T> = Insert(params: seq<T>, tuples: seq<seq<nat>>)

  function Flatten<T>(rows: seq<seq<T>>): seq<T> {
    if rows == [] then [] else Flatten(rows[..|rows| - 1]) + rows[|rows| - 1]
  }

  /** What the database stores for an INSERT: each placeholder replaced by the parameter it numbers. */
  ghost predicate Stores<T>(insert: Insert<T>, rows: seq<seq<T>>) {
    && |insert.tuples| == |rows|
    && forall r :: 0 <= r < |rows| ==> Binds(insert, insert.tuples[r], rows[r])
  }

  ghost predicate Binds<T>(insert: Insert<T>, tuple: seq<nat>, row: seq<T>) {
    && |tuple| == |row|
    && forall c :: 0 <= c < |row| ==> 0 < tuple[c] <= |insert.params| && insert.params[tuple[c] - 1] == row[c]
  }

  /** Cells are numbered row by row from 1, with no parameter left out or named twice. */
  ghost predicate RowMajor<T>(insert: Insert<T>, rows: seq<seq<T>>) {
    && |insert.tuples| == |rows|
    && insert.params == Flatten(rows)
    && forall r :: 0 <= r < |rows| ==> Consecutive(insert.tuples[r], |Flatten(rows[..r])|, |rows[r]|)
  }

  predicate Consecutive(tuple: seq<nat>, start: nat, width: nat) {
    && |tuple| == width
    && forall c :: 0 <= c < width ==> tuple[c] == start + c + 1
  }

  /** Cell c of row r sits at its row-major place. */
  lemma {:induction false} FlattenAt<T>(rows: seq<seq<T>>, r: nat, c: nat)
    requires r < |rows| && c < |rows[r]|
    ensures |Flatten(rows[..r])| + c < |Flatten(rows)|
    ensures Flatten(rows)[|Flatten(rows[..r])| + c] == rows[r][c]
  {
    var n := |rows| - 1;
    if r < n {
      FlattenAt(rows[..n], r, c);
      assert rows[..n][..r] == rows[..r];
    }
  }

  /** Numbering row by row makes every placeholder name exactly its own cell. */
  lemma RowMajorStores<T>(insert: Insert<T>, rows: seq<seq<T>>)
    requires RowMajor(insert, rows)
    ensures Stores(insert, rows)
  {
    forall r | 0 <= r < |rows| ensures Binds(insert, insert.tuples[r], rows[r]) {
      assert Consecutive(insert.tuples[r], |Flatten(rows[..r])|, |rows[r]|);
      forall c | 0 <= c < |rows[r]|
        ensures 0 < insert.tuples[r][c] <= |insert.params| && insert.params[insert.tuples[r][c] - 1] == rows[r][c]
      {
        FlattenAt(rows, r, c);
      }
    }
  }

  /** Numbers one row's cells after the parameters already pushed. */
  method BindRow<T>(row: seq<T>, pushed: seq<T>) returns (params: seq<T>, tuple: seq<nat>)
    ensures params == pushed + row
    ensures Consecutive(tuple, |pushed|, |row|)
  {
    params, tuple := pushed, [];
    for c := 0 to |row|
      invariant params == pushed + row[..c]
      invariant Consecutive(tuple, |pushed|, c)
    {
      params := params + [row[c]];
      tuple := tuple + [|params|];
    }
  }

  method BuildInsert<T>(chunk: seq<seq<T>>) returns (insert: Insert<T>)
    ensures RowMajor(insert, chunk) && Stores(insert, chunk)
  {
    var params: seq<T>, tuples: seq<seq<nat>> := [], [];
    for r := 0 to |chunk|
      invariant params == Flatten(chunk[..r])
      invariant |tuples| == r
      invariant forall k :: 0 <= k < r ==> Consecutive(tuples[k], |Flatten(chunk[..k])|, |chunk[k]|)
    {
      var tuple;
      params, tuple := BindRow(chunk[r], params);
      tuples := tuples + [tuple];
      assert chunk[..r + 1][..r] == chunk[..r];
    }
    assert chunk[..|chunk|] == chunk;
    insert := Insert(params, tuples);
    RowMajorStores(insert, chunk);
  }

  /** Statement k stores chunk k; every chunk is full but the last, and none is empty. */
  ghost predicate Batched<T>(sent: seq<Insert<T>>, chunks: seq<seq<seq<T>>>) {
    && |sent| == |chunks|
    && (forall k :: 0 <= k < |sent| ==> RowMajor(sent[k], chunks[k]) && Stores(sent[k], chunks[k]))
    && (forall k :: 0 <= k < |sent| ==> 0 < |chunks[k]| <= BATCH_SIZE)
    && (forall k :: 0 <= k < |sent| - 1 ==> |chunks[k]| == BATCH_SIZE)
  }

  lemma FlattenSnoc<T>(chunks: seq<seq<T>>, chunk: seq<T>)
    ensures Flatten(chunks + [chunk]) == Flatten(chunks) + chunk
  {
    assert (chunks + [chunk])[..|chunks|] == chunks;
  }

  lemma BatchedSnoc<T>(sent: seq<Insert<T>>, chunks: seq<seq<seq<T>>>, insert: Insert<T>, chunk: seq<seq<T>>)
    requires Batched(sent, chunks) && RowMajor(insert, chunk) && Stores(insert, chunk) && 0 < |chunk| <= BATCH_SIZE
    requires sent != [] ==> |chunks[|chunks| - 1]| == BATCH_SIZE
    ensures Batched(sent + [insert], chunks + [chunk])
  {
  }

  /** The state of the loop at row i. */
  ghost predicate Progress<T>(rows: seq<seq<T>>, i: nat, sent: seq<Insert<T>>, chunks: seq<seq<seq<T>>>) {
    && Batched(sent, chunks) && Flatten(chunks) == rows[..UpTo(rows, i)]
    && (i <= |rows| && sent != [] ==> |chunks[|sent| - 1]| == BATCH_SIZE)
  }

  /** rows.slice stops at the end of the rows. */
  function UpTo<T>(rows: seq<T>, i: nat): (k: nat)
    ensures k <= |rows| && k <= i
  {
    if i < |rows| then i else |rows|
  }

  lemma ProgressStep<T>(rows: seq<seq<T>>, i: nat, sent: seq<Insert<T>>, chunks: seq<seq<seq<T>>>, insert: Insert<T>)
    requires Progress(rows, i, sent, chunks) && i < |rows|
    requires var chunk := rows[i..UpTo(rows, i + BATCH_SIZE)]; RowMajor(insert, chunk) && Stores(insert, chunk)
    ensures Progress(rows, i + BATCH_SIZE, sent + [insert], chunks + [rows[i..UpTo(rows, i + BATCH_SIZE)]])
  {
    var end := UpTo(rows, i + BATCH_SIZE);
    var chunk := rows[i..end];
    FlattenSnoc(chunks, chunk);
    BatchedSnoc(sent, chunks, insert, chunk);
    assert rows[..i] + chunk == rows[..end];
  }

  /**
    The statements sent store the given rows, in order, each once: there are chunks, none empty and none over
    the batch size, that concatenate to the input and of which statement k stores chunk k.
  */
  method BatchInsert<T>(rows: seq<seq<T>>) returns (sent: seq<Insert<T>>, ghost chunks: seq<seq<seq<T>>>)
    ensures Batched(sent, chunks) && Flatten(chunks) == rows
  {
    sent, chunks := [], [];
    var i := 0;
    while i < |rows|
      invariant Progress(rows, i, sent, chunks)
    {
      var chunk := rows[i..UpTo(rows, i + BATCH_SIZE)];
      var insert := BuildInsert(chunk);
      ProgressStep(rows, i, sent, chunks, insert);
      sent, chunks := sent + [insert], chunks + [chunk];
      i := i + BATCH_SIZE;
    }
    assert rows[..|rows|] == rows;
  }
}
