/** How a large download is cut into ranged requests (internal/transfer/download.go). */
module ChunkPlan {
  import opened Basics

  const MB: nat := 1024 * 1024
  const LARGE_FILE_THRESHOLD: nat := 100 * MB
  const MIN_CHUNK_SIZE: nat := 10 * MB
  const MAX_CHUNK_COUNT: nat := 100

  /** The three demands the chunk size answers: whole mebibytes, not tiny, few chunks. */
  ghost predicate Admissible(total: nat, chunk: nat) {
    chunk % MB == 0 && MIN_CHUNK_SIZE <= chunk && total / MAX_CHUNK_COUNT <= chunk
  }

  function ChunkSize(total: nat): (chunk: nat)
    ensures Admissible(total, chunk)
  {
    var want := Max(total / MAX_CHUNK_COUNT, MIN_CHUNK_SIZE);
    if want % MB == 0 then want else want + (MB - want % MB)
  }

  /** The chunk size is the least admissible one. */
  lemma ChunkSizeIsLeast(total: nat, chunk: nat)
    requires Admissible(total, chunk)
    ensures ChunkSize(total) <= chunk
  {
  }

  method CalculateChunkSize(total: nat) returns (chunkSize: nat)
    ensures Admissible(total, chunkSize)
    ensures forall c: nat :: Admissible(total, c) ==> chunkSize <= c
    ensures chunkSize == ChunkSize(total)
  {
    chunkSize := total / MAX_CHUNK_COUNT;
    if chunkSize < MIN_CHUNK_SIZE {
      chunkSize := MIN_CHUNK_SIZE;
    }
    var remainder := chunkSize % MB;
    if remainder != 0 {
      chunkSize := chunkSize + (MB - remainder);
    }
    forall c: nat | Admissible(total, c) ensures chunkSize <= c {
      ChunkSizeIsLeast(total, c);
    }
  }

  /** The ceiling of total / chunk. */
  function PartCount(total: nat): nat {
    (total + ChunkSize(total) - 1) / ChunkSize(total)
  }

  /** Where part `i` starts, and where part `i - 1` ends. */
  function Offset(total: nat, i: nat): nat {
    Min(i * ChunkSize(total), total)
  }

  lemma Scale(a: nat, b: nat, c: nat)
    requires a <= b
    ensures a * c <= b * c
  {
  }

  /** The ceiling brackets the total between two multiples of the chunk. */
  lemma CeilingBracket(total: nat, chunk: nat)
    requires total > 0 && chunk > 0
    ensures var n := (total + chunk - 1) / chunk; n >= 1 && (n - 1) * chunk < total <= n * chunk
  {
    var n := (total + chunk - 1) / chunk;
    assert total + chunk - 1 == n * chunk + (total + chunk - 1) % chunk;
  }

  /** The ceiling stays within `m` exactly when `m` chunks reach the total. */
  lemma CeilingWithin(total: nat, chunk: nat, m: nat)
    requires total > 0 && chunk > 0
    ensures (total + chunk - 1) / chunk <= m <==> total <= m * chunk
  {
    var n := (total + chunk - 1) / chunk;
    CeilingBracket(total, chunk);
    if n <= m {
      Scale(n, m, chunk);
    } else {
      Scale(m, n - 1, chunk);
    }
  }

  lemma OffsetsClimb(total: nat, i: nat)
    requires total > 0 && i < PartCount(total)
    ensures Offset(total, i) == i * ChunkSize(total) < Offset(total, i + 1)
    ensures Offset(total, i + 1) == Min(Offset(total, i) + ChunkSize(total), total)
  {
    CeilingBracket(total, ChunkSize(total));
    Scale(i, PartCount(total) - 1, ChunkSize(total));
  }

  /** The slices start at 0, end at the total, and each one is a non-empty step
      beginning where the one before ended. */
  lemma PlanCovers(total: nat)
    requires total > 0
    ensures PartCount(total) >= 1
    ensures Offset(total, 0) == 0 && Offset(total, PartCount(total)) == total
    ensures forall i: nat :: i < PartCount(total) ==> Offset(total, i) < Offset(total, i + 1)
  {
    CeilingBracket(total, ChunkSize(total));
    forall i: nat | i < PartCount(total) ensures Offset(total, i) < Offset(total, i + 1) {
      OffsetsClimb(total, i);
    }
  }

  lemma OffsetsMonotone(total: nat, i: nat, j: nat)
    requires i <= j
    ensures Offset(total, i) <= Offset(total, j)
  {
    Scale(i, j, ChunkSize(total));
  }

  /** Every byte of the object lies in some slice ... */
  lemma EachByteInSomeSlice(total: nat, k: nat) returns (i: nat)
    requires k < total
    ensures i < PartCount(total) && Offset(total, i) <= k < Offset(total, i + 1)
  {
    i := 0;
    PlanCovers(total);
    while Offset(total, i + 1) <= k
      invariant i < PartCount(total) && Offset(total, i) <= k
      decreases PartCount(total) - i
    {
      i := i + 1;
    }
  }

  /** ... and in no other. */
  lemma EachByteInOneSlice(total: nat, k: nat, i: nat, j: nat)
    requires Offset(total, i) <= k < Offset(total, i + 1)
    requires Offset(total, j) <= k < Offset(total, j + 1)
    ensures i == j
  {
    if i < j {
      OffsetsMonotone(total, i + 1, j);
    } else if j < i {
      OffsetsMonotone(total, j + 1, i);
    }
  }

  /** MAX_CHUNK_COUNT is overrun, by one part, exactly when the hundredth of the total
      is itself the chunk size and does not divide the total. */
  lemma PartCountBound(total: nat)
    requires total > 0
    ensures PartCount(total) <= MAX_CHUNK_COUNT + 1
    ensures PartCount(total) > MAX_CHUNK_COUNT <==>
              ChunkSize(total) == total / MAX_CHUNK_COUNT && total % MAX_CHUNK_COUNT != 0
  {
    CeilingWithin(total, ChunkSize(total), 100);
    CeilingWithin(total, ChunkSize(total), 101);
    Hundredths(total, ChunkSize(total));
  }

  lemma Hundredths(total: nat, chunk: nat)
    requires total / 100 <= chunk && 100 <= chunk
    ensures total <= 101 * chunk
    ensures total > 100 * chunk <==> chunk == total / 100 && total % 100 != 0
  {
    assert total == 100 * (total / 100) + total % 100;
  }

  /** A size with 101 parts: 1000 MiB and one byte. */
  lemma HundredAndOneParts()
    ensures PartCount(1000 * MB + 1) == 101
  {
    CeilingWithin(1000 * MB + 1, ChunkSize(1000 * MB + 1), 100);
    CeilingWithin(1000 * MB + 1, ChunkSize(1000 * MB + 1), 101);
  }

  /** Range arithmetic on sizes below 2^53 stays inside a signed 64-bit integer. */
  lemma OffsetsFitInt64(total: nat, i: nat)
    requires LARGE_FILE_THRESHOLD <= total < 0x20_0000_0000_0000
    requires i < PartCount(total)
    ensures i * ChunkSize(total) + ChunkSize(total) < 0x7fff_ffff_ffff_ffff
  {
    OffsetsClimb(total, i);
  }
}
