/**
 * Day 9: a disk map. The input digits alternate between the size of a file and the size of the
 * free space after it. Part 1 moves single blocks from the end into the leftmost free blocks
 * and checksums the result; part 2 moves whole files, rightmost first, into the leftmost gap
 * that fits them, each file at most once. The checksum sums position * file id over used blocks.
 */
module Day09 {
  import opened Common

  datatype File = File(id: int, start: int, size: int)

  datatype Disk = Disk(length: int, files: seq<File>)

  // ---------------------------------------------------------------------------------------
  // Layout: files in order, apart from one another
  // ---------------------------------------------------------------------------------------

  /** The end of the first k files: the position just after file k - 1, or 0. */
  function EndOf(files: seq<File>, k: nat): int
    requires k <= |files|
  {
    if k == 0 then 0 else files[k - 1].start + files[k - 1].size
  }

  /** Files have no negative start or size, and each ends at or before the start of every later one. */
  predicate Layout(files: seq<File>)
  {
    (forall k :: 0 <= k < |files| ==> files[k].start >= 0 && files[k].size >= 0)
    && (forall i, j :: 0 <= i < j < |files| ==> files[i].start + files[i].size <= files[j].start)
  }

  /** The gap before file k is not negative. */
  lemma GapBefore(files: seq<File>, k: nat)
    requires Layout(files) && k < |files|
    ensures 0 <= EndOf(files, k) <= files[k].start
  {
  }

  /** No file is empty. */
  predicate NonEmpty(files: seq<File>)
  {
    forall k :: 0 <= k < |files| ==> files[k].size >= 1
  }

  lemma EndsGrow(files: seq<File>, i: nat, j: nat)
    requires Layout(files) && i <= j <= |files|
    ensures 0 <= EndOf(files, i) <= EndOf(files, j)
  {
  }

  // ---------------------------------------------------------------------------------------
  // The blocks of a layout
  // ---------------------------------------------------------------------------------------

  datatype Block = Free | Used(id: int)

  function Repeat(b: Block, n: int): (r: seq<Block>)
    ensures |r| == if n < 0 then 0 else n
    ensures forall i :: 0 <= i < |r| ==> r[i] == b
  {
    if n <= 0 then [] else Repeat(b, n - 1) + [b]
  }

  /** The blocks of the first k files: for each, the free gap before it and then its own blocks. */
  function BlocksUpTo(files: seq<File>, k: nat): (r: seq<Block>)
    requires Layout(files) && k <= |files|
    ensures |r| == EndOf(files, k)
  {
    if k == 0 then []
    else
      GapBefore(files, k - 1);
      BlocksUpTo(files, k - 1) + Repeat(Free, files[k - 1].start - EndOf(files, k - 1)) + Repeat(Used(files[k - 1].id), files[k - 1].size)
  }

  function Blocks(files: seq<File>): seq<Block>
    requires Layout(files)
  {
    BlocksUpTo(files, |files|)
  }

  /** Later files do not change the blocks of earlier ones. */
  lemma {:induction false} BlocksPrefix(files: seq<File>, k: nat, m: nat, p: int)
    requires Layout(files) && k <= m <= |files| && 0 <= p < EndOf(files, k)
    ensures p < |BlocksUpTo(files, m)| && BlocksUpTo(files, m)[p] == BlocksUpTo(files, k)[p]
    decreases m - k
  {
    if k < m {
      EndsGrow(files, k, m - 1);
      BlocksPrefix(files, k, m - 1, p);
    }
  }

  /** The gap before file k is free, and file k's own blocks carry its id. */
  lemma BlockAt(files: seq<File>, k: nat, p: int)
    requires Layout(files) && k < |files| && EndOf(files, k) <= p < files[k].start + files[k].size
    ensures 0 <= p < |Blocks(files)|
    ensures Blocks(files)[p] == if p < files[k].start then Free else Used(files[k].id)
  {
    EndsGrow(files, 0, k);
    BlocksPrefix(files, k + 1, |files|, p);
  }

  // ---------------------------------------------------------------------------------------
  // Parsing
  // ---------------------------------------------------------------------------------------

  /** The sum of the first n digits: where the n-th entry of the disk map begins. */
  function Offset(input: seq<char>, n: nat): int
    requires n <= |input|
  {
    if n == 0 then 0 else Offset(input, n - 1) + DigitValue(input[n - 1])
  }

  lemma {:induction false} OffsetGrows(input: seq<char>, m: nat, n: nat)
    requires m <= n <= |input|
    ensures Offset(input, m) <= Offset(input, n)
    decreases n - m
  {
    if m < n {
      OffsetGrows(input, m, n - 1);
    }
  }

  /**
   * parseDisk: the digits at even positions are files with ids 0, 1, 2, ..., each starting
   * where the digits before it add up to; the length is the sum of all digits.
   */
  method ParseDisk(input: seq<char>) returns (disk: Disk)
    ensures |disk.files| == (|input| + 1) / 2
    ensures forall k :: 0 <= k < |disk.files| ==>
      disk.files[k] == File(k, Offset(input, 2 * k), DigitValue(input[2 * k]))
    ensures disk.length == Offset(input, |input|)
  {
    var files: seq<File> := [];
    var currentOffset := 0;
    var currentId := 0;
    var fileNext := true;
    for i := 0 to |input|
      invariant currentOffset == Offset(input, i)
      invariant fileNext <==> i % 2 == 0
      invariant currentId == |files| == (i + 1) / 2
      invariant forall k :: 0 <= k < |files| ==> files[k] == File(k, Offset(input, 2 * k), DigitValue(input[2 * k]))
    {
      var value := DigitValue(input[i]);
      if !fileNext {
        fileNext := true;
      } else {
        files := files + [File(currentId, currentOffset, value)];
        currentId := currentId + 1;
        fileNext := false;
      }
      currentOffset := currentOffset + value;
    }
    disk := Disk(currentOffset, files);
  }

  /** Parsed files are in order and apart, the first at 0, and all lie within the disk's length. */
  lemma ParsedLayout(input: seq<char>, disk: Disk)
    requires |disk.files| == (|input| + 1) / 2
    requires forall k :: 0 <= k < |disk.files| ==>
      disk.files[k] == File(k, Offset(input, 2 * k), DigitValue(input[2 * k]))
    requires disk.length == Offset(input, |input|)
    ensures Layout(disk.files)
    ensures |disk.files| > 0 ==> disk.files[0].start == 0
    ensures EndOf(disk.files, |disk.files|) <= disk.length
  {
    var files := disk.files;
    forall k | 0 <= k < |files|
      ensures files[k].start >= 0
    {
      OffsetGrows(input, 0, 2 * k);
    }
    forall i, j | 0 <= i < j < |files|
      ensures files[i].start + files[i].size <= files[j].start
    {
      assert files[i].start + files[i].size == Offset(input, 2 * i + 1);
      OffsetGrows(input, 2 * i + 1, 2 * j);
    }
    if |files| > 0 {
      var n := |files|;
      assert EndOf(files, n) == Offset(input, 2 * n - 1);
      OffsetGrows(input, 2 * n - 1, |input|);
    }
  }

  /** The parsed files are all non-empty exactly when no file digit of the disk map is 0. */
  lemma ParsedNonEmpty(input: seq<char>, disk: Disk)
    requires |disk.files| == (|input| + 1) / 2
    requires forall k :: 0 <= k < |disk.files| ==>
      disk.files[k] == File(k, Offset(input, 2 * k), DigitValue(input[2 * k]))
    ensures NonEmpty(disk.files) <==> forall k :: 0 <= k < |input| && k % 2 == 0 ==> DigitValue(input[k]) >= 1
  {
    if NonEmpty(disk.files) {
      forall k | 0 <= k < |input| && k % 2 == 0
        ensures DigitValue(input[k]) >= 1
      {
        assert disk.files[k / 2].size == DigitValue(input[k]);
      }
    }
  }

  // ---------------------------------------------------------------------------------------
  // The checksum of a layout (part 2)
  // ---------------------------------------------------------------------------------------

  /** Position times id, summed over the used blocks among the first m. */
  function Weighted(blocks: seq<Block>, m: nat): int
    requires m <= |blocks|
  {
    if m == 0 then 0
    else Weighted(blocks, m - 1) + (if blocks[m - 1].Used? then (m - 1) * blocks[m - 1].id else 0)
  }

  function Min(a: int, b: int): int
  {
    if a < b then a else b
  }

  /** What computeChecksum adds up: the used blocks of the layout below the disk's length. */
  function Checksum(disk: Disk): int
    requires Layout(disk.files)
  {
    var blocks := Blocks(disk.files);
    Weighted(blocks, if disk.length < 0 then 0 else Min(disk.length, |blocks|))
  }

  /**
   * The state of computeChecksum's scan: the cursor lies in the current file or the gap before
   * it (or past the last file), and the sum covers the blocks before the cursor.
   */
  ghost predicate Scanning(files: seq<File>, idx: nat, cursor: int, checksum: int)
  {
    Layout(files) && NonEmpty(files) && 0 <= cursor && idx <= |files|
    && (idx < |files| ==> EndOf(files, idx) <= cursor < files[idx].start + files[idx].size)
    && (idx == |files| ==> EndOf(files, idx) <= cursor)
    && checksum == Weighted(Blocks(files), Min(cursor, |Blocks(files)|))
  }

  /** One more position of the cursor: inside file idx, it adds position * id once past the gap. */
  lemma ScanStep(files: seq<File>, idx: nat, cursor: int, checksum: int)
    requires Scanning(files, idx, cursor, checksum)
    ensures idx < |files| ==>
      var f := files[idx];
      Scanning(files, if cursor == f.start + f.size - 1 then idx + 1 else idx, cursor + 1,
        if cursor < f.start then checksum else checksum + cursor * f.id)
    ensures idx == |files| ==> Scanning(files, idx, cursor + 1, checksum)
  {
    var blocks := Blocks(files);
    if idx < |files| {
      BlockAt(files, idx, cursor);
      EndsGrow(files, idx + 1, |files|);
      assert Weighted(blocks, cursor + 1) == Weighted(blocks, cursor) + (if cursor < files[idx].start then 0 else cursor * files[idx].id);
    }
  }

  /**
   * computeChecksum: one cursor over the disk and one index into the files; the cursor moves
   * to the next file once it passes the last block of the current one, so no file may be empty.
   */
  method ComputeChecksum(disk: Disk) returns (checksum: int)
    requires Layout(disk.files) && NonEmpty(disk.files)
    ensures checksum == Checksum(disk)
  {
    checksum := 0;
    var currentFileIdx := 0;
    var cursor := 0;
    while cursor < disk.length
      invariant 0 <= cursor && (disk.length >= 0 ==> cursor <= disk.length) && (disk.length < 0 ==> cursor == 0)
      invariant Scanning(disk.files, currentFileIdx, cursor, checksum)
    {
      ScanStep(disk.files, currentFileIdx, cursor, checksum);
      if currentFileIdx >= |disk.files| {
        cursor := cursor + 1;
        continue;
      }
      var currentFile := disk.files[currentFileIdx];
      if cursor < currentFile.start {
        cursor := cursor + 1;
        continue;
      }
      var value := currentFile.id;
      checksum := checksum + cursor * value;
      if cursor == currentFile.start + currentFile.size - 1 {
        currentFileIdx := currentFileIdx + 1;
      }
      cursor := cursor + 1;
    }
  }

  // ---------------------------------------------------------------------------------------
  // Block-by-block compaction (part 1)
  // ---------------------------------------------------------------------------------------

  /**
   * Compaction of the blocks b[lo..hi]: a free block at the end is dropped, a used block at
   * the front stays, and a free block at the front takes the used block at the end.
   */
  function CompactRange(b: seq<Block>, lo: int, hi: int): seq<int>
    requires 0 <= lo && hi <= |b|
    decreases hi - lo
  {
    if hi <= lo then []
    else if b[hi - 1].Free? then CompactRange(b, lo, hi - 1)
    else if b[lo].Used? then [b[lo].id] + CompactRange(b, lo + 1, hi)
    else [b[hi - 1].id] + CompactRange(b, lo + 1, hi - 1)
  }

  /** The ids of the blocks of a whole disk after compaction. */
  function Compact(b: seq<Block>): seq<int>
  {
    CompactRange(b, 0, |b|)
  }

  /** The ids of the used blocks among b[lo..hi], with their multiplicities. */
  function UsedIn(b: seq<Block>, lo: int, hi: int): multiset<int>
    requires 0 <= lo && hi <= |b|
    decreases hi - lo
  {
    if hi <= lo then multiset{}
    else UsedIn(b, lo, hi - 1) + (if b[hi - 1].Used? then multiset{b[hi - 1].id} else multiset{})
  }

  lemma {:induction false} UsedInFront(b: seq<Block>, lo: int, hi: int)
    requires 0 <= lo < hi <= |b|
    ensures UsedIn(b, lo, hi) == (if b[lo].Used? then multiset{b[lo].id} else multiset{}) + UsedIn(b, lo + 1, hi)
    decreases hi - lo
  {
    if lo + 1 < hi {
      UsedInFront(b, lo, hi - 1);
    }
  }

  /** Compaction keeps every used block and adds none: the same ids, as many times each. */
  lemma {:induction false} CompactIds(b: seq<Block>, lo: int, hi: int)
    requires 0 <= lo && hi <= |b|
    ensures multiset(CompactRange(b, lo, hi)) == UsedIn(b, lo, hi)
    decreases hi - lo, 1
  {
    if hi <= lo {
    } else if b[hi - 1].Free? {
      DropBackIds(b, lo, hi);
    } else if b[lo].Used? {
      KeepFrontIds(b, lo, hi);
    } else {
      TakeBackIds(b, lo, hi);
    }
  }

  /** The step of CompactIds where the free block at the end is dropped. */
  lemma {:induction false} DropBackIds(b: seq<Block>, lo: int, hi: int)
    requires 0 <= lo < hi <= |b| && b[hi - 1].Free?
    ensures multiset(CompactRange(b, lo, hi)) == UsedIn(b, lo, hi)
    decreases hi - lo, 0
  {
    CompactIds(b, lo, hi - 1);
    assert CompactRange(b, lo, hi) == CompactRange(b, lo, hi - 1);
  }

  /** The step of CompactIds where the used block at the front stays. */
  lemma {:induction false} KeepFrontIds(b: seq<Block>, lo: int, hi: int)
    requires 0 <= lo < hi <= |b| && b[hi - 1].Used? && b[lo].Used?
    ensures multiset(CompactRange(b, lo, hi)) == UsedIn(b, lo, hi)
    decreases hi - lo, 0
  {
    var rest := CompactRange(b, lo + 1, hi);
    assert CompactRange(b, lo, hi) == [b[lo].id] + rest;
    CompactIds(b, lo + 1, hi);
    UsedInFront(b, lo, hi);
    assert multiset([b[lo].id] + rest) == multiset{b[lo].id} + multiset(rest);
  }

  /** The step of CompactIds where the free block at the front takes the used block at the end. */
  lemma {:induction false} TakeBackIds(b: seq<Block>, lo: int, hi: int)
    requires 0 <= lo < hi <= |b| && b[hi - 1].Used? && b[lo].Free?
    ensures multiset(CompactRange(b, lo, hi)) == UsedIn(b, lo, hi)
    decreases hi - lo, 0
  {
    var x := b[hi - 1].id;
    var m := UsedIn(b, lo + 1, hi - 1);
    var rest := CompactRange(b, lo + 1, hi - 1);
    assert CompactRange(b, lo, hi) == [x] + rest;
    CompactIds(b, lo + 1, hi - 1);
    assert multiset([x] + rest) == multiset{x} + multiset(rest);
    assert multiset(CompactRange(b, lo, hi)) == multiset{x} + m;
    UsedAroundGap(b, lo, hi);
    assert UsedIn(b, lo, hi) == m + multiset{x};
    assert multiset{x} + m == m + multiset{x};
  }

  /** The used ids of b[lo..hi] with b[lo] free: those of b[lo + 1..hi - 1], and that of b[hi - 1]. */
  lemma UsedAroundGap(b: seq<Block>, lo: int, hi: int)
    requires 0 <= lo < hi <= |b| && b[hi - 1].Used? && b[lo].Free?
    ensures UsedIn(b, lo, hi) == UsedIn(b, lo + 1, hi - 1) + multiset{b[hi - 1].id}
  {
    UsedInFront(b, lo, hi);
    assert UsedIn(b, lo, hi) == UsedIn(b, lo + 1, hi);
  }

  /** A used block at the front stays at the front, whatever the free blocks at the end. */
  lemma {:induction false} CompactUsedFirst(b: seq<Block>, lo: int, hi: int)
    requires 0 <= lo < hi <= |b| && b[lo].Used?
    ensures CompactRange(b, lo, hi) == [b[lo].id] + CompactRange(b, lo + 1, hi)
    decreases hi - lo
  {
    if b[hi - 1].Free? {
      CompactUsedFirst(b, lo, hi - 1);
    }
  }

  /** Free blocks at the end change nothing. */
  lemma {:induction false} CompactDropFree(b: seq<Block>, lo: int, k: int, hi: int)
    requires 0 <= lo && 0 <= k <= hi <= |b| && forall p :: k <= p < hi ==> b[p].Free?
    ensures CompactRange(b, lo, hi) == CompactRange(b, lo, k)
    decreases hi - k
  {
    if k < hi && lo < hi {
      CompactDropFree(b, lo, k, hi - 1);
    }
  }

  /** The used blocks before the first free one keep their places. */
  lemma {:induction false} CompactKeepsPrefix(b: seq<Block>, lo: int, m: int, hi: int)
    requires 0 <= lo <= m <= hi <= |b| && forall p :: lo <= p < m ==> b[p].Used?
    ensures |CompactRange(b, lo, hi)| >= m - lo
    ensures forall p :: lo <= p < m ==> CompactRange(b, lo, hi)[p - lo] == b[p].id
    decreases m - lo
  {
    if lo < m {
      CompactUsedFirst(b, lo, hi);
      CompactKeepsPrefix(b, lo + 1, m, hi);
    }
  }

  /** Position times id, for ids laid out one per position from position `from` on. */
  function WeightedFrom(from: int, ids: seq<int>): int
    decreases |ids|
  {
    if ids == [] then 0 else from * ids[0] + WeightedFrom(from + 1, ids[1..])
  }

  /** The part 1 answer: the checksum of the compacted blocks. */
  ghost function CompactedChecksum(files: seq<File>): int
    requires Layout(files)
  {
    WeightedFrom(0, Compact(Blocks(files)))
  }

  /** The layout has a free block somewhere before the end of its last file. */
  ghost predicate HasGap(files: seq<File>)
    requires Layout(files)
  {
    exists p :: 0 <= p < |Blocks(files)| && Blocks(files)[p].Free?
  }

  /** A single file at position 0, as the disk map "1" gives, has no gap. */
  lemma SingleFileHasNoGap()
    ensures Layout([File(0, 0, 1)]) && !HasGap([File(0, 0, 1)])
  {
    var files := [File(0, 0, 1)];
    assert Blocks(files) == BlocksUpTo(files, 0) + Repeat(Free, 0) + Repeat(Used(0), 1);
    assert Blocks(files) == [Used(0)];
  }

  /** What computeCompactedChecksum needs of the disk so that its indexes stay in range. */
  ghost predicate CompactableLayout(files: seq<File>)
  {
    Layout(files) && NonEmpty(files) && |files| > 0 && files[0].start == 0
  }

  /** The disks computeCompactedChecksum accepts, but for the gap it also needs. */
  type CompactableFiles = files: seq<File> | CompactableLayout(files) witness [File(0, 0, 1)]

  /**
   * The state of computeCompactedChecksum's loop: the forward cursor f lies in the current file
   * c or the gap before it, the reverse cursor r in the last file l; the checksum so far plus
   * that of the compaction of the blocks between the cursors, laid out from f, is the answer;
   * and until the reverse cursor has moved, no gap has been met.
   */
  ghost predicate Compacting(files: CompactableFiles, f: int, r: int, c: int, l: int, checksum: int)
  {
    var b := Blocks(files);
    0 <= c < |files| && EndOf(files, c) <= f < files[c].start + files[c].size
    && 0 <= l < |files| && files[l].start <= r < files[l].start + files[l].size
    && 0 <= f && r < |b| && (r < |b| - 1 || forall p :: 0 <= p < f ==> b[p].Used?)
    && checksum + Remaining(files, f, r) == CompactedChecksum(files)
  }

  /** What the blocks between the two cursors add to the checksum once compacted from f on. */
  ghost function Remaining(files: CompactableFiles, f: int, r: int): int
    requires 0 <= f && r < |Blocks(files)|
  {
    WeightedFrom(f, CompactRange(Blocks(files), f, r + 1))
  }

  lemma CompactingInit(files: CompactableFiles)
    ensures var last := files[|files| - 1];
      Compacting(files, 0, last.start + last.size - 1, 0, |files| - 1, 0)
  {
  }

  /**
   * A free block under the forward cursor takes the used block under the reverse cursor, which
   * stays within its file.
   */
  lemma TakeFromBack(files: CompactableFiles, f: int, r: int, c: int, l: int, checksum: int)
    requires Compacting(files, f, r, c, l, checksum) && f <= r && f < files[c].start
    requires files[l].start <= r - 1
    ensures Compacting(files, f + 1, r - 1, c, l, checksum + f * files[l].id)
  {
    var b := Blocks(files);
    BlockAt(files, c, f);
    BlockAt(files, l, r);
    EndsGrow(files, l + 1, |files|);
    var rest := CompactRange(b, f + 1, r);
    assert CompactRange(b, f, r + 1) == [files[l].id] + rest;
    assert ([files[l].id] + rest)[1..] == rest;
  }

  /**
   * A free block under the forward cursor takes the first used block of the last file, and the
   * reverse cursor moves to the last block of the file before.
   */
  lemma TakeFromBackAndLeave(files: CompactableFiles, f: int, r: int, c: int, l: int, checksum: int)
    requires Compacting(files, f, r, c, l, checksum) && f <= r && f < files[c].start
    requires r - 1 < files[l].start
    ensures 1 <= l
    ensures Compacting(files, f + 1, files[l - 1].start + files[l - 1].size - 1, c, l - 1, checksum + f * files[l].id)
  {
    var b := Blocks(files);
    BlockAt(files, c, f);
    BlockAt(files, l, r);
    EndsGrow(files, l + 1, |files|);
    assert f < r;
    var prev := files[l - 1];
    var rest := CompactRange(b, f + 1, r);
    assert CompactRange(b, f, r + 1) == [files[l].id] + rest;
    assert ([files[l].id] + rest)[1..] == rest;
    forall p | prev.start + prev.size <= p < r
      ensures b[p].Free?
    {
      BlockAt(files, l, p);
    }
    CompactDropFree(b, f + 1, prev.start + prev.size, r);
  }

  /** A used block under the forward cursor stays where it is. */
  lemma TakeFromFront(files: CompactableFiles, f: int, r: int, c: int, l: int, checksum: int)
    requires Compacting(files, f, r, c, l, checksum) && f <= r && files[c].start <= f
    requires f < files[c].start + files[c].size - 1
    ensures Compacting(files, f + 1, r, c, l, checksum + f * files[c].id)
  {
    var b := Blocks(files);
    BlockAt(files, c, f);
    EndsGrow(files, l + 1, |files|);
    CompactUsedFirst(b, f, r + 1);
    var rest := CompactRange(b, f + 1, r + 1);
    assert ([files[c].id] + rest)[1..] == rest;
  }

  /**
   * The last block of the current file stays where it is, and the forward cursor moves to the
   * next file; there is one, since a gap is still ahead of it.
   */
  lemma TakeFromFrontAndLeave(files: CompactableFiles, f: int, r: int, c: int, l: int, checksum: int)
    requires HasGap(files) && Compacting(files, f, r, c, l, checksum) && f <= r && files[c].start <= f
    requires f == files[c].start + files[c].size - 1
    ensures c + 1 < |files|
    ensures Compacting(files, f + 1, r, c + 1, l, checksum + f * files[c].id)
  {
    var b := Blocks(files);
    BlockAt(files, c, f);
    EndsGrow(files, l + 1, |files|);
    EndsGrow(files, c + 1, |files|);
    CompactUsedFirst(b, f, r + 1);
    var rest := CompactRange(b, f + 1, r + 1);
    assert ([files[c].id] + rest)[1..] == rest;
    var g :| 0 <= g < |b| && b[g].Free?;
    assert g != f;
  }

  /** A turn of the loop with the forward cursor in a gap, in both of its cases. */
  lemma ReadingBackward(files: CompactableFiles, f: int, r: int, c: int, l: int, checksum: int)
    requires Compacting(files, f, r, c, l, checksum) == true && f <= r && f < files[c].start
    ensures files[l].start <= r - 1 ==> Compacting(files, f + 1, r - 1, c, l, checksum + f * files[l].id)
    ensures r - 1 < files[l].start ==> 1 <= l
    ensures r - 1 < files[l].start ==>
      Compacting(files, f + 1, files[l - 1].start + files[l - 1].size - 1, c, l - 1, checksum + f * files[l].id)
  {
    if r - 1 < files[l].start {
      TakeFromBackAndLeave(files, f, r, c, l, checksum);
    } else {
      TakeFromBack(files, f, r, c, l, checksum);
    }
  }

  /** A turn of the loop with the forward cursor in a file, in both of its cases. */
  lemma ReadingForward(files: CompactableFiles, f: int, r: int, c: int, l: int, checksum: int)
    requires HasGap(files) && Compacting(files, f, r, c, l, checksum) == true && f <= r && files[c].start <= f
    ensures f < files[c].start + files[c].size - 1 ==> Compacting(files, f + 1, r, c, l, checksum + f * files[c].id)
    ensures f == files[c].start + files[c].size - 1 ==> c + 1 < |files|
    ensures f == files[c].start + files[c].size - 1 ==> Compacting(files, f + 1, r, c + 1, l, checksum + f * files[c].id)
  {
    if f == files[c].start + files[c].size - 1 {
      TakeFromFrontAndLeave(files, f, r, c, l, checksum);
    } else {
      TakeFromFront(files, f, r, c, l, checksum);
    }
  }

  /** Once the cursors have crossed, the checksum is the answer. */
  lemma CompactingDone(files: CompactableFiles, f: int, r: int, c: int, l: int, checksum: int)
    requires Compacting(files, f, r, c, l, checksum) && f > r
    ensures checksum == CompactedChecksum(files)
  {
  }

  /**
   * computeCompactedChecksum: a forward cursor reads the disk from the front and a reverse
   * cursor takes used blocks from the back to fill the gaps, until the two meet. The last
   * file's index is read up front and both file indexes move without a bounds check, so the
   * disk must have a file, the first at 0, and a gap; otherwise Go indexes past the slice.
   */
  method ComputeCompactedChecksum(disk: Disk) returns (checksum: int)
    requires CompactableLayout(disk.files) && HasGap(disk.files)
    ensures checksum == CompactedChecksum(disk.files)
  {
    var files: CompactableFiles := disk.files;
    CompactingInit(files);
    var lastFileIdx := |files| - 1;
    var lastFile := files[lastFileIdx];
    var reverseCursor := lastFile.start + lastFile.size - 1;
    checksum := 0;
    var currentFileIdx := 0;
    var currentFile := files[currentFileIdx];
    var forwardCursor := 0;
    while forwardCursor <= reverseCursor
      invariant Compacting(files, forwardCursor, reverseCursor, currentFileIdx, lastFileIdx, checksum) == true
      invariant currentFile == files[currentFileIdx] && lastFile == files[lastFileIdx]
      decreases reverseCursor - forwardCursor
    {
      if forwardCursor < currentFile.start {
        reverseCursor, lastFileIdx, lastFile, checksum :=
          ReadBackward(files, forwardCursor, reverseCursor, currentFileIdx, lastFileIdx, lastFile, checksum);
      } else {
        currentFileIdx, currentFile, checksum :=
          ReadForward(files, forwardCursor, reverseCursor, currentFileIdx, currentFile, lastFileIdx, checksum);
      }
      forwardCursor := forwardCursor + 1;
    }
    CompactingDone(files, forwardCursor, reverseCursor, currentFileIdx, lastFileIdx, checksum);
  }

  /**
   * The loop body when the forward cursor is in a gap: the block under the reverse cursor is
   * read, and the reverse cursor steps back, to the last block of the previous file once it
   * leaves its own.
   */
  method ReadBackward(files: CompactableFiles, f: int, r: int, c: int, l: int, lastFile: File, checksum: int)
    returns (r': int, l': int, lastFile': File, checksum': int)
    requires Compacting(files, f, r, c, l, checksum) == true && f <= r && f < files[c].start && lastFile == files[l]
    ensures Compacting(files, f + 1, r', c, l', checksum') == true && r' < r && lastFile' == files[l']
  {
    ReadingBackward(files, f, r, c, l, checksum);
    var value := lastFile.id;
    checksum' := checksum + f * value;
    r', l', lastFile' := r - 1, l, lastFile;
    if r' < lastFile.start {
      l' := l - 1;
      lastFile' := files[l'];
      r' := lastFile'.start + lastFile'.size - 1;
    }
  }

  /**
   * The loop body when the forward cursor is in a file: its block is read, and the current
   * file advances after its last block.
   */
  method ReadForward(files: CompactableFiles, f: int, r: int, c: int, currentFile: File, l: int, checksum: int)
    returns (c': int, currentFile': File, checksum': int)
    requires HasGap(files) && Compacting(files, f, r, c, l, checksum) == true && f <= r && files[c].start <= f && currentFile == files[c]
    ensures Compacting(files, f + 1, r, c', l, checksum') == true && currentFile' == files[c']
  {
    ReadingForward(files, f, r, c, l, checksum);
    var value := currentFile.id;
    checksum' := checksum + f * value;
    c', currentFile' := c, currentFile;
    if f == currentFile.start + currentFile.size - 1 {
      c' := c + 1;
      currentFile' := files[c'];
    }
  }

  // ---------------------------------------------------------------------------------------
  // Whole-file defragmentation (part 2)
  // ---------------------------------------------------------------------------------------

  /** The room between the end of file k - 1 (or 0) and the start of file k. */
  function GapSize(files: seq<File>, k: nat): int
    requires k < |files|
  {
    files[k].start - EndOf(files, k)
  }

  /** The gap before file k takes file t: it is long enough and starts strictly left of t. */
  predicate Fits(files: seq<File>, k: nat, t: File)
    requires k < |files|
  {
    GapSize(files, k) >= t.size && EndOf(files, k) < t.start
  }

  /** A gap that fits file i lies before it, so the file only moves left. */
  lemma FitsOnTheLeft(files: seq<File>, k: nat, i: nat)
    requires Layout(files) && k < |files| && i < |files| && Fits(files, k, files[i])
    ensures k <= i
  {
  }

  /** The files with files[i] taken out and t put in at index k <= i. */
  function Reinsert(files: seq<File>, i: nat, k: nat, t: File): (r: seq<File>)
    requires k <= i < |files|
  {
    files[..k] + [t] + files[k..i] + files[i + 1..]
  }

  /** Id and size: what defragmentation keeps of each file. */
  function Shape(f: File): (int, int)
  {
    (f.id, f.size)
  }

  function Shapes(files: seq<File>): (r: seq<(int, int)>)
  {
    seq(|files|, p requires 0 <= p < |files| => Shape(files[p]))
  }

  /**
   * Moving file i into the gap before file k: the others keep their order and places, and the
   * moved file is the only one that changes.
   */
  lemma ReinsertChangesOne(files: seq<File>, i: nat, k: nat, t: File)
    requires k <= i < |files|
    ensures |Reinsert(files, i, k, t)| == |files| && Reinsert(files, i, k, t)[k] == t
    ensures multiset(Reinsert(files, i, k, t)) == multiset(files) - multiset{files[i]} + multiset{t}
  {
    var r := Reinsert(files, i, k, t);
    assert files == files[..k] + files[k..i] + [files[i]] + files[i + 1..];
    assert multiset(files) == multiset(files[..k]) + multiset(files[k..i]) + multiset{files[i]} + multiset(files[i + 1..]);
    assert multiset(r) == multiset(files[..k]) + multiset{t} + multiset(files[k..i]) + multiset(files[i + 1..]);
  }

  /** The moved file keeps its id and size, so the files keep their ids and sizes, as many of each. */
  lemma ReinsertKeepsShapes(files: seq<File>, i: nat, k: nat, t: File)
    requires k <= i < |files| && Shape(t) == Shape(files[i])
    ensures multiset(Shapes(Reinsert(files, i, k, t))) == multiset(Shapes(files))
  {
    var front, middle, back := Shapes(files[..k]), Shapes(files[k..i]), Shapes(files[i + 1..]);
    assert Shapes(files) == front + middle + [Shape(files[i])] + back;
    assert Shapes(Reinsert(files, i, k, t)) == front + [Shape(t)] + middle + back;
  }

  /**
   * Moving file i to the start of a gap that fits it keeps the files in order and apart: the
   * file lands between files k - 1 and k, and its old place becomes free.
   */
  lemma ReinsertKeepsLayout(files: seq<File>, i: nat, k: nat)
    requires Layout(files) && k < |files| && i < |files| && Fits(files, k, files[i])
    ensures k <= i && Layout(Reinsert(files, i, k, files[i].(start := EndOf(files, k))))
  {
    FitsOnTheLeft(files, k, i);
    var t := files[i].(start := EndOf(files, k));
    var r := Reinsert(files, i, k, t);
    EndsGrow(files, 0, k);
    forall p, q | 0 <= p < q < |r|
      ensures r[p].start + r[p].size <= r[q].start
    {
      ReinsertAt(files, i, k, t, p);
      ReinsertAt(files, i, k, t, q);
    }
  }

  /** Where each file of Reinsert(files, i, k, t) comes from. */
  lemma ReinsertAt(files: seq<File>, i: nat, k: nat, t: File, p: int)
    requires k <= i < |files| && 0 <= p < |files|
    ensures Reinsert(files, i, k, t)[p] ==
      if p < k then files[p] else if p == k then t else if p <= i then files[p - 1] else files[p]
  {
  }

  /** The first index from k on whose gap takes t, or |files| when there is none. */
  function FirstFitFrom(files: seq<File>, t: File, k: nat): (r: nat)
    requires k <= |files|
    ensures k <= r <= |files|
    ensures r < |files| ==> Fits(files, r, t)
    ensures forall j :: k <= j < r ==> !Fits(files, j, t)
    decreases |files| - k
  {
    if k == |files| then k
    else if Fits(files, k, t) then k
    else FirstFitFrom(files, t, k + 1)
  }

  /**
   * The search of defragmentDisk for a gap: the first file k whose gap fits t, or |files| when
   * none does.
   */
  method FindGap(files: array<File>, t: File) returns (k: int, gapStart: int)
    ensures 0 <= k <= files.Length
    ensures k < files.Length ==> Fits(files[..], k, t) && gapStart == EndOf(files[..], k)
    ensures forall j :: 0 <= j < k ==> !Fits(files[..], j, t)
    ensures k == FirstFitFrom(files[..], t, 0)
  {
    k := 0;
    gapStart := 0;
    while k < files.Length
      invariant 0 <= k <= files.Length
      invariant forall j :: 0 <= j < k ==> !Fits(files[..], j, t)
      invariant FirstFitFrom(files[..], t, k) == FirstFitFrom(files[..], t, 0)
    {
      var gapSize;
      if k == 0 {
        gapStart := 0;
        gapSize := files[k].start;
      } else {
        gapStart := files[k - 1].start + files[k - 1].size;
        gapSize := files[k].start - gapStart;
      }
      if gapSize >= t.size && gapStart < t.start {
        return;
      }
      k := k + 1;
    }
  }

  /** The in-place move of defragmentDisk: files k..i - 1 shift one place right, t goes to k. */
  method MoveFile(files: array<File>, i: int, k: int, t: File)
    requires 0 <= k <= i < files.Length
    modifies files
    ensures files[..] == Reinsert(old(files[..]), i, k, t)
  {
    var j := i - 1;
    while j >= k
      invariant k - 1 <= j <= i - 1
      invariant forall p :: 0 <= p < files.Length ==>
        files[p] == if j + 2 <= p <= i then old(files[p - 1]) else old(files[p])
    {
      files[j + 1] := files[j];
      j := j - 1;
    }
    files[k] := t;
    forall p | 0 <= p < files.Length
      ensures files[p] == Reinsert(old(files[..]), i, k, t)[p]
    {
      ReinsertAt(old(files[..]), i, k, t, p);
    }
  }

  /** f starts strictly left of an original file with the same id and size. */
  ghost predicate MovedLeft(f: File, orig: seq<File>)
  {
    exists q :: 0 <= q < |orig| && Shape(orig[q]) == Shape(f) && f.start < orig[q].start
  }

  /**
   * The state of defragmentDisk's loop: the files are still in order and apart, with the same
   * ids and sizes as at the start; a file whose id has not moved is an original one, and every
   * other file sits left of the original it came from.
   */
  ghost predicate Defragmenting(files: seq<File>, orig: seq<File>, ids: set<int>, moved: set<int>)
  {
    Layout(files) && |files| == |orig|
    && multiset(Shapes(files)) == multiset(Shapes(orig))
    && moved <= ids
    && (forall p :: 0 <= p < |files| ==> files[p].id in ids)
    && (forall p :: 0 <= p < |files| ==> files[p] in orig || MovedLeft(files[p], orig))
    && (forall p :: 0 <= p < |files| && files[p].id !in moved ==> files[p] in orig)
  }

  /** Moving a file not moved before into a gap that fits it keeps the loop's state, with one more moved id. */
  lemma DefragStep(files: seq<File>, orig: seq<File>, ids: set<int>, moved: set<int>, i: nat, k: nat)
    requires Defragmenting(files, orig, ids, moved)
    requires i < |files| && k < |files| && files[i].id !in moved && Fits(files, k, files[i])
    ensures k <= i
    ensures Defragmenting(Reinsert(files, i, k, files[i].(start := EndOf(files, k))), orig, ids, moved + {files[i].id})
    ensures |ids - (moved + {files[i].id})| < |ids - moved|
  {
    var t := files[i].(start := EndOf(files, k));
    ReinsertKeepsLayout(files, i, k);
    ReinsertKeepsShapes(files, i, k, t);
    var r := Reinsert(files, i, k, t);
    var q :| 0 <= q < |orig| && orig[q] == files[i];
    assert MovedLeft(t, orig);
    forall p | 0 <= p < |r|
      ensures r[p].id in ids
      ensures r[p] in orig || MovedLeft(r[p], orig)
      ensures r[p].id !in moved + {files[i].id} ==> r[p] in orig
    {
      ReinsertAt(files, i, k, t, p);
    }
    assert ids - (moved + {files[i].id}) == (ids - moved) - {files[i].id};
  }

  /** The ids of the files. */
  function IdsOf(files: seq<File>): set<int>
  {
    set p | 0 <= p < |files| :: files[p].id
  }

  /** A moved file keeps its id, so the files keep their set of ids. */
  lemma ReinsertKeepsIds(files: seq<File>, i: nat, k: nat, t: File)
    requires k <= i < |files| && t.id == files[i].id
    ensures IdsOf(Reinsert(files, i, k, t)) == IdsOf(files)
  {
    var r := Reinsert(files, i, k, t);
    forall p | 0 <= p < |r|
      ensures r[p].id in IdsOf(files)
    {
      ReinsertAt(files, i, k, t, p);
      var q := if p < k || p > i then p else if p == k then i else p - 1;
      assert r[p].id == files[q].id;
    }
    forall q | 0 <= q < |files|
      ensures files[q].id in IdsOf(r)
    {
      var p := if q < k || q > i then q else if q == i then k else q + 1;
      ReinsertAt(files, i, k, t, p);
      assert r[p].id == files[q].id;
    }
  }

  /**
   * What defragmentDisk does to the files, as a recursion on its loop: at index i, a file whose
   * id has moved is skipped; otherwise it goes to the start of the first gap on its left that
   * takes it, its id is marked moved and index i is examined again, now holding the file that
   * came before it; a file that no gap takes stays where it is. Below index 0 the files are done.
   */
  function Defrag(files: seq<File>, i: int, moved: set<int>): (r: seq<File>)
    requires Layout(files) && -1 <= i < |files|
    decreases |IdsOf(files) - moved|, i + 1
  {
    if i < 0 then files
    else if files[i].id in moved then Defrag(files, i - 1, moved)
    else
      var k := FirstFitFrom(files, files[i], 0);
      if k == |files| then Defrag(files, i - 1, moved)
      else
        var t := files[i].(start := EndOf(files, k));
        ReinsertKeepsLayout(files, i, k);
        ReinsertKeepsIds(files, i, k, t);
        assert files[i].id in IdsOf(files);
        assert IdsOf(files) - (moved + {files[i].id}) == (IdsOf(files) - moved) - {files[i].id};
        Defrag(Reinsert(files, i, k, t), i, moved + {files[i].id})
  }

  /**
   * Defragmentation keeps the files in order and apart, with the ids and sizes they had, and
   * leaves every file either where it was or left of where it was.
   */
  lemma {:induction false} DefragKeeps(files: seq<File>, orig: seq<File>, ids: set<int>, moved: set<int>, i: int)
    requires Defragmenting(files, orig, ids, moved) && -1 <= i < |files|
    ensures var r := Defrag(files, i, moved);
      Layout(r) && |r| == |orig|
      && multiset(Shapes(r)) == multiset(Shapes(orig))
      && forall p :: 0 <= p < |r| ==> r[p] in orig || MovedLeft(r[p], orig)
    decreases |IdsOf(files) - moved|, i + 1
  {
    if i < 0 {
    } else if files[i].id in moved {
      DefragKeeps(files, orig, ids, moved, i - 1);
    } else {
      var k := FirstFitFrom(files, files[i], 0);
      if k == |files| {
        DefragKeeps(files, orig, ids, moved, i - 1);
      } else {
        var t := files[i].(start := EndOf(files, k));
        DefragStep(files, orig, ids, moved, i, k);
        ReinsertKeepsIds(files, i, k, t);
        assert files[i].id in IdsOf(files);
        assert IdsOf(files) - (moved + {files[i].id}) == (IdsOf(files) - moved) - {files[i].id};
        DefragKeeps(Reinsert(files, i, k, t), orig, ids, moved + {files[i].id}, i);
      }
    }
  }

  /** Index i is passed over when its id has moved or no gap takes its file. */
  lemma DefragSkip(files: seq<File>, i: nat, moved: set<int>)
    requires Layout(files) && i < |files|
    requires files[i].id in moved || FirstFitFrom(files, files[i], 0) == |files|
    ensures Defrag(files, i, moved) == Defrag(files, i - 1, moved)
  {
  }

  /** Index i moves its file into the first gap that takes it, and is examined again. */
  lemma DefragMove(files: seq<File>, i: nat, moved: set<int>, k: nat)
    requires Layout(files) && i < |files| && files[i].id !in moved
    requires k == FirstFitFrom(files, files[i], 0) < |files|
    ensures k <= i
    ensures var r := Reinsert(files, i, k, files[i].(start := EndOf(files, k)));
      Layout(r) && IdsOf(r) == IdsOf(files)
      && Defrag(files, i, moved) == Defrag(r, i, moved + {files[i].id})
    ensures files[i].id in IdsOf(files)
  {
    ReinsertKeepsLayout(files, i, k);
    ReinsertKeepsIds(files, i, k, files[i].(start := EndOf(files, k)));
  }

  /** DefragKeeps from the start of defragmentDisk: all files unmoved. */
  lemma DefragKeepsAll(files: seq<File>)
    requires Layout(files)
    ensures var r := Defrag(files, |files| - 1, {});
      Layout(r) && |r| == |files|
      && multiset(Shapes(r)) == multiset(Shapes(files))
      && forall p :: 0 <= p < |r| ==> r[p] in files || MovedLeft(r[p], files)
  {
    assert Defragmenting(files, files, IdsOf(files), {});
    DefragKeeps(files, files, IdsOf(files), {}, |files| - 1);
  }

  /**
   * One pass of defragmentDisk's loop at index i: the index to examine next and the moved ids
   * after it, with the files changed as Defrag's step says.
   */
  method DefragAt(files: array<File>, i: int, moved: set<int>) returns (next: int, moved': set<int>)
    requires 0 <= i < files.Length && Layout(files[..])
    modifies files
    ensures -1 <= next < files.Length && Layout(files[..]) && IdsOf(files[..]) == IdsOf(old(files[..]))
    ensures Defrag(files[..], next, moved') == Defrag(old(files[..]), i, moved)
    ensures |IdsOf(files[..]) - moved'| < |IdsOf(files[..]) - moved| || (moved' == moved && next < i)
  {
    var targetFile := files[i];
    ghost var current := files[..];
    next, moved' := i - 1, moved;
    if targetFile.id !in moved {
      var nextFile, gapStart := FindGap(files, targetFile);
      if nextFile < files.Length {
        DefragMove(current, i, moved, nextFile);
        assert IdsOf(current) - (moved + {targetFile.id}) == (IdsOf(current) - moved) - {targetFile.id};
        moved' := moved + {targetFile.id};
        MoveFile(files, i, nextFile, targetFile.(start := gapStart));
        next := i;
      } else {
        DefragSkip(current, i, moved);
      }
    } else {
      DefragSkip(current, i, moved);
    }
  }

  /**
   * defragmentDisk: from the last file to the first, a file whose id has not moved yet goes to
   * the start of the first gap that fits it; the index is then examined again, as it now holds
   * the file that came before the moved one.
   */
  method DefragmentDisk(files: array<File>)
    requires Layout(files[..])
    modifies files
    ensures files[..] == Defrag(old(files[..]), files.Length - 1, {})
    ensures Layout(files[..])
    ensures multiset(Shapes(files[..])) == multiset(Shapes(old(files[..])))
    ensures forall p :: 0 <= p < files.Length ==> files[p] in old(files[..]) || MovedLeft(files[p], old(files[..]))
  {
    ghost var orig := files[..];
    ghost var ids := IdsOf(orig);
    var moved: set<int> := {};
    var i := files.Length - 1;
    while i >= 0
      invariant -1 <= i < files.Length
      invariant Layout(files[..]) && IdsOf(files[..]) == ids
      invariant Defrag(files[..], i, moved) == Defrag(orig, |orig| - 1, {})
      decreases |ids - moved|, i + 1
    {
      i, moved := DefragAt(files, i, moved);
    }
    DefragKeepsAll(orig);
  }

  /**
   * Files with the ids and sizes of non-empty files are non-empty, so the defragmented disk
   * meets what computeChecksum needs.
   */
  lemma SameShapesNonEmpty(files: seq<File>, orig: seq<File>)
    requires multiset(Shapes(files)) == multiset(Shapes(orig)) && NonEmpty(orig)
    ensures NonEmpty(files)
  {
    forall p | 0 <= p < |files|
      ensures files[p].size >= 1
    {
      assert Shapes(files)[p] in multiset(Shapes(orig));
      var q :| 0 <= q < |orig| && Shapes(orig)[q] == Shape(files[p]);
    }
  }
}
