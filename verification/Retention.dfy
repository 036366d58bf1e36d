/** How many old sessions are kept: the newest that fit two limits. */
module Retention {

  const MAX_RETAINED_FILES: nat := 10
  const MAX_RETAINED_BYTES: nat := 64 * 1024 * 1024

  /** One session file, and whether deleting it would succeed. */
  datatype SessionFile = SessionFile(path: nat, modified: nat, bytes: nat, deletable: bool)

  function TotalBytes(files: seq<SessionFile>): nat {
    if files == [] then 0 else files[0].bytes + TotalBytes(files[1..])
  }

  // -- oldest first ----------------------------------------------------------

  function InsertByAge(sorted: seq<SessionFile>, file: SessionFile): seq<SessionFile> {
    if sorted == [] || file.modified < sorted[0].modified then [file] + sorted
    else [sorted[0]] + InsertByAge(sorted[1..], file)
  }

  /** A stable sort by modification time. */
  function OldestFirst(files: seq<SessionFile>): seq<SessionFile> {
    if files == [] then []
    else InsertByAge(OldestFirst(files[..|files| - 1]), files[|files| - 1])
  }

  ghost predicate ByAge(files: seq<SessionFile>) {
    forall i, j :: 0 <= i < j < |files| ==> files[i].modified <= files[j].modified
  }

  lemma {:induction false} InsertMembers(sorted: seq<SessionFile>, file: SessionFile)
    ensures multiset(InsertByAge(sorted, file)) == multiset(sorted) + multiset{file}
  {
    if sorted != [] {
      assert sorted == [sorted[0]] + sorted[1..];
      if file.modified >= sorted[0].modified {
        InsertMembers(sorted[1..], file);
      }
    }
  }

  ghost predicate NoneOlder(files: seq<SessionFile>, oldest: nat) {
    forall k :: 0 <= k < |files| ==> oldest <= files[k].modified
  }

  lemma {:induction false} InsertNoOlder(sorted: seq<SessionFile>, file: SessionFile, oldest: nat)
    requires NoneOlder(sorted, oldest) && oldest <= file.modified
    ensures NoneOlder(InsertByAge(sorted, file), oldest)
  {
    if sorted != [] {
      InsertNoOlder(sorted[1..], file, oldest);
    }
  }

  lemma {:induction false} InsertKeepsAge(sorted: seq<SessionFile>, file: SessionFile)
    requires ByAge(sorted)
    ensures ByAge(InsertByAge(sorted, file))
  {
    if sorted != [] && file.modified >= sorted[0].modified {
      InsertKeepsAge(sorted[1..], file);
      InsertNoOlder(sorted[1..], file, sorted[0].modified);
      OldestLeads(sorted[0], InsertByAge(sorted[1..], file));
    }
  }

  lemma OldestLeads(first: SessionFile, rest: seq<SessionFile>)
    requires ByAge(rest) && NoneOlder(rest, first.modified)
    ensures ByAge([first] + rest)
  {
  }

  lemma {:induction false} SortedByAge(files: seq<SessionFile>)
    ensures ByAge(OldestFirst(files)) && multiset(OldestFirst(files)) == multiset(files)
  {
    if files != [] {
      SortedByAge(files[..|files| - 1]);
      InsertKeepsAge(OldestFirst(files[..|files| - 1]), files[|files| - 1]);
      InsertMembers(OldestFirst(files[..|files| - 1]), files[|files| - 1]);
      assert files == files[..|files| - 1] + [files[|files| - 1]];
    }
  }

  // -- pruning ---------------------------------------------------------------

  /** What the loop believes it still holds after giving up the first `k`:
      bytes only leave the account when the delete succeeds. */
  function Believed(files: seq<SessionFile>, k: nat): nat
    requires k <= |files|
  {
    if k == 0 then TotalBytes(files)
    else if files[k - 1].deletable then
      (if Believed(files, k - 1) >= files[k - 1].bytes then Believed(files, k - 1) - files[k - 1].bytes else 0)
    else Believed(files, k - 1)
  }

  predicate OverLimit(count: nat, bytes: nat) {
    count > MAX_RETAINED_FILES || bytes > MAX_RETAINED_BYTES
  }

  function UndeletableBytes(files: seq<SessionFile>): nat {
    if files == [] then 0 else (if files[0].deletable then 0 else files[0].bytes) + UndeletableBytes(files[1..])
  }

  lemma {:induction false} TotalSplits(files: seq<SessionFile>, k: nat)
    requires k <= |files|
    ensures TotalBytes(files) == TotalBytes(files[..k]) + TotalBytes(files[k..])
    ensures UndeletableBytes(files) == UndeletableBytes(files[..k]) + UndeletableBytes(files[k..])
    ensures UndeletableBytes(files) <= TotalBytes(files)
  {
    if k == 0 {
      assert files[0..] == files;
      UndeletableAtMost(files);
    } else {
      assert files[..k][1..] == files[1..][..k - 1] && files[k..] == files[1..][k - 1..];
      TotalSplits(files[1..], k - 1);
    }
  }

  lemma {:induction false} UndeletableAtMost(files: seq<SessionFile>)
    ensures UndeletableBytes(files) <= TotalBytes(files)
  {
    if files != [] {
      UndeletableAtMost(files[1..]);
    }
  }

  /** The account is what is still kept plus what could not be deleted. */
  lemma {:induction false} BelievedIsHeld(files: seq<SessionFile>, k: nat)
    requires k <= |files|
    ensures Believed(files, k) == TotalBytes(files[k..]) + UndeletableBytes(files[..k])
  {
    if k == 0 {
      assert files[0..] == files;
    } else {
      BelievedIsHeld(files, k - 1);
      TotalSplits(files[k - 1..], 1);
      assert files[k - 1..][1..] == files[k..] && files[k - 1..][..1] == [files[k - 1]];
      TotalSplits(files[..k], k - 1);
      assert files[..k][..k - 1] == files[..k - 1] && files[..k][k - 1..] == [files[k - 1]];
      assert TotalBytes([files[k - 1]]) == files[k - 1].bytes by { assert [files[k - 1]][1..] == []; }
      assert UndeletableBytes([files[k - 1]]) == if files[k - 1].deletable then 0 else files[k - 1].bytes by {
        assert [files[k - 1]][1..] == [];
      }
    }
  }

  datatype Pruning = Kept(files: seq<SessionFile>) | RanOutOfFiles

  lemma AllGivenUp(sorted: seq<SessionFile>)
    ensures Believed(sorted, |sorted|) == UndeletableBytes(sorted)
  {
    BelievedIsHeld(sorted, |sorted|);
    assert sorted[..|sorted|] == sorted;
  }

  lemma NotGivenUp(sorted: seq<SessionFile>, k: nat)
    requires k <= |sorted|
    ensures UndeletableBytes(sorted) <= Believed(sorted, k)
  {
    BelievedIsHeld(sorted, k);
    TotalSplits(sorted, k);
    UndeletableAtMost(sorted[k..]);
  }

  lemma OldestFirstHolds(directory: seq<SessionFile>)
    ensures |OldestFirst(directory)| == |directory|
    ensures UndeletableBytes(OldestFirst(directory)) == UndeletableBytes(directory)
  {
    var sorted := OldestFirst(directory);
    SortedByAge(directory);
    UndeletablePermutes(directory, sorted);
    assert |sorted| == |multiset(sorted)| == |directory|;
  }

  /** Gives up the oldest file while over a limit. Removing from an empty list
      is the panic of the original. */
  method PruneSessions(directory: seq<SessionFile>) returns (r: Pruning)
    ensures r.RanOutOfFiles? <==> UndeletableBytes(directory) > MAX_RETAINED_BYTES
    ensures r.Kept? ==> exists k: nat ::
            k <= |directory| && PrunedAt(OldestFirst(directory), k) && r.files == OldestFirst(directory)[k..]
  {
    var files := OldestFirst(directory);
    ghost var sorted := files;
    OldestFirstHolds(directory);
    var total := SumBytes(files);
    ghost var k := 0;
    while |files| > MAX_RETAINED_FILES || total > MAX_RETAINED_BYTES
      invariant k <= |sorted| && files == sorted[k..] && total == Believed(sorted, k)
      invariant forall i :: 0 <= i < k ==> OverLimit(|sorted| - i, Believed(sorted, i))
      decreases |files|
    {
      if files == [] {
        AllGivenUp(sorted);
        return RanOutOfFiles;
      }
      var oldest := files[0];
      files := files[1..];
      if oldest.deletable {
        total := if total >= oldest.bytes then total - oldest.bytes else 0;
      }
      k := k + 1;
    }
    NotGivenUp(sorted, k);
    assert PrunedAt(sorted, k);
    return Kept(files);
  }

  /** Stopping here is the first time both limits are met. */
  ghost predicate PrunedAt(sorted: seq<SessionFile>, k: nat) {
    && k <= |sorted|
    && !OverLimit(|sorted| - k, Believed(sorted, k))
    && (forall i :: 0 <= i < k ==> OverLimit(|sorted| - i, Believed(sorted, i)))
  }

  method SumBytes(files: seq<SessionFile>) returns (total: nat)
    ensures total == TotalBytes(files)
  {
    total := 0;
    for i := 0 to |files|
      invariant total == TotalBytes(files[..i])
    {
      TotalSplits(files[..i + 1], i);
      assert files[..i + 1][..i] == files[..i] && files[..i + 1][i..] == [files[i]];
      assert TotalBytes([files[i]]) == files[i].bytes by { assert [files[i]][1..] == []; }
      total := total + files[i].bytes;
    }
    assert files[..|files|] == files;
  }

  lemma TakeOut(files: seq<SessionFile>, i: nat)
    requires i < |files|
    ensures var rest := files[..i] + files[i + 1..];
            && multiset(rest) == multiset(files) - multiset{files[i]}
            && UndeletableBytes(files) == UndeletableBytes([files[i]]) + UndeletableBytes(rest)
  {
    var rest := files[..i] + files[i + 1..];
    assert files == files[..i] + [files[i]] + files[i + 1..];
    TotalSplits(files, i);
    TotalSplits(files[i..], 1);
    TotalSplits(rest, i);
    assert rest[..i] == files[..i] && rest[i..] == files[i + 1..];
    assert files[i..][1..] == files[i + 1..] && files[i..][..1] == [files[i]];
  }

  lemma {:induction false} UndeletablePermutes(files: seq<SessionFile>, others: seq<SessionFile>)
    requires multiset(files) == multiset(others)
    ensures UndeletableBytes(files) == UndeletableBytes(others)
    decreases |files|
  {
    if files == [] {
      assert |others| == |multiset(others)| == 0;
    } else {
      assert files[0] in multiset(others);
      var i :| 0 <= i < |others| && others[i] == files[0];
      var rest, left := files[..0] + files[1..], others[..i] + others[i + 1..];
      TakeOut(files, 0);
      TakeOut(others, i);
      UndeletablePermutes(rest, left);
    }
  }

  /** When every delete succeeds, what is kept is the longest run of newest
      files within both limits, and what stays on disk is exactly that. */
  lemma DeletingKeepsNewest(sorted: seq<SessionFile>, k: nat)
    requires PrunedAt(sorted, k) && forall i :: 0 <= i < |sorted| ==> sorted[i].deletable
    ensures |sorted[k..]| <= MAX_RETAINED_FILES && TotalBytes(sorted[k..]) <= MAX_RETAINED_BYTES
    ensures forall j: nat :: j < k ==>
              |sorted[j..]| > MAX_RETAINED_FILES || TotalBytes(sorted[j..]) > MAX_RETAINED_BYTES
  {
    forall j: nat | j <= k ensures Believed(sorted, j) == TotalBytes(sorted[j..]) {
      BelievedIsHeld(sorted, j);
      NothingUndeletable(sorted[..j]);
    }
  }

  lemma {:induction false} NothingUndeletable(files: seq<SessionFile>)
    requires forall i :: 0 <= i < |files| ==> files[i].deletable
    ensures UndeletableBytes(files) == 0
  {
    if files != [] {
      NothingUndeletable(files[1..]);
    }
  }

  /** The files still on disk: those kept and those that would not go. */
  function OnDisk(sorted: seq<SessionFile>, k: nat): seq<SessionFile>
    requires k <= |sorted|
  {
    Undeletable(sorted[..k]) + sorted[k..]
  }

  function Undeletable(files: seq<SessionFile>): seq<SessionFile> {
    if files == [] then []
    else if files[0].deletable then Undeletable(files[1..])
    else [files[0]] + Undeletable(files[1..])
  }

  lemma {:induction false} UndeletableWeighs(files: seq<SessionFile>)
    ensures TotalBytes(Undeletable(files)) == UndeletableBytes(files)
  {
    if files != [] {
      UndeletableWeighs(files[1..]);
    }
  }

  function DeletableCount(files: seq<SessionFile>): nat {
    if files == [] then 0 else (if files[0].deletable then 1 else 0) + DeletableCount(files[1..])
  }

  lemma {:induction false} DeletableOrNot(files: seq<SessionFile>)
    ensures |Undeletable(files)| + DeletableCount(files) == |files|
    ensures DeletableCount(files) == |files| <==> forall i :: 0 <= i < |files| ==> files[i].deletable
  {
    if files != [] {
      DeletableOrNot(files[1..]);
      assert forall i :: 0 < i < |files| ==> files[i] == files[1..][i - 1];
    }
  }

  lemma {:induction false} DeletableGrows(files: seq<SessionFile>, j: nat, k: nat)
    requires j <= k <= |files|
    ensures DeletableCount(files[..j]) <= DeletableCount(files[..k])
  {
    if j > 0 {
      DeletableGrows(files[1..], j - 1, k - 1);
      assert files[..j][1..] == files[1..][..j - 1] && files[..k][1..] == files[1..][..k - 1];
    }
  }

  /** What the directory would still weigh with the oldest `j` given up. */
  function WeightWithout(sorted: seq<SessionFile>, j: nat): nat
    requires j <= |sorted|
  {
    TotalBytes(sorted[j..]) + UndeletableBytes(sorted[..j])
  }

  /** Wherever the file limit is met on paper but too few files have gone, the
      bytes left force another to be given up. */
  ghost predicate BytesForceEnough(sorted: seq<SessionFile>) {
    forall j: nat :: j <= |sorted| && TooFewGone(sorted, j) ==> WeightWithout(sorted, j) > MAX_RETAINED_BYTES
  }

  predicate TooFewGone(sorted: seq<SessionFile>, j: nat)
    requires j <= |sorted|
  {
    |sorted| - j <= MAX_RETAINED_FILES && DeletableCount(sorted[..j]) + MAX_RETAINED_FILES < |sorted|
  }

  lemma BytesAfterPruning(sorted: seq<SessionFile>, k: nat)
    requires PrunedAt(sorted, k)
    ensures TotalBytes(OnDisk(sorted, k)) <= MAX_RETAINED_BYTES
  {
    BelievedIsHeld(sorted, k);
    UndeletableWeighs(sorted[..k]);
    var stuck := Undeletable(sorted[..k]);
    TotalSplits(stuck + sorted[k..], |stuck|);
    assert (stuck + sorted[k..])[..|stuck|] == stuck && (stuck + sorted[k..])[|stuck|..] == sorted[k..];
  }

  lemma CountAfterPruning(sorted: seq<SessionFile>, k: nat)
    requires k <= |sorted|
    ensures |OnDisk(sorted, k)| == |sorted| - DeletableCount(sorted[..k])
  {
    DeletableOrNot(sorted[..k]);
  }

  lemma ForcedPastHere(sorted: seq<SessionFile>, k: nat, j: nat)
    requires PrunedAt(sorted, k) && j <= |sorted| && |sorted| - j <= MAX_RETAINED_FILES
    requires DeletableCount(sorted[..j]) < DeletableCount(sorted[..k])
    ensures WeightWithout(sorted, j) > MAX_RETAINED_BYTES
  {
    if k <= j {
      DeletableGrows(sorted, k, j);
    }
    assert OverLimit(|sorted| - j, Believed(sorted, j));
    BelievedIsHeld(sorted, j);
  }

  /** Pruning that ends leaves the disk within the byte limit whatever was
      deleted, but within the file limit exactly when the bytes force enough
      deletable files to be given up. */
  lemma DiskAfterPruning(sorted: seq<SessionFile>, k: nat)
    requires PrunedAt(sorted, k)
    ensures TotalBytes(OnDisk(sorted, k)) <= MAX_RETAINED_BYTES
    ensures |OnDisk(sorted, k)| <= MAX_RETAINED_FILES <==> BytesForceEnough(sorted)
  {
    BytesAfterPruning(sorted, k);
    CountAfterPruning(sorted, k);
    BelievedIsHeld(sorted, k);
    if |OnDisk(sorted, k)| <= MAX_RETAINED_FILES {
      forall j: nat | j <= |sorted| && TooFewGone(sorted, j)
        ensures WeightWithout(sorted, j) > MAX_RETAINED_BYTES
      {
        ForcedPastHere(sorted, k, j);
      }
    } else {
      assert TooFewGone(sorted, k);
    }
  }

  /** Ten files or fewer always stay within the file limit. With more it is
      enough that the oldest ones over the limit all delete, and it takes
      exactly that when the rest is within the byte limit. */
  lemma OldestMustDelete(sorted: seq<SessionFile>, k: nat)
    requires PrunedAt(sorted, k)
    ensures |sorted| <= MAX_RETAINED_FILES ==> |OnDisk(sorted, k)| <= MAX_RETAINED_FILES
    ensures |sorted| > MAX_RETAINED_FILES ==>
              var over := |sorted| - MAX_RETAINED_FILES;
              && ((forall i :: 0 <= i < over ==> sorted[i].deletable) ==> |OnDisk(sorted, k)| <= MAX_RETAINED_FILES)
              && (WeightWithout(sorted, over) <= MAX_RETAINED_BYTES ==>
                    k == over
                    && (|OnDisk(sorted, k)| <= MAX_RETAINED_FILES ==>
                          forall i :: 0 <= i < over ==> sorted[i].deletable))
  {
    CountAfterPruning(sorted, k);
    if |sorted| > MAX_RETAINED_FILES {
      var over := |sorted| - MAX_RETAINED_FILES;
      DeletableOrNot(sorted[..over]);
      DeletableGrows(sorted, over, k);
      BelievedIsHeld(sorted, over);
      assert forall i :: 0 <= i < over ==> sorted[..over][i] == sorted[i];
    }
  }

  // -- a directory over the limit --------------------------------------------

  lemma {:induction false} NewestGoesLast(sorted: seq<SessionFile>, file: SessionFile)
    requires forall i :: 0 <= i < |sorted| ==> sorted[i].modified <= file.modified
    ensures InsertByAge(sorted, file) == sorted + [file]
  {
    if sorted != [] {
      NewestGoesLast(sorted[1..], file);
    }
  }

  lemma {:induction false} SortedStays(files: seq<SessionFile>)
    requires ByAge(files)
    ensures OldestFirst(files) == files
  {
    if files != [] {
      var init := files[..|files| - 1];
      SortedStays(init);
      NewestGoesLast(init, files[|files| - 1]);
      assert files == init + [files[|files| - 1]];
    }
  }

  /** Eleven small files, the oldest of which cannot be deleted. */
  function OneStuck(): (files: seq<SessionFile>)
    ensures |files| == 11 && ByAge(files)
    ensures forall i :: 0 <= i < 11 ==> files[i] == SessionFile(i, i, 1, i != 0)
  {
    seq(11, i requires 0 <= i < 11 => SessionFile(i, i, 1, i != 0))
  }

  lemma {:induction false} SmallTotal(files: seq<SessionFile>)
    requires forall i :: 0 <= i < |files| ==> files[i].bytes == 1
    ensures TotalBytes(files) == |files| && UndeletableBytes(files) <= |files|
  {
    if files != [] {
      SmallTotal(files[1..]);
    }
  }

  /** Pruning such a directory leaves all eleven on disk. */
  lemma OneStuckStaysOver()
    ensures PrunedAt(OldestFirst(OneStuck()), 1)
    ensures |OnDisk(OldestFirst(OneStuck()), 1)| == 11
  {
    var files := OneStuck();
    SortedStays(files);
    SmallTotal(files);
    SmallTotal(files[1..]);
    SmallTotal(files[..1]);
    BelievedIsHeld(files, 1);
    CountAfterPruning(files, 1);
    assert files[..1] == [files[0]] && !files[0].deletable;
  }
}
