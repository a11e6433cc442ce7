// Deleting a title's files through the arr, and what is answered when that fails part-way
// (src/lib/arr-title-data.ts, lines 371-447).
module FileDeletes {
  import opened Options

  type Id = x: int | x > 0 witness 1

  datatype Service = Radarr | Sonarr

  // One DELETE's reply, with what it did to the file: a failed one may still have removed it.
  datatype Reply = Fine | FailedGone | FailedKept

  // What the arr does: each movie file's reply in turn; the bulk delete's reply and the
  // files it got to; whether the files can be read again after a failure.
  datatype Arr = Arr(replies: nat -> Reply, bulkFine: bool, bulkGone: set<Id>, readsAgain: bool)

  datatype Answer =
    | NotOnTitle
    | Threw
    | Deleted(ids: seq<Id>, error: bool)

  function Gone(ids: seq<Id>, files: set<Id>, confirmed: seq<Id>, listed: bool): seq<Id> {
    if ids == [] then []
    else
      var before, id := Gone(ids[..|ids| - 1], files, confirmed, listed), ids[|ids| - 1];
      if id in confirmed || (listed && id !in files) then before + [id] else before
  }

  lemma {:induction false} GoneMeans(ids: seq<Id>, files: set<Id>, confirmed: seq<Id>, listed: bool, id: Id)
    ensures id in Gone(ids, files, confirmed, listed) <==> id in ids && (id in confirmed || (listed && id !in files))
    ensures |Gone(ids, files, confirmed, listed)| <= |ids|
  {
    if ids != [] {
      var n := |ids| - 1;
      GoneMeans(ids[..n], files, confirmed, listed, id);
      assert ids == ids[..n] + [ids[n]];
    }
  }

  lemma {:induction false} GoneJoins(a: seq<Id>, b: seq<Id>, files: set<Id>, confirmed: seq<Id>, listed: bool)
    ensures Gone(a + b, files, confirmed, listed) ==
      Gone(a, files, confirmed, listed) + Gone(b, files, confirmed, listed)
    decreases |b|
  {
    if b == [] {
      assert a + b == a;
    } else {
      var n := |b| - 1;
      GoneJoins(a, b[..n], files, confirmed, listed);
      assert (a + b)[..|a| + n] == a + b[..n] && (a + b)[|a| + n] == b[n];
    }
  }

  // The chosen ids that are confirmed or no longer listed, in the order they were chosen.
  lemma GoneInOrder(ids: seq<Id>, i: nat, files: set<Id>, confirmed: seq<Id>, listed: bool)
    requires i < |ids|
    ensures var mine := if ids[i] in confirmed || (listed && ids[i] !in files) then [ids[i]] else [];
      Gone(ids, files, confirmed, listed) ==
      Gone(ids[..i], files, confirmed, listed) + mine + Gone(ids[i + 1..], files, confirmed, listed)
  {
    assert ids == ids[..i + 1] + ids[i + 1..] && ids[..i + 1][..i] == ids[..i];
    GoneJoins(ids[..i + 1], ids[i + 1..], files, confirmed, listed);
  }

  lemma {:induction false} AllGone(ids: seq<Id>, files: set<Id>, confirmed: seq<Id>, listed: bool)
    ensures |Gone(ids, files, confirmed, listed)| == |ids| <==>
      forall id :: id in ids ==> id in confirmed || (listed && id !in files)
    ensures |Gone(ids, files, confirmed, listed)| <= |ids|
  {
    if ids != [] {
      var n := |ids| - 1;
      AllGone(ids[..n], files, confirmed, listed);
      assert ids == ids[..n] + [ids[n]];
    }
  }

  // Nothing gone is the arr's failure; all gone is what was asked.
  function AfterFailure(ids: seq<Id>, files: set<Id>, confirmed: seq<Id>, listed: bool): (answer: Answer)
    ensures answer == Threw || answer.Deleted?
    ensures answer == Threw <==> forall id :: id in ids ==> id !in confirmed && (listed ==> id in files)
    ensures answer.Deleted? ==> answer.ids == Gone(ids, files, confirmed, listed)
    ensures answer.Deleted? && !answer.error <==>
      ids != [] && forall id :: id in ids ==> id in confirmed || (listed && id !in files)
  {
    var gone := Gone(ids, files, confirmed, listed);
    AllGone(ids, files, confirmed, listed);
    NoneGone(ids, files, confirmed, listed);
    if gone == [] then Threw else Deleted(gone, |gone| != |ids|)
  }

  lemma NoneGone(ids: seq<Id>, files: set<Id>, confirmed: seq<Id>, listed: bool)
    ensures Gone(ids, files, confirmed, listed) == [] <==>
      forall id :: id in ids ==> id !in confirmed && (listed ==> id in files)
  {
    var gone := Gone(ids, files, confirmed, listed);
    forall id: Id
      ensures id in gone <==> id in ids && (id in confirmed || (listed && id !in files))
    {
      GoneMeans(ids, files, confirmed, listed, id);
    }
    if gone != [] { assert gone[0] in gone; }
  }

  method DeletedAfterFailure(ids: seq<Id>, files: set<Id>, confirmed: seq<Id>, listed: bool) returns (answer: Answer)
    ensures answer == AfterFailure(ids, files, confirmed, listed)
  {
    var gone: seq<Id> := [];
    for n := 0 to |ids|
      invariant gone == Gone(ids[..n], files, confirmed, listed)
    {
      assert ids[..n + 1][..n] == ids[..n];
      if ids[n] in confirmed || (listed && ids[n] !in files) { gone := gone + [ids[n]]; }
    }
    assert ids[..|ids|] == ids;
    answer := if gone == [] then Threw else Deleted(gone, |gone| != |ids|);
  }

  // What is answered as deleted is gone; where the files could be read again it is exactly
  // what is gone of the chosen ones, with an error exactly while one of them is still
  // there; an outright failure means nothing is gone.
  ghost predicate Told(ids: seq<Id>, was: set<Id>, files: set<Id>, answer: Answer, listed: bool) {
    match answer
    case NotOnTitle => files == was
    case Threw => listed ==> files == was
    case Deleted(deleted, error) =>
      && (forall id :: id in deleted ==> id in ids && id !in files)
      && (listed ==> forall id :: id in ids && id !in files ==> id in deleted)
      && (!error ==> forall id :: id in ids ==> id !in files)
      && (error && listed ==> exists id :: id in ids && id in files)
  }

  // The first of the one-by-one deletes that fails.
  predicate FailsFirstAt(ids: seq<Id>, arr: Arr, n: int) {
    0 <= n < |ids| && !arr.replies(n).Fine? && forall j :: 0 <= j < n ==> arr.replies(j).Fine?
  }

  predicate NothingFails(service: Service, ids: seq<Id>, arr: Arr) {
    if service.Sonarr? then arr.bulkFine else forall n :: 0 <= n < |ids| ==> arr.replies(n).Fine?
  }

  // The files left when the n-th delete failed, after the ones before it went.
  function LeftAt(was: set<Id>, ids: seq<Id>, arr: Arr, n: nat): set<Id>
    requires n < |ids|
  {
    was - (set id | id in ids[..n]) - (if arr.replies(n).FailedGone? then {ids[n]} else {})
  }

  // One DELETE each, up to the first that fails.
  method DeleteOneByOne(was: set<Id>, ids: seq<Id>, arr: Arr)
    returns (answer: Answer, files: set<Id>, ghost failed: Option<nat>)
    ensures failed.None? ==>
      NothingFails(Radarr, ids, arr) && files == was - (set id | id in ids) && answer == Deleted(ids, false)
    ensures failed.Some? ==>
      && FailsFirstAt(ids, arr, failed.value) && files == LeftAt(was, ids, arr, failed.value)
      && answer == AfterFailure(ids, files, ids[..failed.value], arr.readsAgain)
  {
    files, failed := was, None;
    var deleted: seq<Id> := [];
    for n := 0 to |ids|
      invariant deleted == ids[..n] && files == was - (set id | id in ids[..n])
      invariant forall j :: 0 <= j < n ==> arr.replies(j).Fine?
    {
      var reply := arr.replies(n);
      assert ids[..n + 1] == ids[..n] + [ids[n]];
      if !reply.Fine? {
        if reply.FailedGone? { files := files - {ids[n]}; }
        answer := DeletedAfterFailure(ids, files, deleted, arr.readsAgain);
        failed := Some(n);
        return;
      }
      files := files - {ids[n]};
      deleted := deleted + [ids[n]];
    }
    assert ids[..|ids|] == ids;
    answer := Deleted(deleted, false);
  }

  method DeleteTitleFiles(service: Service, was: set<Id>, ids: seq<Id>, arr: Arr)
      returns (answer: Answer, files: set<Id>)
    ensures answer.NotOnTitle? <==> ids == [] || exists id :: id in ids && id !in was
    ensures files <= was && forall id :: id in was && id !in files ==> id in ids
    ensures Told(ids, was, files, answer, arr.readsAgain)
    // Every chosen file is asked for, one by one up to the first failure, or all at once.
    ensures !answer.NotOnTitle? && NothingFails(service, ids, arr) ==>
      files == was - (set id | id in ids) && answer == Deleted(ids, false)
    ensures !answer.NotOnTitle? && service.Sonarr? && !arr.bulkFine ==>
      && files == was - (set id | id in ids && id in arr.bulkGone)
      && answer == AfterFailure(ids, files, [], arr.readsAgain)
    ensures !answer.NotOnTitle? && service.Radarr? ==> forall n :: FailsFirstAt(ids, arr, n) ==>
      && files == LeftAt(was, ids, arr, n)
      && answer == AfterFailure(ids, files, ids[..n], arr.readsAgain)
  {
    files := was;
    if ids == [] || exists id :: id in ids && id !in was { return NotOnTitle, files; }
    if service.Sonarr? {
      files := was - (if arr.bulkFine then set id | id in ids else set id | id in ids && id in arr.bulkGone);
      if arr.bulkFine { return Deleted(ids, false), files; }
      answer := DeletedAfterFailure(ids, files, [], arr.readsAgain);
      ToldTheGone(ids, was, files, [], arr.readsAgain);
      return;
    }
    ghost var failed;
    answer, files, failed := DeleteOneByOne(was, ids, arr);
    if failed.Some? {
      assert forall n :: FailsFirstAt(ids, arr, n) ==> n == failed.value;
      assert forall id :: id in ids[..failed.value] ==> id in ids;
      ToldTheGone(ids, was, files, ids[..failed.value], arr.readsAgain);
    }
  }

  lemma ToldTheGone(ids: seq<Id>, was: set<Id>, files: set<Id>, confirmed: seq<Id>, listed: bool)
    requires files <= was && forall id :: id in was && id !in files ==> id in ids
    requires forall id :: id in confirmed ==> id in ids && id !in files
    requires forall id :: id in ids ==> id in was
    ensures var gone := Gone(ids, files, confirmed, listed);
      Told(ids, was, files, AfterFailure(ids, files, confirmed, listed), listed)
  {
    var gone := Gone(ids, files, confirmed, listed);
    forall id: Id
      ensures id in gone <==> id in ids && (id in confirmed || (listed && id !in files))
    {
      GoneMeans(ids, files, confirmed, listed, id);
    }
    AllGone(ids, files, confirmed, listed);
    if gone == [] && listed {
      assert forall id :: id in was ==> id in files;
    }
  }
}
