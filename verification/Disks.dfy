// Which disk a folder is on (src/lib/arr-system.ts, lines 557-657).
module Disks {
  import opened Options

  // ── paths ──────────────────────────────────────────────────────────────────

  function Slashed(p: string): (s: string)
    ensures |s| == |p| && forall i :: 0 <= i < |p| ==> s[i] == if p[i] == '\\' then '/' else p[i]
  {
    seq(|p|, i requires 0 <= i < |p| => if p[i] == '\\' then '/' else p[i])
  }

  function Trimmed(s: string): (t: string)
    ensures t <= s && (s != "" ==> t != "") && (|t| > 1 ==> t[|t| - 1] != '/')
    ensures forall i :: |t| <= i < |s| ==> s[i] == '/'
  {
    if |s| > 1 && s[|s| - 1] == '/' then Trimmed(s[..|s| - 1]) else s
  }

  predicate Letter(c: char) { 'a' <= c <= 'z' || 'A' <= c <= 'Z' }

  function LowerChar(c: char): char {
    if 'A' <= c <= 'Z' then (c as int - 'A' as int + 'a' as int) as char else c
  }

  function Lower(s: string): (t: string)
    ensures |t| == |s| && forall i :: 0 <= i < |s| ==> t[i] == LowerChar(s[i])
  {
    seq(|s|, i requires 0 <= i < |s| => LowerChar(s[i]))
  }

  predicate OnDrive(s: string) { |s| >= 2 && Letter(s[0]) && s[1] == ':' }

  function ComparablePath(p: string): string {
    var t := Trimmed(Slashed(p));
    if OnDrive(t) then Lower(t) else t
  }

  method TrimTrailing(s: string) returns (t: string)
    ensures t == Trimmed(s)
  {
    var end: nat := |s|;
    assert s[..end] == s;
    while end > 1 && s[end - 1] == '/'
      invariant end <= |s| && Trimmed(s[..end]) == Trimmed(s)
    {
      end := end - 1;
      assert s[..end + 1][..end] == s[..end];
    }
    t := s[..end];
  }

  lemma {:induction false} TrimmedTwice(s: string)
    ensures Trimmed(Trimmed(s)) == Trimmed(s)
  {
    if |s| > 1 && s[|s| - 1] == '/' { TrimmedTwice(s[..|s| - 1]); }
  }

  lemma {:induction false} TrimmedLower(s: string)
    ensures Trimmed(Lower(s)) == Lower(Trimmed(s))
  {
    if |s| > 1 && s[|s| - 1] == '/' {
      TrimmedLower(s[..|s| - 1]);
      assert Lower(s)[..|s| - 1] == Lower(s[..|s| - 1]);
    }
  }

  lemma {:induction false} TrimmedDrive(s: string)
    requires OnDrive(s)
    ensures OnDrive(Trimmed(s)) && Trimmed(s)[..2] == s[..2]
  {
    if |s| > 1 && s[|s| - 1] == '/' { TrimmedDrive(s[..|s| - 1]); }
  }

  lemma ComparableTwice(p: string)
    ensures ComparablePath(ComparablePath(p)) == ComparablePath(p)
  {
    var t := Trimmed(Slashed(p));
    var low := Lower(t);
    TrimmedTwice(Slashed(p));
    TrimmedLower(t);
    assert Slashed(t) == t && Slashed(low) == low && Lower(low) == low;
  }

  lemma TrailingIsNothing(p: string, c: char)
    requires p != "" && (c == '/' || c == '\\')
    ensures ComparablePath(p + [c]) == ComparablePath(p)
  {
    var s := Slashed(p);
    assert Slashed(p + [c]) == s + "/" && (s + "/")[..|s|] == s;
  }

  lemma DriveCaseIsNothing(p: string)
    requires OnDrive(p)
    ensures ComparablePath(Lower(p)) == ComparablePath(p)
  {
    var s := Slashed(p);
    TrimmedDrive(s);
    assert Slashed(Lower(p)) == Lower(s);
    TrimmedLower(s);
    var t := Trimmed(s);
    assert Lower(Lower(t)) == Lower(t);
  }

  // One place, one comparable path: whichever separator, with or without trailing ones,
  // and, on a drive, in either case.
  lemma OnePlaceOnePath(p: string)
    ensures ComparablePath(ComparablePath(p)) == ComparablePath(p)
    ensures ComparablePath(Slashed(p)) == ComparablePath(p)
    ensures p != "" ==> ComparablePath(p + "/") == ComparablePath(p) && ComparablePath(p + "\\") == ComparablePath(p)
    ensures OnDrive(p) ==> ComparablePath(Lower(p)) == ComparablePath(p)
  {
    ComparableTwice(p);
    assert Slashed(Slashed(p)) == Slashed(p);
    if p != "" {
      TrailingIsNothing(p, '/');
      TrailingIsNothing(p, '\\');
    }
    if OnDrive(p) { DriveCaseIsNothing(p); }
  }

  // The same but for the case of ASCII letters.
  ghost predicate EqualButCase(a: string, b: string) {
    |a| == |b| && forall i :: 0 <= i < |a| ==> a[i] == b[i] || OneLetter(a[i], b[i]) || OneLetter(b[i], a[i])
  }

  predicate OneLetter(low: char, high: char) { 'a' <= low <= 'z' && high as int == low as int - 32 }

  lemma LowerForgetsCase(a: string, b: string)
    ensures Lower(a) == Lower(b) <==> EqualButCase(a, b)
  {
    if Lower(a) == Lower(b) {
      forall i | 0 <= i < |a|
        ensures a[i] == b[i] || OneLetter(a[i], b[i]) || OneLetter(b[i], a[i])
      {
        assert Lower(a)[i] == Lower(b)[i];
      }
    }
  }

  lemma LowerKeepsDrive(t: string)
    ensures OnDrive(Lower(t)) <==> OnDrive(t)
  {
  }

  // No two places share a path: past the separators and the trailing ones, case counts
  // but on a drive.
  lemma TwoPlacesTwoPaths(p: string, q: string)
    ensures ComparablePath(p) == ComparablePath(q) <==>
      var (a, b) := (Trimmed(Slashed(p)), Trimmed(Slashed(q)));
      a == b || (OnDrive(a) && OnDrive(b) && EqualButCase(a, b))
  {
    var a, b := Trimmed(Slashed(p)), Trimmed(Slashed(q));
    LowerForgetsCase(a, b);
    LowerKeepsDrive(a);
    LowerKeepsDrive(b);
    assert OnDrive(a) && !OnDrive(b) ==> Lower(a) != b;
    assert OnDrive(b) && !OnDrive(a) ==> Lower(b) != a;
  }

  // ── which disk holds a folder ──────────────────────────────────────────────

  function PrefixOf(cmp: string): string { if cmp != "" && cmp[|cmp| - 1] == '/' then cmp else cmp + "/" }

  predicate Holds(cmp: string, p: string) { p == cmp || PrefixOf(cmp) <= p }

  // The segments so far, with one more character.
  function Extended(segments: seq<string>, c: char): (r: seq<string>)
    requires segments != []
    ensures r != []
  {
    if c == '/' then segments + [""]
    else segments[..|segments| - 1] + [segments[|segments| - 1] + [c]]
  }

  function Segments(p: string): (r: seq<string>)
    ensures r != []
  {
    if p == "" then [""] else Extended(Segments(p[..|p| - 1]), p[|p| - 1])
  }

  // The root's own segments leave out the empty one after its slash.
  function OwnSegments(cmp: string): seq<string> { if cmp == "/" then [""] else Segments(cmp) }

  predicate Comparable(cmp: string) { |cmp| > 1 ==> cmp[|cmp| - 1] != '/' }

  lemma ComparablePathsAre(p: string)
    ensures Comparable(ComparablePath(p))
  {
    var t := Trimmed(Slashed(p));
    assert OnDrive(t) ==> LowerChar(t[|t| - 1]) != '/';
  }

  function Joined(segments: seq<string>): string
    requires segments != []
  {
    if |segments| == 1 then segments[0] else Joined(segments[..|segments| - 1]) + "/" + segments[|segments| - 1]
  }

  ghost predicate NoSlash(segments: seq<string>) { forall i :: 0 <= i < |segments| ==> '/' !in segments[i] }

  lemma JoinedExtended(segments: seq<string>, c: char)
    requires segments != [] && NoSlash(segments)
    ensures NoSlash(Extended(segments, c)) && Joined(Extended(segments, c)) == Joined(segments) + [c]
  {
    var n := |segments| - 1;
    if c == '/' {
      assert (segments + [""])[..n + 1] == segments;
      assert Joined(segments + [""]) == Joined(segments) + "/" + "";
    } else {
      var r := segments[..n] + [segments[n] + [c]];
      assert r[..n] == segments[..n];
      assert n > 0 ==> Joined(r) == Joined(segments[..n]) + "/" + (segments[n] + [c]);
    }
  }

  // Splitting loses nothing.
  lemma {:induction false} SegmentsJoin(p: string)
    ensures NoSlash(Segments(p)) && Joined(Segments(p)) == p
  {
    if p != "" {
      var n := |p| - 1;
      SegmentsJoin(p[..n]);
      JoinedExtended(Segments(p[..n]), p[n]);
      assert p == p[..n] + [p[n]];
    }
  }

  lemma ExtendedSum(a: seq<string>, b: seq<string>, c: char)
    requires b != []
    ensures Extended(a + b, c) == a + Extended(b, c)
  {
    assert (a + b)[..|a + b| - 1] == a + b[..|b| - 1];
  }

  lemma OneMore(q: string, c: char)
    ensures Segments(q + [c]) == Extended(Segments(q), c)
  {
    assert (q + [c])[..|q|] == q;
  }

  lemma {:induction false} SegmentsOfSum(a: string, b: string)
    ensures Segments(a + "/" + b) == Segments(a) + Segments(b)
    decreases |b|
  {
    if b == "" {
      OneMore(a, '/');
      assert a + "/" + b == a + ['/'];
    } else {
      var m := |b| - 1;
      var rest, c := b[..m], b[m];
      SegmentsOfSum(a, rest);
      OneMore(a + "/" + rest, c);
      OneMore(rest, c);
      assert a + "/" + b == a + "/" + rest + [c] && b == rest + [c];
      ExtendedSum(Segments(a), Segments(rest), c);
    }
  }

  lemma {:induction false} JoinedSplits(segments: seq<string>, n: nat)
    requires 0 < n < |segments|
    ensures Joined(segments) == Joined(segments[..n]) + "/" + Joined(segments[n..])
    decreases |segments|
  {
    var m := |segments| - 1;
    if n == m {
      assert segments[m..] == [segments[m]];
    } else {
      JoinedSplits(segments[..m], n);
      assert segments[..m][..n] == segments[..n] && segments[..m][n..] == segments[n..][..m - n];
      assert Joined(segments) == Joined(segments[..m]) + "/" + segments[m];
      assert Joined(segments[n..]) == Joined(segments[n..][..m - n]) + "/" + segments[m];
      assert Joined(segments[..n]) + "/" + Joined(segments[n..][..m - n]) + "/" + segments[m] ==
             Joined(segments[..n]) + "/" + (Joined(segments[n..][..m - n]) + "/" + segments[m]);
    }
  }

  lemma HolderBegins(cmp: string, p: string)
    requires Comparable(cmp) && p != "" && Holds(cmp, p)
    ensures OwnSegments(cmp) <= Segments(p)
  {
    if PrefixOf(cmp) <= p {
      var n := |PrefixOf(cmp)|;
      var head := if cmp == "/" then "" else cmp;
      assert p == head + "/" + p[n..];
      SegmentsOfSum(head, p[n..]);
    } else {
      assert p == cmp;
    }
  }

  lemma OwnSegmentsJoin(cmp: string)
    requires Comparable(cmp)
    ensures OwnSegments(cmp) != [] && Joined(OwnSegments(cmp)) == (if cmp == "/" then "" else cmp)
    ensures PrefixOf(cmp) == (if cmp == "/" then "" else cmp) + "/"
  {
    SegmentsJoin(cmp);
  }

  lemma PastThePrefix(head: string, tail: string, p: string)
    requires p == head + "/" + tail
    ensures head + "/" <= p
  {
    assert p[..|head| + 1] == head + "/";
  }

  lemma JoinedBeyond(own: seq<string>, all: seq<string>)
    requires own != [] && own <= all
    ensures all == own || Joined(own) + "/" <= Joined(all)
  {
    var n := |own|;
    assert all[..n] == own;
    if n < |all| {
      JoinedSplits(all, n);
      PastThePrefix(Joined(own), Joined(all[n..]), Joined(all));
    }
  }

  lemma BeginningHolds(cmp: string, p: string)
    requires Comparable(cmp) && p != "" && OwnSegments(cmp) <= Segments(p)
    ensures Holds(cmp, p)
  {
    SegmentsJoin(p);
    OwnSegmentsJoin(cmp);
    JoinedBeyond(OwnSegments(cmp), Segments(p));
  }

  // A disk holds a folder exactly when its path's segments begin the folder's.
  lemma HoldsByWholeSegments(path: string, p: string)
    requires p != ""
    ensures Holds(ComparablePath(path), p) <==> OwnSegments(ComparablePath(path)) <= Segments(p)
  {
    var cmp := ComparablePath(path);
    ComparablePathsAre(path);
    if Holds(cmp, p) { HolderBegins(cmp, p); }
    if OwnSegments(cmp) <= Segments(p) { BeginningHolds(cmp, p); }
  }

  // Two disks holding one folder by equally long paths have the same path.
  lemma EquallyLongHoldersAgree(a: string, b: string, p: string)
    requires Holds(a, p) && Holds(b, p) && |a| == |b|
    ensures a == b
  {
    assert a == p[..|a|] && b == p[..|b|];
  }

  // ── the remembered list ────────────────────────────────────────────────────

  class ArrDisk {
    var path: string
    var freeSpace: Option<int>

    constructor (path: string, freeSpace: Option<int>)
      ensures this.path == path && this.freeSpace == freeSpace
    {
      this.path, this.freeSpace := path, freeSpace;
    }
  }

  // A list its owner may edit in place, and whose disks may be edited in place.
  class DiskList {
    var disks: seq<ArrDisk>

    constructor (disks: seq<ArrDisk>)
      ensures this.disks == disks
    {
      this.disks := disks;
    }
  }

  datatype ComparableDisk = ComparableDisk(disk: ArrDisk, path: string, cmp: string, prefix: string)

  function Recomputed(disks: seq<ArrDisk>): (r: seq<ComparableDisk>)
    reads disks
    ensures |r| == |disks|
    ensures forall i :: 0 <= i < |r| ==> r[i] == ComparableDisk(disks[i], disks[i].path,
      ComparablePath(disks[i].path), PrefixOf(ComparablePath(disks[i].path)))
  {
    seq(|disks|, i requires 0 <= i < |disks| reads disks =>
      ComparableDisk(disks[i], disks[i].path, ComparablePath(disks[i].path), PrefixOf(ComparablePath(disks[i].path))))
  }

  class Memo {
    var lists: map<DiskList, seq<ComparableDisk>>

    // What is remembered was right for the path it was made from, whatever that path is now.
    ghost predicate Valid()
      reads this
    {
      forall list, i :: list in lists && 0 <= i < |lists[list]| ==> MadeRight(lists[list][i])
    }

    constructor ()
      ensures Valid() && lists == map[]
    {
      lists := map[];
    }

    // However the list and its disks were edited since: never a stale match.
    method ComparableDisks(list: DiskList) returns (r: seq<ComparableDisk>)
      requires Valid()
      modifies this
      ensures Valid() && r == Recomputed(list.disks) && list in lists && lists[list] == r
      ensures forall other :: other in old(lists) && other != list ==>
        other in lists && lists[other] == old(lists)[other]
    {
      if list in lists {
        var same := StillRight(lists[list], list.disks);
        if same { return lists[list]; }
      }
      r := Compute(list.disks);
      lists := lists[list := r];
    }
  }

  method StillRight(known: seq<ComparableDisk>, disks: seq<ArrDisk>) returns (same: bool)
    requires forall i :: 0 <= i < |known| ==> MadeRight(known[i])
    ensures same <==> known == Recomputed(disks)
  {
    if |known| != |disks| { return false; }
    same := true;
    var i := 0;
    while i < |known| && same
      invariant i <= |known|
      invariant same ==> forall j :: 0 <= j < i ==> known[j].disk == disks[j] && known[j].path == disks[j].path
      invariant !same ==> exists j :: 0 <= j < |known| && !(known[j].disk == disks[j] && known[j].path == disks[j].path)
    {
      same := known[i].disk == disks[i] && known[i].path == disks[i].path;
      i := i + 1;
    }
    if same { KnownIsRecomputed(known, disks); }
  }

  ghost predicate MadeRight(c: ComparableDisk) { c.cmp == ComparablePath(c.path) && c.prefix == PrefixOf(c.cmp) }

  lemma KnownIsRecomputed(known: seq<ComparableDisk>, disks: seq<ArrDisk>)
    requires |known| == |disks| && forall i :: 0 <= i < |known| ==> MadeRight(known[i])
    requires forall i :: 0 <= i < |known| ==> known[i].disk == disks[i] && known[i].path == disks[i].path
    ensures known == Recomputed(disks)
  {
    forall i | 0 <= i < |known|
      ensures known[i] == Recomputed(disks)[i]
    {
      assert MadeRight(known[i]);
    }
  }

  method Compute(disks: seq<ArrDisk>) returns (r: seq<ComparableDisk>)
    ensures r == Recomputed(disks)
  {
    r := [];
    for i := 0 to |disks|
      invariant |r| == i && forall j :: 0 <= j < i ==> r[j] == Recomputed(disks)[j]
    {
      var cmp := ComparablePath(disks[i].path);
      r := r + [ComparableDisk(disks[i], disks[i].path, cmp, PrefixOf(cmp))];
    }
  }

  // Among the first n: the first of the longest holders.
  ghost predicate BestHolder(p: string, disks: seq<ComparableDisk>, n: int, i: int) {
    && 0 <= i < n <= |disks| && Holds(disks[i].cmp, p)
    && (forall j :: 0 <= j < n && Holds(disks[j].cmp, p) ==> |disks[j].cmp| <= |disks[i].cmp|)
    && (forall j :: 0 <= j < i && Holds(disks[j].cmp, p) ==> |disks[j].cmp| < |disks[i].cmp|)
  }

  lemma StillBest(p: string, disks: seq<ComparableDisk>, n: nat, i: nat)
    requires n < |disks| && BestHolder(p, disks, n, i) && (Holds(disks[n].cmp, p) ==> |disks[n].cmp| <= |disks[i].cmp|)
    ensures BestHolder(p, disks, n + 1, i)
  {
  }

  lemma NewBest(p: string, disks: seq<ComparableDisk>, n: nat, i: nat)
    requires n < |disks| && BestHolder(p, disks, n, i) && Holds(disks[n].cmp, p) && |disks[n].cmp| > |disks[i].cmp|
    ensures BestHolder(p, disks, n + 1, n)
  {
  }

  method HolderOf(p: string, disks: seq<ComparableDisk>) returns (best: Option<nat>)
    requires forall i :: 0 <= i < |disks| ==> disks[i].prefix == PrefixOf(disks[i].cmp)
    ensures best.Some? ==> BestHolder(p, disks, |disks|, best.value)
    ensures best.None? ==> forall j :: 0 <= j < |disks| ==> !Holds(disks[j].cmp, p)
  {
    best := None;
    for i := 0 to |disks|
      invariant best.Some? ==> BestHolder(p, disks, i, best.value)
      invariant best.None? ==> forall j :: 0 <= j < i ==> !Holds(disks[j].cmp, p)
    {
      var d := disks[i];
      var better := (p == d.cmp || d.prefix <= p) && (best.None? || |d.cmp| > |disks[best.value].cmp|);
      if best.Some? {
        if better { NewBest(p, disks, i, best.value); } else { StillBest(p, disks, i, best.value); }
      }
      if better { best := Some(i); }
    }
  }

  ghost predicate FirstOfItsPath(disks: seq<ArrDisk>, i: int)
    reads disks
  {
    && 0 <= i < |disks|
    && forall j :: 0 <= j < i ==> ComparablePath(disks[j].path) != ComparablePath(disks[i].path)
  }

  // The disk a folder sits on: the longest path, as the disks read now, whose whole
  // segments begin the folder's.
  method DiskFor(path: string, list: DiskList, memo: Memo) returns (disk: ArrDisk?)
    requires memo.Valid()
    modifies memo
    ensures memo.Valid()
    ensures disk == null ==> forall d :: d in list.disks ==> !Holds(ComparablePath(d.path), ComparablePath(path))
    ensures disk != null ==> disk in list.disks && Holds(ComparablePath(disk.path), ComparablePath(path))
    ensures disk != null ==> forall d :: d in list.disks && Holds(ComparablePath(d.path), ComparablePath(path)) ==>
      |ComparablePath(d.path)| <= |ComparablePath(disk.path)|
    // Of two with that path, the first listed.
    ensures disk != null ==> exists i :: FirstOfItsPath(list.disks, i) && list.disks[i] == disk
  {
    var known := memo.ComparableDisks(list);
    var best := HolderOf(ComparablePath(path), known);
    disk := if best.Some? then known[best.value].disk else null;
    forall d | d in list.disks
      ensures exists i :: 0 <= i < |known| && known[i].disk == d && known[i].cmp == ComparablePath(d.path)
    {
      var i :| 0 <= i < |list.disks| && list.disks[i] == d;
      assert known[i].disk == d;
    }
  }

  // ── the disk a root folder is believed to be on ────────────────────────────

  const TOLERANCE_BYTES := 1_000_000_000

  // The larger of a gigabyte and one part in a hundred.
  predicate Agree(root: int, disk: int) {
    var apart := if root < disk then disk - root else root - disk;
    apart <= TOLERANCE_BYTES || 100 * apart <= disk
  }

  // Apart by no more than a gigabyte or, if that is more, a hundredth of the disk's.
  predicate WithinTolerance(root: int, disk: int) {
    var tolerance := if disk as real * 0.01 > 1_000_000_000.0 then disk as real * 0.01 else 1_000_000_000.0;
    -tolerance <= root as real - disk as real <= tolerance
  }

  lemma AgreeMeans(root: int, disk: int)
    ensures Agree(root, disk) <==> WithinTolerance(root, disk)
  {
  }

  // A match is believed when both free spaces are known and agree, or one is not known
  // and the match is not the catch-all root.
  predicate Believed(p: string, rootFree: Option<int>, cmp: string, diskFree: Option<int>) {
    if rootFree.Some? && diskFree.Some? then Agree(rootFree.value, diskFree.value)
    else cmp != "/" || p == "/"
  }

  method IsBelieved(p: string, rootFree: Option<int>, cmp: string, diskFree: Option<int>) returns (believed: bool)
    ensures believed == Believed(p, rootFree, cmp, diskFree)
  {
    if rootFree.None? || diskFree.None? { return !(cmp == "/" && p != "/"); }
    var apart := if rootFree.value < diskFree.value then diskFree.value - rootFree.value
      else rootFree.value - diskFree.value;
    believed := apart <= TOLERANCE_BYTES || 100 * apart <= diskFree.value;
  }

  // The nearest holder, or nothing: a farther disk is never believed in its place.
  method RootDiskIn(path: string, freeSpace: Option<int>, disks: seq<ComparableDisk>) returns (disk: ArrDisk?)
    requires forall i :: 0 <= i < |disks| ==> disks[i].prefix == PrefixOf(disks[i].cmp)
    ensures disk == null <==> forall i :: !BelievedAt(ComparablePath(path), freeSpace, disks, i)
    ensures disk != null ==> exists i :: BelievedAt(ComparablePath(path), freeSpace, disks, i) && disk == disks[i].disk
    // With nothing to compare by, the nearest holder is taken unless it is the catch-all of
    // some other folder; else it is taken exactly when the free spaces agree.
    ensures forall i :: BestHolder(ComparablePath(path), disks, |disks|, i) ==>
      var free := disks[i].disk.freeSpace;
      disk != null <==>
        if freeSpace.Some? && free.Some? then WithinTolerance(freeSpace.value, free.value)
        else disks[i].cmp != "/" || ComparablePath(path) == "/"
  {
    var p := ComparablePath(path);
    var best := HolderOf(p, disks);
    if best.None? { return null; }
    var holder := disks[best.value];
    var believed := IsBelieved(p, freeSpace, holder.cmp, holder.disk.freeSpace);
    if freeSpace.Some? && holder.disk.freeSpace.Some? { AgreeMeans(freeSpace.value, holder.disk.freeSpace.value); }
    disk := if believed then holder.disk else null;
    assert forall i :: BestHolder(p, disks, |disks|, i) ==> i == best.value;
    assert believed ==> BelievedAt(p, freeSpace, disks, best.value);
  }

  ghost predicate BelievedAt(p: string, freeSpace: Option<int>, disks: seq<ComparableDisk>, i: int)
    reads set j | 0 <= j < |disks| :: disks[j].disk
  {
    BestHolder(p, disks, |disks|, i) && Believed(p, freeSpace, disks[i].cmp, disks[i].disk.freeSpace)
  }
}
