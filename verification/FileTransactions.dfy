/**
 Multi-file updates that can be taken back. Replacing one file is atomic, but may report
 a failure before or after it took effect; a transaction captures every file it is going
 to write, writes them in order, and restores them in reverse on the first failure.
 */
module FileTransactions {
  import opened Outcomes

  type Path = string

  /** A regular file, or something no update may replace. */
  datatype Entry = Regular(text: string) | Special

  type Disk = map<Path, Entry>

  datatype Write = Write(path: Path, text: string)

  /** What became of one replacement or removal. */
  datatype Fate = Done | FailedBefore | FailedAfter

  type Fates = nat -> Fate

  /** The disk, the number of file operations so far, and every disk since the start. */
  datatype State = State(disk: Disk, clock: nat, trail: seq<Disk>)

  datatype Snapshot = Snapshot(path: Path, contents: Option<string>)

  function At(d: Disk, p: Path): Option<Entry> {
    if p in d then Some(d[p]) else None
  }

  // --------------------------------------------------------- one file operation

  function Changed(s: State, d: Disk): State {
    State(d, s.clock + 1, s.trail + [d])
  }

  function Put(s: State, fates: Fates, w: Write): (State, bool) {
    if w.path in s.disk && s.disk[w.path].Special? then (s, false)
    else
      var fate := fates(s.clock);
      (Changed(s, if fate == FailedBefore then s.disk else s.disk[w.path := Regular(w.text)]), fate == Done)
  }

  function Erase(s: State, fates: Fates, p: Path): (State, bool) {
    if p !in s.disk then (s, true)
    else
      var fate := fates(s.clock);
      (Changed(s, if fate == FailedBefore then s.disk else s.disk - {p}), fate == Done)
  }

  /** A new file, written in place: a failure after it was created leaves whatever was written so far. */
  function Create(s: State, fates: Fates, w: Write, torn: string): (State, bool)
    requires w.path !in s.disk
  {
    match fates(s.clock)
    case FailedBefore => (Changed(s, s.disk), false)
    case FailedAfter => (Changed(s, s.disk[w.path := Regular(torn)]), false)
    case Done => (Changed(s, s.disk[w.path := Regular(w.text)]), true)
  }

  /** Takes back a file that was created, unless it holds something else by now. */
  function Uncreate(s: State, fates: Fates, w: Write): (State, bool) {
    if At(s.disk, w.path) != Some(Regular(w.text)) then (s, false) else Erase(s, fates, w.path)
  }

  function RestoreOne(s: State, fates: Fates, snap: Snapshot): (State, bool) {
    match snap.contents
    case Some(text) => Put(s, fates, Write(snap.path, text))
    case None => Erase(s, fates, snap.path)
  }

  // -------------------------------------------------------------- transactions

  function PutAll(s: State, fates: Fates, writes: seq<Write>): (State, bool)
    decreases |writes|
  {
    if writes == [] then (s, true)
    else
      var (next, ok) := Put(s, fates, writes[0]);
      if ok then PutAll(next, fates, writes[1..]) else (next, false)
  }

  /** Restores the last snapshot first and goes on after a failure. */
  function RestoreAll(s: State, fates: Fates, snaps: seq<Snapshot>): (State, bool)
    decreases |snaps|
  {
    if snaps == [] then (s, true)
    else
      var (next, ok) := RestoreOne(s, fates, snaps[|snaps| - 1]);
      var (last, rest) := RestoreAll(next, fates, snaps[..|snaps| - 1]);
      (last, ok && rest)
  }

  predicate Holds(snaps: seq<Snapshot>, p: Path) {
    exists i :: 0 <= i < |snaps| && snaps[i].path == p
  }

  function Capture(d: Disk, paths: seq<Path>, snaps: seq<Snapshot>): Result<seq<Snapshot>>
    decreases |paths|
  {
    if paths == [] then Ok(snaps)
    else if Holds(snaps, paths[0]) then Capture(d, paths[1..], snaps)
    else match At(d, paths[0])
      case Some(Special) => Err
      case Some(Regular(text)) => Capture(d, paths[1..], snaps + [Snapshot(paths[0], Some(text))])
      case None => Capture(d, paths[1..], snaps + [Snapshot(paths[0], None)])
  }

  datatype Outcome = Committed | RolledBack | RollbackFailed | Refused

  function Transact(s: State, fates: Fates, paths: seq<Path>, writes: seq<Write>): (State, Outcome) {
    var captured := Capture(s.disk, paths, []);
    if captured.Err? then (s, Refused)
    else
      var (after, ok) := PutAll(s, fates, writes);
      if ok then (after, Committed)
      else
        var (restored, clean) := RestoreAll(after, fates, captured.value);
        (restored, if clean then RolledBack else RollbackFailed)
  }

  class FileSystem {
    var disk: Disk
    var clock: nat
    const fates: Fates
    ghost var trail: seq<Disk>

    ghost function View(): State
      reads this
    {
      State(disk, clock, trail)
    }

    constructor (disk: Disk, fates: Fates)
      ensures View() == State(disk, 0, []) && this.fates == fates
    {
      this.disk, this.clock, this.fates, this.trail := disk, 0, fates, [];
    }

    method AtomicWrite(path: Path, text: string) returns (ok: bool)
      modifies this
      ensures (View(), ok) == Put(old(View()), fates, Write(path, text))
    {
      if path in disk && disk[path].Special? {
        return false;
      }
      var fate := fates(clock);
      clock := clock + 1;
      if fate != FailedBefore {
        disk := disk[path := Regular(text)];
      }
      trail := trail + [disk];
      ok := fate == Done;
    }

    method CreateNew(path: Path, text: string, torn: string) returns (ok: bool)
      requires path !in disk
      modifies this
      ensures (View(), ok) == Create(old(View()), fates, Write(path, text), torn)
    {
      var fate := fates(clock);
      clock := clock + 1;
      if fate == Done {
        disk := disk[path := Regular(text)];
      } else if fate == FailedAfter {
        disk := disk[path := Regular(torn)];
      }
      trail := trail + [disk];
      ok := fate == Done;
    }

    method RemoveCreated(path: Path, text: string) returns (ok: bool)
      modifies this
      ensures (View(), ok) == Uncreate(old(View()), fates, Write(path, text))
    {
      if path !in disk || disk[path] != Regular(text) {
        return false;
      }
      ok := RemoveIfExists(path);
    }

    method RemoveIfExists(path: Path) returns (ok: bool)
      modifies this
      ensures (View(), ok) == Erase(old(View()), fates, path)
    {
      if path !in disk {
        return true;
      }
      var fate := fates(clock);
      clock := clock + 1;
      if fate != FailedBefore {
        disk := disk - {path};
      }
      trail := trail + [disk];
      ok := fate == Done;
    }

    /** A snapshot of each distinct path, or nothing when one of them cannot be replaced. */
    method CaptureAll(paths: seq<Path>) returns (captured: Result<seq<Snapshot>>)
      ensures captured == Capture(disk, paths, [])
    {
      var snapshots: seq<Snapshot> := [];
      var left := paths;
      while left != []
        invariant Capture(disk, paths, []) == Capture(disk, left, snapshots)
        decreases |left|
      {
        if !Holds(snapshots, left[0]) {
          if left[0] !in disk {
            snapshots := snapshots + [Snapshot(left[0], None)];
          } else if disk[left[0]].Special? {
            return Err;
          } else {
            snapshots := snapshots + [Snapshot(left[0], Some(disk[left[0]].text))];
          }
        }
        left := left[1..];
      }
      captured := Ok(snapshots);
    }

    method RestoreSnapshots(snapshots: seq<Snapshot>) returns (clean: bool)
      modifies this
      ensures (View(), clean) == RestoreAll(old(View()), fates, snapshots)
    {
      clean := true;
      var left := snapshots;
      while left != []
        invariant RestoreAll(old(View()), fates, snapshots) ==
                  (RestoreAll(View(), fates, left).0, clean && RestoreAll(View(), fates, left).1)
        decreases |left|
      {
        var snapshot := left[|left| - 1];
        left := left[..|left| - 1];
        var ok;
        match snapshot.contents {
          case Some(text) => ok := AtomicWrite(snapshot.path, text);
          case None => ok := RemoveIfExists(snapshot.path);
        }
        clean := clean && ok;
      }
    }
  }

  // ------------------------------------------------------------------- capturing

  /** The snapshots are what the disk holds. */
  ghost predicate Faithful(snaps: seq<Snapshot>, d: Disk) {
    forall i :: 0 <= i < |snaps| ==>
      At(d, snaps[i].path) ==
        match snaps[i].contents case Some(text) => Some(Regular(text)) case None => None
  }

  lemma {:induction false} CaptureFaithful(d: Disk, paths: seq<Path>, snaps: seq<Snapshot>)
    requires Faithful(snaps, d)
    ensures var c := Capture(d, paths, snaps);
            c.Ok? ==> Faithful(c.value, d) && snaps <= c.value && forall p :: p in paths ==> Holds(c.value, p)
    decreases |paths|
  {
    if paths != [] {
      if Holds(snaps, paths[0]) {
        CaptureFaithful(d, paths[1..], snaps);
        KeepsHolding(d, paths[1..], snaps, paths[0]);
      } else if At(d, paths[0]) != Some(Special) {
        var contents := if paths[0] in d then Some(d[paths[0]].text) else None;
        var longer := snaps + [Snapshot(paths[0], contents)];
        assert longer[|snaps|].path == paths[0];
        CaptureFaithful(d, paths[1..], longer);
        KeepsHolding(d, paths[1..], longer, paths[0]);
      }
    }
  }

  lemma KeepsHolding(d: Disk, paths: seq<Path>, snaps: seq<Snapshot>, p: Path)
    requires Holds(snaps, p) && (Capture(d, paths, snaps).Ok? ==> snaps <= Capture(d, paths, snaps).value)
    ensures Capture(d, paths, snaps).Ok? ==> Holds(Capture(d, paths, snaps).value, p)
  {
    var i :| 0 <= i < |snaps| && snaps[i].path == p;
    assert Capture(d, paths, snaps).Ok? ==> Capture(d, paths, snaps).value[i].path == p;
  }

  /** Distinct paths are captured in the order they are given. */
  lemma {:induction false} CaptureOrder(d: Disk, paths: seq<Path>, snaps: seq<Snapshot>)
    requires forall i, j :: 0 <= i < j < |paths| ==> paths[i] != paths[j]
    requires forall i :: 0 <= i < |paths| ==> !Holds(snaps, paths[i])
    requires Capture(d, paths, snaps).Ok?
    ensures var all := Capture(d, paths, snaps).value;
            && |all| == |snaps| + |paths| && snaps <= all
            && forall i :: 0 <= i < |paths| ==> all[|snaps| + i].path == paths[i]
    decreases |paths|
  {
    if paths != [] {
      var contents := if paths[0] in d then Some(d[paths[0]].text) else None;
      var longer := snaps + [Snapshot(paths[0], contents)];
      forall i | 0 <= i < |paths[1..]| ensures !Holds(longer, paths[1..][i]) {
        HoldsSplits(longer, paths[1..][i]);
        assert longer[..|longer| - 1] == snaps;
      }
      CaptureOrder(d, paths[1..], longer);
      var all := Capture(d, paths, snaps).value;
      forall i | 0 <= i < |paths| ensures all[|snaps| + i].path == paths[i] {
        if i > 0 {
          assert paths[1..][i - 1] == paths[i];
        }
      }
    }
  }

  // ---------------------------------------------------------------- taking back

  /** Where a snapshot's path stands after its restore: back as captured, unless the restore failed to act. */
  lemma RestoredOne(s: State, fates: Fates, snap: Snapshot, d0: Disk)
    requires Faithful([snap], d0)
    ensures var (next, ok) := RestoreOne(s, fates, snap);
            && (ok ==> At(next.disk, snap.path) == At(d0, snap.path))
            && (At(s.disk, snap.path) == At(d0, snap.path) ==> At(next.disk, snap.path) == At(d0, snap.path))
            && (forall p :: p != snap.path ==> At(next.disk, p) == At(s.disk, p))
  {
    assert [snap][0] == snap;
  }

  /** Restoring a file that is there takes one operation, and brings it back unless that fails to act. */
  lemma RestoredThere(s: State, fates: Fates, snap: Snapshot, d0: Disk)
    requires Faithful([snap], d0) && snap.path in s.disk && s.disk[snap.path].Regular?
    ensures var next := RestoreOne(s, fates, snap).0;
            && next.clock == s.clock + 1 && next.trail == s.trail + [next.disk]
            && At(next.disk, snap.path) ==
                 (if fates(s.clock) == FailedBefore then At(s.disk, snap.path) else At(d0, snap.path))
            && (forall p :: p != snap.path ==> At(next.disk, p) == At(s.disk, p))
  {
    assert [snap][0] == snap;
  }

  lemma {:induction false} RestoredAll(s: State, fates: Fates, snaps: seq<Snapshot>, d0: Disk, p: Path)
    requires Faithful(snaps, d0)
    ensures var (last, ok) := RestoreAll(s, fates, snaps);
            && (ok && Holds(snaps, p) ==> At(last.disk, p) == At(d0, p))
            && (At(s.disk, p) == At(d0, p) ==> At(last.disk, p) == At(d0, p))
            && (!Holds(snaps, p) ==> At(last.disk, p) == At(s.disk, p))
    decreases |snaps|
  {
    if snaps != [] {
      var snap, init := snaps[|snaps| - 1], snaps[..|snaps| - 1];
      assert snap == snaps[|snaps| - 1];
      assert Faithful([snap], d0) && Faithful(init, d0);
      RestoredOne(s, fates, snap, d0);
      RestoredAll(RestoreOne(s, fates, snap).0, fates, init, d0, p);
      HoldsSplits(snaps, p);
    }
  }

  lemma HoldsSplits(snaps: seq<Snapshot>, p: Path)
    requires snaps != []
    ensures Holds(snaps, p) <==> snaps[|snaps| - 1].path == p || Holds(snaps[..|snaps| - 1], p)
  {
    var init := snaps[..|snaps| - 1];
    if Holds(snaps, p) && snaps[|snaps| - 1].path != p {
      var i :| 0 <= i < |snaps| && snaps[i].path == p;
      assert init[i].path == p;
    }
    if Holds(init, p) {
      var i :| 0 <= i < |init| && init[i].path == p;
      assert snaps[i].path == p;
    }
  }

  lemma {:induction false} WritesStay(s: State, fates: Fates, writes: seq<Write>, p: Path)
    requires forall w :: w in writes ==> w.path != p
    ensures At(PutAll(s, fates, writes).0.disk, p) == At(s.disk, p)
    decreases |writes|
  {
    if writes != [] {
      assert writes[0] in writes;
      WritesStay(Put(s, fates, writes[0]).0, fates, writes[1..], p);
    }
  }

  /** Restores that succeed bring back every captured path; a disk that differed nowhere else is as before. */
  lemma RestoredDisk(s: State, fates: Fates, snaps: seq<Snapshot>, d0: Disk)
    requires Faithful(snaps, d0) && RestoreAll(s, fates, snaps).1
    requires forall p :: !Holds(snaps, p) ==> At(s.disk, p) == At(d0, p)
    ensures RestoreAll(s, fates, snaps).0.disk == d0
  {
    var last := RestoreAll(s, fates, snaps).0.disk;
    forall p ensures At(last, p) == At(d0, p) {
      RestoredAll(s, fates, snaps, d0, p);
    }
    SameDisk(last, d0);
  }

  /**
   All or nothing: a transaction that captures every path it writes and whose restores
   succeed leaves the disk exactly as it was, file contents and absences alike; one that
   is refused never touches it.
   */
  lemma FailureLeavesNoTrace(s: State, fates: Fates, paths: seq<Path>, writes: seq<Write>)
    requires forall w :: w in writes ==> w.path in paths
    ensures var (after, outcome) := Transact(s, fates, paths, writes);
            outcome == RolledBack || outcome == Refused ==> after.disk == s.disk
  {
    var (after, outcome) := Transact(s, fates, paths, writes);
    if outcome == RolledBack {
      CaptureFaithful(s.disk, paths, []);
      var snaps := Capture(s.disk, paths, []).value;
      var written := PutAll(s, fates, writes).0;
      forall p | !Holds(snaps, p) ensures At(written.disk, p) == At(s.disk, p) {
        WritesStay(s, fates, writes, p);
      }
      RestoredDisk(written, fates, snaps, s.disk);
    }
  }

  lemma SameDisk(a: Disk, b: Disk)
    requires forall p :: At(a, p) == At(b, p)
    ensures a == b
  {
    forall p ensures p in a <==> p in b {
      assert At(a, p) == At(b, p);
    }
    forall p | p in a ensures a[p] == b[p] {
      assert At(a, p) == At(b, p);
    }
  }

  // ---------------------------------------------------------------- going well

  /** Nothing at the written paths refuses a write. */
  ghost predicate Writable(d: Disk, writes: seq<Write>) {
    forall i :: 0 <= i < |writes| ==> At(d, writes[i].path) != Some(Special)
  }

  /** Every operation from the one to before the other is done. */
  predicate AllDone(fates: Fates, first: nat, end: nat) {
    forall t :: first <= t < end ==> fates(t) == Done
  }

  /** A run of writes ends well exactly when every one of them does, and takes one operation each. */
  lemma {:induction false} WritesDone(s: State, fates: Fates, writes: seq<Write>)
    requires Writable(s.disk, writes)
    ensures var (after, ok) := PutAll(s, fates, writes);
            && (ok <==> AllDone(fates, s.clock, s.clock + |writes|))
            && (ok ==> after.clock == s.clock + |writes|)
    decreases |writes|
  {
    if writes != [] {
      var (next, ok) := Put(s, fates, writes[0]);
      if ok {
        assert Writable(next.disk, writes[1..]) by {
          forall i | 0 <= i < |writes| - 1 ensures At(next.disk, writes[1..][i].path) != Some(Special) {
            assert At(s.disk, writes[i + 1].path) != Some(Special);
          }
        }
        WritesDone(next, fates, writes[1..]);
      }
    }
  }

  // --------------------------------------------------------------- crash points

  function Apply(d: Disk, writes: seq<Write>): Disk
    decreases |writes|
  {
    if writes == [] then d else Apply(d[writes[0].path := Regular(writes[0].text)], writes[1..])
  }

  /** The disk is what some number of the writes, in order, make of `d`. */
  ghost predicate Prefix(d: Disk, writes: seq<Write>, now: Disk) {
    exists k :: 0 <= k <= |writes| && now == Apply(d, writes[..k])
  }

  lemma PrefixStep(d: Disk, writes: seq<Write>, now: Disk)
    requires writes != [] && Prefix(d[writes[0].path := Regular(writes[0].text)], writes[1..], now)
    ensures Prefix(d, writes, now)
  {
    var next := d[writes[0].path := Regular(writes[0].text)];
    var k :| 0 <= k <= |writes[1..]| && now == Apply(next, writes[1..][..k]);
    var longer := writes[..k + 1];
    assert longer[1..] == writes[1..][..k];
    assert now == Apply(d, longer);
  }

  lemma PrefixStart(d: Disk, writes: seq<Write>)
    ensures Prefix(d, writes, d)
  {
    assert writes[..0] == [];
  }

  /** While the writes run, every disk that a crash could leave is a prefix of them applied. */
  lemma {:induction false} WritesInOrder(s: State, fates: Fates, writes: seq<Write>)
    ensures var (after, ok) := PutAll(s, fates, writes);
            && Prefix(s.disk, writes, after.disk)
            && (ok ==> after.disk == Apply(s.disk, writes))
            && s.trail <= after.trail
            && forall k :: |s.trail| <= k < |after.trail| ==> Prefix(s.disk, writes, after.trail[k])
    decreases |writes|
  {
    PrefixStart(s.disk, writes);
    if writes != [] {
      var (next, ok) := Put(s, fates, writes[0]);
      if next.disk != s.disk || ok {
        var rest := writes[1..];
        PrefixStart(next.disk, rest);
        PrefixStep(s.disk, writes, next.disk);
        if ok {
          WritesInOrder(next, fates, rest);
          var after := PutAll(next, fates, rest).0;
          PrefixStep(s.disk, writes, after.disk);
          forall k | |next.trail| <= k < |after.trail| ensures Prefix(s.disk, writes, after.trail[k]) {
            PrefixStep(s.disk, writes, after.trail[k]);
          }
        }
      }
    }
  }

  lemma {:induction false} TrailGrows(s: State, fates: Fates, snaps: seq<Snapshot>)
    ensures s.trail <= RestoreAll(s, fates, snaps).0.trail
    decreases |snaps|
  {
    if snaps != [] {
      TrailGrows(RestoreOne(s, fates, snaps[|snaps| - 1]).0, fates, snaps[..|snaps| - 1]);
    }
  }

  /** At `p` the disk holds what it held at first, or what some write puts there. */
  ghost predicate OldOrNew(d0: Disk, writes: seq<Write>, d: Disk, p: Path) {
    || At(d, p) == At(d0, p)
    || exists i :: 0 <= i < |writes| && writes[i].path == p && At(d, p) == Some(Regular(writes[i].text))
  }

  lemma {:induction false} ApplyOldOrNew(d: Disk, writes: seq<Write>, k: nat, p: Path)
    requires k <= |writes|
    ensures OldOrNew(d, writes, Apply(d, writes[..k]), p)
    decreases k
  {
    if k > 0 {
      ApplyLast(d, writes[..k]);
      assert writes[..k][..k - 1] == writes[..k - 1];
      ApplyOldOrNew(d, writes, k - 1, p);
    }
  }

  lemma {:induction false} ApplyLast(d: Disk, writes: seq<Write>)
    requires writes != []
    ensures var w := writes[|writes| - 1];
            Apply(d, writes) == Apply(d, writes[..|writes| - 1])[w.path := Regular(w.text)]
    decreases |writes|
  {
    if |writes| > 1 {
      ApplyLast(d[writes[0].path := Regular(writes[0].text)], writes[1..]);
      assert writes[1..][..|writes| - 2] == writes[..|writes| - 1][1..];
    }
  }

  lemma {:induction false} ApplyKeeps(d: Disk, writes: seq<Write>, p: Path)
    requires forall w :: w in writes ==> w.path != p
    ensures At(Apply(d, writes), p) == At(d, p)
    decreases |writes|
  {
    if writes != [] {
      assert writes[0] in writes;
      ApplyKeeps(d[writes[0].path := Regular(writes[0].text)], writes[1..], p);
    }
  }

  lemma {:induction false} RestoresOldOrNew(s: State, fates: Fates, snaps: seq<Snapshot>, d0: Disk, writes: seq<Write>,
                                            p: Path)
    requires Faithful(snaps, d0) && OldOrNew(d0, writes, s.disk, p)
    ensures var last := RestoreAll(s, fates, snaps).0;
            && OldOrNew(d0, writes, last.disk, p)
            && forall k :: |s.trail| <= k < |last.trail| ==> OldOrNew(d0, writes, last.trail[k], p)
    decreases |snaps|
  {
    if snaps != [] {
      var snap, init := snaps[|snaps| - 1], snaps[..|snaps| - 1];
      assert Faithful([snap], d0) && Faithful(init, d0);
      var next := RestoreOne(s, fates, snap).0;
      RestoredOne(s, fates, snap, d0);
      assert OldOrNew(d0, writes, next.disk, p);
      RestoresOldOrNew(next, fates, init, d0, writes, p);
      TrailGrows(next, fates, init);
    }
  }

  /**
   Whenever the machine stops, during the writes or during the restores, every path holds
   its old contents or absence, or contents the transaction writes there.
   */
  lemma CrashPoints(s: State, fates: Fates, paths: seq<Path>, writes: seq<Write>, p: Path)
    ensures var after := Transact(s, fates, paths, writes).0;
            forall k :: |s.trail| <= k < |after.trail| ==> OldOrNew(s.disk, writes, after.trail[k], p)
  {
    if Capture(s.disk, paths, []).Ok? {
      CaptureFaithful(s.disk, paths, []);
      var snaps := Capture(s.disk, paths, []).value;
      var written := PutAll(s, fates, writes).0;
      WritesInOrder(s, fates, writes);
      PrefixOldOrNew(s.disk, writes, written.disk, p);
      forall k | |s.trail| <= k < |written.trail| ensures OldOrNew(s.disk, writes, written.trail[k], p) {
        PrefixOldOrNew(s.disk, writes, written.trail[k], p);
      }
      RestoresOldOrNew(written, fates, snaps, s.disk, writes, p);
      TrailGrows(written, fates, snaps);
    }
  }

  lemma PrefixOldOrNew(d: Disk, writes: seq<Write>, now: Disk, p: Path)
    requires Prefix(d, writes, now)
    ensures OldOrNew(d, writes, now, p)
  {
    var k :| 0 <= k <= |writes| && now == Apply(d, writes[..k]);
    ApplyOldOrNew(d, writes, k, p);
  }
}
