/**
 Sealed configurations and their rollback: a configuration file
 is accepted only together with a sidecar that holds its digest. The digest function is
 a parameter; texts are what the files hold.
 */
module Deployment {
  import opened Outcomes
  import opened FileTransactions

  type Digest = string -> string

  /** Whether a text decodes to a configuration this host accepts. */
  type Accepts = string -> bool

  predicate Blank(c: char) {
    c == ' ' || c == '\n' || c == '\t' || c == '\r'
  }

  predicate Dense(s: string) {
    s != [] && forall i :: 0 <= i < |s| ==> !Blank(s[i])
  }

  /** Collision-free, and written without white space. */
  ghost predicate Sound(h: Digest) {
    (forall a, b :: h(a) == h(b) ==> a == b) && (forall a :: Dense(h(a)))
  }

  function TrimStart(s: string): string {
    if s != [] && Blank(s[0]) then TrimStart(s[1..]) else s
  }

  function TrimEnd(s: string): string {
    if s != [] && Blank(s[|s| - 1]) then TrimEnd(s[..|s| - 1]) else s
  }

  function Trim(s: string): string {
    TrimEnd(TrimStart(s))
  }

  lemma TrimLine(d: string)
    requires Dense(d)
    ensures Trim(d + "\n") == d
  {
    var s := d + "\n";
    assert s[0] == d[0] && s[|s| - 1] == '\n' && s[..|s| - 1] == d;
    assert TrimStart(s) == s && TrimEnd(d) == d;
  }

  function DigestPath(p: Path): Path {
    p + ".blake3"
  }

  function PreviousPath(p: Path): Path {
    p + ".previous"
  }

  function Seal(text: string, h: Digest): string {
    h(text) + "\n"
  }

  function Sealed(p: Path, text: string, h: Digest): seq<Write> {
    [Write(p, text), Write(DigestPath(p), Seal(text, h))]
  }

  /** The text of a file with its sidecar, or an integrity error. */
  function LoadPair(text: Option<Entry>, digest: Option<Entry>, h: Digest): Result<string> {
    match (text, digest)
    case (Some(Regular(t)), Some(Regular(d))) => if Trim(d) == h(t) then Ok(t) else Err
    case _ => Err
  }

  /** The text of a sealed configuration, or an integrity error. */
  function Load(d: Disk, p: Path, h: Digest): Result<string> {
    LoadPair(At(d, p), At(d, DigestPath(p)), h)
  }

  function Four(p: Path): seq<Path> {
    [p, DigestPath(p), PreviousPath(p), DigestPath(PreviousPath(p))]
  }

  /** The four paths differ by their lengths. */
  lemma FourDistinct(p: Path)
    ensures |DigestPath(p)| == |p| + 7 && |PreviousPath(p)| == |p| + 9 && |DigestPath(PreviousPath(p))| == |p| + 16
  {
  }

  // ------------------------------------------------------------------ operations

  function RollbackWrites(p: Path, previous: string, current: string, h: Digest): seq<Write> {
    Sealed(p, previous, h) + Sealed(PreviousPath(p), current, h)
  }

  function Rollback(s: State, fates: Fates, p: Path, accepts: Accepts, h: Digest): (State, Outcome) {
    match (Load(s.disk, PreviousPath(p), h), At(s.disk, p))
    case (Ok(previous), Some(Regular(current))) =>
      if accepts(previous) then Transact(s, fates, Four(p), RollbackWrites(p, previous, current, h)) else (s, Refused)
    case _ => (s, Refused)
  }

  lemma {:induction false} PutAllJoins(s: State, fates: Fates, a: seq<Write>, b: seq<Write>)
    ensures PutAll(s, fates, a + b) ==
            (if PutAll(s, fates, a).1 then PutAll(PutAll(s, fates, a).0, fates, b) else PutAll(s, fates, a))
    decreases |a|
  {
    if a == [] {
      assert a + b == b;
    } else {
      assert (a + b)[1..] == a[1..] + b;
      PutAllJoins(Put(s, fates, a[0]).0, fates, a[1..], b);
    }
  }

  method WriteSealedConfig(fs: FileSystem, p: Path, text: string, h: Digest) returns (ok: bool)
    modifies fs
    ensures (fs.View(), ok) == PutAll(old(fs.View()), fs.fates, Sealed(p, text, h))
  {
    ghost var s := fs.View();
    ghost var rest := [Write(DigestPath(p), Seal(text, h))];
    PutAllJoins(s, fs.fates, [Write(p, text)], rest);
    PutOne(s, fs.fates, Write(p, text));
    ok := fs.AtomicWrite(p, text);
    if ok {
      PutOne(fs.View(), fs.fates, rest[0]);
      ok := fs.AtomicWrite(DigestPath(p), Seal(text, h));
    }
  }

  lemma PutOne(s: State, fates: Fates, w: Write)
    ensures PutAll(s, fates, [w]) == Put(s, fates, w)
  {
    assert [w][1..] == [];
    assert PutAll(Put(s, fates, w).0, fates, []) == (Put(s, fates, w).0, true);
  }

  method RollbackConfig(fs: FileSystem, p: Path, accepts: Accepts, h: Digest) returns (outcome: Outcome)
    modifies fs
    ensures (fs.View(), outcome) == Rollback(old(fs.View()), fs.fates, p, accepts, h)
  {
    var loaded := Load(fs.disk, PreviousPath(p), h);
    if loaded.Err? || !accepts(loaded.value) || p !in fs.disk || fs.disk[p].Special? {
      return Refused;
    }
    var current := fs.disk[p].text;
    var captured := fs.CaptureAll(Four(p));
    if captured.Err? {
      return Refused;
    }
    PutAllJoins(fs.View(), fs.fates, Sealed(p, loaded.value, h), Sealed(PreviousPath(p), current, h));
    var ok := WriteSealedConfig(fs, p, loaded.value, h);
    if ok {
      ok := WriteSealedConfig(fs, PreviousPath(p), current, h);
    }
    if ok {
      return Committed;
    }
    var clean := fs.RestoreSnapshots(captured.value);
    outcome := if clean then RolledBack else RollbackFailed;
  }

  // ------------------------------------------------------------------- integrity

  /** The only text ever written at `p` is `text`, and the only sidecar its seal. */
  ghost predicate Writes(writes: seq<Write>, p: Path, text: string, h: Digest) {
    forall w :: w in writes ==>
      (w.path == p ==> w.text == text) && (w.path == DigestPath(p) ==> w.text == Seal(text, h))
  }

  /** Half-written pairs do not load: a mixture of old and new gives the old text, the new text or an error. */
  lemma MixtureLoads(d0: Disk, d: Disk, writes: seq<Write>, p: Path, text: string, h: Digest)
    requires Sound(h) && Writes(writes, p, text, h)
    requires OldOrNew(d0, writes, d, p) && OldOrNew(d0, writes, d, DigestPath(p))
    ensures Load(d, p, h) == Load(d0, p, h) || Load(d, p, h) == Ok(text) || Load(d, p, h) == Err
  {
    TrimLine(h(text));
    if At(d, p) != At(d0, p) {
      assert At(d, p) == Some(Regular(text));
    } else if At(d, DigestPath(p)) != At(d0, DigestPath(p)) {
      assert At(d, DigestPath(p)) == Some(Regular(Seal(text, h)));
    }
  }

  /**
   Wherever a transaction that seals `text` at `p` is cut short, by a crash or by a failed
   restore, loading `p` gives what it gave before, the new text, or an integrity error.
   */
  lemma CrashIntegrity(s: State, fates: Fates, paths: seq<Path>, writes: seq<Write>, p: Path, text: string, h: Digest)
    requires Sound(h) && Writes(writes, p, text, h)
    ensures var after := Transact(s, fates, paths, writes).0;
            forall k :: |s.trail| <= k < |after.trail| ==>
              Load(after.trail[k], p, h) in {Load(s.disk, p, h), Ok(text), Err}
  {
    CrashPoints(s, fates, paths, writes, p);
    CrashPoints(s, fates, paths, writes, DigestPath(p));
    var after := Transact(s, fates, paths, writes).0;
    forall k | |s.trail| <= k < |after.trail|
      ensures Load(after.trail[k], p, h) in {Load(s.disk, p, h), Ok(text), Err}
    {
      MixtureLoads(s.disk, after.trail[k], writes, p, text, h);
    }
  }

  lemma ApplyOne(d: Disk, w: Write)
    ensures Apply(d, [w]) == d[w.path := Regular(w.text)]
  {
    assert [w][1..] == [];
  }

  lemma ApplySealed(d: Disk, p: Path, text: string, h: Digest)
    ensures Apply(d, Sealed(p, text, h)) == d[p := Regular(text)][DigestPath(p) := Regular(Seal(text, h))]
  {
    ApplyOne(d, Write(p, text));
    ApplyOne(d[p := Regular(text)], Write(DigestPath(p), Seal(text, h)));
    ApplyJoins(d, [Write(p, text)], [Write(DigestPath(p), Seal(text, h))]);
  }

  lemma {:induction false} ApplyJoins(d: Disk, a: seq<Write>, b: seq<Write>)
    ensures Apply(d, a + b) == Apply(Apply(d, a), b)
    decreases |a|
  {
    if a == [] {
      assert a + b == b;
    } else {
      assert (a + b)[1..] == a[1..] + b;
      ApplyJoins(d[a[0].path := Regular(a[0].text)], a[1..], b);
    }
  }

  lemma SealedLoads(d: Disk, p: Path, text: string, h: Digest)
    requires Sound(h)
    requires At(d, p) == Some(Regular(text)) && At(d, DigestPath(p)) == Some(Regular(Seal(text, h)))
    ensures Load(d, p, h) == Ok(text)
  {
    TrimLine(h(text));
  }

  // ------------------------------------------------------------ rolling back twice

  /** What a committed rollback does: the two texts change places, each newly sealed. */
  lemma RollbackSwaps(s: State, fates: Fates, p: Path, accepts: Accepts, h: Digest)
    requires Sound(h) && Rollback(s, fates, p, accepts, h).1 == Committed
    ensures var q, after := PreviousPath(p), Rollback(s, fates, p, accepts, h).0.disk;
            && Load(s.disk, q, h).Ok? && p in s.disk && s.disk[p].Regular?
            && At(after, p) == Some(Regular(Load(s.disk, q, h).value))
            && At(after, DigestPath(p)) == Some(Regular(Seal(Load(s.disk, q, h).value, h)))
            && At(after, q) == At(s.disk, p) && At(after, DigestPath(q)) == Some(Regular(Seal(s.disk[p].text, h)))
            && (forall o :: o !in Four(p) ==> At(after, o) == At(s.disk, o))
  {
    var q := PreviousPath(p);
    var previous, current := Load(s.disk, q, h).value, s.disk[p].text;
    FourDistinct(p);
    WritesInOrder(s, fates, RollbackWrites(p, previous, current, h));
    ApplyJoins(s.disk, Sealed(p, previous, h), Sealed(q, current, h));
    ApplySealed(s.disk, p, previous, h);
    ApplySealed(Apply(s.disk, Sealed(p, previous, h)), q, current, h);
  }

  /**
   Rolling back twice gives the disk back exactly when both sidecars were written by a
   seal in the first place. The destination's own digest is not checked on the way: a
   missing or differently spaced sidecar comes back as a proper seal.
   */
  lemma RollbackTwice(s: State, fates: Fates, p: Path, accepts: Accepts, h: Digest)
    requires Sound(h) && Rollback(s, fates, p, accepts, h).1 == Committed
    requires Rollback(Rollback(s, fates, p, accepts, h).0, fates, p, accepts, h).1 == Committed
    ensures p in s.disk && s.disk[p].Regular? && Load(s.disk, PreviousPath(p), h).Ok?
    ensures Rollback(Rollback(s, fates, p, accepts, h).0, fates, p, accepts, h).0.disk == s.disk <==>
              At(s.disk, DigestPath(p)) == Some(Regular(Seal(s.disk[p].text, h))) &&
              At(s.disk, DigestPath(PreviousPath(p))) ==
                Some(Regular(Seal(Load(s.disk, PreviousPath(p), h).value, h)))
  {
    var q := PreviousPath(p);
    var once := Rollback(s, fates, p, accepts, h).0;
    var twice := Rollback(once, fates, p, accepts, h).0;
    FourDistinct(p);
    RollbackSwaps(s, fates, p, accepts, h);
    RollbackSwaps(once, fates, p, accepts, h);
    SealedLoads(once.disk, q, s.disk[p].text, h);
    if At(s.disk, DigestPath(p)) == At(twice.disk, DigestPath(p)) &&
       At(s.disk, DigestPath(q)) == At(twice.disk, DigestPath(q)) {
      forall o ensures At(twice.disk, o) == At(s.disk, o) {
        if o in Four(p) {
          assert o == p || o == q || o == DigestPath(p) || o == DigestPath(q);
        }
      }
      SameDisk(twice.disk, s.disk);
    }
  }

  /** The four paths hold nothing that cannot be replaced. */
  ghost predicate Plain(d: Disk, p: Path) {
    forall q :: q in Four(p) ==> At(d, q) != Some(Special)
  }

  /**
   A rollback commits exactly when its previous text loads, is accepted, there is a text to
   replace, and its four writes are done.
   */
  lemma RollbackCommitsExactly(s: State, fates: Fates, p: Path, accepts: Accepts, h: Digest)
    requires Plain(s.disk, p)
    ensures Rollback(s, fates, p, accepts, h).1 == Committed <==>
              && Load(s.disk, PreviousPath(p), h).Ok? && accepts(Load(s.disk, PreviousPath(p), h).value)
              && p in s.disk && AllDone(fates, s.clock, s.clock + 4)
    ensures Rollback(s, fates, p, accepts, h).1 == Committed ==>
              Rollback(s, fates, p, accepts, h).0.clock == s.clock + 4
  {
    CaptureRegular(s.disk, Four(p), []);
    assert p in Four(p);
    if Load(s.disk, PreviousPath(p), h).Ok? && p in s.disk {
      var writes := RollbackWrites(p, Load(s.disk, PreviousPath(p), h).value, s.disk[p].text, h);
      assert Writable(s.disk, writes) by {
        forall i | 0 <= i < |writes| ensures At(s.disk, writes[i].path) != Some(Special) {
          assert writes[i].path in Four(p);
        }
      }
      WritesDone(s, fates, writes);
    }
  }

  /** With nothing failing and everything accepted, a first and a second rollback commit. */
  lemma TwoRollbacksCommit(s: State, fates: Fates, p: Path, accepts: Accepts, h: Digest)
    requires Sound(h) && Plain(s.disk, p) && AllDone(fates, s.clock, s.clock + 8)
    requires Load(s.disk, PreviousPath(p), h).Ok? && accepts(Load(s.disk, PreviousPath(p), h).value)
    requires p in s.disk && s.disk[p].Regular? && accepts(s.disk[p].text)
    ensures Rollback(s, fates, p, accepts, h).1 == Committed
    ensures Rollback(Rollback(s, fates, p, accepts, h).0, fates, p, accepts, h).1 == Committed
  {
    RollbackCommitsExactly(s, fates, p, accepts, h);
    RollbackSwaps(s, fates, p, accepts, h);
    var once := Rollback(s, fates, p, accepts, h).0;
    assert Plain(once.disk, p);
    SealedLoads(once.disk, PreviousPath(p), s.disk[p].text, h);
    RollbackCommitsExactly(once, fates, p, accepts, h);
  }

  /** A destination without a sidecar beside a sealed previous text. */
  function Unsealed(h: Digest): Disk {
    map["c" := Regular("b"), PreviousPath("c") := Regular("a"), DigestPath(PreviousPath("c")) := Regular(Seal("a", h))]
  }

  lemma UnsealedHolds(h: Digest)
    ensures At(Unsealed(h), "c") == Some(Regular("b")) && At(Unsealed(h), DigestPath("c")) == None
    ensures At(Unsealed(h), PreviousPath("c")) == Some(Regular("a"))
    ensures At(Unsealed(h), DigestPath(PreviousPath("c"))) == Some(Regular(Seal("a", h)))
  {
    FourDistinct("c");
  }

  /** There both rollbacks commit, and the disk is not the one they started from. */
  lemma RollbackTwiceSeals(h: Digest)
    requires Sound(h)
    ensures var s, fates, accepts := State(Unsealed(h), 0, []), (_: nat) => Done, (_: string) => true;
            var once := Rollback(s, fates, "c", accepts, h);
            var twice := Rollback(once.0, fates, "c", accepts, h);
            once.1 == Committed && twice.1 == Committed && twice.0.disk != s.disk
  {
    var s, fates, accepts := State(Unsealed(h), 0, []), (_: nat) => Done, (_: string) => true;
    UnsealedHolds(h);
    SealedLoads(s.disk, PreviousPath("c"), "a", h);
    TwoRollbacksCommit(s, fates, "c", accepts, h);
    RollbackTwice(s, fates, "c", accepts, h);
  }

  /** After a committed rollback another one is refused only when the replaced text is not acceptable. */
  lemma RollbackAgain(s: State, fates: Fates, p: Path, accepts: Accepts, h: Digest)
    requires Sound(h) && Rollback(s, fates, p, accepts, h).1 == Committed
    ensures p in s.disk && s.disk[p].Regular?
    ensures Rollback(Rollback(s, fates, p, accepts, h).0, fates, p, accepts, h).1 == Refused <==>
              !accepts(s.disk[p].text)
  {
    var q := PreviousPath(p);
    RollbackSwaps(s, fates, p, accepts, h);
    var once := Rollback(s, fates, p, accepts, h).0;
    SealedLoads(once.disk, q, s.disk[p].text, h);
    CaptureRegular(once.disk, Four(p), []);
  }

  lemma {:induction false} CaptureRegular(d: Disk, paths: seq<Path>, snaps: seq<Snapshot>)
    requires forall p :: p in paths ==> At(d, p) != Some(Special)
    ensures Capture(d, paths, snaps).Ok?
    decreases |paths|
  {
    if paths != [] {
      assert paths[0] in paths;
      if Holds(snaps, paths[0]) {
        CaptureRegular(d, paths[1..], snaps);
      } else {
        var contents := if paths[0] in d then Some(d[paths[0]].text) else None;
        CaptureRegular(d, paths[1..], snaps + [Snapshot(paths[0], contents)]);
      }
    }
  }
}
