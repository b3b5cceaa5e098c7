/**
 Installing a configuration: the replaced text is kept as the previous one, a first
 installation also creates the node's identity, and a failure takes everything back.
 */
module Installation {
  import opened Outcomes
  import opened FileTransactions
  import opened Deployment

  /**
   The host's side of an installation: whether a candidate decodes and is valid, where its
   identity lives, whether a key file parses and suits the candidate, and the key a first
   installation would write, with what a torn write of it leaves.
   */
  datatype Host = Host(accepts: Accepts, identityOf: string -> Path, suits: (string, string) -> bool,
                       key: string, torn: string)

  datatype Plan = NoPlan | UseKey(key: string) | CreateKey

  /** An installed node must have its identity; a first installation may plan a new one. */
  function IdentityPlan(d: Disk, p: Path, id: Path): Plan {
    match At(d, id)
    case Some(Regular(key)) => UseKey(key)
    case Some(Special) => NoPlan
    case None => if p in d then NoPlan else CreateKey
  }

  predicate Suitable(plan: Plan, candidate: string, host: Host) {
    match plan
    case NoPlan => false
    case UseKey(key) => host.suits(candidate, key)
    case CreateKey => host.suits(candidate, host.key)
  }

  function InstallWrites(d: Disk, p: Path, candidate: string, h: Digest): seq<Write> {
    match At(d, p)
    case Some(Regular(current)) => Sealed(PreviousPath(p), current, h) + Sealed(p, candidate, h)
    case _ => Sealed(p, candidate, h)
  }

  function Candidate(d: Disk, source: Path): Result<string> {
    match At(d, source)
    case Some(Regular(text)) => Ok(text)
    case _ => Err
  }

  /** Nothing has been touched before these checks pass. */
  predicate Admits(d: Disk, source: Path, p: Path, host: Host) {
    && source != p && Candidate(d, source).Ok? && host.accepts(Candidate(d, source).value)
    && Capture(d, Four(p), []).Ok?
    && var candidate := Candidate(d, source).value;
       Suitable(IdentityPlan(d, p, host.identityOf(candidate)), candidate, host)
  }

  function CleanOr(clean: bool): Outcome {
    if clean then RolledBack else RollbackFailed
  }

  /** A first installation, whose identity is created before the configuration is written. */
  function InstallFirst(s: State, fates: Fates, key: Write, torn: string, snaps: seq<Snapshot>, writes: seq<Write>)
    : (State, Outcome)
    requires key.path !in s.disk
  {
    var (t, created) := Create(s, fates, key, torn);
    if !created then
      if fates(s.clock) == FailedBefore then (t, RolledBack)
      else
        var (u, clean) := Uncreate(t, fates, key);
        (u, CleanOr(clean))
    else
      var (w, ok) := PutAll(t, fates, writes);
      if ok then (w, Committed)
      else
        var (r, restored) := RestoreAll(w, fates, snaps);
        var (x, removed) := Uncreate(r, fates, key);
        (x, CleanOr(restored && removed))
  }

  function Install(s: State, fates: Fates, source: Path, p: Path, host: Host, h: Digest): (State, Outcome) {
    if !Admits(s.disk, source, p, host) then (s, Refused)
    else
      var candidate := Candidate(s.disk, source).value;
      var id, writes := host.identityOf(candidate), InstallWrites(s.disk, p, candidate, h);
      if id !in s.disk then
        InstallFirst(s, fates, Write(id, host.key), host.torn, Capture(s.disk, Four(p), []).value, writes)
      else Transact(s, fates, Four(p), writes)
  }

  /** The first snapshot is the destination's. */
  lemma CapturedFirst(d: Disk, p: Path)
    requires Capture(d, Four(p), []).Ok?
    ensures var snaps := Capture(d, Four(p), []).value;
            && |snaps| > 0 && snaps[0].path == p
            && At(d, p) == match snaps[0].contents case Some(text) => Some(Regular(text)) case None => None
  {
    var first := Snapshot(p, if p in d && d[p].Regular? then Some(d[p].text) else None);
    assert Faithful([], d) && !Holds([], p) && [] + [first] == [first];
    CaptureFaithful(d, Four(p), []);
    assert Capture(d, Four(p), []) == Capture(d, Four(p)[1..], [first]);
    CaptureFaithful(d, Four(p)[1..], [first]);
  }

  method InstallConfig(fs: FileSystem, source: Path, p: Path, host: Host, h: Digest) returns (outcome: Outcome)
    modifies fs
    ensures (fs.View(), outcome) == Install(old(fs.View()), fs.fates, source, p, host, h)
  {
    if source == p || source !in fs.disk || fs.disk[source].Special? || !host.accepts(fs.disk[source].text) {
      return Refused;
    }
    var candidate := fs.disk[source].text;
    var captured := fs.CaptureAll(Four(p));
    if captured.Err? {
      return Refused;
    }
    ghost var s := fs.View();
    CapturedFirst(s.disk, p);
    var id, current := host.identityOf(candidate), captured.value[0].contents;
    var create := id !in fs.disk;
    if create && current.Some? {
      return Refused;
    }
    if !create && fs.disk[id].Special? {
      return Refused;
    }
    if !host.suits(candidate, if create then host.key else fs.disk[id].text) {
      return Refused;
    }
    if create {
      outcome := InstallNew(fs, p, Write(id, host.key), host.torn, captured.value, candidate, h);
    } else {
      outcome := InstallOver(fs, p, current, captured.value, candidate, h);
    }
  }

  method InstallNew(fs: FileSystem, p: Path, key: Write, torn: string, snaps: seq<Snapshot>, candidate: string,
                    h: Digest)
    returns (outcome: Outcome)
    requires key.path !in fs.disk
    modifies fs
    ensures (fs.View(), outcome) ==
            InstallFirst(old(fs.View()), fs.fates, key, torn, snaps, Sealed(p, candidate, h))
  {
    var before := fs.clock;
    var created := fs.CreateNew(key.path, key.text, torn);
    if !created {
      if fs.fates(before) == FailedBefore {
        return RolledBack;
      }
      var removed := fs.RemoveCreated(key.path, key.text);
      return CleanOr(removed);
    }
    var ok := WriteSealedConfig(fs, p, candidate, h);
    if ok {
      return Committed;
    }
    var restored := fs.RestoreSnapshots(snaps);
    var removed := fs.RemoveCreated(key.path, key.text);
    outcome := CleanOr(restored && removed);
  }

  method InstallOver(fs: FileSystem, p: Path, current: Option<string>, snaps: seq<Snapshot>, candidate: string,
                     h: Digest)
    returns (outcome: Outcome)
    requires Capture(fs.disk, Four(p), []) == Ok(snaps)
    requires At(fs.disk, p) == match current case Some(text) => Some(Regular(text)) case None => None
    modifies fs
    ensures (fs.View(), outcome) ==
            Transact(old(fs.View()), fs.fates, Four(p), InstallWrites(old(fs.disk), p, candidate, h))
  {
    ghost var s := fs.View();
    var ok := true;
    if current.Some? {
      PutAllJoins(s, fs.fates, Sealed(PreviousPath(p), current.value, h), Sealed(p, candidate, h));
      ok := WriteSealedConfig(fs, PreviousPath(p), current.value, h);
    }
    if ok {
      ok := WriteSealedConfig(fs, p, candidate, h);
    }
    if ok {
      return Committed;
    }
    var clean := fs.RestoreSnapshots(snaps);
    outcome := CleanOr(clean);
  }

  // -------------------------------------------------------------- taking it back

  lemma InstallWritesSealed(d: Disk, p: Path, candidate: string, h: Digest)
    ensures Writes(InstallWrites(d, p, candidate, h), p, candidate, h)
    ensures forall w :: w in InstallWrites(d, p, candidate, h) ==> w.path in Four(p)
  {
    FourDistinct(p);
  }

  /** A first installation that was taken back leaves neither configuration nor identity. */
  lemma FirstLeavesNoTrace(s: State, fates: Fates, key: Write, torn: string, snaps: seq<Snapshot>, writes: seq<Write>)
    requires key.path !in s.disk && Faithful(snaps, s.disk)
    requires forall w :: w in writes ==> Holds(snaps, w.path)
    ensures var (after, outcome) := InstallFirst(s, fates, key, torn, snaps, writes);
            outcome == RolledBack ==> after.disk == s.disk
  {
    var (t, created) := Create(s, fates, key, torn);
    if created {
      var (w, ok) := PutAll(t, fates, writes);
      var (r, restored) := RestoreAll(w, fates, snaps);
      if !ok && restored && Uncreate(r, fates, key).1 {
        var after := Uncreate(r, fates, key).0.disk;
        forall q ensures At(after, q) == At(s.disk, q) {
          RestoredAll(w, fates, snaps, s.disk, q);
          if !Holds(snaps, q) {
            WritesStay(t, fates, writes, q);
          }
        }
        SameDisk(after, s.disk);
      }
    } else if fates(s.clock) == FailedAfter {
      assert t.disk - {key.path} == s.disk;
    }
  }

  /** A refused installation, or one that was taken back, leaves the disk as it was. */
  lemma InstallLeavesNoTrace(s: State, fates: Fates, source: Path, p: Path, host: Host, h: Digest)
    ensures var (after, outcome) := Install(s, fates, source, p, host, h);
            outcome == RolledBack || outcome == Refused ==> after.disk == s.disk
  {
    if Admits(s.disk, source, p, host) {
      var candidate := Candidate(s.disk, source).value;
      var id, writes := host.identityOf(candidate), InstallWrites(s.disk, p, candidate, h);
      var snaps := Capture(s.disk, Four(p), []).value;
      InstallWritesSealed(s.disk, p, candidate, h);
      CaptureFaithful(s.disk, Four(p), []);
      if id !in s.disk {
        FirstLeavesNoTrace(s, fates, Write(id, host.key), host.torn, snaps, writes);
      } else {
        FailureLeavesNoTrace(s, fates, Four(p), writes);
      }
    }
  }

  // ------------------------------------------------------------------ crash points

  ghost predicate AllOldOrNew(d0: Disk, writes: seq<Write>, trail: seq<Disk>, start: nat, q: Path) {
    forall k :: start <= k < |trail| ==> OldOrNew(d0, writes, trail[k], q)
  }

  /** While a first installation writes, no other file than the new identity changes but as it writes them. */
  lemma FirstWrites(s: State, t: State, fates: Fates, key: Write, writes: seq<Write>, q: Path)
    requires q != key.path && At(t.disk, q) == At(s.disk, q)
    ensures var w := PutAll(t, fates, writes).0;
            && t.trail <= w.trail && OldOrNew(s.disk, writes, w.disk, q)
            && AllOldOrNew(s.disk, writes, w.trail, |t.trail|, q)
  {
    WritesInOrder(t, fates, writes);
    var w := PutAll(t, fates, writes).0;
    PrefixOldOrNew(t.disk, writes, w.disk, q);
    forall k | |t.trail| <= k < |w.trail| ensures OldOrNew(s.disk, writes, w.trail[k], q) {
      PrefixOldOrNew(t.disk, writes, w.trail[k], q);
    }
  }

  lemma FirstCrashPoints(s: State, fates: Fates, key: Write, torn: string, snaps: seq<Snapshot>,
                         writes: seq<Write>, q: Path)
    requires key.path !in s.disk && Faithful(snaps, s.disk) && q != key.path
    ensures AllOldOrNew(s.disk, writes, InstallFirst(s, fates, key, torn, snaps, writes).0.trail, |s.trail|, q)
  {
    var (t, created) := Create(s, fates, key, torn);
    assert At(t.disk, q) == At(s.disk, q);
    if created {
      var (w, ok) := PutAll(t, fates, writes);
      FirstWrites(s, t, fates, key, writes, q);
      if !ok {
        var r := RestoreAll(w, fates, snaps).0;
        RestoresOldOrNew(w, fates, snaps, s.disk, writes, q);
        TrailGrows(w, fates, snaps);
        var x := Uncreate(r, fates, key).0;
        assert At(x.disk, q) == At(r.disk, q);
      }
    }
  }

  /** The identity is no file of the configuration. */
  predicate Apart(d: Disk, source: Path, p: Path, host: Host) {
    Candidate(d, source).Ok? ==> host.identityOf(Candidate(d, source).value) !in Four(p)
  }

  /**
   At every crash point of an installation, also of a first one, the destination loads as
   before, as the candidate, or not at all.
   */
  lemma InstallCrash(s: State, fates: Fates, source: Path, p: Path, host: Host, h: Digest)
    requires Sound(h) && Apart(s.disk, source, p, host)
    ensures var after := Install(s, fates, source, p, host, h).0;
            forall k :: |s.trail| <= k < |after.trail| ==>
              Load(after.trail[k], p, h) in {Load(s.disk, p, h), Candidate(s.disk, source), Err}
  {
    if Admits(s.disk, source, p, host) {
      var candidate := Candidate(s.disk, source).value;
      var id, writes := host.identityOf(candidate), InstallWrites(s.disk, p, candidate, h);
      InstallWritesSealed(s.disk, p, candidate, h);
      if id in s.disk {
        CrashIntegrity(s, fates, Four(p), writes, p, candidate, h);
      } else {
        FirstCrash(s, fates, p, Write(id, host.key), host.torn, candidate, writes, h);
      }
    }
  }

  lemma FirstCrash(s: State, fates: Fates, p: Path, key: Write, torn: string, candidate: string, writes: seq<Write>,
                   h: Digest)
    requires Sound(h) && key.path !in s.disk && key.path !in Four(p) && Writes(writes, p, candidate, h)
    requires Capture(s.disk, Four(p), []).Ok?
    ensures var after := InstallFirst(s, fates, key, torn, Capture(s.disk, Four(p), []).value, writes).0;
            forall k :: |s.trail| <= k < |after.trail| ==>
              Load(after.trail[k], p, h) in {Load(s.disk, p, h), Ok(candidate), Err}
  {
    var snaps := Capture(s.disk, Four(p), []).value;
    CaptureFaithful(s.disk, Four(p), []);
    assert p == Four(p)[0] && DigestPath(p) == Four(p)[1];
    FirstCrashPoints(s, fates, key, torn, snaps, writes, p);
    FirstCrashPoints(s, fates, key, torn, snaps, writes, DigestPath(p));
    var after := InstallFirst(s, fates, key, torn, snaps, writes).0;
    forall k | |s.trail| <= k < |after.trail|
      ensures Load(after.trail[k], p, h) in {Load(s.disk, p, h), Ok(candidate), Err}
    {
      MixtureLoads(s.disk, after.trail[k], writes, p, candidate, h);
    }
  }

  // ------------------------------------------------------------------- committing

  lemma WrittenLoads(d: Disk, d0: Disk, p: Path, candidate: string, h: Digest)
    requires Sound(h) && At(d, p) == At(d0, p)
    ensures Load(Apply(d, InstallWrites(d0, p, candidate, h)), p, h) == Ok(candidate)
    ensures p in d0 && d0[p].Regular? ==>
              Load(Apply(d, InstallWrites(d0, p, candidate, h)), PreviousPath(p), h) == Ok(d0[p].text)
  {
    FourDistinct(p);
    var writes, e := InstallWrites(d0, p, candidate, h), d;
    if p in d0 && d0[p].Regular? {
      var first := Sealed(PreviousPath(p), d0[p].text, h);
      ApplyJoins(d, first, Sealed(p, candidate, h));
      ApplySealed(d, PreviousPath(p), d0[p].text, h);
      e := Apply(d, first);
    }
    ApplySealed(e, p, candidate, h);
    SealedLoads(Apply(d, writes), p, candidate, h);
    if p in d0 && d0[p].Regular? {
      SealedLoads(Apply(d, writes), PreviousPath(p), d0[p].text, h);
    }
  }

  /** What a committed installation has written, over the disk with its identity in place. */
  lemma CommittedDisk(s: State, fates: Fates, source: Path, p: Path, host: Host, h: Digest)
    requires Install(s, fates, source, p, host, h).1 == Committed
    ensures Admits(s.disk, source, p, host)
    ensures var candidate := Candidate(s.disk, source).value;
            var id := host.identityOf(candidate);
            var d := if id in s.disk then s.disk else s.disk[id := Regular(host.key)];
            Install(s, fates, source, p, host, h).0.disk == Apply(d, InstallWrites(s.disk, p, candidate, h))
  {
    var candidate := Candidate(s.disk, source).value;
    var id, writes := host.identityOf(candidate), InstallWrites(s.disk, p, candidate, h);
    var t := if id in s.disk then s else Create(s, fates, Write(id, host.key), host.torn).0;
    WritesInOrder(t, fates, writes);
  }

  /**
   A committed installation loads as the candidate, keeps the replaced text loadable as
   the previous one, and has an identity that suits it: the one that was there, unchanged,
   or the new one.
   */
  lemma InstallCommits(s: State, fates: Fates, source: Path, p: Path, host: Host, h: Digest)
    requires Sound(h) && Apart(s.disk, source, p, host) && Install(s, fates, source, p, host, h).1 == Committed
    ensures var after := Install(s, fates, source, p, host, h).0.disk;
            && Candidate(s.disk, source).Ok? && Load(after, p, h) == Candidate(s.disk, source)
            && (p in s.disk ==> s.disk[p].Regular? && Load(after, PreviousPath(p), h) == Ok(s.disk[p].text))
            && var candidate := Candidate(s.disk, source).value;
               var id := host.identityOf(candidate);
               && id in after && after[id].Regular? && host.suits(candidate, after[id].text)
               && (id in s.disk ==> after[id] == s.disk[id])
  {
    CommittedDisk(s, fates, source, p, host, h);
    var candidate := Candidate(s.disk, source).value;
    var id, writes := host.identityOf(candidate), InstallWrites(s.disk, p, candidate, h);
    var d := if id in s.disk then s.disk else s.disk[id := Regular(host.key)];
    CapturedFirst(s.disk, p);
    InstallWritesSealed(s.disk, p, candidate, h);
    assert p == Four(p)[0];
    WrittenLoads(d, s.disk, p, candidate, h);
    ApplyKeeps(d, writes, id);
    assert At(Apply(d, writes), id) == At(d, id);
  }

  /** An identity that is there is never changed, whatever becomes of the installation. */
  lemma IdentityKept(s: State, fates: Fates, source: Path, p: Path, host: Host, h: Digest)
    requires Apart(s.disk, source, p, host) && Candidate(s.disk, source).Ok?
    ensures var id := host.identityOf(Candidate(s.disk, source).value);
            id in s.disk ==> At(Install(s, fates, source, p, host, h).0.disk, id) == At(s.disk, id)
  {
    var candidate := Candidate(s.disk, source).value;
    var id, writes := host.identityOf(candidate), InstallWrites(s.disk, p, candidate, h);
    if Admits(s.disk, source, p, host) && id in s.disk {
      InstallWritesSealed(s.disk, p, candidate, h);
      WritesStay(s, fates, writes, id);
      CaptureFaithful(s.disk, Four(p), []);
      RestoredAll(PutAll(s, fates, writes).0, fates, Capture(s.disk, Four(p), []).value, s.disk, id);
    }
  }
}
