/**
 The product's own multi-file saves: an invitation with its configuration and state, and
 the first bundle of a new member, whose state file is the last thing to appear.
 */
module Storage {
  import opened Outcomes
  import opened FileTransactions
  import opened Deployment

  // ------------------------------------------------- configuration with state

  function SaveWrites(config: Path, text: string, state: Option<Write>, h: Digest): seq<Write> {
    Sealed(config, text, h) + if state.Some? then [state.value] else []
  }

  function SavePaths(config: Path, state: Option<Write>): seq<Path> {
    [config, DigestPath(config)] + if state.Some? then [state.value.path] else []
  }

  function Save(s: State, fates: Fates, config: Path, text: string, state: Option<Write>, h: Digest): (State, Outcome) {
    Transact(s, fates, SavePaths(config, state), SaveWrites(config, text, state, h))
  }

  /** An invitation is saved with the configuration and state that hold it. */
  method SaveTransaction(fs: FileSystem, config: Path, text: string, state: Option<Write>, h: Digest)
    returns (outcome: Outcome)
    modifies fs
    ensures (fs.View(), outcome) == Save(old(fs.View()), fs.fates, config, text, state, h)
  {
    var captured := fs.CaptureAll(SavePaths(config, state));
    if captured.Err? {
      return Refused;
    }
    PutAllJoins(fs.View(), fs.fates, Sealed(config, text, h), if state.Some? then [state.value] else []);
    var ok := WriteSealedConfig(fs, config, text, h);
    if ok && state.Some? {
      PutOne(fs.View(), fs.fates, state.value);
      ok := fs.AtomicWrite(state.value.path, state.value.text);
    }
    if ok {
      return Committed;
    }
    var clean := fs.RestoreSnapshots(captured.value);
    outcome := if clean then RolledBack else RollbackFailed;
  }

  /** A sealed configuration is loaded, changed, checked and saved again. */
  function Update(s: State, fates: Fates, config: Path, mutate: string -> Result<string>, accepts: Accepts,
                  state: Option<Write>, h: Digest): (State, Outcome)
  {
    var loaded := Load(s.disk, config, h);
    if loaded.Err? || mutate(loaded.value).Err? || !accepts(mutate(loaded.value).value) then (s, Refused)
    else Save(s, fates, config, mutate(loaded.value).value, state, h)
  }

  method UpdateConfigTransaction(fs: FileSystem, config: Path, mutate: string -> Result<string>, accepts: Accepts,
                                 state: Option<Write>, h: Digest)
    returns (outcome: Outcome)
    modifies fs
    ensures (fs.View(), outcome) == Update(old(fs.View()), fs.fates, config, mutate, accepts, state, h)
  {
    var loaded := Load(fs.disk, config, h);
    if loaded.Err? {
      return Refused;
    }
    var text := mutate(loaded.value);
    if text.Err? || !accepts(text.value) {
      return Refused;
    }
    outcome := SaveTransaction(fs, config, text.value, state, h);
  }

  /**
   A save is all or nothing unless taking it back fails: afterwards the disk is the old
   one, or the configuration loads as the new text with the new state beside it. Cut
   short anywhere, loading gives the old configuration, the new one or an error.
   */
  lemma SaveIsAtomic(s: State, fates: Fates, config: Path, text: string, state: Option<Write>, h: Digest)
    requires Sound(h) && (state.Some? ==> state.value.path != config && state.value.path != DigestPath(config))
    ensures var (after, outcome) := Save(s, fates, config, text, state, h);
            && (outcome == RolledBack || outcome == Refused ==> after.disk == s.disk)
            && (outcome == Committed ==>
                  Load(after.disk, config, h) == Ok(text) &&
                  (state.Some? ==> At(after.disk, state.value.path) == Some(Regular(state.value.text))))
            && (forall k :: |s.trail| <= k < |after.trail| ==>
                  Load(after.trail[k], config, h) in {Load(s.disk, config, h), Ok(text), Err})
  {
    var writes, paths := SaveWrites(config, text, state, h), SavePaths(config, state);
    assert |DigestPath(config)| == |config| + 7;
    assert paths[0] == config && paths[1] == DigestPath(config) && (state.Some? ==> paths[2] == state.value.path);
    FailureLeavesNoTrace(s, fates, paths, writes);
    CrashIntegrity(s, fates, paths, writes, config, text, h);
    SaveApplied(s, fates, config, text, state, h);
  }

  lemma SaveApplied(s: State, fates: Fates, config: Path, text: string, state: Option<Write>, h: Digest)
    requires Sound(h) && (state.Some? ==> state.value.path != config && state.value.path != DigestPath(config))
    ensures var (after, ok) := PutAll(s, fates, SaveWrites(config, text, state, h));
            ok ==> Load(after.disk, config, h) == Ok(text) &&
                   (state.Some? ==> At(after.disk, state.value.path) == Some(Regular(state.value.text)))
  {
    var writes := SaveWrites(config, text, state, h);
    WritesInOrder(s, fates, writes);
    ApplySealed(s.disk, config, text, h);
    if state.Some? {
      ApplyJoins(s.disk, Sealed(config, text, h), [state.value]);
      ApplyOne(Apply(s.disk, Sealed(config, text, h)), state.value);
    } else {
      assert writes == Sealed(config, text, h);
    }
    assert |DigestPath(config)| == |config| + 7;
    SealedLoads(Apply(s.disk, writes), config, text, h);
  }

  // ------------------------------------------------------------- the first bundle

  datatype Bundle = Bundle(identity: Path, config: Path, route: Path, product: Path, authority: Option<Path>,
                           writeKey: bool, key: string, authorityKey: string, text: string, routes: string,
                           state: string)

  function BundlePaths(b: Bundle): seq<Path> {
    [b.identity, b.config, DigestPath(b.config), b.route, b.product] +
    if b.authority.Some? then [b.authority.value] else []
  }

  /** The secrets come first, the state file last. */
  function Secrets(b: Bundle): seq<Write> {
    (if b.writeKey then [Write(b.identity, b.key)] else []) +
    if b.authority.Some? then [Write(b.authority.value, b.authorityKey)] else []
  }

  function BeforeState(b: Bundle, h: Digest): seq<Write> {
    Secrets(b) + (Sealed(b.config, b.text, h) + [Write(b.route, b.routes)])
  }

  function BundleWrites(b: Bundle, h: Digest): seq<Write> {
    BeforeState(b, h) + [Write(b.product, b.state)]
  }

  /** The files of a bundle are different files. */
  predicate Layout(b: Bundle) {
    var paths := BundlePaths(b);
    forall i, j :: 0 <= i < j < |paths| ==> paths[i] != paths[j]
  }

  function WriteBundle(s: State, fates: Fates, b: Bundle, h: Digest): (State, Outcome) {
    Transact(s, fates, BundlePaths(b), BundleWrites(b, h))
  }

  method WriteBundleFiles(fs: FileSystem, b: Bundle, h: Digest) returns (outcome: Outcome)
    modifies fs
    ensures (fs.View(), outcome) == WriteBundle(old(fs.View()), fs.fates, b, h)
  {
    var captured := fs.CaptureAll(BundlePaths(b));
    if captured.Err? {
      return Refused;
    }
    ghost var s := fs.View();
    PutAllJoins(s, fs.fates, BeforeState(b, h), [Write(b.product, b.state)]);
    PutAllJoins(s, fs.fates, Secrets(b), Sealed(b.config, b.text, h) + [Write(b.route, b.routes)]);
    var ok := WriteSecrets(fs, b);
    if ok {
      PutAllJoins(fs.View(), fs.fates, Sealed(b.config, b.text, h), [Write(b.route, b.routes)]);
      ok := WriteSealedConfig(fs, b.config, b.text, h);
      if ok {
        PutOne(fs.View(), fs.fates, Write(b.route, b.routes));
        ok := fs.AtomicWrite(b.route, b.routes);
      }
    }
    if ok {
      PutOne(fs.View(), fs.fates, Write(b.product, b.state));
      ok := fs.AtomicWrite(b.product, b.state);
    }
    if ok {
      return Committed;
    }
    var clean := fs.RestoreSnapshots(captured.value);
    outcome := if clean then RolledBack else RollbackFailed;
  }

  method WriteSecrets(fs: FileSystem, b: Bundle) returns (ok: bool)
    modifies fs
    ensures (fs.View(), ok) == PutAll(old(fs.View()), fs.fates, Secrets(b))
  {
    ghost var first := if b.writeKey then [Write(b.identity, b.key)] else [];
    ghost var second := if b.authority.Some? then [Write(b.authority.value, b.authorityKey)] else [];
    PutAllJoins(fs.View(), fs.fates, first, second);
    ok := true;
    if b.writeKey {
      PutOne(fs.View(), fs.fates, first[0]);
      ok := fs.AtomicWrite(b.identity, b.key);
    }
    if ok && b.authority.Some? {
      PutOne(fs.View(), fs.fates, second[0]);
      ok := fs.AtomicWrite(b.authority.value, b.authorityKey);
    }
  }

  /** The state file is there only beside a configuration that verifies. */
  predicate StateLast(b: Bundle, h: Digest, d: Disk) {
    b.product in d ==> Load(d, b.config, h) == Ok(b.text)
  }

  lemma LayoutApart(b: Bundle)
    requires Layout(b)
    ensures b.product !in {b.identity, b.config, DigestPath(b.config), b.route}
    ensures b.config !in {b.identity, b.route} && DigestPath(b.config) !in {b.identity, b.route, b.config}
    ensures b.authority.Some? ==> b.authority.value !in {b.product, b.config, DigestPath(b.config), b.route, b.identity}
  {
    var paths := BundlePaths(b);
    assert paths[0] == b.identity && paths[1] == b.config && paths[2] == DigestPath(b.config);
    assert paths[3] == b.route && paths[4] == b.product;
    assert b.authority.Some? ==> paths[5] == b.authority.value;
  }

  lemma BundleApplied(d: Disk, b: Bundle, h: Digest)
    requires Sound(h) && Layout(b)
    ensures Load(Apply(d, BundleWrites(b, h)), b.config, h) == Ok(b.text)
  {
    LayoutApart(b);
    var seal, tail := Sealed(b.config, b.text, h), [Write(b.route, b.routes)];
    var d1 := Apply(d, Secrets(b));
    ApplyJoins(d, BeforeState(b, h), [Write(b.product, b.state)]);
    ApplyJoins(d, Secrets(b), seal + tail);
    ApplyJoins(d1, seal, tail);
    ApplySealed(d1, b.config, b.text, h);
    ApplyOne(Apply(d1, seal), tail[0]);
    ApplyOne(Apply(d, BeforeState(b, h)), Write(b.product, b.state));
    SealedLoads(Apply(d, BundleWrites(b, h)), b.config, b.text, h);
  }

  /** Until the last write the state file is absent; after it the configuration verifies. */
  lemma PrefixStateLast(d: Disk, b: Bundle, h: Digest, now: Disk)
    requires Sound(h) && Layout(b) && b.product !in d && Prefix(d, BundleWrites(b, h), now)
    ensures StateLast(b, h, now)
  {
    var writes := BundleWrites(b, h);
    var k :| 0 <= k <= |writes| && now == Apply(d, writes[..k]);
    if k == |writes| {
      assert writes[..k] == writes;
      BundleApplied(d, b, h);
    } else {
      LayoutApart(b);
      assert writes[..k] == BeforeState(b, h)[..k];
      forall w | w in writes[..k] ensures w.path != b.product {
        assert w in BeforeState(b, h);
      }
      ApplyKeeps(d, writes[..k], b.product);
      assert At(now, b.product) == None;
    }
  }

  // ---------------------------------------------------- taking the bundle back

  /** A snapshot whose restore could touch the sealed pair comes before the state file's. */
  ghost predicate StateRestoredFirst(b: Bundle, snaps: seq<Snapshot>) {
    forall i :: 0 <= i < |snaps| && (snaps[i].path == b.config || snaps[i].path == DigestPath(b.config)) ==>
      exists j :: i < j < |snaps| && snaps[j].path == b.product
  }

  ghost predicate AllLast(b: Bundle, h: Digest, trail: seq<Disk>, start: nat) {
    forall k :: start <= k < |trail| ==> StateLast(b, h, trail[k])
  }

  lemma {:induction false} GoneStaysGone(s: State, fates: Fates, snaps: seq<Snapshot>, d0: Disk, b: Bundle, h: Digest)
    requires Faithful(snaps, d0) && b.product !in d0 && b.product !in s.disk
    ensures AllLast(b, h, RestoreAll(s, fates, snaps).0.trail, |s.trail|)
    decreases |snaps|
  {
    if snaps != [] {
      var snap, init := snaps[|snaps| - 1], snaps[..|snaps| - 1];
      assert Faithful([snap], d0) && Faithful(init, d0);
      RestoredOne(s, fates, snap, d0);
      var next := RestoreOne(s, fates, snap).0;
      assert At(next.disk, b.product) == None;
      GoneStaysGone(next, fates, init, d0, b, h);
      TrailGrows(next, fates, init);
    }
  }

  lemma {:induction false} RestoresStateLast(s: State, fates: Fates, snaps: seq<Snapshot>, d0: Disk, b: Bundle,
                                             h: Digest)
    requires Faithful(snaps, d0) && b.product !in d0 && StateLast(b, h, s.disk) && StateRestoredFirst(b, snaps)
    requires RestoreAll(s, fates, snaps).1
    ensures AllLast(b, h, RestoreAll(s, fates, snaps).0.trail, |s.trail|)
    decreases |snaps|
  {
    if snaps != [] {
      var snap, init := snaps[|snaps| - 1], snaps[..|snaps| - 1];
      assert Faithful([snap], d0) && Faithful(init, d0);
      RestoredOne(s, fates, snap, d0);
      var next := RestoreOne(s, fates, snap).0;
      if snap.path == b.product {
        assert At(next.disk, b.product) == None;
        GoneStaysGone(next, fates, init, d0, b, h);
      } else {
        RestOrdered(b, snaps);
        assert At(next.disk, b.config) == At(s.disk, b.config);
        assert At(next.disk, DigestPath(b.config)) == At(s.disk, DigestPath(b.config));
        assert At(next.disk, b.product) == At(s.disk, b.product);
        RestoresStateLast(next, fates, init, d0, b, h);
      }
      TrailGrows(next, fates, init);
    }
  }

  lemma RestOrdered(b: Bundle, snaps: seq<Snapshot>)
    requires snaps != [] && StateRestoredFirst(b, snaps) && snaps[|snaps| - 1].path != b.product
    ensures StateRestoredFirst(b, snaps[..|snaps| - 1])
    ensures snaps[|snaps| - 1].path != b.config && snaps[|snaps| - 1].path != DigestPath(b.config)
  {
    var init := snaps[..|snaps| - 1];
    forall i | 0 <= i < |init| && (init[i].path == b.config || init[i].path == DigestPath(b.config))
      ensures exists j :: i < j < |init| && init[j].path == b.product
    {
      assert snaps[i] == init[i];
      var j :| i < j < |snaps| && snaps[j].path == b.product;
      assert init[j].path == b.product;
    }
  }

  lemma BundleOrdered(d: Disk, b: Bundle)
    requires Layout(b) && Capture(d, BundlePaths(b), []).Ok?
    ensures StateRestoredFirst(b, Capture(d, BundlePaths(b), []).value)
  {
    var paths, snaps := BundlePaths(b), Capture(d, BundlePaths(b), []).value;
    CaptureOrder(d, paths, []);
    LayoutApart(b);
    assert snaps[0 + 4].path == paths[4] == b.product;
    forall i | 0 <= i < |snaps| && (snaps[i].path == b.config || snaps[i].path == DigestPath(b.config))
      ensures i < 4
    {
      assert snaps[i].path == paths[i];
      assert paths[4] == b.product && (|paths| == 6 ==> paths[5] == b.authority.value);
    }
  }

  /**
   A member's first bundle: at every moment, also while a failed attempt is being taken
   back, the state file exists only beside a sealed configuration that verifies, provided
   the restores succeed.
   */
  lemma StateAppearsLast(s: State, fates: Fates, b: Bundle, h: Digest)
    requires Sound(h) && Layout(b) && b.product !in s.disk
    requires WriteBundle(s, fates, b, h).1 != RollbackFailed
    ensures AllLast(b, h, WriteBundle(s, fates, b, h).0.trail, |s.trail|)
  {
    if Capture(s.disk, BundlePaths(b), []).Ok? {
      var writes, snaps := BundleWrites(b, h), Capture(s.disk, BundlePaths(b), []).value;
      var (written, ok) := PutAll(s, fates, writes);
      WritesInOrder(s, fates, writes);
      forall k | |s.trail| <= k < |written.trail| ensures StateLast(b, h, written.trail[k]) {
        PrefixStateLast(s.disk, b, h, written.trail[k]);
      }
      if !ok {
        PrefixStateLast(s.disk, b, h, written.disk);
        BundleOrdered(s.disk, b);
        assert Faithful([], s.disk);
        CaptureFaithful(s.disk, BundlePaths(b), []);
        RestoresStateLast(written, fates, snaps, s.disk, b, h);
        TrailGrows(written, fates, snaps);
      }
    }
  }

  // -------------------------------------------------- exactly when it does not

  /** Every restore of the trail so far and of the one to come. */
  lemma LastStep(s: State, fates: Fates, snaps: seq<Snapshot>, b: Bundle, h: Digest)
    requires snaps != []
    ensures var next := RestoreOne(s, fates, snaps[|snaps| - 1]).0;
            AllLast(b, h, RestoreAll(s, fates, snaps).0.trail, |s.trail|) <==>
              (|next.trail| > |s.trail| ==> StateLast(b, h, next.disk)) &&
              AllLast(b, h, RestoreAll(next, fates, snaps[..|snaps| - 1]).0.trail, |next.trail|)
  {
    var next := RestoreOne(s, fates, snaps[|snaps| - 1]).0;
    var last := RestoreAll(next, fates, snaps[..|snaps| - 1]).0;
    TrailGrows(next, fates, snaps[..|snaps| - 1]);
    if |next.trail| > |s.trail| {
      assert last.trail[|s.trail|] == next.disk;
    }
  }

  /** The sealed pair and the state file as they stand on the two disks. */
  ghost predicate SameFiles(b: Bundle, d: Disk, e: Disk) {
    At(d, b.product) == At(e, b.product) && At(d, b.config) == At(e, b.config) &&
    At(d, DigestPath(b.config)) == At(e, DigestPath(b.config))
  }

  /** Restoring some other file, which is there, takes one operation and leaves the three alone. */
  lemma OtherRestore(s: State, fates: Fates, snap: Snapshot, d0: Disk, b: Bundle)
    requires Faithful([snap], d0) && snap.path in s.disk && s.disk[snap.path].Regular?
    requires snap.path !in {b.product, b.config, DigestPath(b.config)}
    ensures var next := RestoreOne(s, fates, snap).0; SameFiles(b, next.disk, s.disk) && next.clock == s.clock + 1
  {
    RestoredOne(s, fates, snap, d0);
  }

  /** The sealed pair's restores, with the state file left in place: harmless only if neither acts. */
  lemma PairRestores(s: State, fates: Fates, snaps: seq<Snapshot>, d0: Disk, b: Bundle, h: Digest)
    requires Faithful(snaps, d0) && |snaps| == 3
    requires snaps[1] == Snapshot(b.config, None) && snaps[2] == Snapshot(DigestPath(b.config), None)
    requires snaps[0].path !in {b.product, b.config, DigestPath(b.config)}
    requires b.product in s.disk && b.config in s.disk && DigestPath(b.config) in s.disk
    requires b.product !in {b.config, DigestPath(b.config)} && StateLast(b, h, s.disk)
    ensures AllLast(b, h, RestoreAll(s, fates, snaps).0.trail, |s.trail|) <==>
              fates(s.clock) == FailedBefore && fates(s.clock + 1) == FailedBefore
  {
    assert |DigestPath(b.config)| == |b.config| + 7;
    var s1 := RestoreOne(s, fates, snaps[2]).0;
    LastStep(s, fates, snaps, b, h);
    assert snaps[..2][1] == snaps[1] && snaps[..2][..1] == snaps[..1];
    if fates(s.clock) == FailedBefore {
      var s2 := RestoreOne(s1, fates, snaps[1]).0;
      LastStep(s1, fates, snaps[..2], b, h);
      if fates(s.clock + 1) == FailedBefore {
        IdentityRestore(s2, fates, snaps[..1], d0, b, h);
      } else {
        assert At(s2.disk, b.config) == None && Load(s2.disk, b.config, h) == Err;
      }
    } else {
      assert At(s1.disk, DigestPath(b.config)) == None && Load(s1.disk, b.config, h) == Err;
    }
  }

  lemma IdentityRestore(s: State, fates: Fates, snaps: seq<Snapshot>, d0: Disk, b: Bundle, h: Digest)
    requires Faithful(snaps, d0) && |snaps| == 1 && snaps[0].path !in {b.product, b.config, DigestPath(b.config)}
    requires StateLast(b, h, s.disk)
    ensures AllLast(b, h, RestoreAll(s, fates, snaps).0.trail, |s.trail|)
  {
    LastStep(s, fates, snaps, b, h);
    assert Faithful([snaps[0]], d0);
    RestoredOne(s, fates, snaps[0], d0);
    var next := RestoreOne(s, fates, snaps[0]).0;
    assert SameFiles(b, next.disk, s.disk);
    assert snaps[..0] == [];
  }

  /** The snapshots of a first bundle, in the order they were taken. */
  ghost predicate InOrder(b: Bundle, snaps: seq<Snapshot>) {
    && |snaps| >= 5 && snaps[0].path == b.identity && snaps[1] == Snapshot(b.config, None)
    && snaps[2] == Snapshot(DigestPath(b.config), None) && snaps[3].path == b.route
    && snaps[4] == Snapshot(b.product, None)
  }

  /** The bundle's files are all in place. */
  ghost predicate AllThere(b: Bundle, h: Digest, d: Disk) {
    && b.product in d && b.config in d && DigestPath(b.config) in d
    && b.route in d && d[b.route].Regular? && StateLast(b, h, d)
  }

  /** With the state file's removal failed: the routes, then the sealed pair, then the identity. */
  lemma RouteRestores(s: State, fates: Fates, snaps: seq<Snapshot>, d0: Disk, b: Bundle, h: Digest)
    requires Layout(b) && Faithful(snaps, d0) && |snaps| == 5 && InOrder(b, snaps) && AllThere(b, h, s.disk)
    ensures AllLast(b, h, RestoreAll(s, fates, snaps[..4]).0.trail, |s.trail|) <==>
              fates(s.clock + 1) == FailedBefore && fates(s.clock + 2) == FailedBefore
  {
    LayoutApart(b);
    var rest := snaps[..4];
    LastStep(s, fates, rest, b, h);
    assert rest[3] == snaps[3] && rest[..3] == snaps[..3];
    assert Faithful([rest[3]], d0);
    OtherRestore(s, fates, rest[3], d0, b);
    PairRestores(RestoreOne(s, fates, rest[3]).0, fates, snaps[..3], d0, b, h);
  }

  lemma StateErased(s: State, fates: Fates, b: Bundle)
    requires b.product in s.disk
    ensures var next := RestoreOne(s, fates, Snapshot(b.product, None)).0;
            && next.clock == s.clock + 1
            && (if fates(s.clock) == FailedBefore then next.disk == s.disk else b.product !in next.disk)
  {
  }

  /** From the moment the state file's restore is due. */
  lemma StateRestores(s: State, fates: Fates, snaps: seq<Snapshot>, d0: Disk, b: Bundle, h: Digest)
    requires Layout(b) && Faithful(snaps, d0) && |snaps| == 5 && InOrder(b, snaps) && AllThere(b, h, s.disk)
    requires b.product !in d0
    ensures AllLast(b, h, RestoreAll(s, fates, snaps).0.trail, |s.trail|) <==> !RemovalsStrand(fates, s.clock)
  {
    LastStep(s, fates, snaps, b, h);
    StateErased(s, fates, b);
    var next := RestoreOne(s, fates, snaps[4]).0;
    if fates(s.clock) == FailedBefore {
      RouteRestores(next, fates, snaps, d0, b, h);
    } else {
      ErasedStays(next, fates, snaps, d0, b, h);
    }
  }

  lemma ErasedStays(s: State, fates: Fates, snaps: seq<Snapshot>, d0: Disk, b: Bundle, h: Digest)
    requires Faithful(snaps, d0) && |snaps| == 5 && b.product !in d0 && b.product !in s.disk
    ensures AllLast(b, h, RestoreAll(s, fates, snaps[..4]).0.trail, |s.trail|) && StateLast(b, h, s.disk)
  {
    assert Faithful(snaps[..4], d0);
    GoneStaysGone(s, fates, snaps[..4], d0, b, h);
  }

  /**
   The fates that strand the state file: its own write takes effect and reports a failure,
   its removal fails, and the removals of the digest and of the configuration do not both fail.
   */
  predicate Strands(b: Bundle, h: Digest, fates: Fates, clock: nat) {
    ReportsFailure(b, h, fates, clock) && RemovalsStrand(fates, EraseTime(b, clock + |BundleWrites(b, h)|))
  }

  predicate ReportsFailure(b: Bundle, h: Digest, fates: Fates, clock: nat) {
    var last := clock + |BundleWrites(b, h)| - 1;
    AllDone(fates, clock, last) && fates(last) == FailedAfter
  }

  /** The operation that removes the state file: the authority's key, if written, is restored before it. */
  function EraseTime(b: Bundle, clock: nat): nat {
    if b.authority.Some? then clock + 1 else clock
  }

  predicate RemovalsStrand(fates: Fates, erase: nat) {
    fates(erase) == FailedBefore && !(fates(erase + 2) == FailedBefore && fates(erase + 3) == FailedBefore)
  }

  /** Nothing stands in the way of a first bundle: its paths can be captured, and its own files are new. */
  ghost predicate Fresh(b: Bundle, d: Disk) {
    && Capture(d, BundlePaths(b), []).Ok?
    && b.product !in d && b.config !in d && DigestPath(b.config) !in d
  }

  lemma BundleWritable(d: Disk, b: Bundle, h: Digest)
    requires Capture(d, BundlePaths(b), []).Ok?
    ensures Writable(d, BundleWrites(b, h))
  {
    CaptureFaithful(d, BundlePaths(b), []);
    var snaps := Capture(d, BundlePaths(b), []).value;
    forall p | p in BundlePaths(b) ensures At(d, p) != Some(Special) {
      var i :| 0 <= i < |snaps| && snaps[i].path == p;
    }
    var writes := BundleWrites(b, h);
    forall i | 0 <= i < |writes| ensures writes[i].path in BundlePaths(b) {
      WrittenIsCaptured(b, h, writes[i]);
    }
  }

  lemma WrittenIsCaptured(b: Bundle, h: Digest, w: Write)
    requires w in BundleWrites(b, h)
    ensures w.path in BundlePaths(b)
  {
    var paths := BundlePaths(b);
    assert paths[0] == b.identity && paths[1] == b.config && paths[2] == DigestPath(b.config);
    assert paths[3] == b.route && paths[4] == b.product;
    assert b.authority.Some? ==> paths[5] == b.authority.value;
  }

  /** A new file that is written last is there after a reported failure exactly when its own write was the one. */
  lemma {:induction false} LastWriteEnds(s: State, fates: Fates, writes: seq<Write>)
    requires writes != [] && Writable(s.disk, writes) && writes[|writes| - 1].path !in s.disk
    requires forall i :: 0 <= i < |writes| - 1 ==> writes[i].path != writes[|writes| - 1].path
    ensures var (after, ok) := PutAll(s, fates, writes);
            var last := s.clock + |writes| - 1;
            && (!ok && writes[|writes| - 1].path in after.disk <==>
                  AllDone(fates, s.clock, last) && fates(last) == FailedAfter)
            && (!ok && writes[|writes| - 1].path in after.disk ==>
                  after.clock == last + 1 && after.disk == Apply(s.disk, writes))
    decreases |writes|
  {
    var (next, ok) := Put(s, fates, writes[0]);
    var rest := writes[1..];
    if rest == [] {
      assert PutAll(s, fates, writes) == (next, ok);
      assert Apply(s.disk, writes) == s.disk[writes[0].path := Regular(writes[0].text)];
    } else if ok {
      assert rest[|rest| - 1] == writes[|writes| - 1];
      assert Writable(next.disk, rest) by {
        forall i | 0 <= i < |rest| ensures At(next.disk, rest[i].path) != Some(Special) {
          assert At(s.disk, writes[i + 1].path) != Some(Special);
        }
      }
      LastWriteEnds(next, fates, rest);
    }
  }

  lemma StateIsLast(b: Bundle, h: Digest)
    requires Layout(b)
    ensures var writes := BundleWrites(b, h);
            && |writes| > 0 && writes[|writes| - 1] == Write(b.product, b.state)
            && forall i :: 0 <= i < |writes| - 1 ==> writes[i].path != b.product
  {
    LayoutApart(b);
    var writes, before := BundleWrites(b, h), BeforeState(b, h);
    forall i | 0 <= i < |before| ensures writes[i].path != b.product {
      assert before[i] in before;
    }
  }

  /** How the writes end: before the state file, with it, or with it and a reported failure. */
  lemma WritesEnd(s: State, fates: Fates, b: Bundle, h: Digest)
    requires Layout(b) && Fresh(b, s.disk)
    ensures var (after, ok) := PutAll(s, fates, BundleWrites(b, h));
            && (!ok && b.product in after.disk <==> ReportsFailure(b, h, fates, s.clock))
            && (!ok && b.product in after.disk ==>
                  after.clock == s.clock + |BundleWrites(b, h)| && after.disk == Apply(s.disk, BundleWrites(b, h)))
  {
    BundleWritable(s.disk, b, h);
    StateIsLast(b, h);
    LastWriteEnds(s, fates, BundleWrites(b, h));
  }

  lemma RoutePresent(d: Disk, b: Bundle, h: Digest)
    requires Layout(b)
    ensures var e := Apply(d, BundleWrites(b, h));
            && b.route in e && e[b.route].Regular? && b.config in e && DigestPath(b.config) in e && b.product in e
            && (b.authority.Some? ==> b.authority.value in e && e[b.authority.value].Regular?)
  {
    LayoutApart(b);
    var writes := BundleWrites(b, h);
    forall w | w in writes ensures w.path in Apply(d, writes) && Apply(d, writes)[w.path].Regular? {
      AppliedThere(d, writes, w);
    }
    var seal := Sealed(b.config, b.text, h);
    assert seal[0] in writes && seal[1] in writes;
    assert Write(b.route, b.routes) in writes && Write(b.product, b.state) in writes;
    if b.authority.Some? {
      assert Write(b.authority.value, b.authorityKey) in Secrets(b);
      assert Write(b.authority.value, b.authorityKey) in writes;
    }
  }

  lemma {:induction false} AppliedThere(d: Disk, writes: seq<Write>, w: Write)
    requires w in writes
    ensures w.path in Apply(d, writes) && Apply(d, writes)[w.path].Regular?
    decreases |writes|
  {
    ApplyLast(d, writes);
    var last, init := writes[|writes| - 1], writes[..|writes| - 1];
    if last.path != w.path {
      assert w in init;
      AppliedThere(d, init, w);
    }
  }

  lemma LastFrom(b: Bundle, h: Digest, start: seq<Disk>, middle: seq<Disk>, all: seq<Disk>)
    requires start <= middle <= all && AllLast(b, h, middle, |start|)
    ensures AllLast(b, h, all, |start|) <==> AllLast(b, h, all, |middle|)
  {
    forall k | |start| <= k < |middle| ensures StateLast(b, h, all[k]) {
      assert all[k] == middle[k];
    }
  }

  lemma WritesLast(s: State, fates: Fates, b: Bundle, h: Digest)
    requires Sound(h) && Layout(b) && b.product !in s.disk
    ensures var written := PutAll(s, fates, BundleWrites(b, h)).0;
            s.trail <= written.trail && AllLast(b, h, written.trail, |s.trail|)
  {
    var written := PutAll(s, fates, BundleWrites(b, h)).0;
    WritesInOrder(s, fates, BundleWrites(b, h));
    forall k | |s.trail| <= k < |written.trail| ensures StateLast(b, h, written.trail[k]) {
      PrefixStateLast(s.disk, b, h, written.trail[k]);
    }
  }

  /** After the writes: whether the restores keep the state file from standing alone. */
  lemma RestoresExactly(s: State, written: State, fates: Fates, snaps: seq<Snapshot>, b: Bundle, h: Digest)
    requires Sound(h) && Layout(b) && Fresh(b, s.disk) && Capture(s.disk, BundlePaths(b), []) == Ok(snaps)
    requires b.product in written.disk <==> ReportsFailure(b, h, fates, s.clock)
    requires b.product in written.disk ==>
               written.clock == s.clock + |BundleWrites(b, h)| && written.disk == Apply(s.disk, BundleWrites(b, h))
    ensures AllLast(b, h, RestoreAll(written, fates, snaps).0.trail, |written.trail|) <==>
              !Strands(b, h, fates, s.clock)
  {
    if b.product in written.disk {
      StrandedFromWritten(s, written, fates, snaps, b, h);
    } else {
      NotWritten(s, written, fates, snaps, b, h);
    }
  }

  lemma NotWritten(s: State, written: State, fates: Fates, snaps: seq<Snapshot>, b: Bundle, h: Digest)
    requires b.product !in s.disk && b.product !in written.disk && Capture(s.disk, BundlePaths(b), []) == Ok(snaps)
    ensures AllLast(b, h, RestoreAll(written, fates, snaps).0.trail, |written.trail|)
  {
    CaptureFaithful(s.disk, BundlePaths(b), []);
    GoneStaysGone(written, fates, snaps, s.disk, b, h);
  }

  /**
   Exactly: in a member's first bundle the state file stands, at some moment, without a
   configuration that verifies, if and only if the fates strand it.
   */
  lemma StateAppearsLastExactly(s: State, fates: Fates, b: Bundle, h: Digest)
    requires Sound(h) && Layout(b) && Fresh(b, s.disk)
    ensures AllLast(b, h, WriteBundle(s, fates, b, h).0.trail, |s.trail|) <==> !Strands(b, h, fates, s.clock)
  {
    var snaps := Capture(s.disk, BundlePaths(b), []).value;
    var (written, ok) := PutAll(s, fates, BundleWrites(b, h));
    WritesLast(s, fates, b, h);
    WritesEnd(s, fates, b, h);
    if !ok {
      TrailGrows(written, fates, snaps);
      LastFrom(b, h, s.trail, written.trail, RestoreAll(written, fates, snaps).0.trail);
      RestoresExactly(s, written, fates, snaps, b, h);
    }
  }

  lemma CapturedInOrder(d: Disk, b: Bundle)
    requires Layout(b) && Fresh(b, d)
    ensures var snaps := Capture(d, BundlePaths(b), []).value;
            && InOrder(b, snaps) && |snaps| == |BundlePaths(b)|
            && (b.authority.Some? ==> snaps[5].path == b.authority.value)
  {
    var paths, snaps := BundlePaths(b), Capture(d, BundlePaths(b), []).value;
    CaptureOrder(d, paths, []);
    CaptureFaithful(d, paths, []);
    forall i | 0 <= i < |paths| ensures snaps[i].path == paths[i] {
      assert snaps[0 + i].path == paths[i];
    }
    assert At(d, snaps[1].path) == None && At(d, snaps[2].path) == None && At(d, snaps[4].path) == None;
  }

  /** Restoring the authority's key, when it was written, comes first and touches nothing else. */
  lemma AuthorityRestore(s: State, fates: Fates, snaps: seq<Snapshot>, d0: Disk, b: Bundle, h: Digest)
    requires Layout(b) && Faithful(snaps, d0) && |snaps| == 6 && AllThere(b, h, s.disk)
    requires b.authority == Some(snaps[5].path) && snaps[5].path in s.disk && s.disk[snaps[5].path].Regular?
    ensures var next := RestoreOne(s, fates, snaps[5]).0;
            && AllThere(b, h, next.disk) && next.clock == s.clock + 1
            && (AllLast(b, h, RestoreAll(s, fates, snaps).0.trail, |s.trail|) <==>
                AllLast(b, h, RestoreAll(next, fates, snaps[..5]).0.trail, |next.trail|))
  {
    LayoutApart(b);
    LastStep(s, fates, snaps, b, h);
    assert Faithful([snaps[5]], d0);
    OtherRestore(s, fates, snaps[5], d0, b);
    RestoredOne(s, fates, snaps[5], d0);
    var next := RestoreOne(s, fates, snaps[5]).0;
    assert At(next.disk, b.route) == At(s.disk, b.route);
  }

  lemma StrandedFromWritten(s: State, written: State, fates: Fates, snaps: seq<Snapshot>, b: Bundle, h: Digest)
    requires Sound(h) && Layout(b) && Fresh(b, s.disk) && Capture(s.disk, BundlePaths(b), []) == Ok(snaps)
    requires written.disk == Apply(s.disk, BundleWrites(b, h))
    ensures AllLast(b, h, RestoreAll(written, fates, snaps).0.trail, |written.trail|) <==>
              !RemovalsStrand(fates, EraseTime(b, written.clock))
  {
    BundleApplied(s.disk, b, h);
    RoutePresent(s.disk, b, h);
    CaptureFaithful(s.disk, BundlePaths(b), []);
    CapturedInOrder(s.disk, b);
    if b.authority.Some? {
      AuthorityRestore(written, fates, snaps, s.disk, b, h);
      StateRestores(RestoreOne(written, fates, snaps[5]).0, fates, snaps[..5], s.disk, b, h);
    } else {
      StateRestores(written, fates, snaps, s.disk, b, h);
    }
  }

  /** A failed or refused bundle leaves no file behind when its restores succeed. */
  lemma BundleLeavesNoTrace(s: State, fates: Fates, b: Bundle, h: Digest)
    ensures var (after, outcome) := WriteBundle(s, fates, b, h);
            outcome == RolledBack || outcome == Refused ==> after.disk == s.disk
  {
    forall w | w in BundleWrites(b, h) ensures w.path in BundlePaths(b) {
      WrittenIsCaptured(b, h, w);
    }
    FailureLeavesNoTrace(s, fates, BundlePaths(b), BundleWrites(b, h));
  }

  /** The last write takes effect but reports a failure, and the first restore does nothing. */
  function Unlucky(n: nat): Fate {
    if n == 3 then FailedAfter else if n == 4 then FailedBefore else Done
  }

  function Example(): Bundle {
    Bundle("i", "c", "r", "p", None, false, "", "", "t", "", "s")
  }

  lemma ExamplePaths()
    ensures DigestPath("c") == "c.blake3" && BundlePaths(Example()) == ["i", "c", "c.blake3", "r", "p"]
    ensures Layout(Example())
  {
    assert "c" + ".blake3" == "c.blake3";
    var paths := BundlePaths(Example());
    assert paths == ["i", "c", "c.blake3", "r", "p"];
    assert |paths[2]| == 8;
  }

  lemma ExampleWrites(s: State, h: Digest)
    requires s == State(map[], 0, [])
    ensures var (after, ok) := PutAll(s, Unlucky, BundleWrites(Example(), h));
            && !ok && after.clock == 4
            && after.disk == map["c" := Regular("t"), "c.blake3" := Regular(Seal("t", h)), "r" := Regular(""),
                                 "p" := Regular("s")]
  {
    var b := Example();
    ExamplePaths();
    var w0, w1, w2, w3 := Write("c", "t"), Write("c.blake3", Seal("t", h)), Write("r", ""), Write("p", "s");
    assert BundleWrites(b, h) == [w0, w1, w2, w3];
    assert [w0, w1, w2, w3][1..] == [w1, w2, w3] && [w1, w2, w3][1..] == [w2, w3] && [w2, w3][1..] == [w3];
    var s1 := Put(s, Unlucky, w0).0;
    var s2 := Put(s1, Unlucky, w1).0;
    var s3 := Put(s2, Unlucky, w2).0;
    assert PutAll(s, Unlucky, [w0, w1, w2, w3]) == PutAll(s1, Unlucky, [w1, w2, w3]);
    assert PutAll(s1, Unlucky, [w1, w2, w3]) == PutAll(s2, Unlucky, [w2, w3]);
    assert PutAll(s2, Unlucky, [w2, w3]) == PutAll(s3, Unlucky, [w3]);
    PutOne(s3, Unlucky, w3);
  }

  lemma ExampleRestores(s: State, snaps: seq<Snapshot>)
    requires s.clock == 4 && s.disk.Keys == {"c", "c.blake3", "r", "p"}
    requires |snaps| == 5 && snaps[0] == Snapshot("i", None) && snaps[1] == Snapshot("c", None)
    requires snaps[2] == Snapshot("c.blake3", None)
    requires snaps[3] == Snapshot("r", None) && snaps[4] == Snapshot("p", None)
    ensures var (after, clean) := RestoreAll(s, Unlucky, snaps); !clean && after.disk.Keys == {"p"}
  {
    var s1 := Erase(s, Unlucky, "p").0;
    var s2 := Erase(s1, Unlucky, "r").0;
    var s3 := Erase(s2, Unlucky, "c.blake3").0;
    var s4 := Erase(s3, Unlucky, "c").0;
    var s5 := Erase(s4, Unlucky, "i").0;
    assert s2.disk.Keys == {"c", "c.blake3", "p"} && s3.disk.Keys == {"c", "p"} && s4.disk.Keys == {"p"};
    assert RestoreAll(s, Unlucky, snaps).0 == RestoreAll(s1, Unlucky, snaps[..4]).0;
    assert snaps[..4][..3] == snaps[..3] && snaps[..3][..2] == snaps[..2] && snaps[..2][..1] == snaps[..1];
    assert RestoreAll(s1, Unlucky, snaps[..4]).0 == RestoreAll(s2, Unlucky, snaps[..3]).0;
    assert RestoreAll(s2, Unlucky, snaps[..3]).0 == RestoreAll(s3, Unlucky, snaps[..2]).0;
    assert RestoreAll(s3, Unlucky, snaps[..2]).0 == RestoreAll(s4, Unlucky, snaps[..1]).0;
    assert RestoreAll(s4, Unlucky, snaps[..1]).0 == RestoreAll(s5, Unlucky, []).0;
  }

  lemma FreshCapture(paths: seq<Path>)
    requires forall i, j :: 0 <= i < j < |paths| ==> paths[i] != paths[j]
    ensures var c := Capture(map[], paths, []);
            c.Ok? && |c.value| == |paths| && forall i :: 0 <= i < |paths| ==> c.value[i] == Snapshot(paths[i], None)
  {
    CaptureRegular(map[], paths, []);
    CaptureOrder(map[], paths, []);
    CaptureFaithful(map[], paths, []);
    var snaps := Capture(map[], paths, []).value;
    forall i | 0 <= i < |paths| ensures snaps[i] == Snapshot(paths[i], None) {
      assert snaps[0 + i].path == paths[i];
      assert At(map[], snaps[i].path) == None;
    }
  }

  /** When a restore fails the state file can be left without its configuration. */
  lemma StateLeftBehind(h: Digest)
    ensures var s, b := State(map[], 0, []), Example();
            var (after, outcome) := WriteBundle(s, Unlucky, b, h);
            && Layout(b) && outcome == RollbackFailed
            && b.product in after.disk && Load(after.disk, b.config, h) == Err
  {
    var s := State(map[], 0, []);
    ExamplePaths();
    ExampleWrites(s, h);
    FreshCapture(BundlePaths(Example()));
    var written := PutAll(s, Unlucky, BundleWrites(Example(), h)).0;
    ExampleRestores(written, Capture(s.disk, BundlePaths(Example()), []).value);
    assert "c" !in RestoreAll(written, Unlucky, Capture(s.disk, BundlePaths(Example()), []).value).0.disk;
  }
}
