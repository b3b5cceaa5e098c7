/**
 Whether the text that an installation replaces can still be loaded, from the destination
 or from the previous copy, wherever the installation is cut short.
 */
module TextSurvival {
  import opened Outcomes
  import opened FileTransactions
  import opened Deployment
  import opened Installation

  predicate Survives(d: Disk, p: Path, text: string, h: Digest) {
    Load(d, p, h) == Ok(text) || Load(d, PreviousPath(p), h) == Ok(text)
  }

  ghost predicate AllSurvive(trail: seq<Disk>, start: nat, p: Path, text: string, h: Digest) {
    forall k :: start <= k < |trail| ==> Survives(trail[k], p, text, h)
  }

  /** Writing a candidate over a destination that loads. */
  function Writing(p: Path, text: string, candidate: string, h: Digest): seq<Write> {
    Sealed(PreviousPath(p), text, h) + Sealed(p, candidate, h)
  }

  ghost predicate Replacing(s: State, p: Path, text: string, h: Digest) {
    Sound(h) && Load(s.disk, p, h) == Ok(text) && Capture(s.disk, Four(p), []).Ok?
  }

  lemma IsInstall(s: State, p: Path, text: string, candidate: string, h: Digest)
    requires Replacing(s, p, text, h)
    ensures InstallWrites(s.disk, p, candidate, h) == Writing(p, text, candidate, h)
  {
  }

  // ---------------------------------------------------------------- the writes

  /** The previous copy is sealed before the destination is touched. */
  lemma PrefixSurvives(s: State, p: Path, text: string, candidate: string, h: Digest, now: Disk)
    requires Replacing(s, p, text, h) && Prefix(s.disk, Writing(p, text, candidate, h), now)
    ensures Survives(now, p, text, h)
  {
    var q, writes := PreviousPath(p), Writing(p, text, candidate, h);
    var k :| 0 <= k <= |writes| && now == Apply(s.disk, writes[..k]);
    FourDistinct(p);
    if k <= 2 {
      assert forall w :: w in writes[..k] ==> w.path == q || w.path == DigestPath(q);
      ApplyKeeps(s.disk, writes[..k], p);
      ApplyKeeps(s.disk, writes[..k], DigestPath(p));
    } else {
      var first, rest := Sealed(q, text, h), Sealed(p, candidate, h)[..k - 2];
      assert writes[..k] == first + rest;
      ApplyJoins(s.disk, first, rest);
      ApplySealed(s.disk, q, text, h);
      ApplyKeeps(Apply(s.disk, first), rest, q);
      ApplyKeeps(Apply(s.disk, first), rest, DigestPath(q));
      SealedLoads(now, q, text, h);
    }
  }

  /** While the writes run, the replaced text is never lost. */
  lemma WritesKeepText(s: State, fates: Fates, p: Path, text: string, candidate: string, h: Digest)
    requires Replacing(s, p, text, h)
    ensures var written := PutAll(s, fates, Writing(p, text, candidate, h)).0;
            s.trail <= written.trail && AllSurvive(written.trail, |s.trail|, p, text, h)
  {
    var writes := Writing(p, text, candidate, h);
    WritesInOrder(s, fates, writes);
    var written := PutAll(s, fates, writes).0;
    forall k | |s.trail| <= k < |written.trail| ensures Survives(written.trail[k], p, text, h) {
      PrefixSurvives(s, p, text, candidate, h, written.trail[k]);
    }
  }

  // -------------------------------------------------------------- the restores

  ghost predicate InOrder(snaps: seq<Snapshot>, p: Path) {
    |snaps| == 4 && forall i :: 0 <= i < 4 ==> snaps[i].path == Four(p)[i]
  }

  lemma CapturedInOrder(d: Disk, p: Path)
    requires Capture(d, Four(p), []).Ok?
    ensures InOrder(Capture(d, Four(p), []).value, p) && Faithful(Capture(d, Four(p), []).value, d)
  {
    FourDistinct(p);
    CaptureOrder(d, Four(p), []);
    CaptureFaithful(d, Four(p), []);
    var snaps := Capture(d, Four(p), []).value;
    forall i | 0 <= i < 4 ensures snaps[i].path == Four(p)[i] {
      assert snaps[0 + i].path == Four(p)[i];
    }
  }

  /** What the previous copy loads as once its digest, or digest and text, are back. */
  predicate StillPrevious(d0: Disk, p: Path, text: string, h: Digest, digestBack: bool, textBack: bool) {
    var q := PreviousPath(p);
    LoadPair(if textBack then At(d0, q) else Some(Regular(text)),
             if digestBack then At(d0, DigestPath(q)) else Some(Regular(Seal(text, h))), h) == Ok(text)
  }

  lemma SurviveStep(s: State, fates: Fates, snaps: seq<Snapshot>, p: Path, text: string, h: Digest)
    requires snaps != []
    ensures var next := RestoreOne(s, fates, snaps[|snaps| - 1]).0;
            next.trail == s.trail + [next.disk] ==>
              (AllSurvive(RestoreAll(s, fates, snaps).0.trail, |s.trail|, p, text, h) <==>
                 Survives(next.disk, p, text, h) &&
                 AllSurvive(RestoreAll(next, fates, snaps[..|snaps| - 1]).0.trail, |next.trail|, p, text, h))
  {
    var next := RestoreOne(s, fates, snaps[|snaps| - 1]).0;
    TrailGrows(next, fates, snaps[..|snaps| - 1]);
    if next.trail == s.trail + [next.disk] {
      assert RestoreAll(s, fates, snaps).0.trail[|s.trail|] == next.disk;
    }
  }

  /** All four files are in place, with the candidate at the destination. */
  ghost predicate Written(d: Disk, p: Path, text: string, candidate: string, h: Digest) {
    && At(d, p) == Some(Regular(candidate)) && DigestPath(p) in d && d[DigestPath(p)].Regular?
    && At(d, PreviousPath(p)) == Some(Regular(text))
    && At(d, DigestPath(PreviousPath(p))) == Some(Regular(Seal(text, h)))
  }

  /** The restores of the destination change nothing about the previous copy. */
  lemma DestinationRestores(s: State, fates: Fates, snaps: seq<Snapshot>, d0: Disk, p: Path, text: string, h: Digest)
    requires |snaps| == 2 && snaps[0].path == p && snaps[1].path == DigestPath(p) && Faithful(snaps, d0)
    requires Load(s.disk, PreviousPath(p), h) == Ok(text)
    ensures AllSurvive(RestoreAll(s, fates, snaps).0.trail, |s.trail|, p, text, h)
  {
    FourDistinct(p);
    var q := PreviousPath(p);
    var last := RestoreAll(s, fates, snaps).0;
    assert Faithful([], d0);
    UntouchedThroughout(s, fates, snaps, q);
    UntouchedThroughout(s, fates, snaps, DigestPath(q));
    forall k | |s.trail| <= k < |last.trail| ensures Survives(last.trail[k], p, text, h) {
      assert At(last.trail[k], q) == At(s.disk, q) && At(last.trail[k], DigestPath(q)) == At(s.disk, DigestPath(q));
    }
  }

  /** Restores of other paths never show on a path. */
  lemma {:induction false} UntouchedThroughout(s: State, fates: Fates, snaps: seq<Snapshot>, q: Path)
    requires forall i :: 0 <= i < |snaps| ==> snaps[i].path != q
    ensures var last := RestoreAll(s, fates, snaps).0;
            && s.trail <= last.trail && At(last.disk, q) == At(s.disk, q)
            && forall k :: |s.trail| <= k < |last.trail| ==> At(last.trail[k], q) == At(s.disk, q)
    decreases |snaps|
  {
    if snaps != [] {
      var next := RestoreOne(s, fates, snaps[|snaps| - 1]).0;
      UntouchedThroughout(next, fates, snaps[..|snaps| - 1], q);
    }
  }

  /** With the candidate at the destination, the text lives as long as the previous copy holds it. */
  lemma RestoresKeepText(s: State, fates: Fates, snaps: seq<Snapshot>, d0: Disk, p: Path, text: string,
                         candidate: string, h: Digest)
    requires InOrder(snaps, p) && Faithful(snaps, d0) && Written(s.disk, p, text, candidate, h) && candidate != text
    ensures var digestBack, textBack := fates(s.clock) != FailedBefore, fates(s.clock + 1) != FailedBefore;
            AllSurvive(RestoreAll(s, fates, snaps).0.trail, |s.trail|, p, text, h) <==>
              StillPrevious(d0, p, text, h, digestBack, false) && StillPrevious(d0, p, text, h, digestBack, textBack)
  {
    FourDistinct(p);
    assert snaps[3].path == DigestPath(PreviousPath(p)) && snaps[2].path == PreviousPath(p);
    assert snaps[1].path == DigestPath(p) && snaps[0].path == p;
    assert Faithful([snaps[3]], d0) && Faithful([snaps[2]], d0) && Faithful(snaps[..2], d0);
    RestoredThere(s, fates, snaps[3], d0);
    SurviveStep(s, fates, snaps, p, text, h);
    var x1 := RestoreOne(s, fates, snaps[3]).0;
    assert snaps[..3][2] == snaps[2] && snaps[..3][..2] == snaps[..2];
    RestoredThere(x1, fates, snaps[2], d0);
    SurviveStep(x1, fates, snaps[..3], p, text, h);
    var x2 := RestoreOne(x1, fates, snaps[2]).0;
    if Load(x2.disk, PreviousPath(p), h) == Ok(text) {
      DestinationRestores(x2, fates, snaps[..2], d0, p, text, h);
    }
  }

  // --------------------------------------------------------------------- exactly

  /** The writes end in a failure after the candidate reached the destination. */
  predicate ReachesDestination(fates: Fates, clock: nat) {
    && AllDone(fates, clock, clock + 2)
    && (fates(clock + 2) == FailedAfter || (fates(clock + 2) == Done && fates(clock + 3) != Done))
  }

  /** The operation with which taking back then begins. */
  function TakingBack(fates: Fates, clock: nat): nat {
    if fates(clock + 2) == Done then clock + 4 else clock + 3
  }

  /** How the writes of one sealed pair end, by their two fates. */
  ghost predicate PairEnds(s: State, fates: Fates, p: Path, text: string, h: Digest, after: State, ok: bool) {
    && (ok <==> fates(s.clock) == Done && fates(s.clock + 1) == Done)
    && after.clock == (if fates(s.clock) == Done then s.clock + 2 else s.clock + 1)
    && At(after.disk, p) == (if fates(s.clock) == FailedBefore then At(s.disk, p) else Some(Regular(text)))
    && At(after.disk, DigestPath(p)) ==
         (if fates(s.clock) == Done && fates(s.clock + 1) != FailedBefore then Some(Regular(Seal(text, h)))
          else At(s.disk, DigestPath(p)))
    && (forall o :: o != p && o != DigestPath(p) ==> At(after.disk, o) == At(s.disk, o))
  }

  lemma PairsCombine(s: State, middle: State, done: bool, after: State, ok: bool, fates: Fates, p: Path, text: string,
                     candidate: string, h: Digest)
    requires PairEnds(s, fates, PreviousPath(p), text, h, middle, done)
    requires if done then PairEnds(middle, fates, p, candidate, h, after, ok) else (after, ok) == (middle, false)
    requires DigestPath(p) in s.disk && s.disk[DigestPath(p)].Regular?
    ensures ok ==> !ReachesDestination(fates, s.clock)
    ensures !ok && ReachesDestination(fates, s.clock) ==>
              Written(after.disk, p, text, candidate, h) && after.clock == TakingBack(fates, s.clock)
    ensures !ok && !ReachesDestination(fates, s.clock) ==>
              At(after.disk, p) == At(s.disk, p) && At(after.disk, DigestPath(p)) == At(s.disk, DigestPath(p))
  {
    FourDistinct(p);
    var q := PreviousPath(p);
    assert At(middle.disk, p) == At(s.disk, p) && At(middle.disk, DigestPath(p)) == At(s.disk, DigestPath(p));
    assert done ==> AllDone(fates, s.clock, s.clock + 2) && middle.clock == s.clock + 2;
    assert AllDone(fates, s.clock, s.clock + 2) ==> fates(s.clock) == Done && fates(s.clock + 1) == Done;
    if done {
      assert At(after.disk, q) == At(middle.disk, q) && At(after.disk, DigestPath(q)) == At(middle.disk, DigestPath(q));
    }
  }

  /** How the four writes end. */
  lemma FourWrites(s: State, fates: Fates, p: Path, text: string, candidate: string, h: Digest)
    requires Replacing(s, p, text, h)
    ensures var (written, ok) := PutAll(s, fates, Writing(p, text, candidate, h));
            && (ok ==> !ReachesDestination(fates, s.clock))
            && (!ok && ReachesDestination(fates, s.clock) ==>
                  Written(written.disk, p, text, candidate, h) && written.clock == TakingBack(fates, s.clock))
            && (!ok && !ReachesDestination(fates, s.clock) ==>
                  At(written.disk, p) == At(s.disk, p) && At(written.disk, DigestPath(p)) == At(s.disk, DigestPath(p)))
  {
    FourDistinct(p);
    NoneSpecial(s.disk, p);
    var q := PreviousPath(p);
    assert q in Four(p) && DigestPath(q) in Four(p);
    PutAllJoins(s, fates, Sealed(q, text, h), Sealed(p, candidate, h));
    TwoWrites(s, fates, q, text, h);
    var (middle, done) := PutAll(s, fates, Sealed(q, text, h));
    var (written, ok) := PutAll(s, fates, Writing(p, text, candidate, h));
    if done {
      TwoWrites(middle, fates, p, candidate, h);
    }
    PairsCombine(s, middle, done, written, ok, fates, p, text, candidate, h);
  }

  lemma NoneSpecial(d: Disk, p: Path)
    requires Capture(d, Four(p), []).Ok?
    ensures forall q :: q in Four(p) ==> At(d, q) != Some(Special)
  {
    CaptureFaithful(d, Four(p), []);
    var snaps := Capture(d, Four(p), []).value;
    forall q | q in Four(p) ensures At(d, q) != Some(Special) {
      var i :| 0 <= i < |snaps| && snaps[i].path == q;
    }
  }

  lemma TwoWrites(s: State, fates: Fates, p: Path, text: string, h: Digest)
    requires At(s.disk, p) != Some(Special) && At(s.disk, DigestPath(p)) != Some(Special)
    ensures var (after, ok) := PutAll(s, fates, Sealed(p, text, h)); PairEnds(s, fates, p, text, h, after, ok)
  {
    assert |DigestPath(p)| == |p| + 7;
    var w0, w1 := Write(p, text), Write(DigestPath(p), Seal(text, h));
    PutAllJoins(s, fates, [w0], [w1]);
    PutOne(s, fates, w0);
    PutOne(Put(s, fates, w0).0, fates, w1);
  }

  /** Where the destination was not reached it is never changed. */
  lemma UnreachedKeepsText(s: State, written: State, fates: Fates, p: Path, text: string, h: Digest)
    requires Replacing(s, p, text, h)
    requires At(written.disk, p) == At(s.disk, p) && At(written.disk, DigestPath(p)) == At(s.disk, DigestPath(p))
    ensures var last := RestoreAll(written, fates, Capture(s.disk, Four(p), []).value).0;
            AllSurvive(last.trail, |written.trail|, p, text, h)
  {
    var snaps := Capture(s.disk, Four(p), []).value;
    CaptureFaithful(s.disk, Four(p), []);
    RestoresOldOrNew(written, fates, snaps, s.disk, [], p);
    RestoresOldOrNew(written, fates, snaps, s.disk, [], DigestPath(p));
  }

  /** Installing the text that is there already cannot lose it. */
  lemma SameTextSurvives(s: State, fates: Fates, p: Path, text: string, h: Digest)
    requires Replacing(s, p, text, h)
    ensures AllSurvive(Transact(s, fates, Four(p), Writing(p, text, text, h)).0.trail, |s.trail|, p, text, h)
  {
    var writes := Writing(p, text, text, h);
    FourDistinct(p);
    CrashPoints(s, fates, Four(p), writes, p);
    CrashPoints(s, fates, Four(p), writes, DigestPath(p));
    TrimLine(h(text));
    var after := Transact(s, fates, Four(p), writes).0;
    forall k | |s.trail| <= k < |after.trail| ensures Survives(after.trail[k], p, text, h) {
      assert OldOrNew(s.disk, writes, after.trail[k], p) && OldOrNew(s.disk, writes, after.trail[k], DigestPath(p));
      assert At(after.trail[k], p) == Some(Regular(text));
    }
  }

  /**
   When an installation can lose the text it replaces: the candidate, a different text, has
   reached the destination, the writes fail, and taking back the previous copy first
   leaves it without that text while the destination still holds the candidate.
   */
  predicate Loses(d0: Disk, fates: Fates, clock: nat, p: Path, text: string, candidate: string, h: Digest) {
    && candidate != text && ReachesDestination(fates, clock)
    && var back := TakingBack(fates, clock);
       var digestBack, textBack := fates(back) != FailedBefore, fates(back + 1) != FailedBefore;
       !(StillPrevious(d0, p, text, h, digestBack, false) && StillPrevious(d0, p, text, h, digestBack, textBack))
  }

  lemma SurviveFrom(start: seq<Disk>, middle: seq<Disk>, all: seq<Disk>, p: Path, text: string, h: Digest)
    requires start <= middle <= all && AllSurvive(middle, |start|, p, text, h)
    ensures AllSurvive(all, |start|, p, text, h) <==> AllSurvive(all, |middle|, p, text, h)
  {
    forall k | |start| <= k < |middle| ensures Survives(all[k], p, text, h) {
      assert all[k] == middle[k];
    }
  }

  /** At every crash point of an installation the replaced text still loads, exactly unless it loses it. */
  lemma TextSurvivesExactly(s: State, fates: Fates, p: Path, text: string, candidate: string, h: Digest)
    requires Replacing(s, p, text, h)
    ensures AllSurvive(Transact(s, fates, Four(p), InstallWrites(s.disk, p, candidate, h)).0.trail, |s.trail|,
                       p, text, h)
            <==> !Loses(s.disk, fates, s.clock, p, text, candidate, h)
  {
    IsInstall(s, p, text, candidate, h);
    var writes, snaps := Writing(p, text, candidate, h), Capture(s.disk, Four(p), []).value;
    if candidate == text {
      SameTextSurvives(s, fates, p, text, h);
    } else {
      var (written, ok) := PutAll(s, fates, writes);
      WritesKeepText(s, fates, p, text, candidate, h);
      FourWrites(s, fates, p, text, candidate, h);
      if !ok {
        TrailGrows(written, fates, snaps);
        SurviveFrom(s.trail, written.trail, RestoreAll(written, fates, snaps).0.trail, p, text, h);
        CapturedInOrder(s.disk, p);
        if ReachesDestination(fates, s.clock) {
          RestoresKeepText(written, fates, snaps, s.disk, p, text, candidate, h);
        } else {
          UnreachedKeepsText(s, written, fates, p, text, h);
        }
      }
    }
  }

  /** Over a destination that is there, an installation is the plain transaction. */
  lemma ReplacesByTransaction(s: State, fates: Fates, source: Path, p: Path, host: Host, h: Digest)
    requires Admits(s.disk, source, p, host) && p in s.disk
    ensures Install(s, fates, source, p, host, h) ==
            Transact(s, fates, Four(p), InstallWrites(s.disk, p, Candidate(s.disk, source).value, h))
  {
  }

  /**
   Exactly when an installation keeps the replaced text loadable, from the destination or the
   previous copy, at every crash point of its writes and of its restores.
   */
  lemma InstallKeepsTextExactly(s: State, fates: Fates, source: Path, p: Path, host: Host, text: string, h: Digest)
    requires Sound(h) && Load(s.disk, p, h) == Ok(text) && Admits(s.disk, source, p, host)
    ensures AllSurvive(Install(s, fates, source, p, host, h).0.trail, |s.trail|, p, text, h) <==>
              !Loses(s.disk, fates, s.clock, p, text, Candidate(s.disk, source).value, h)
  {
    ReplacesByTransaction(s, fates, source, p, host, h);
    TextSurvivesExactly(s, fates, p, text, Candidate(s.disk, source).value, h);
  }

  /** A configuration with its sidecar and nothing else. */
  function Alone(p: Path, text: string, h: Digest): Disk {
    map[p := Regular(text), DigestPath(p) := Regular(Seal(text, h))]
  }

  /** Its first replacement, when the candidate's digest cannot be written: for a while neither copy loads. */
  lemma FirstReplacementLoses(p: Path, text: string, candidate: string, h: Digest)
    requires Sound(h) && candidate != text
    ensures var s, fates := State(Alone(p, text, h), 0, []), (n: nat) => if n == 3 then FailedBefore else Done;
            !AllSurvive(Transact(s, fates, Four(p), InstallWrites(s.disk, p, candidate, h)).0.trail, 0, p, text, h)
  {
    var s, fates := State(Alone(p, text, h), 0, []), (n: nat) => if n == 3 then FailedBefore else Done;
    FourDistinct(p);
    assert At(s.disk, PreviousPath(p)) == None && At(s.disk, DigestPath(PreviousPath(p))) == None;
    SealedLoads(s.disk, p, text, h);
    CaptureRegular(s.disk, Four(p), []);
    TextSurvivesExactly(s, fates, p, text, candidate, h);
  }
}
