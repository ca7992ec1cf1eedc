/**
 What the server is told over whole runs: which reports are posted, in what order, and when one that
 was lost can come again.
 */
module Acknowledgements {
  import opened Text
  import opened Storage
  import opened Bundle
  import opened CaSync
  import opened SyncReach
  import opened SyncSafety
  import opened SyncReports
  import opened Daemon
  import opened Scenario
  import opened ToyServer
  import Rendering

  // ---- One step ----

  /** The generation is on record, with another fingerprint or none. */
  predicate Replaced(w: World, generation: nat, fingerprint: string) {
    DiskGeneration(w) == generation && ReadText(w.disk.fingerprint, true) != Ok(Some(fingerprint))
  }

  /** The host runs the bundle the report names, it is on record, and the call that brought it is trustworthy. */
  ghost predicate Runs(c: Crypto, w: World, ack: AckReport, anchor: Option<string>) {
    && w.host.Some? && Names(ack, w.host.value.source) && Recorded(w.host.value.source, w)
    && w.calls != [] && w.calls[|w.calls| - 1].bundle == w.host.value.source
    && w.calls[|w.calls| - 1].body == w.host.value.body
    && Trustworthy(c, w.calls[|w.calls| - 1], anchor)
  }

  /** What a report posted between `w` and `w'` means. */
  ghost predicate Truthful(c: Crypto, cfg: Config, ack: AckReport, w: World, w': World) {
    && DiskGeneration(w) <= ack.generation
    && (ack.generation == DiskGeneration(w) ==> Replaced(w, ack.generation, ack.fingerprint))
    && (ack.status.AckApplied? ==> ack.generation == DiskGeneration(w') && Runs(c, w', ack, TrustAnchor(cfg, w)))
  }

  /** Nothing is reported, or one report that means what it should. */
  ghost predicate Tells(c: Crypto, cfg: Config, w: World, w': World) {
    w'.acks == w.acks || exists ack :: w'.acks == w.acks + [ack] && Truthful(c, cfg, ack, w, w')
  }

  lemma AppliedRuns(c: Crypto, w: World, o: Offer, w': World, anchor: Option<string>)
    requires Trustworthy(c, CallOf(o), anchor) && Recorded(o.bundle, w')
    requires w'.host == Some(Host(Rendering.Render(o.bundle), o.bundle)) && w'.calls == w.calls + [CallOf(o)]
    ensures Runs(c, w', AppliedAck(o.bundle), anchor) && DiskGeneration(w') == o.bundle.generation
  {
    assert w'.calls[|w'.calls| - 1] == CallOf(o);
    GenerationRecorded(o.bundle);
  }

  lemma FreshIsNew(w: World, o: Offer)
    requires Fresh(w, o) && o.bundle.generation > 0
    ensures DiskGeneration(w) <= o.bundle.generation
    ensures o.bundle.generation == DiskGeneration(w) ==> Replaced(w, o.bundle.generation, o.bundle.fingerprint)
  {
  }

  lemma ReachTells(c: Crypto, cfg: Config, w: World, offer: Option<Offer>, reply: HelperOutcome, w': World)
    requires Reach(cfg, w, offer, reply, w')
    requires offer.Some? ==> Trustworthy(c, CallOf(offer.value), TrustAnchor(cfg, w))
    requires offer.Some? ==> offer.value.bundle.generation > 0
    ensures Tells(c, cfg, w, w')
  {
    if w'.acks != w.acks {
      var o := offer.value;
      FreshIsNew(w, o);
      if Taken(w, o, reply, w') {
        AppliedRuns(c, w, o, w', TrustAnchor(cfg, w));
        assert Truthful(c, cfg, AppliedAck(o.bundle), w, w');
      } else {
        assert Truthful(c, cfg, AckReport(o.bundle.generation, o.bundle.fingerprint, AckRollback), w, w');
      }
    }
  }

  lemma PassTells(c: Crypto, cfg: Config, w: World, e: PassEnv, k: nat)
    requires k <= |Effects(c, cfg, w, e)|
    ensures Tells(c, cfg, w, Fold(w, Effects(c, cfg, w, e)[..k]))
  {
    var offer := OfferOf(c, cfg, w.disk, e);
    if offer.Some? {
      OfferIsTrustworthy(c, cfg, w, e, offer.value);
    }
    PassReaches(c, cfg, w, e, k);
    ReachTells(c, cfg, w, offer, e.helper, Fold(w, Effects(c, cfg, w, e)[..k]));
  }

  lemma StepTells(c: Crypto, cfg: Config, s: System, ev: Event)
    ensures Tells(c, cfg, s.world, Next(c, cfg, s, ev).world)
  {
    NextWorld(c, cfg, s, ev);
    var r := Reached(c, cfg, s, ev);
    if r.Some? {
      PassTells(c, cfg, s.world, r.value.0, r.value.1);
    }
  }

  /** A report after a step was there before it, or is the one the step posted. */
  lemma OldOrNew(c: Crypto, cfg: Config, w: World, w': World, j: nat)
    requires Tells(c, cfg, w, w') && j < |w'.acks|
    ensures if j < |w.acks| then w'.acks[j] == w.acks[j] else Truthful(c, cfg, w'.acks[j], w, w')
  {
  }

  // ---- A report that comes again ----

  /**
   Once a bundle is recorded, a report on it is posted later in the run only if in between its generation was
   on record with another fingerprint.
   */
  lemma {:induction false} ReportedAgainOnlyIfReplaced(c: Crypto, cfg: Config, s: System, evs: seq<Event>,
                                                       b: CaBundle, j: nat)
    requires DiskDescribes(s.world, b) && |s.world.acks| <= j < |Run(c, cfg, s, evs).world.acks|
    requires Names(Run(c, cfg, s, evs).world.acks[j], b)
    ensures exists i :: 0 <= i < |evs| && Replaced(Run(c, cfg, s, evs[..i]).world, b.generation, b.fingerprint)
  {
    var n := |evs| - 1;
    var before, after := Run(c, cfg, s, evs[..n]), Run(c, cfg, s, evs);
    StepTells(c, cfg, before, evs[n]);
    OldOrNew(c, cfg, before.world, after.world, j);
    if j < |before.world.acks| {
      ReportedAgainOnlyIfReplaced(c, cfg, s, evs[..n], b, j);
      var i :| 0 <= i < n && Replaced(Run(c, cfg, s, evs[..n][..i]).world, b.generation, b.fingerprint);
      assert evs[..n][..i] == evs[..i];
    } else {
      GenerationNeverFalls(c, cfg, s, evs[..n], 0);
      assert evs[..n][..0] == [];
    }
  }

  /** From nothing: apply `o`, then `p`, then `o` again, with no report ever answered. */
  function BackAndForth(c: Crypto, o: Offer, p: Offer): World {
    var w := PassWorld(c, NO_PIN, EMPTY, Env(o.raw, Written));
    PassWorld(c, NO_PIN, PassWorld(c, NO_PIN, w, Env(p.raw, Written)), Env(o.raw, Written))
  }

  /** That is possible: two bundles of one generation, offered in turn, are each applied and reported anew. */
  lemma ReportCanComeAgain(c: Crypto, key: string, o: Offer, p: Offer)
    requires Signed(c, key, o) && Signed(c, key, p)
    requires o.bundle.generation == p.bundle.generation && o.bundle.fingerprint != p.bundle.fingerprint
    ensures BackAndForth(c, o, p).acks == [] + [AppliedAck(o.bundle)] + [AppliedAck(p.bundle)] + [AppliedAck(o.bundle)]
  {
    Valid(c, key, o);
    Valid(c, key, p);
    var w := PassWorld(c, NO_PIN, EMPTY, Env(o.raw, Written));
    Updates(c, key, EMPTY, None, o);
    Updates(c, key, w, Some(o.bundle), p);
    Updates(c, key, PassWorld(c, NO_PIN, w, Env(p.raw, Written)), Some(p.bundle), o);
  }

  /** And it happens, with two key lists of the toy server at generation one. */
  lemma ReportComesAgain()
    ensures var o, p := ToyOffer(1, 'j', Alpha), ToyOffer(1, 'k', Alpha);
            && AppliedAck(o.bundle) != AppliedAck(p.bundle)
            && BackAndForth(Toy(), o, p).acks == [] + [AppliedAck(o.bundle)] + [AppliedAck(p.bundle)]
              + [AppliedAck(o.bundle)]
  {
    ToySigned(1, 'j', Alpha);
    ToySigned(1, 'k', Alpha);
    DifferentFingerprints();
    ReportCanComeAgain(Toy(), KeyOf(Alpha), ToyOffer(1, 'j', Alpha), ToyOffer(1, 'k', Alpha));
  }

  /**
   A rollback is reported again by the next pass that is offered the bundle: two passes alike, in which the helper
   rolls back and the report can be signed, post the same report twice.
   */
  lemma RollbackIsReportedAgain(c: Crypto, key: string, w: World, b: Option<CaBundle>, o: Offer, e: PassEnv)
    requires Signed(c, key, o) && OnDisk(w, key, b) && (b.Some? ==> ValidBundle(c, b.value)) && Outdated(b, o)
    requires Receives(e, o.raw) && e.syncWrite.Written? && e.helper.RolledBack? && e.ackSigned
    ensures var w1 := PassWorld(c, NO_PIN, w, e);
            PassWorld(c, NO_PIN, w1, e).acks == w.acks + [ReportOn(o.bundle, RolledBack)]
              + [ReportOn(o.bundle, RolledBack)]
  {
    ReportsRollback(c, key, w, b, o, e);
    ReportsRollback(c, key, PassWorld(c, NO_PIN, w, e), b, o, e);
  }

  lemma ReportsRollback(c: Crypto, key: string, w: World, b: Option<CaBundle>, o: Offer, e: PassEnv)
    requires Signed(c, key, o) && OnDisk(w, key, b) && (b.Some? ==> ValidBundle(c, b.value)) && Outdated(b, o)
    requires Receives(e, o.raw) && e.syncWrite.Written? && e.helper.RolledBack? && e.ackSigned
    ensures var w' := PassWorld(c, NO_PIN, w, e);
            w'.acks == w.acks + [ReportOn(o.bundle, RolledBack)] && OnDisk(w', key, b)
  {
    Offered(c, key, w, b, o, e);
    FreshOnDisk(c, key, w, b, o);
    WholeIsPrefix(c, NO_PIN, w, e);
    ReportedIff(c, NO_PIN, w, e, |Effects(c, NO_PIN, w, e)|);
    PassAcknowledges(c, NO_PIN, w, e, |Effects(c, NO_PIN, w, e)|);
  }

  /** And it happens, from empty state with the toy server. */
  lemma RollbackComesAgain()
    ensures var o := ToyOffer(1, 'k', Alpha);
            var e := Env(o.raw, Written).(helper := RolledBack);
            PassWorld(Toy(), NO_PIN, PassWorld(Toy(), NO_PIN, EMPTY, e), e).acks
            == [] + [ReportOn(o.bundle, RolledBack)] + [ReportOn(o.bundle, RolledBack)]
  {
    var o := ToyOffer(1, 'k', Alpha);
    ToySigned(1, 'k', Alpha);
    RollbackIsReportedAgain(Toy(), KeyOf(Alpha), EMPTY, None, o, Env(o.raw, Written).(helper := RolledBack));
  }

  // ---- What `applied` reports say ----

  /** Report `j` was posted between `w` and `w'`, and was true in `w'`. */
  ghost predicate PostedBetween(c: Crypto, w: World, w': World, j: nat, ack: AckReport, anchor: Option<string>) {
    |w.acks| <= j < |w'.acks| && w'.acks[j] == ack && Runs(c, w', ack, anchor)
  }

  /** The last of the events posted report `j`, which right after it was true, under the anchor at the start. */
  ghost predicate PostedLast(c: Crypto, cfg: Config, s: System, evs: seq<Event>, j: nat, ack: AckReport) {
    && evs != []
    && PostedBetween(c, Run(c, cfg, s, evs[..|evs| - 1]).world, Run(c, cfg, s, evs).world, j, ack,
                     TrustAnchor(cfg, s.world))
  }

  lemma RunsWithoutAnchor(c: Crypto, w: World, ack: AckReport, anchor: Option<string>)
    requires Runs(c, w, ack, anchor)
    ensures Runs(c, w, ack, None)
  {
    var call := w.calls[|w.calls| - 1];
    assert Trustworthy(c, call, anchor) ==> Trustworthy(c, call, None);
  }

  lemma RunsUnderFirstAnchor(c: Crypto, cfg: Config, s: System, evs: seq<Event>, w: World, ack: AckReport)
    requires HostAuthentic(c, s.world) && Runs(c, w, ack, TrustAnchor(cfg, Run(c, cfg, s, evs).world))
    ensures Runs(c, w, ack, TrustAnchor(cfg, s.world))
  {
    if TrustAnchor(cfg, s.world).Some? {
      AnchorNeverChanges(c, cfg, s, evs);
    } else {
      RunsWithoutAnchor(c, w, ack, TrustAnchor(cfg, Run(c, cfg, s, evs).world));
    }
  }

  lemma NewReportPosted(c: Crypto, cfg: Config, s: System, evs: seq<Event>, w: World, w': World, j: nat)
    requires HostAuthentic(c, s.world) && evs != []
    requires w == Run(c, cfg, s, evs[..|evs| - 1]).world && w' == Run(c, cfg, s, evs).world
    requires |w.acks| <= j < |w'.acks| && w'.acks[j].status.AckApplied? && Truthful(c, cfg, w'.acks[j], w, w')
    ensures PostedLast(c, cfg, s, evs, j, w'.acks[j])
  {
    RunsUnderFirstAnchor(c, cfg, s, evs[..|evs| - 1], w', w'.acks[j]);
  }

  /**
   Over any run, every `applied` report was true when it was posted: right after the event that posted it the
   host ran the very bundle it names, with the bundle on record and its signature verified under the anchor the
   run started with (if it had one).
   */
  lemma {:induction false} AppliedReportsAreTrue(c: Crypto, cfg: Config, s: System, evs: seq<Event>, j: nat)
    returns (upto: seq<Event>)
    requires HostAuthentic(c, s.world) && |s.world.acks| <= j < |Run(c, cfg, s, evs).world.acks|
    requires Run(c, cfg, s, evs).world.acks[j].status.AckApplied?
    ensures upto <= evs && PostedLast(c, cfg, s, upto, j, Run(c, cfg, s, evs).world.acks[j])
  {
    var n := |evs| - 1;
    var before, after := Run(c, cfg, s, evs[..n]), Run(c, cfg, s, evs);
    StepTells(c, cfg, before, evs[n]);
    OldOrNew(c, cfg, before.world, after.world, j);
    if j < |before.world.acks| {
      upto := AppliedReportsAreTrue(c, cfg, s, evs[..n], j);
    } else {
      upto := evs;
      NewReportPosted(c, cfg, s, evs, before.world, after.world, j);
    }
  }

  lemma {:induction false} AppliedReportBounded(c: Crypto, cfg: Config, s: System, evs: seq<Event>, j: nat)
    requires |s.world.acks| <= j < |Run(c, cfg, s, evs).world.acks|
    requires Run(c, cfg, s, evs).world.acks[j].status.AckApplied?
    ensures Run(c, cfg, s, evs).world.acks[j].generation <= DiskGeneration(Run(c, cfg, s, evs).world)
  {
    var n := |evs| - 1;
    var before, after := Run(c, cfg, s, evs[..n]), Run(c, cfg, s, evs);
    StepTells(c, cfg, before, evs[n]);
    OldOrNew(c, cfg, before.world, after.world, j);
    StepKeepsGeneration(c, cfg, before, evs[n]);
    if j < |before.world.acks| {
      AppliedReportBounded(c, cfg, s, evs[..n], j);
    }
  }

  /** Over any run, the generations of its `applied` reports never fall. */
  lemma {:induction false} AppliedReportsNeverFall(c: Crypto, cfg: Config, s: System, evs: seq<Event>, i: nat, j: nat)
    requires |s.world.acks| <= i <= j < |Run(c, cfg, s, evs).world.acks|
    requires var acks := Run(c, cfg, s, evs).world.acks; acks[i].status.AckApplied? && acks[j].status.AckApplied?
    ensures Run(c, cfg, s, evs).world.acks[i].generation <= Run(c, cfg, s, evs).world.acks[j].generation
  {
    var n := |evs| - 1;
    var before, after := Run(c, cfg, s, evs[..n]), Run(c, cfg, s, evs);
    StepTells(c, cfg, before, evs[n]);
    OldOrNew(c, cfg, before.world, after.world, i);
    OldOrNew(c, cfg, before.world, after.world, j);
    if j < |before.world.acks| {
      AppliedReportsNeverFall(c, cfg, s, evs[..n], i, j);
    } else if i < |before.world.acks| {
      AppliedReportBounded(c, cfg, s, evs[..n], i);
    }
  }
}
