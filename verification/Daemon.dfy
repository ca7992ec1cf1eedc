/**
 The daemon around the passes: start-up, passes, heartbeats, pinning at enrollment, crashes and
 restarts in any order, and what holds over every such run.
 */
module Daemon {
  import opened Text
  import opened Storage
  import opened Bundle
  import opened CaSync
  import opened SyncService
  import opened SyncReach
  import opened SyncSafety
  import opened SyncConsistency
  import opened SyncOutcomes
  import Rendering

  /**
   The world, the generation in the status of the running process (`None` while no process runs), and the
   generations that heartbeats reported, those of earlier processes included.
   */
  datatype System = System(world: World, status: Option<u64>, reports: seq<u64>)

  datatype Event =
    | Boot(readable: bool)                    // the process starts; its state files may be unreadable
    | Sync(env: PassEnv)                      // a pass runs to its end
    | SyncCut(env: PassEnv, upto: nat)        // the process dies in a pass, after `upto` effects
    | Heartbeat
    | PinAtEnrollment(key: Option<string>, readable: bool, write: WriteOutcome)
    | Stop

  function StatusAfter(g: u64, r: Result<SyncOutcome, Error>): u64 {
    match r
    case Ok(outcome) => outcome.generation
    case Err(_) => g
  }

  /** `pin_bundle_signing_key`: whether it writes, and what. */
  function PinToKeep(cfg: Config, pin: File, key: Option<string>, readable: bool): Option<string> {
    if cfg.operatorPin.Some? || key.None? || ReadText(pin, readable) != Ok(None) then None
    else Some(Trim(key.value) + "\n")
  }

  function PinWorld(cfg: Config, w: World, key: Option<string>, readable: bool, o: WriteOutcome): World {
    match PinToKeep(cfg, w.disk.pin, key, readable)
    case None => w
    case Some(text) => w.(disk := w.disk.(pin := AfterWrite(w.disk.pin, Holds(text), o)))
  }

  /** What one event does; an event the process state rules out does nothing. */
  function Next(c: Crypto, cfg: Config, s: System, ev: Event): System {
    match ev
    case Boot(readable) =>
      if s.status.Some? then s
      else (match ReadGeneration(s.world.disk.generation, readable)
            case Ok(g) => s.(status := Some(g.GetOr(0)))
            case Err(_) => s)
    case Sync(e) =>
      if s.status.None? then s
      else System(PassWorld(c, cfg, s.world, e), Some(StatusAfter(s.status.value, PassResult(c, cfg, s.world, e))),
          s.reports)
    case SyncCut(e, upto) =>
      if s.status.None? || upto > |Effects(c, cfg, s.world, e)| then s
      else System(Fold(s.world, Effects(c, cfg, s.world, e)[..upto]), None, s.reports)
    case Heartbeat => if s.status.None? then s else s.(reports := s.reports + [s.status.value])
    case PinAtEnrollment(key, readable, o) => s.(world := PinWorld(cfg, s.world, key, readable, o))
    case Stop => s.(status := None)
  }

  function Run(c: Crypto, cfg: Config, s: System, evs: seq<Event>): System {
    if evs == [] then s else Next(c, cfg, Run(c, cfg, s, evs[..|evs| - 1]), evs[|evs| - 1])
  }

  // ---- Every event that touches the world through a pass is a prefix of its effects ----

  /** How many effects of its pass an event performs, when it performs any. */
  function Reached(c: Crypto, cfg: Config, s: System, ev: Event): Option<(PassEnv, nat)> {
    match ev
    case Sync(e) => if s.status.None? then None else Some((e, |Effects(c, cfg, s.world, e)|))
    case SyncCut(e, upto) =>
      if s.status.None? || upto > |Effects(c, cfg, s.world, e)| then None else Some((e, upto))
    case _ => None
  }

  lemma NextWorld(c: Crypto, cfg: Config, s: System, ev: Event)
    ensures var s' := Next(c, cfg, s, ev);
            match Reached(c, cfg, s, ev)
            case Some(p) => p.1 <= |Effects(c, cfg, s.world, p.0)|
                            && s'.world == Fold(s.world, Effects(c, cfg, s.world, p.0)[..p.1])
            case None => s'.world == s.world || ev.PinAtEnrollment?
  {
    if ev.Sync? {
      var es := Effects(c, cfg, s.world, ev.env);
      assert es[..|es|] == es;
    }
  }

  // ---- Downgrade protection over runs ----

  /** Over any run, whatever crashes or fails, the recorded generation never falls and never overtakes the host. */
  lemma {:induction false} GenerationNeverFalls(c: Crypto, cfg: Config, s: System, evs: seq<Event>, i: nat)
    requires i <= |evs|
    ensures DiskGeneration(Run(c, cfg, s, evs[..i]).world) <= DiskGeneration(Run(c, cfg, s, evs).world)
    ensures GenerationBounded(s.world) ==> GenerationBounded(Run(c, cfg, s, evs).world)
  {
    if i == |evs| {
      assert evs[..i] == evs;
    }
    if evs != [] {
      var n := |evs| - 1;
      var before := Run(c, cfg, s, evs[..n]);
      if i < |evs| {
        GenerationNeverFalls(c, cfg, s, evs[..n], i);
        assert evs[..n][..i] == evs[..i];
      } else {
        GenerationNeverFalls(c, cfg, s, evs[..n], 0);
      }
      StepKeepsGeneration(c, cfg, before, evs[n]);
    }
  }

  lemma StepKeepsGeneration(c: Crypto, cfg: Config, s: System, ev: Event)
    ensures DiskGeneration(s.world) <= DiskGeneration(Next(c, cfg, s, ev).world)
    ensures GenerationBounded(s.world) ==> GenerationBounded(Next(c, cfg, s, ev).world)
  {
    NextWorld(c, cfg, s, ev);
    var r := Reached(c, cfg, s, ev);
    if r.Some? {
      PassKeepsGeneration(c, cfg, s.world, r.value.0, r.value.1);
    }
  }

  // ---- The pin over runs ----

  /** Keys offered for pinning at enrollment are valid key lines. */
  predicate ValidEvent(c: Crypto, ev: Event) {
    ev.PinAtEnrollment? && ev.key.Some? ==> ValidKeyLine(c, ev.key.value)
  }

  /** Absent, or readable and not blank. */
  predicate PinSane(f: File) {
    f.Absent? || (f.Holds? && Trim(f.text) != [])
  }

  /** Every call from the n-th on is trustworthy. */
  ghost predicate TrustworthyFrom(c: Crypto, calls: seq<Call>, n: nat, anchor: Option<string>) {
    |calls| <= n ||
    (TrustworthyFrom(c, calls[..|calls| - 1], n, anchor) && Trustworthy(c, calls[|calls| - 1], anchor))
  }

  /** From `w0` on the anchor and the pin file are the same, and every new call is trustworthy under it. */
  ghost predicate Anchored(c: Crypto, cfg: Config, w0: World, w: World) {
    && HostAuthentic(c, w) && TrustAnchor(cfg, w) == TrustAnchor(cfg, w0) && w.disk.pin == w0.disk.pin
    && w0.calls <= w.calls
    && TrustworthyFrom(c, w.calls, |w0.calls|, TrustAnchor(cfg, w0))
  }

  /** At most one call more, and that one trustworthy. */
  ghost predicate OneMoreCall(c: Crypto, calls: seq<Call>, calls': seq<Call>, anchor: Option<string>) {
    calls' == calls || exists call :: calls' == calls + [call] && Trustworthy(c, call, anchor)
  }

  /** One step: the same anchor and pin file, and at most one new call, trustworthy under it. */
  ghost predicate StaysAnchored(c: Crypto, cfg: Config, w: World, w': World) {
    && HostAuthentic(c, w') && TrustAnchor(cfg, w') == TrustAnchor(cfg, w) && w'.disk.pin == w.disk.pin
    && OneMoreCall(c, w.calls, w'.calls, TrustAnchor(cfg, w))
  }

  lemma StepKeepsAnchor(c: Crypto, cfg: Config, s: System, ev: Event)
    requires HostAuthentic(c, s.world) && TrustAnchor(cfg, s.world).Some?
    ensures StaysAnchored(c, cfg, s.world, Next(c, cfg, s, ev).world)
  {
    NextWorld(c, cfg, s, ev);
    var r := Reached(c, cfg, s, ev);
    if r.Some? {
      PassIsAuthentic(c, cfg, s.world, r.value.0, r.value.1);
      PassKeepsPin(c, cfg, s.world, r.value.0, r.value.1);
    }
  }

  lemma OneMoreTrustworthy(c: Crypto, calls: seq<Call>, call: Call, n: nat, anchor: Option<string>)
    requires TrustworthyFrom(c, calls, n, anchor) && Trustworthy(c, call, anchor)
    ensures TrustworthyFrom(c, calls + [call], n, anchor)
  {
    assert (calls + [call])[..|calls + [call]| - 1] == calls;
  }

  lemma AnchoredFurther(c: Crypto, cfg: Config, w0: World, w: World, w': World)
    requires Anchored(c, cfg, w0, w) && StaysAnchored(c, cfg, w, w')
    ensures Anchored(c, cfg, w0, w')
  {
    var anchor := TrustAnchor(cfg, w0);
    if w'.calls != w.calls {
      var call :| w'.calls == w.calls + [call] && Trustworthy(c, call, anchor);
      OneMoreTrustworthy(c, w.calls, call, |w0.calls|, anchor);
    }
  }

  /**
   Once there is a trust anchor (a pinned key, or the operator's), no interleaving of passes, enrollment
   pinning, crashes and restarts changes it or the pin file, and every body sent to the helper from then on
   comes from a response whose signature verified under that algorithm and blob.
   */
  lemma {:induction false} AnchorNeverChanges(c: Crypto, cfg: Config, s: System, evs: seq<Event>)
    requires HostAuthentic(c, s.world) && TrustAnchor(cfg, s.world).Some?
    ensures Anchored(c, cfg, s.world, Run(c, cfg, s, evs).world)
  {
    if evs != [] {
      var n := |evs| - 1;
      AnchorNeverChanges(c, cfg, s, evs[..n]);
      var before := Run(c, cfg, s, evs[..n]);
      StepKeepsAnchor(c, cfg, before, evs[n]);
      AnchoredFurther(c, cfg, s.world, before.world, Next(c, cfg, before, evs[n]).world);
    }
  }

  /** Over any run the host only ever runs renderings of validated bundles. */
  lemma {:induction false} HostStaysAuthentic(c: Crypto, cfg: Config, s: System, evs: seq<Event>)
    requires HostAuthentic(c, s.world)
    ensures HostAuthentic(c, Run(c, cfg, s, evs).world)
  {
    if evs != [] {
      var n := |evs| - 1;
      HostStaysAuthentic(c, cfg, s, evs[..n]);
      StepKeepsHostAuthentic(c, cfg, Run(c, cfg, s, evs[..n]), evs[n]);
    }
  }

  lemma StepKeepsHostAuthentic(c: Crypto, cfg: Config, s: System, ev: Event)
    requires HostAuthentic(c, s.world)
    ensures HostAuthentic(c, Next(c, cfg, s, ev).world)
  {
    NextWorld(c, cfg, s, ev);
    var r := Reached(c, cfg, s, ev);
    if r.Some? {
      PassIsAuthentic(c, cfg, s.world, r.value.0, r.value.1);
    }
  }

  lemma PinTextIsSane(c: Crypto, key: string, text: string)
    requires KeyLines(c) && ValidKeyLine(c, key) && (text == key || text == Trim(key))
    ensures PinSane(Holds(text + "\n"))
  {
    PinReadsBack(c, key, text);
  }

  /** A pin file that starts absent or non-blank stays so. */
  lemma {:induction false} PinStaysSane(c: Crypto, cfg: Config, s: System, evs: seq<Event>)
    requires KeyLines(c) && PinSane(s.world.disk.pin)
    requires forall i :: 0 <= i < |evs| ==> ValidEvent(c, evs[i])
    ensures PinSane(Run(c, cfg, s, evs).world.disk.pin)
  {
    if evs != [] {
      var n := |evs| - 1;
      PinStaysSane(c, cfg, s, evs[..n]);
      var before := Run(c, cfg, s, evs[..n]);
      NextWorld(c, cfg, before, evs[n]);
      var r := Reached(c, cfg, before, evs[n]);
      if r.Some? {
        PassPinSane(c, cfg, before.world, r.value.0, r.value.1);
      } else if evs[n].PinAtEnrollment? && evs[n].key.Some? {
        PinTextIsSane(c, evs[n].key.value, Trim(evs[n].key.value));
      }
    }
  }

  lemma PassPinSane(c: Crypto, cfg: Config, w: World, e: PassEnv, k: nat)
    requires KeyLines(c) && PinSane(w.disk.pin) && k <= |Effects(c, cfg, w, e)|
    ensures PinSane(Fold(w, Effects(c, cfg, w, e)[..k]).disk.pin)
  {
    PassKeepsPin(c, cfg, w, e, k);
    var offer := OfferOf(c, cfg, w.disk, e);
    if offer.Some? {
      OfferIsTrustworthy(c, cfg, w, e, offer.value);
      PinTextIsSane(c, offer.value.bundle.signingKey, offer.value.bundle.signingKey);
    }
  }

  /** From such a start the first key that reaches the pin file is the one every later body is signed with. */
  lemma FirstPinIsForever(c: Crypto, cfg: Config, s: System, evs: seq<Event>, more: seq<Event>)
    requires KeyLines(c) && HostAuthentic(c, s.world) && PinSane(s.world.disk.pin) && cfg.operatorPin.None?
    requires forall i :: 0 <= i < |evs| ==> ValidEvent(c, evs[i])
    requires !Run(c, cfg, s, evs).world.disk.pin.Absent?
    ensures var s' := Run(c, cfg, s, evs);
            TrustAnchor(cfg, s'.world).Some? && Anchored(c, cfg, s'.world, Run(c, cfg, s', more).world)
  {
    HostStaysAuthentic(c, cfg, s, evs);
    PinStaysSane(c, cfg, s, evs);
    AnchorNeverChanges(c, cfg, Run(c, cfg, s, evs), more);
  }

  /** A blank pin file is a trap: passes neither honour it nor ever replace it. */
  lemma {:induction false} BlankPinIsNeverReplaced(c: Crypto, cfg: Config, s: System, evs: seq<Event>)
    requires cfg.operatorPin.None? && s.world.disk.pin.Holds? && Trim(s.world.disk.pin.text) == []
    requires forall i :: 0 <= i < |evs| ==> !evs[i].PinAtEnrollment?
    ensures Run(c, cfg, s, evs).world.disk.pin == s.world.disk.pin
    ensures TrustAnchor(cfg, Run(c, cfg, s, evs).world) == None
  {
    if evs != [] {
      var n := |evs| - 1;
      BlankPinIsNeverReplaced(c, cfg, s, evs[..n]);
      var before := Run(c, cfg, s, evs[..n]);
      NextWorld(c, cfg, before, evs[n]);
      var r := Reached(c, cfg, before, evs[n]);
      if r.Some? {
        PassKeepsPin(c, cfg, before.world, r.value.0, r.value.1);
      }
    }
  }

  /** A missing or blank file. */
  predicate BlankFile(f: File) {
    f.Absent? || (f.Holds? && Trim(f.text) == [])
  }

  /**
   A valid key offered at enrollment becomes the trust anchor if there is no operator pin and the pin file, which must
   be readable, is missing or blank, and the write takes effect; in every other case pin file and anchor stay.
   */
  lemma PinnedAtEnrollmentIff(c: Crypto, cfg: Config, s: System, key: string, readable: bool, o: WriteOutcome)
    requires KeyLines(c) && ValidKeyLine(c, key)
    ensures var w, w' := s.world, Next(c, cfg, s, PinAtEnrollment(Some(key), readable, o)).world;
            if cfg.operatorPin.None? && readable && BlankFile(w.disk.pin) && !o.FailedBefore?
            then w'.disk.pin == Holds(Trim(key) + "\n") && TrustAnchor(cfg, w').Some?
                 && AlikeKeys(TrustAnchor(cfg, w').value, key)
            else w' == w
    ensures var w, w' := s.world, Next(c, cfg, s, PinAtEnrollment(Some(key), readable, o)).world;
            w' == w.(disk := w.disk.(pin := w'.disk.pin))
  {
    PinReadsBack(c, key, Trim(key));
  }

  // ---- What the heartbeats report ----

  predicate Nondecreasing(s: seq<u64>) {
    forall i, j :: 0 <= i < j < |s| ==> s[i] <= s[j]
  }

  /** What the next heartbeat cannot fall below: the status, or before a start the recorded generation. */
  function Floor(s: System): nat {
    if s.status.Some? then s.status.value else DiskGeneration(s.world)
  }

  /** The reports are nondecreasing, up to the status of the process if one runs, and the disk bounds both. */
  predicate StatusBounded(s: System) {
    && Floor(s) <= DiskGeneration(s.world)
    && Nondecreasing(s.reports)
    && forall i :: 0 <= i < |s.reports| ==> s.reports[i] <= Floor(s)
  }

  /** The generation file can be read as text and is missing, blank or a number. */
  predicate GenerationUsable(f: File, readable: bool) {
    readable && !f.NotUtf8? && (f.Holds? && Trim(f.text) != [] ==> IsNumber(Trim(f.text)))
  }

  /** A start succeeds if and only if the generation file is usable, and then the status is the recorded generation. */
  lemma BootReadsRecord(c: Crypto, cfg: Config, s: System, readable: bool)
    requires s.status.None?
    ensures Next(c, cfg, s, Boot(readable)) ==
            if GenerationUsable(s.world.disk.generation, readable) then s.(status := Some(DiskGeneration(s.world)))
            else s
  {
  }

  /** After every pass that succeeds, the status is the generation on disk. */
  lemma StatusIsDiskGeneration(c: Crypto, cfg: Config, s: System, e: PassEnv)
    requires s.status.Some? && PassResult(c, cfg, s.world, e).Ok?
    ensures var s' := Next(c, cfg, s, Sync(e));
            s'.status == Some(DiskGeneration(s'.world))
  {
    SuccessMeans(c, cfg, s.world, e);
    if PassResult(c, cfg, s.world, e).value.Updated? {
      GenerationRecorded(OfferOf(c, cfg, s.world.disk, e).value.bundle);
    }
  }

  /** The floor has not fallen and is bounded by the disk, and at most the old one was reported. */
  predicate Climbs(s: System, s': System) {
    && Floor(s) <= Floor(s') <= DiskGeneration(s'.world)
    && (s'.reports == s.reports || (s.status.Some? && s'.reports == s.reports + [s.status.value]))
  }

  lemma StepClimbs(c: Crypto, cfg: Config, s: System, ev: Event)
    requires Floor(s) <= DiskGeneration(s.world)
    ensures Climbs(s, Next(c, cfg, s, ev))
  {
    StepKeepsGeneration(c, cfg, s, ev);
    if ev.Sync? && s.status.Some? && PassResult(c, cfg, s.world, ev.env).Ok? {
      StatusIsDiskGeneration(c, cfg, s, ev.env);
    }
  }

  lemma StaysBounded(s: System, s': System)
    requires StatusBounded(s) && Climbs(s, s')
    ensures StatusBounded(s')
  {
  }

  /** Over any run, restarts included, the generations reported never fall and never exceed the disk's. */
  lemma {:induction false} ReportsNeverFall(c: Crypto, cfg: Config, s: System, evs: seq<Event>)
    requires StatusBounded(s)
    ensures StatusBounded(Run(c, cfg, s, evs))
  {
    if evs != [] {
      var n := |evs| - 1;
      ReportsNeverFall(c, cfg, s, evs[..n]);
      StepClimbs(c, cfg, Run(c, cfg, s, evs[..n]), evs[n]);
      StaysBounded(Run(c, cfg, s, evs[..n]), Run(c, cfg, s, evs));
    }
  }

  /** From `n` on no report is below `g`, and none will be. */
  predicate NoReportBelow(s: System, n: nat, g: nat) {
    && g <= Floor(s) <= DiskGeneration(s.world) && n <= |s.reports|
    && forall i :: n <= i < |s.reports| ==> g <= s.reports[i]
  }

  lemma StaysAbove(s: System, s': System, n: nat, g: nat)
    requires NoReportBelow(s, n, g) && Climbs(s, s')
    ensures NoReportBelow(s', n, g)
  {
  }

  lemma {:induction false} ReportsStayAbove(c: Crypto, cfg: Config, s: System, evs: seq<Event>, n: nat, g: nat)
    requires NoReportBelow(s, n, g)
    ensures NoReportBelow(Run(c, cfg, s, evs), n, g)
  {
    if evs != [] {
      var m := |evs| - 1;
      ReportsStayAbove(c, cfg, s, evs[..m], n, g);
      StepClimbs(c, cfg, Run(c, cfg, s, evs[..m]), evs[m]);
      StaysAbove(Run(c, cfg, s, evs[..m]), Run(c, cfg, s, evs), n, g);
    }
  }

  /**
   After a start, the first heartbeat reports exactly the generation then on record, and no heartbeat from then on, of
   this process or a later one, reports less than what was on record at any point of the run before the start.
   */
  lemma ReportsAfterBoot(c: Crypto, cfg: Config, s: System, evs: seq<Event>, i: nat, more: seq<Event>)
    requires i <= |evs| && Run(c, cfg, s, evs).status.None?
    requires GenerationUsable(Run(c, cfg, s, evs).world.disk.generation, true)
    ensures var s1 := Run(c, cfg, s, evs);
            var s2 := Next(c, cfg, s1, Boot(true));
            var s3 := Run(c, cfg, s2, more);
            && Next(c, cfg, s2, Heartbeat).reports == s1.reports + [DiskGeneration(s1.world)]
            && |s1.reports| <= |s3.reports|
            && forall j :: |s1.reports| <= j < |s3.reports| ==>
                 DiskGeneration(Run(c, cfg, s, evs[..i]).world) <= s3.reports[j]
  {
    var s1 := Run(c, cfg, s, evs);
    BootReadsRecord(c, cfg, s1, true);
    GenerationNeverFalls(c, cfg, s, evs, i);
    ReportsStayAbove(c, cfg, Next(c, cfg, s1, Boot(true)), more, |s1.reports|,
                     DiskGeneration(Run(c, cfg, s, evs[..i]).world));
  }

  // ---- Consistency over runs without a torn persist ----

  /** The pass of the event, if it is one, is not torn. */
  ghost predicate CleanStep(c: Crypto, cfg: Config, s: System, ev: Event) {
    var r := Reached(c, cfg, s, ev);
    r.Some? ==> NotTorn(Effects(c, cfg, s.world, r.value.0)[..r.value.1])
  }

  /** No pass of the run is torn. */
  ghost predicate Clean(c: Crypto, cfg: Config, s: System, evs: seq<Event>) {
    evs == [] ||
    (Clean(c, cfg, s, evs[..|evs| - 1]) && CleanStep(c, cfg, Run(c, cfg, s, evs[..|evs| - 1]), evs[|evs| - 1]))
  }

  lemma StepKeepsConsistent(c: Crypto, cfg: Config, s: System, ev: Event)
    requires HexDigests(c) && Consistent(c, s.world) && CleanStep(c, cfg, s, ev)
    ensures Consistent(c, Next(c, cfg, s, ev).world)
  {
    NextWorld(c, cfg, s, ev);
    var r := Reached(c, cfg, s, ev);
    if r.Some? {
      PassKeepsConsistent(c, cfg, s.world, r.value.0, r.value.1);
    }
  }

  /** Over such a run, records and host describe one authenticated bundle at every step. */
  lemma {:induction false} CleanRunsStayConsistent(c: Crypto, cfg: Config, s: System, evs: seq<Event>)
    requires HexDigests(c) && Consistent(c, s.world) && Clean(c, cfg, s, evs)
    ensures Consistent(c, Run(c, cfg, s, evs).world)
  {
    if evs != [] {
      var n := |evs| - 1;
      CleanRunsStayConsistent(c, cfg, s, evs[..n]);
      StepKeepsConsistent(c, cfg, Run(c, cfg, s, evs[..n]), evs[n]);
    }
  }

  /** So `Unchanged` is returned only when the host runs the rendering of the offered bundle. */
  lemma UnchangedInCleanRuns(c: Crypto, cfg: Config, s: System, evs: seq<Event>, e: PassEnv)
    requires HexDigests(c) && Consistent(c, s.world) && Clean(c, cfg, s, evs)
    requires var w := Run(c, cfg, s, evs).world;
             && PassResult(c, cfg, w, e).Ok? && PassResult(c, cfg, w, e).value.Unchanged?
             && (w.host.Some? && OfferOf(c, cfg, w.disk, e).Some? ==>
                   NoCollision(c, w.host.value.source, OfferOf(c, cfg, w.disk, e).value.bundle))
    ensures var w := Run(c, cfg, s, evs).world;
            && w.host.Some? && OfferOf(c, cfg, w.disk, e).Some?
            && w.host.value.body == Rendering.Render(OfferOf(c, cfg, w.disk, e).value.bundle)
  {
    CleanRunsStayConsistent(c, cfg, s, evs);
    UnchangedIsTruthful(c, cfg, Run(c, cfg, s, evs).world, e);
  }

  // ---- Healing over runs ----

  /** If the host takes a body in the event, it is that of the bundle. */
  ghost predicate TakesOnly(c: Crypto, cfg: Config, s: System, ev: Event, b: CaBundle) {
    var r := Reached(c, cfg, s, ev);
    r.Some? && HostTook(Effects(c, cfg, s.world, r.value.0)[..r.value.1]) ==>
      var offer := OfferOf(c, cfg, s.world.disk, r.value.0);
      offer.Some? && SameContent(b, offer.value.bundle)
  }

  /** Passes that fail, passes that offer the bundle again, heartbeats, crashes and restarts; no other body is taken. */
  ghost predicate NoOtherTaken(c: Crypto, cfg: Config, s: System, evs: seq<Event>, b: CaBundle) {
    evs == [] ||
    (&& NoOtherTaken(c, cfg, s, evs[..|evs| - 1], b)
     && TakesOnly(c, cfg, Run(c, cfg, s, evs[..|evs| - 1]), evs[|evs| - 1], b))
  }

  predicate HostRuns(w: World, b: CaBundle) {
    w.host.Some? && w.host.value.body == Rendering.Render(b)
  }

  lemma StepKeepsBody(c: Crypto, cfg: Config, s: System, ev: Event, b: CaBundle)
    requires HostRuns(s.world, b) && TakesOnly(c, cfg, s, ev, b)
    ensures HostRuns(Next(c, cfg, s, ev).world, b)
  {
    NextWorld(c, cfg, s, ev);
    var r := Reached(c, cfg, s, ev);
    if r.Some? {
      if HostTook(Effects(c, cfg, s.world, r.value.0)[..r.value.1]) {
        TookMeansTaken(c, cfg, s.world, r.value.0, r.value.1);
      } else {
        NothingTaken(c, cfg, s.world, r.value.0, r.value.1);
      }
    }
  }

  lemma {:induction false} HostKeepsBody(c: Crypto, cfg: Config, s: System, evs: seq<Event>, b: CaBundle)
    requires HostRuns(s.world, b) && NoOtherTaken(c, cfg, s, evs, b)
    ensures HostRuns(Run(c, cfg, s, evs).world, b)
  {
    if evs != [] {
      var n := |evs| - 1;
      HostKeepsBody(c, cfg, s, evs[..n], b);
      StepKeepsBody(c, cfg, Run(c, cfg, s, evs[..n]), evs[n], b);
    }
  }

  /**
   A host that took a bundle whose records were torn, in any way, is healed by the first pass that validates
   the bundle and succeeds, however many failed passes, repeated tears, heartbeats, crashes and restarts come
   in between.
   */
  lemma TornPersistHealsLater(c: Crypto, cfg: Config, s: System, evs: seq<Event>, b: CaBundle, e: PassEnv)
    requires HexDigests(c) && HostRuns(s.world, b) && NoOtherTaken(c, cfg, s, evs, b)
    requires var w := Run(c, cfg, s, evs).world;
             && OfferOf(c, cfg, w.disk, e).Some? && SameContent(b, OfferOf(c, cfg, w.disk, e).value.bundle)
             && PassResult(c, cfg, w, e).Ok? && !PassResult(c, cfg, w, e).value.NotModified?
    ensures Agrees(PassWorld(c, cfg, Run(c, cfg, s, evs).world, e), b)
  {
    var w := Run(c, cfg, s, evs).world;
    HostKeepsBody(c, cfg, s, evs, b);
    SelfHeals(c, cfg, w, e, OfferOf(c, cfg, w.disk, e).value);
  }

  // ---- The running process ----

  /** The process: its service, and the status its heartbeats report from. */
  class Process {
    const service: CaSyncService
    var currentGeneration: u64
    ghost var reports: seq<u64> // what this process and earlier ones reported

    ghost predicate Valid()
      reads this, service
    {
      service.Valid()
    }

    ghost function State(): System
      reads this, service
    {
      System(service.Snapshot(), Some(currentGeneration), reports)
    }

    constructor (service: CaSyncService, currentGeneration: u64, ghost reports: seq<u64>)
      requires service.Valid()
      ensures Valid() && this.service == service
      ensures State() == System(service.Snapshot(), Some(currentGeneration), reports)
    {
      this.service, this.currentGeneration, this.reports := service, currentGeneration, reports;
    }

    /** The start of `run`: the generation is recovered from disk, and without it no process runs. */
    static method Start(service: CaSyncService, readable: bool, c: Crypto, cfg: Config, ghost reports: seq<u64>)
      returns (r: Result<Process, Error>)
      requires service.Valid()
      ensures var s := System(service.Snapshot(), None, reports);
              && (r.Ok? <==> GenerationUsable(service.disk.generation, readable))
              && (r.Ok? ==> r.value.service == service && r.value.Valid()
                            && r.value.State() == Next(c, cfg, s, Boot(readable)))
    {
      var g := ReadGeneration(service.disk.generation, readable);
      match g {
        case Err(x) => return Err(x);
        case Ok(recorded) =>
          var p := new Process(service, recorded.GetOr(0), reports);
          return Ok(p);
      }
    }

    /** `record_sync`: a pass, and its generation as the new status if it succeeded. */
    method RecordSync(c: Crypto, cfg: Config, e: PassEnv) returns (r: Result<SyncOutcome, Error>)
      requires Valid()
      modifies this, service
      ensures Valid() && r == PassResult(c, cfg, old(State()).world, e)
      ensures State() == Next(c, cfg, old(State()), Sync(e))
    {
      r := service.Synchronize(c, cfg, e);
      match r {
        case Ok(outcome) => currentGeneration := outcome.generation;
        case Err(_) =>
      }
    }

    /** `record_heartbeat`: the status generation is what is reported, delivered or not. */
    method RecordHeartbeat(c: Crypto, cfg: Config)
      requires Valid()
      modifies this
      ensures Valid() && State() == Next(c, cfg, old(State()), Heartbeat)
    {
      reports := reports + [currentGeneration];
    }
  }
}
