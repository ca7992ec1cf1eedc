/**
 When one key signs everything: over all runs without an operator pin, every body sent to the helper
 comes from one signer exactly if the pin file the run starts with holds text.
 */
module PinTrust {
  import opened Text
  import opened Storage
  import opened Bundle
  import opened CaSync
  import opened SyncService
  import opened SyncReach
  import opened SyncSafety
  import opened SyncOutcomes
  import opened Daemon
  import opened Scenario
  import opened ToyServer

  /** All calls from the n-th on come from bundles of one signer. */
  ghost predicate OneSigner(calls: seq<Call>, n: nat) {
    forall i, j :: n <= i < |calls| && n <= j < |calls| ==>
      SameMaterial(calls[i].bundle.signingKey, calls[j].bundle.signingKey)
  }

  /** Whatever the foreign libraries, the server, the helper, failures, crashes and restarts do. */
  ghost predicate AlwaysOneSigner(pin: File) {
    forall c: Crypto, s: System, evs: seq<Event> ::
      HostAuthentic(c, s.world) && s.world.disk.pin == pin ==>
        OneSigner(Run(c, NO_PIN, s, evs).world.calls, |s.world.calls|)
  }

  // ---- A pin file that holds text ----

  /** Every call from the n-th on comes from a bundle signed under the key's material. */
  ghost predicate SignedWith(calls: seq<Call>, n: nat, key: string) {
    |calls| <= n ||
    (SignedWith(calls[..|calls| - 1], n, key) && SameMaterial(key, calls[|calls| - 1].bundle.signingKey))
  }

  lemma {:induction false} AnchoredSigned(c: Crypto, calls: seq<Call>, n: nat, anchor: string)
    requires TrustworthyFrom(c, calls, n, Some(anchor))
    ensures SignedWith(calls, n, anchor)
  {
    if |calls| > n {
      AnchoredSigned(c, calls[..|calls| - 1], n, anchor);
    }
  }

  lemma {:induction false} SignedAt(calls: seq<Call>, n: nat, key: string, i: nat)
    requires SignedWith(calls, n, key) && n <= i < |calls|
    ensures SameMaterial(key, calls[i].bundle.signingKey)
  {
    if i < |calls| - 1 {
      SignedAt(calls[..|calls| - 1], n, key, i);
    }
  }

  lemma AnchoredOneSigner(c: Crypto, calls: seq<Call>, n: nat, anchor: string)
    requires TrustworthyFrom(c, calls, n, Some(anchor))
    ensures OneSigner(calls, n)
  {
    AnchoredSigned(c, calls, n, anchor);
    forall i, j | n <= i < |calls| && n <= j < |calls|
      ensures SameMaterial(calls[i].bundle.signingKey, calls[j].bundle.signingKey)
    {
      SignedAt(calls, n, anchor, i);
      SignedAt(calls, n, anchor, j);
    }
  }

  lemma {:induction false} SignedWithSame(calls: seq<Call>, n: nat, key: string, key': string)
    requires SignedWith(calls, n, key) && SameMaterial(key, key')
    ensures SignedWith(calls, n, key')
  {
    if |calls| > n {
      SignedWithSame(calls[..|calls| - 1], n, key, key');
    }
  }

  /**
   Trust on first use is for good: once a pass has succeeded on an offer without an operator pin and without a pin
   file, every body sent to the helper on any run from there is signed under that offer's key.
   */
  lemma FirstUseIsForever(c: Crypto, cfg: Config, s: System, e: PassEnv, o: Offer, evs: seq<Event>)
    requires HexDigests(c) && KeyLines(c) && HostAuthentic(c, s.world) && s.status.Some?
    requires cfg.operatorPin.None? && s.world.disk.pin.Absent?
    requires OfferOf(c, cfg, s.world.disk, e) == Some(o) && PassResult(c, cfg, s.world, e).Ok?
    ensures var s1 := Next(c, cfg, s, Sync(e));
            var s2 := Run(c, cfg, s1, evs);
            && s2.world.disk.pin == Holds(o.bundle.signingKey + "\n")
            && s1.world.calls <= s2.world.calls
            && SignedWith(s2.world.calls, |s1.world.calls|, o.bundle.signingKey)
  {
    var s1 := Next(c, cfg, s, Sync(e));
    FirstUsePins(c, cfg, s.world, e, o, e);
    StepKeepsHostAuthentic(c, cfg, s, Sync(e));
    AnchorNeverChanges(c, cfg, s1, evs);
    var s2, anchor := Run(c, cfg, s1, evs), TrustAnchor(cfg, s1.world).value;
    AnchoredSigned(c, s2.world.calls, |s1.world.calls|, anchor);
    SignedWithSame(s2.world.calls, |s1.world.calls|, anchor, o.bundle.signingKey);
  }

  // ---- A pin file that is not text ----

  lemma StepWithoutPin(c: Crypto, s: System, ev: Event)
    requires s.world.disk.pin.NotUtf8?
    ensures Next(c, NO_PIN, s, ev).world.disk.pin.NotUtf8? && Next(c, NO_PIN, s, ev).world.calls == s.world.calls
  {
    NextWorld(c, NO_PIN, s, ev);
  }

  /** No pass gets past loading it, and nothing replaces it. */
  lemma {:induction false} UnreadablePinStops(c: Crypto, s: System, evs: seq<Event>)
    requires s.world.disk.pin.NotUtf8?
    ensures Run(c, NO_PIN, s, evs).world.disk.pin.NotUtf8? && Run(c, NO_PIN, s, evs).world.calls == s.world.calls
  {
    if evs != [] {
      var n := |evs| - 1;
      UnreadablePinStops(c, s, evs[..n]);
      StepWithoutPin(c, Run(c, NO_PIN, s, evs[..n]), evs[n]);
    }
  }

  lemma PinnedOneSigner(c: Crypto, s: System, evs: seq<Event>)
    requires HostAuthentic(c, s.world) && !Unpinned(s.world.disk.pin)
    ensures OneSigner(Run(c, NO_PIN, s, evs).world.calls, |s.world.calls|)
  {
    if s.world.disk.pin.NotUtf8? {
      UnreadablePinStops(c, s, evs);
    } else {
      AnchorNeverChanges(c, NO_PIN, s, evs);
      AnchoredOneSigner(c, Run(c, NO_PIN, s, evs).world.calls, |s.world.calls|, TrustAnchor(NO_PIN, s.world).value);
    }
  }

  // ---- A pin file that is blank or absent ----

  /**
   From any world whose pin file is blank, two passes in which everything works take bundles of two signers,
   and the file is still blank.
   */
  lemma BlankPinTrustsAnyone(c: Crypto, w: World, b: Option<CaBundle>, key: string, o: Offer, key': string, o': Offer)
    requires w.disk.pin.Holds? && Unpinned(w.disk.pin) && OnDisk(w, key, b) && (b.Some? ==> ValidBundle(c, b.value))
    requires Signed(c, key, o) && Signed(c, key', o') && Outdated(b, o) && Outdated(Some(o.bundle), o')
    ensures var w' := PassWorld(c, NO_PIN, PassWorld(c, NO_PIN, w, Env(o.raw, Written)), Env(o'.raw, Written));
            w'.calls == w.calls + [CallOf(o)] + [CallOf(o')] && OnHost(w', o'.bundle) && w'.disk.pin == w.disk.pin
  {
    Valid(c, key, o);
    StaysBlank(c, w, key, b, o);
    StaysBlank(c, PassWorld(c, NO_PIN, w, Env(o.raw, Written)), key', Some(o.bundle), o');
  }

  lemma StaysBlank(c: Crypto, w: World, key: string, b: Option<CaBundle>, o: Offer)
    requires w.disk.pin.Holds? && Unpinned(w.disk.pin) && OnDisk(w, key, b) && (b.Some? ==> ValidBundle(c, b.value))
    requires Signed(c, key, o) && Outdated(b, o)
    ensures var w' := PassWorld(c, NO_PIN, w, Env(o.raw, Written));
            && w'.calls == w.calls + [CallOf(o)] && OnHost(w', o.bundle) && Recorded(o.bundle, w')
            && w'.disk.pin == w.disk.pin
  {
    Updates(c, key, w, b, o);
  }

  /** A process that dies right after its helper call has touched neither records nor pin. */
  lemma CutAfterCall(c: Crypto, key: string, w: World, o: Offer)
    requires Signed(c, key, o) && OnDisk(w, key, None)
    ensures var e := Env(o.raw, Written);
            && |Effects(c, NO_PIN, w, e)| >= 2
            && Fold(w, Effects(c, NO_PIN, w, e)[..2]) == Step(Step(w, WriteSync(e)), AskHelper(CallOf(o), e.helper))
  {
    var e := Env(o.raw, Written);
    Offered(c, key, w, None, o, e);
    FreshOnDisk(c, key, w, None, o);
    FreshGetsToHelper(c, NO_PIN, w, e, o);
    FreshPlan(c, NO_PIN, w, e, o);
    TwoEffects(w, e, o);
  }

  lemma TwoEffects(w: World, e: PassEnv, o: Offer)
    requires |Performed(Before(WriteSync(e), PlanApply(NO_PIN, w.disk.pin, e, CallOf(o))).effects)| >= 2
    ensures Fold(w, Performed(Before(WriteSync(e), PlanApply(NO_PIN, w.disk.pin, e, CallOf(o))).effects)[..2])
         == Step(Step(w, WriteSync(e)), AskHelper(CallOf(o), e.helper))
  {
    var p := PlanApply(NO_PIN, w.disk.pin, e, CallOf(o));
    PrefixAfterFirst(w, WriteSync(e), p, 2);
    assert Performed(p.effects)[..1] == [] + [AskHelper(CallOf(o), e.helper)];
    FoldOne(Step(w, WriteSync(e)), [], AskHelper(CallOf(o), e.helper));
  }

  lemma RunFurther(c: Crypto, s: System, evs: seq<Event>, ev: Event)
    ensures Run(c, NO_PIN, s, evs + [ev]) == Next(c, NO_PIN, Run(c, NO_PIN, s, evs), ev)
  {
    assert (evs + [ev])[..|evs + [ev]| - 1] == evs;
  }

  function Cut(o: Offer): Event {
    SyncCut(Env(o.raw, Written), 2)
  }

  lemma DiesAfterCall(c: Crypto, key: string, s: System, o: Offer)
    requires Signed(c, key, o) && OnDisk(s.world, key, None) && s.status.Some?
    ensures var e, s' := Env(o.raw, Written), Next(c, NO_PIN, s, Cut(o));
            s' == System(Step(Step(s.world, WriteSync(e)), AskHelper(CallOf(o), e.helper)), None, s.reports)
  {
    CutAfterCall(c, key, s.world, o);
  }

  lemma StartsAgain(c: Crypto, s: System)
    requires s.status.None? && s.world.disk.generation.Absent?
    ensures Next(c, NO_PIN, s, Boot(true)) == System(s.world, Some(0), s.reports)
  {
  }

  /** A process that dies after the helper call of a pass and starts again. */
  lemma CallsAndRestarts(c: Crypto, key: string, s: System, o: Offer)
    requires Signed(c, key, o) && OnDisk(s.world, key, None) && s.status.Some?
    ensures var s' := Next(c, NO_PIN, Next(c, NO_PIN, s, Cut(o)), Boot(true));
            && s'.world.calls == s.world.calls + [CallOf(o)] && s'.status.Some? && s'.world.disk.pin == s.world.disk.pin
            && s'.world.disk.generation == s.world.disk.generation
              && s'.world.disk.fingerprint == s.world.disk.fingerprint
  {
    DiesAfterCall(c, key, s, o);
    OnlyAsked(s.world, Env(o.raw, Written), o);
    StartsAgain(c, Next(c, NO_PIN, s, Cut(o)));
  }

  lemma OnlyAsked(w: World, e: PassEnv, o: Offer)
    ensures var w' := Step(Step(w, WriteSync(e)), AskHelper(CallOf(o), e.helper));
            && w'.calls == w.calls + [CallOf(o)] && w'.disk.pin == w.disk.pin
            && w'.disk.generation == w.disk.generation && w'.disk.fingerprint == w.disk.fingerprint
  {
  }

  function TwoSignersRun(o: Offer, o': Offer): seq<Event> {
    [] + [Cut(o)] + [Boot(true)] + [Cut(o')] + [Boot(true)]
  }

  lemma TwoSigners(c: Crypto, key: string, key': string, s: System, o: Offer, o': Offer)
    requires Signed(c, key, o) && Signed(c, key', o') && s.status.Some? && Unpinned(s.world.disk.pin)
    requires s.world.disk.generation.Absent? && s.world.disk.fingerprint.Absent?
    ensures Run(c, NO_PIN, s, TwoSignersRun(o, o')).world.calls == s.world.calls + [CallOf(o)] + [CallOf(o')]
  {
    RunFurther(c, s, [], Cut(o));
    RunFurther(c, s, [] + [Cut(o)], Boot(true));
    RunFurther(c, s, [] + [Cut(o)] + [Boot(true)], Cut(o'));
    RunFurther(c, s, [] + [Cut(o)] + [Boot(true)] + [Cut(o')], Boot(true));
    CallsAndRestarts(c, key, s, o);
    CallsAndRestarts(c, key', Run(c, NO_PIN, s, [] + [Cut(o)] + [Boot(true)]), o');
  }

  lemma NotOneSigner(calls: seq<Call>, o: Offer, o': Offer)
    requires calls == [] + [CallOf(o)] + [CallOf(o')] && !SameMaterial(o.bundle.signingKey, o'.bundle.signingKey)
    ensures !OneSigner(calls, 0)
  {
    assert calls[0].bundle == o.bundle && calls[1].bundle == o'.bundle;
  }

  lemma NotAlways(c: Crypto, s: System, evs: seq<Event>, o: Offer, o': Offer)
    requires HostAuthentic(c, s.world) && s.world.calls == []
    requires Run(c, NO_PIN, s, evs).world.calls == [] + [CallOf(o)] + [CallOf(o')]
    requires !SameMaterial(o.bundle.signingKey, o'.bundle.signingKey)
    ensures !AlwaysOneSigner(s.world.disk.pin)
  {
    NotOneSigner(Run(c, NO_PIN, s, evs).world.calls, o, o');
  }

  lemma UnpinnedTwoSigners(pin: File)
    requires Unpinned(pin)
    ensures !AlwaysOneSigner(pin)
  {
    var s := System(World(Disk(Absent, Absent, pin, Absent, Absent), None, [], []), Some(0), []);
    var o, o' := ToyOffer(1, 'k', Alpha), ToyOffer(1, 'k', Beta);
    ToyRun(s);
    DifferentSigners();
    NotAlways(Toy(), s, TwoSignersRun(o, o'), o, o');
  }

  lemma ToyRun(s: System)
    requires s.status.Some? && Unpinned(s.world.disk.pin)
    requires s.world.disk.generation.Absent? && s.world.disk.fingerprint.Absent?
    ensures var o, o' := ToyOffer(1, 'k', Alpha), ToyOffer(1, 'k', Beta);
            Run(Toy(), NO_PIN, s, TwoSignersRun(o, o')).world.calls == s.world.calls + [CallOf(o)] + [CallOf(o')]
  {
    ToySigned(1, 'k', Alpha);
    ToySigned(1, 'k', Beta);
    TwoSigners(Toy(), KeyOf(Alpha), KeyOf(Beta), s, ToyOffer(1, 'k', Alpha), ToyOffer(1, 'k', Beta));
  }

  /** Over all runs the bodies share one signer if and only if the pin file is neither absent nor blank. */
  lemma OneSignerIff(pin: File)
    ensures AlwaysOneSigner(pin) <==> !Unpinned(pin)
  {
    if Unpinned(pin) {
      UnpinnedTwoSigners(pin);
    } else {
      forall c: Crypto, s: System, evs: seq<Event> | HostAuthentic(c, s.world) && s.world.disk.pin == pin
        ensures OneSigner(Run(c, NO_PIN, s, evs).world.calls, |s.world.calls|)
      {
        PinnedOneSigner(c, s, evs);
      }
    }
  }
}
