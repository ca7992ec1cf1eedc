/**
 What a torn persist makes possible: with the generation write after an `Applied` reply lost, a later
 pass can report `Unchanged` for a bundle the host no longer runs, and can take the host back to an
 older bundle. Both are shown by runs from an empty state.
 */
module TornPersist {
  import opened Text
  import opened Storage
  import opened Bundle
  import opened CaSync
  import opened SyncReach
  import opened SyncSafety
  import opened Scenario
  import opened ToyServer
  import Rendering

  /** From nothing: apply `o`, then apply `p` but lose its generation write. */
  function AfterTorn(c: Crypto, o: Offer, p: Offer): World {
    PassWorld(c, NO_PIN, PassWorld(c, NO_PIN, EMPTY, Env(o.raw, Written)), Env(p.raw, FailedBefore))
  }

  lemma TornState(c: Crypto, key: string, o: Offer, p: Offer)
    requires Signed(c, key, o) && Signed(c, key, p) && o.bundle.generation < p.bundle.generation
    ensures OnDisk(AfterTorn(c, o, p), key, Some(o.bundle)) && OnHost(AfterTorn(c, o, p), p.bundle)
  {
    Valid(c, key, o);
    Updates(c, key, EMPTY, None, o);
    Tears(c, key, PassWorld(c, NO_PIN, EMPTY, Env(o.raw, Written)), o.bundle, p);
  }

  /** Offering the first bundle again is answered `Unchanged` although the host runs the second. */
  lemma UnchangedCanMislead(c: Crypto, key: string, o: Offer, p: Offer)
    requires Signed(c, key, o) && Signed(c, key, p) && o.bundle.generation < p.bundle.generation
    ensures var w := AfterTorn(c, o, p);
            && PassResult(c, NO_PIN, w, Env(o.raw, Written)) == Ok(Unchanged(o.bundle.generation))
            && OfferOf(c, NO_PIN, w.disk, Env(o.raw, Written)) == Some(o)
            && w.host.Some? && w.host.value.body != Rendering.Render(o.bundle)
  {
    TornState(c, key, o, p);
    SaysUnchanged(c, key, AfterTorn(c, o, p), o);
    if Rendering.Render(p.bundle) == Rendering.Render(o.bundle) {
      Valid(c, key, o);
      Valid(c, key, p);
      Rendering.RenderDetermines(c, p.bundle, o.bundle);
    }
  }

  /** Offering a bundle between the two takes the host back to it. */
  lemma HostCanRegress(c: Crypto, key: string, o: Offer, q: Offer, p: Offer)
    requires Signed(c, key, o) && Signed(c, key, q) && Signed(c, key, p)
    requires o.bundle.generation < q.bundle.generation < p.bundle.generation
    ensures var w := AfterTorn(c, o, p);
            OnHost(w, p.bundle) && OnHost(PassWorld(c, NO_PIN, w, Env(q.raw, Written)), q.bundle)
  {
    TornState(c, key, o, p);
    Valid(c, key, o);
    Updates(c, key, AfterTorn(c, o, p), Some(o.bundle), q);
  }

  /** Both happen: with generations 1, 2 and 3 of the toy server. */
  lemma TornPersistHappens()
    ensures var o, q, p := ToyOffer(1, 'k', Alpha), ToyOffer(2, 'k', Alpha), ToyOffer(3, 'k', Alpha);
            var w := AfterTorn(Toy(), o, p);
            && PassResult(Toy(), NO_PIN, w, Env(o.raw, Written)) == Ok(Unchanged(1))
            && w.host.Some? && w.host.value.body != Rendering.Render(o.bundle)
            && OnHost(w, p.bundle) && OnHost(PassWorld(Toy(), NO_PIN, w, Env(q.raw, Written)), q.bundle)
  {
    ToySigned(1, 'k', Alpha);
    ToySigned(2, 'k', Alpha);
    ToySigned(3, 'k', Alpha);
    UnchangedCanMislead(Toy(), KeyOf(Alpha), ToyOffer(1, 'k', Alpha), ToyOffer(3, 'k', Alpha));
    HostCanRegress(Toy(), KeyOf(Alpha), ToyOffer(1, 'k', Alpha), ToyOffer(2, 'k', Alpha), ToyOffer(3, 'k', Alpha));
  }
}
