/** The theme service as a client of several statements, with other clients in between
    (modules/themes/service.go:159-375). */
module ThemeClients {
  import opened Base
  import opened Themes
  import opened ThemeUpgrades
  import opened ThemeStores

  class Service {
    var world: World

    constructor (w: World)
      requires Inv(w)
      ensures world == w && Inv(world)
    {
      world := w;
    }

    method Commit(s: Step)
      requires Inv(world) && Enabled(world, s)
      modifies this
      ensures world == Apply(old(world), s) && Inv(world) && Later(old(world), world)
    {
      StepKeepsInv(world, s);
      world := Apply(world, s);
    }

    /** Any steps of other clients. */
    method Others()
      requires Inv(world)
      modifies this
      ensures Inv(world) && Later(old(world), world)
    {
      hide Inv, Later, Apply;
      Unchanged(world);
      var n: int :| 0 <= n;
      while n > 0
        invariant Inv(world) && Later(old(world), world)
        decreases n
      {
        ghost var mid := world;
        var s: Step := *;
        if Enabled(world, s) {
          Commit(s);
          LaterTwice(old(world), mid, world);
        }
        n := n - 1;
      }
    }

    /** The installation the store shows now. */
    method Active(store: Id) returns (r: Result<Id>)
      ensures r == GetInstallationByStore(world, store)
      ensures r.Ok? ==> IsActive(world, store, r.value)
      ensures r.Err? <==> forall i :: !IsActive(world, store, i)
    {
      LookupExact(world, store);
      r := GetInstallationByStore(world, store);
    }

    /** Read the draft, validate it against the version read before, publish what was
        validated if the draft has not moved. */
    method PublishConfiguration(store: Id) returns (r: Result<nat>, ghost v: Validation, ghost before: World)
      requires Inv(world)
      modifies this
      ensures Inv(world) && Later(old(world), world)
      ensures r.Ok? ==>
        && v in world.validated && Honest(world, v) && v.installation in world.configurations
        && world.configurations[v.installation] == Configuration(v.content, v.content, v.revision, r.value)
      ensures r.Ok? ==> OfStore(world, v.installation, store) && Later(old(world), before) && OnlyStore(before, world, store)
      ensures r.Ok? && world.installations[v.installation].version == v.version ==> Fits(world, v.installation)
    {
      hide Inv, Later, Apply, OnlyStore;
      Unchanged(world);
      v, before := Validation(0, 0, 0, 0), world;
      var found := Active(store);
      if found.Err? { return Err(found.error), v, before; }
      var i := found.value;
      var version := world.installations[i].version;
      ghost var w0 := world;
      Others();
      if version !in world.versions { return Err(NotFound), v, before; }
      ghost var w1 := world;
      Others();
      LaterTwice(w0, w1, world);
      if i !in world.configurations { return Err(NotFound), v, before; }
      var c := world.configurations[i];
      var check := Validation(i, c.draftRevision, c.draft, version);
      if !Honest(world, check) { return Err(InvalidInput), v, before; }
      v := check;
      ghost var w2 := world;
      Commit(Record(check));
      LaterTwice(w0, w2, world);
      Recorded(w2, check);
      ghost var w3 := world;
      Others();
      LaterTwice(w0, w3, world);
      StillRecorded(w3, world, check);
      r := Publish(world, i, c.draftRevision).1;
      ghost var w4 := world;
      Commit(PublishAs(check));
      LaterTwice(w0, w4, world);
      before := w4;
      StoreStays(w0, w4, i);
      StepsStayApart(w4, PublishAs(check), store);
      StoreStays(w0, world, i);
      if r.Ok? { PublishedNow(w4, check); }
    }

    /** Validated against the version read first, written unconditionally. */
    method UpdateDraftConfiguration(store: Id, content: Content) returns (r: Result<nat>, ghost i: Id, ghost before: World)
      requires Inv(world)
      modifies this
      ensures Inv(world) && Later(old(world), world)
      ensures r.Ok? ==> i in world.configurations && content in world.safe
      ensures r.Ok? ==> world.configurations[i].draft == content && world.configurations[i].draftRevision == r.value
      ensures r.Ok? ==> OfStore(world, i, store) && Later(old(world), before) && OnlyStore(before, world, store)
    {
      hide Inv, Later, OnlyStore;
      Unchanged(world);
      i, before := 0, world;
      var found := Active(store);
      if found.Err? { return Err(found.error), i, before; }
      i := found.value;
      var version := world.installations[found.value].version;
      ghost var w0 := world;
      Others();
      if version !in world.versions { return Err(NotFound), i, before; }
      if !Passes(world, content, version) { return Err(InvalidInput), i, before; }
      ghost var w1 := world;
      Others();
      LaterTwice(w0, w1, world);
      SafeStays(w1, world);
      r := UpdateDraft(world, found.value, content).1;
      ghost var w2 := world;
      Commit(Draft(found.value, content));
      LaterTwice(w0, w2, world);
      before := w2;
      StoreStays(w0, w2, i);
      StepsStayApart(w2, Draft(found.value, content), store);
      StoreStays(w0, world, i);
    }

    /** The draft becomes what is published when the statement runs. */
    method DiscardDraft(store: Id) returns (r: Result<nat>, ghost i: Id, ghost before: World)
      requires Inv(world)
      modifies this
      ensures Inv(world) && Later(old(world), world)
      ensures r.Ok? ==> i in world.configurations && world.configurations[i].draftRevision == r.value
      ensures r.Ok? ==> world.configurations[i].draft == world.configurations[i].published
      ensures r.Ok? ==> OfStore(world, i, store) && Later(old(world), before) && OnlyStore(before, world, store)
    {
      hide Inv, Later, OnlyStore;
      Unchanged(world);
      i, before := 0, world;
      var found := Active(store);
      if found.Err? { return Err(found.error), i, before; }
      i := found.value;
      ghost var w0 := world;
      Others();
      r := Discard(world, found.value).1;
      ghost var w1 := world;
      Commit(Step.DiscardDraft(found.value));
      LaterTwice(w0, w1, world);
      before := w1;
      StoreStays(w0, w1, i);
      StepsStayApart(w1, Step.DiscardDraft(found.value), store);
      StoreStays(w0, world, i);
    }

    /** Points the installation at a published version its draft was found valid for. */
    method UpgradeInstallation(store: Id, target: Id) returns (r: Result<bool>, ghost v: Validation, ghost before: World)
      requires Inv(world)
      modifies this
      ensures Inv(world) && Later(old(world), world)
      ensures r.Ok? ==> Honest(world, v) && v.version == target
      ensures r.Ok? ==> v.installation in world.installations && world.installations[v.installation].version == target
      ensures r.Ok? && v.installation in world.configurations && world.configurations[v.installation].published == v.content ==>
        Fits(world, v.installation)
      ensures r.Ok? ==> OfStore(world, v.installation, store) && Later(old(world), before) && OnlyStore(before, world, store)
    {
      hide Inv, Later, Apply, OnlyStore;
      Unchanged(world);
      v, before := Validation(0, 0, 0, 0), world;
      var found := Active(store);
      if found.Err? { return Err(found.error), v, before; }
      var i := found.value;
      var installed := world.installations[i];
      ghost var w0 := world;
      Others();
      if target !in world.versions || world.versions[target].theme != installed.theme { return Err(NotFound), v, before; }
      if world.versions[target].status != VersionPublished { return Err(InvalidInput), v, before; }
      if target == installed.version { return Err(Conflict), v, before; }
      ghost var w1 := world;
      Others();
      LaterTwice(w0, w1, world);
      if i !in world.configurations { return Err(NotFound), v, before; }
      var c := world.configurations[i];
      var check := Validation(i, c.draftRevision, c.draft, target);
      if !Honest(world, check) { return Err(InvalidInput), v, before; }
      v := check;
      ghost var w2 := world;
      Others();
      LaterTwice(w0, w2, world);
      LaterTwice(w1, w2, world);
      HonestStays(w2, world, check);
      Upgradable(w0, world, i, target, w1);
      ghost var w3 := world;
      Commit(Upgrade(i, target));
      LaterTwice(w0, w3, world);
      Upgraded(w3, i, target);
      HonestStays(w3, world, check);
      assert Passes(world, check.content, target);
      before := w3;
      StoreStays(w0, w3, i);
      StepsStayApart(w3, Upgrade(i, target), store);
      StoreStays(w0, world, i);
      r := Ok(true);
    }

    /** A token for the draft the store holds when its configuration is read. */
    method CreatePreviewToken(store: Id, now: Time, lifetime: nat) returns (r: Result<Claims>, ghost shown: Content)
      requires Inv(world)
      modifies this
      ensures Inv(world) && Later(old(world), world)
      ensures r.Ok? ==> r.value.store == store && r.value.expires == now + lifetime
      ensures r.Ok? ==> Held(world, r.value.installation, r.value.revision, shown)
      ensures r.Ok? ==> OfStore(world, r.value.installation, store) && IsActive(old(world), store, r.value.installation)
      ensures r.Err? ==> r.error == NotFound
    {
      hide Inv, Later, Apply;
      Unchanged(world);
      shown := 0;
      var found := Active(store);
      if found.Err? { return Err(found.error), shown; }
      ghost var w0 := world;
      Others();
      if found.value !in world.configurations { return Err(NotFound), shown; }
      var c := world.configurations[found.value];
      shown := c.draft;
      CurrentDraft(world, found.value);
      StoreStays(w0, world, found.value);
      r := Ok(Claims(store, found.value, c.draftRevision, now + lifetime));
    }

    /** Four reads with other clients in between. What is shown is the draft the token was
        issued for, although by the last read the store may have moved on. */
    method ResolveStorefrontPreview(token: Claims, host: Id, now: Time) returns (r: Result<Content>, ghost version: Id)
      requires Inv(world)
      modifies this
      ensures Inv(world) && Later(old(world), world)
      ensures r.Ok? ==> host != 0 && host == token.store && now <= token.expires
      ensures r.Ok? ==> OfStore(world, token.installation, host) && IsActive(old(world), host, token.installation)
      ensures r.Ok? ==> Held(world, token.installation, token.revision, r.value) && Passes(world, r.value, version)
      ensures r.Ok? ==> forall d :: Held(old(world), token.installation, token.revision, d) ==> r.value == d
    {
      hide Inv, Later, Apply;
      Unchanged(world);
      version := 0;
      if host == 0 || now > token.expires || token.store != host { return Err(NotFound), version; }
      var found := Active(host);
      if found.Err? || found.value != token.installation { return Err(NotFound), version; }
      var installed := world.installations[found.value];
      version := installed.version;
      ghost var w0 := world;
      Others();
      if found.value !in world.configurations { return Err(NotFound), version; }
      var c := world.configurations[found.value];
      if c.draftRevision != token.revision { return Err(NotFound), version; }
      CurrentDraft(world, found.value);
      ghost var w1 := world;
      Others();
      LaterTwice(w0, w1, world);
      HeldStays(w1, world, token.installation, token.revision, c.draft);
      if installed.theme !in world.themes || !ThemeRenderable(world.themes[installed.theme]) { return Err(NotFound), version; }
      ghost var w2 := world;
      Others();
      LaterTwice(w0, w2, world);
      HeldStays(w2, world, token.installation, token.revision, c.draft);
      forall d | Held(w0, token.installation, token.revision, d) ensures d == c.draft {
        HeldStays(w0, world, token.installation, token.revision, d);
      }
      if installed.version !in world.versions || !VersionRenderable(world.versions[installed.version]) { return Err(NotFound), version; }
      if !Passes(world, c.draft, installed.version) { return Err(InvalidInput), version; }
      StoreStays(w0, world, found.value);
      r := Ok(c.draft);
    }
  }

  /** The installation belongs to the store. */
  ghost predicate OfStore(w: World, i: Id, store: Id) {
    i in w.installations && w.installations[i].store == store
  }

  lemma StoreStays(w: World, u: World, i: Id)
    requires Later(w, u) && i in w.installations
    ensures OfStore(u, i, w.installations[i].store)
  {
  }

  /** The draft of the installation at that revision was d. */
  ghost predicate Held(w: World, i: Id, revision: nat, d: Content) {
    (i, revision) in w.drafts && w.drafts[(i, revision)] == d
  }

  lemma CurrentDraft(w: World, i: Id)
    requires i in w.configurations && Inv(w)
    ensures Held(w, i, w.configurations[i].draftRevision, w.configurations[i].draft)
  {
  }

  lemma HeldStays(w: World, u: World, i: Id, revision: nat, d: Content)
    requires Later(w, u) && Held(w, i, revision, d)
    ensures Held(u, i, revision, d)
  {
  }

  lemma Unchanged(w: World)
    ensures Later(w, w)
  {
  }

  lemma HonestStays(w: World, u: World, v: Validation)
    requires Honest(w, v) && Later(w, u)
    ensures Honest(u, v)
  {
  }

  /** An installation and a version of its theme found earlier still fit. */
  lemma Upgradable(w: World, u: World, i: Id, target: Id, w1: World)
    requires Later(w, u) && Later(w1, u) && i in w.installations && target in w1.versions
    requires w1.versions[target].theme == w.installations[i].theme
    ensures i in u.installations && target in u.versions && u.versions[target].theme == u.installations[i].theme
  {
  }

  lemma Upgraded(w: World, i: Id, target: Id)
    requires i in w.installations && target in w.versions && w.versions[target].theme == w.installations[i].theme
    ensures var u := Apply(w, Upgrade(i, target));
            i in u.installations && u.installations[i] == w.installations[i].(version := target)
  {
  }

  lemma SafeStays(w: World, u: World)
    requires Later(w, u)
    ensures u.safe == w.safe
  {
  }

  lemma Recorded(w: World, v: Validation)
    ensures v in Apply(w, Record(v)).validated
  {
  }

  lemma StillRecorded(w: World, u: World, v: Validation)
    requires v in w.validated && Later(w, u)
    ensures v in u.validated
  {
  }

  /** The state right after the publish that committed. */
  lemma PublishedNow(w: World, v: Validation)
    requires v in w.validated && Publish(w, v.installation, v.revision).1.Ok?
    requires Inv(w)
    ensures var u := Apply(w, PublishAs(v));
            && v in u.validated && Honest(u, v) && v.installation in u.configurations
            && u.configurations[v.installation] ==
               Configuration(v.content, v.content, v.revision, Publish(w, v.installation, v.revision).1.value)
  {
    hide PublishedOk, ActiveOk;
    assert Honest(w, v);
    PublishLater(w, v.installation, v.revision);
    HonestStays(w, Apply(w, PublishAs(v)), v);
  }
}
