/** Themes belong to stores: which installation a store has, that no step reaches another
    store's, and that a change of what a store shows moves its generation
    (modules/themes/repository.go:267-502). */
module ThemeStores {
  import opened Base
  import opened Themes
  import Catalogue

  // ---- The lookup.

  /** The installation is the store's active one. */
  ghost predicate IsActive(w: World, store: Id, i: Id) {
    i in w.installations && w.installations[i].store == store && w.installations[i].active
  }

  /** The lookup finds an active installation of this very store, fails exactly when the
      store has none, and finds the only one there is. */
  lemma LookupExact(w: World, store: Id)
    ensures var r := GetInstallationByStore(w, store);
            && (r.Ok? ==> IsActive(w, store, r.value))
            && (r.Err? <==> forall i :: !IsActive(w, store, i))
            && (r.Err? ==> r.error == NotFound)
            && (Inv(w) && r.Ok? ==> forall i :: IsActive(w, store, i) ==> i == r.value)
  {
    hide DraftsOk, ValidationsOk, PublishedOk;
    assert forall i :: i in ActiveFor(w, store) <==> IsActive(w, store, i);
  }

  // ---- Stores apart.

  /** The store's installation is not the one at i. */
  predicate Foreign(w: World, store: Id, i: Id) {
    i in w.installations ==> w.installations[i].store != store
  }

  /** Installations, configurations and generations of every other store stand still. */
  ghost predicate OnlyStore(w: World, u: World, store: Id) {
    && (forall i :: i in w.installations && Foreign(w, store, i) ==> i in u.installations && u.installations[i] == w.installations[i])
    && (forall i :: i in w.configurations && Foreign(w, store, i) ==> i in u.configurations && u.configurations[i] == w.configurations[i])
    && (forall s :: s != store ==> Catalogue.Revision(u.generations, s) == Catalogue.Revision(w.generations, s))
  }

  predicate AboutStore(w: World, s: Step, store: Id) {
    match s
    case Install(_, shop, _, _) => shop == store
    case Draft(i, _) => i in w.installations && w.installations[i].store == store
    case DiscardDraft(i) => i in w.installations && w.installations[i].store == store
    case PublishAs(v) => v.installation in w.installations && w.installations[v.installation].store == store
    case Upgrade(i, _) => i in w.installations && w.installations[i].store == store
    case _ => true
  }

  lemma BumpOnlyStore(w: World, store: Id)
    ensures var u := Bumped(w, store);
            && u.installations == w.installations && u.configurations == w.configurations
            && Catalogue.Revision(u.generations, store) == Catalogue.Revision(w.generations, store) + 1
            && forall s :: s != store ==> Catalogue.Revision(u.generations, s) == Catalogue.Revision(w.generations, s)
  {
    forall s: Id { Catalogue.BumpAdvances(w.generations, {store}, s); }
  }

  /** A step about one store leaves every other store's theme alone. */
  lemma StepsStayApart(w: World, s: Step, store: Id)
    requires AboutStore(w, s, store)
    ensures OnlyStore(w, Apply(w, s), store)
  {
    hide Bumped, Catalogue.Revision;
    match s {
      case Install(id, shop, theme, version) =>
        if version in w.versions { InstallApart(w, id, shop, theme, version, w.versions[version].defaults); }
      case PublishAs(v) => PublishApart(w, v.installation, v.revision);
      case Upgrade(i, version) => UpgradeApart(w, i, version);
      case _ =>
    }
  }

  lemma InstallApart(w: World, id: Id, store: Id, theme: Id, version: Id, defaults: Content)
    ensures OnlyStore(w, InstallAtomically(w, id, store, theme, version, defaults).0, store)
  {
    hide Bumped, Catalogue.Revision;
    forall u: World { BumpOnlyStore(u, store); }
  }

  lemma PublishApart(w: World, i: Id, expected: nat)
    requires i in w.installations
    ensures OnlyStore(w, Publish(w, i, expected).0, w.installations[i].store)
  {
    hide Bumped, Catalogue.Revision;
    forall u: World { BumpOnlyStore(u, w.installations[i].store); }
  }

  lemma UpgradeApart(w: World, i: Id, version: Id)
    requires i in w.installations
    ensures OnlyStore(w, SetVersion(w, i, version), w.installations[i].store)
  {
    hide Bumped, Catalogue.Revision;
    forall u: World { BumpOnlyStore(u, w.installations[i].store); }
  }

  // ---- What each write leaves.

  predicate Fresh(w: World, id: Id) {
    id !in w.installations && id !in w.configurations
  }

  /** A new installation is the store's active one, the only one; it starts at revision 0
      of draft and publication, both the version's defaults. */
  lemma InstallExact(w: World, id: Id, store: Id, theme: Id, version: Id, defaults: Content)
    ensures var (u, r) := InstallAtomically(w, id, store, theme, version, defaults);
            && (r.Ok? <==> store != 0 && theme != 0 && version != 0 && Fresh(w, id) && version in w.versions && w.versions[version].theme == theme)
            && (r.Err? ==> u == w)
            && (r.Ok? ==> id in u.installations && u.installations[id] == Installation(store, theme, version, true))
            && (r.Ok? ==> forall i :: IsActive(u, store, i) ==> i == id)
            && (r.Ok? ==> id in u.configurations && u.configurations[id] == Configuration(defaults, defaults, 0, 0))
  {
    hide Catalogue.Bumped;
  }

  /** An edit replaces the draft and counts one draft revision; a discard makes the draft
      what is published; a publish makes the draft published and counts one publication;
      each leaves the rest of the configuration alone. */
  lemma ConfigurationWrites(w: World, i: Id, content: Content)
    requires i in w.configurations
    ensures var c := w.configurations[i];
            && UpdateDraft(w, i, content).0.configurations == w.configurations[i := Configuration(content, c.published, c.draftRevision + 1, c.publishedRevision)]
            && Discard(w, i).0.configurations == w.configurations[i := Configuration(c.published, c.published, c.draftRevision + 1, c.publishedRevision)]
            && Publish(w, i, c.draftRevision).0.configurations == w.configurations[i := Configuration(c.draft, c.draft, c.draftRevision, c.publishedRevision + 1)]
            && UpdateDraft(w, i, content).1 == Ok(c.draftRevision + 1) && Discard(w, i).1 == Ok(c.draftRevision + 1)
            && Publish(w, i, c.draftRevision).1 == Ok(c.publishedRevision + 1)
  {
    hide Catalogue.Bumped;
  }

  /** A version of the installation's own theme takes the place of its version; any other
      leaves everything as it was. */
  lemma VersionWrites(w: World, i: Id, version: Id)
    requires i in w.installations && version in w.versions
    ensures var u := SetVersion(w, i, version);
            && (w.versions[version].theme != w.installations[i].theme ==> u == w)
            && (w.versions[version].theme == w.installations[i].theme ==>
                  u.installations == w.installations[i := w.installations[i].(version := version)] && u.configurations == w.configurations)
  {
    hide Catalogue.Bumped;
  }

  // ---- The generation follows what is shown.

  datatype Shown = Nothing | Showing(installation: Id, version: Id, content: Content)

  /** What the public storefront takes from the store's theme. */
  ghost function ShownBy(w: World, store: Id): Shown {
    var r := GetInstallationByStore(w, store);
    if r.Err? || r.value !in w.configurations then Nothing
    else Showing(r.value, w.installations[r.value].version, w.configurations[r.value].published)
  }

  /** Nothing the storefront takes from one active installation changed. */
  ghost predicate SameShown(w: World, u: World, store: Id, i: Id) {
    && (IsActive(w, store, i) <==> IsActive(u, store, i))
    && (IsActive(w, store, i) ==> u.installations[i].version == w.installations[i].version && (i in w.configurations <==> i in u.configurations))
    && (IsActive(w, store, i) && i in w.configurations ==> u.configurations[i].published == w.configurations[i].published)
  }

  lemma ShownAlike(w: World, u: World, store: Id)
    requires Inv(w) && Inv(u) && forall i: Id :: SameShown(w, u, store, i)
    ensures ShownBy(u, store) == ShownBy(w, store)
  {
    LookupExact(w, store);
    LookupExact(u, store);
    hide Inv, GetInstallationByStore, IsActive;
    if GetInstallationByStore(w, store).Ok? { assert SameShown(w, u, store, GetInstallationByStore(w, store).value); }
    if GetInstallationByStore(u, store).Ok? { assert SameShown(w, u, store, GetInstallationByStore(u, store).value); }
    ActiveInstalled(w, store);
    ActiveInstalled(u, store);
  }

  lemma ActiveInstalled(w: World, store: Id)
    ensures forall i :: IsActive(w, store, i) ==> i in w.installations
  {
  }

  ghost predicate Moves(w: World, u: World, store: Id) {
    && Catalogue.Revision(w.generations, store) <= Catalogue.Revision(u.generations, store)
    && (ShownBy(w, store) != ShownBy(u, store) ==> Catalogue.Revision(w.generations, store) < Catalogue.Revision(u.generations, store))
  }

  lemma InstallMoves(w: World, id: Id, store: Id, theme: Id, version: Id, defaults: Content, shop: Id)
    ensures var u := InstallAtomically(w, id, store, theme, version, defaults).0;
            || u == w
            || (shop == store && Catalogue.Revision(u.generations, shop) == Catalogue.Revision(w.generations, shop) + 1)
            || (shop != store && Catalogue.Revision(u.generations, shop) == Catalogue.Revision(w.generations, shop) && forall i: Id :: SameShown(w, u, shop, i))
  {
    hide Bumped, Catalogue.Revision;
    forall u: World { BumpOnlyStore(u, store); }
  }

  lemma PublishMoves(w: World, i: Id, expected: nat, shop: Id)
    ensures var u := Publish(w, i, expected).0;
            || (i in w.installations && shop == w.installations[i].store && Catalogue.Revision(u.generations, shop) == Catalogue.Revision(w.generations, shop) + 1)
            || (Catalogue.Revision(u.generations, shop) == Catalogue.Revision(w.generations, shop) && forall k: Id :: SameShown(w, u, shop, k))
  {
    hide Bumped, Catalogue.Revision;
    if i in w.installations {
      var owner := w.installations[i].store;
      forall u: World { BumpOnlyStore(u, owner); }
    }
  }

  lemma UpgradeMoves(w: World, i: Id, version: Id, shop: Id)
    ensures var u := SetVersion(w, i, version);
            || (i in w.installations && shop == w.installations[i].store && Catalogue.Revision(u.generations, shop) == Catalogue.Revision(w.generations, shop) + 1)
            || (Catalogue.Revision(u.generations, shop) == Catalogue.Revision(w.generations, shop) && forall k: Id :: SameShown(w, u, shop, k))
  {
    hide Bumped, Catalogue.Revision;
    if i in w.installations {
      var owner := w.installations[i].store;
      forall u: World { BumpOnlyStore(u, owner); }
    }
  }

  lemma PlainMoves(w: World, s: Step, shop: Id)
    requires !s.Install? && !s.PublishAs? && !s.Upgrade?
    ensures Apply(w, s).generations == w.generations && forall k: Id :: SameShown(w, Apply(w, s), shop, k)
  {
  }

  lemma StepMoves(w: World, s: Step, shop: Id)
    ensures var u := Apply(w, s);
            || u == w
            || Catalogue.Revision(u.generations, shop) == Catalogue.Revision(w.generations, shop) + 1
            || (Catalogue.Revision(u.generations, shop) == Catalogue.Revision(w.generations, shop) && forall k: Id :: SameShown(w, u, shop, k))
  {
    hide Catalogue.Revision, SameShown, InstallAtomically, Publish, SetVersion;
    match s {
      case Install(id, store, theme, version) =>
        if version in w.versions { InstallMoves(w, id, store, theme, version, w.versions[version].defaults, shop); }
      case PublishAs(v) => PublishMoves(w, v.installation, v.revision, shop);
      case Upgrade(i, version) => UpgradeMoves(w, i, version, shop);
      case _ => PlainMoves(w, s, shop);
    }
  }

  /** Whatever changes the theme a store shows, its installation, version or published
      content, moves the store's generation in the same commit; drafts do not need to. */
  lemma ShownMovesGeneration(w: World, s: Step, store: Id)
    requires Inv(w) && Enabled(w, s)
    ensures Moves(w, Apply(w, s), store)
  {
    hide Inv, Apply, Enabled, Catalogue.Revision, ShownBy, SameShown;
    StepKeepsInv(w, s);
    StepMoves(w, s, store);
    if forall i: Id :: SameShown(w, Apply(w, s), store, i) { ShownAlike(w, Apply(w, s), store); }
  }
}
