/** Theme installations, drafts, publication and previews under any interleaving
    (modules/themes/repository.go, modules/themes/service.go, modules/themes/preview.go). */
module Themes {
  import opened Base
  import Catalogue

  /** A configuration document, up to equality. */
  type Content = nat

  datatype ThemeStatus = ThemeDraft | ThemeActive | ThemeDeprecated | ThemeDisabled
  datatype VersionStatus = VersionDraft | VersionPublished | VersionDeprecated

  datatype Theme = Theme(key: string, status: ThemeStatus)

  /** accepts are the documents that pass ValidateConfiguration against the schema. */
  datatype Version = Version(theme: Id, name: string, status: VersionStatus, accepts: set<Content>, defaults: Content)

  datatype Installation = Installation(store: Id, theme: Id, version: Id, active: bool)

  datatype Configuration = Configuration(draft: Content, published: Content, draftRevision: nat, publishedRevision: nat)

  /** A client read this draft at this revision and found it valid against the version. */
  datatype Validation = Validation(installation: Id, revision: nat, content: Content, version: Id)

  /** safe are the documents RejectUnsafeContent lets through. The last three fields are
      history: every draft ever held, every validation ever made, every seed. */
  datatype World = World(
    themes: map<Id, Theme>, versions: map<Id, Version>,
    installations: map<Id, Installation>, configurations: map<Id, Configuration>,
    generations: map<Id, nat>, safe: set<Content>,
    drafts: map<(Id, nat), Content>, validated: set<Validation>, seeds: map<Id, Content>)

  // ---- Repository transactions.

  function ActiveFor(w: World, store: Id): set<Id> {
    set i | i in w.installations && w.installations[i].store == store && w.installations[i].active
  }

  function GetInstallationByStore(w: World, store: Id): Result<Id> {
    var found := ActiveFor(w, store);
    if found == {} then Err(NotFound) else Ok(Least(found))
  }

  function Bumped(w: World, store: Id): World {
    w.(generations := Catalogue.Bumped(w.generations, {store}))
  }

  function Deactivated(installations: map<Id, Installation>, store: Id): map<Id, Installation> {
    map i | i in installations ::
      if installations[i].store == store then installations[i].(active := false) else installations[i]
  }

  /** Deactivate, insert and seed in one transaction. */
  function InstallAtomically(w: World, id: Id, store: Id, theme: Id, version: Id, defaults: Content): (World,
      Result<Id>) {
    if store == 0 || theme == 0 || version == 0 then (w, Err(InvalidInput))
    else if id in w.installations || id in w.configurations then (w, Err(Conflict))
    else if version !in w.versions || w.versions[version].theme != theme then (w, Err(InvalidInput))
    else
      (Bumped(w.(installations := Deactivated(w.installations, store)[id := Installation(store, theme, version, true)],
                 configurations := w.configurations[id := Configuration(defaults, defaults, 0, 0)],
                 drafts := w.drafts[(id, 0) := defaults],
                 seeds := w.seeds[id := defaults]), store), Ok(id))
  }

  /** Every write of a draft takes the next revision. */
  function WithDraft(w: World, i: Id, content: Content): World
    requires i in w.configurations
  {
    var c := w.configurations[i];
    w.(configurations := w.configurations[i := c.(draft := content, draftRevision := c.draftRevision + 1)],
       drafts := w.drafts[(i, c.draftRevision + 1) := content])
  }

  function UpdateDraft(w: World, i: Id, content: Content): (World, Result<nat>) {
    if i !in w.configurations then (w, Err(NotFound))
    else (WithDraft(w, i, content), Ok(w.configurations[i].draftRevision + 1))
  }

  function Discard(w: World, i: Id): (World, Result<nat>) {
    if i !in w.configurations then (w, Err(NotFound))
    else (WithDraft(w, i, w.configurations[i].published), Ok(w.configurations[i].draftRevision + 1))
  }

  function Publish(w: World, i: Id, expected: nat): (World, Result<nat>) {
    if i !in w.configurations then (w, Err(NotFound))
    else if w.configurations[i].draftRevision != expected then (w, Err(Conflict))
    else
      var c := w.configurations[i];
      var w' := w.(configurations := w.configurations[i := c.(published := c.draft, publishedRevision := c.publishedRevision + 1)]);
      (if i in w.installations then Bumped(w', w.installations[i].store) else w', Ok(c.publishedRevision + 1))
  }

  function SetVersion(w: World, i: Id, version: Id): World {
    if i in w.installations && version in w.versions && w.versions[version].theme == w.installations[i].theme then
      Bumped(w.(installations := w.installations[i := w.installations[i].(version := version)]), w.installations[i].store)
    else w
  }

  // ---- Steps of any number of clients.

  /** Record is a client finishing the validation of a draft it read at some revision,
      against a version it read at some moment. PublishAs is its later publish. */
  datatype Step =
    | Install(id: Id, store: Id, theme: Id, version: Id)
    | Draft(installation: Id, content: Content)
    | DiscardDraft(installation: Id)
    | Record(validation: Validation)
    | PublishAs(validation: Validation)
    | Upgrade(installation: Id, version: Id)
    | AddVersion(id: Id, added: Version)
    | MarkVersion(id: Id, status: VersionStatus)
    | MarkTheme(id: Id, marked: Theme)

  predicate Passes(w: World, content: Content, version: Id) {
    version in w.versions && content in w.versions[version].accepts && content in w.safe
  }

  /** A validation is of a draft that was really held, and really passed. */
  predicate Honest(w: World, v: Validation) {
    && (v.installation, v.revision) in w.drafts && w.drafts[(v.installation, v.revision)] == v.content
    && Passes(w, v.content, v.version)
  }

  predicate Enabled(w: World, s: Step) {
    match s
    case Record(v) => Honest(w, v)
    case PublishAs(v) => v in w.validated
    case _ => true
  }

  function Apply(w: World, s: Step): World {
    match s
    case Install(id, store, theme, version) =>
      if version in w.versions then InstallAtomically(w, id, store, theme, version, w.versions[version].defaults).0 else w
    case Draft(i, content) => UpdateDraft(w, i, content).0
    case DiscardDraft(i) => Discard(w, i).0
    case Record(v) => w.(validated := w.validated + {v})
    case PublishAs(v) => Publish(w, v.installation, v.revision).0
    case Upgrade(i, version) => SetVersion(w, i, version)
    case AddVersion(id, added) => if id in w.versions then w else w.(versions := w.versions[id := added])
    case MarkVersion(id, status) => if id in w.versions then w.(versions := w.versions[id := w.versions[id].(status := status)]) else w
    case MarkTheme(id, marked) => w.(themes := w.themes[id := marked])
  }

  // ---- What always holds.

  ghost predicate DraftsOk(configurations: map<Id, Configuration>, drafts: map<(Id, nat), Content>) {
    && (forall i :: i in configurations ==>
          (i, configurations[i].draftRevision) in drafts && drafts[(i, configurations[i].draftRevision)] == configurations[i].draft)
    && (forall k :: k in drafts ==> k.0 in configurations && k.1 <= configurations[k.0].draftRevision)
  }

  ghost predicate ValidationsOk(w: World) {
    forall v :: v in w.validated ==> Honest(w, v)
  }

  /** Published content is the seed of the installation or a draft that passed validation. */
  ghost predicate Provenance(w: World, i: Id)
    requires i in w.configurations
  {
    || (i in w.seeds && w.configurations[i].published == w.seeds[i])
    || (exists v :: v in w.validated && v.installation == i && v.content == w.configurations[i].published)
  }

  ghost predicate PublishedOk(w: World) {
    forall i :: i in w.configurations ==> Provenance(w, i)
  }

  /** One active installation per store. */
  ghost predicate ActiveOk(installations: map<Id, Installation>) {
    forall a, b :: a in installations && b in installations && a != b && installations[a].active && installations[b].active ==>
      installations[a].store != installations[b].store
  }

  ghost predicate Inv(w: World) {
    && DraftsOk(w.configurations, w.drafts) && ValidationsOk(w) && PublishedOk(w) && ActiveOk(w.installations)
    && w.seeds.Keys == w.configurations.Keys
  }

  predicate Stays(a: Installation, b: Installation) {
    a.store == b.store && a.theme == b.theme
  }

  /** History is only added to, a version changes only its status, and an installation
      keeps its store and theme. */
  ghost predicate HistoryLater(w: World, u: World) {
    && (forall k :: k in w.drafts ==> k in u.drafts && u.drafts[k] == w.drafts[k])
    && w.validated <= u.validated && u.safe == w.safe
    && (forall k :: k in w.seeds ==> k in u.seeds && u.seeds[k] == w.seeds[k])
  }

  ghost predicate VersionsLater(a: map<Id, Version>, b: map<Id, Version>) {
    forall k :: k in a ==> k in b && b[k] == a[k].(status := b[k].status)
  }

  ghost predicate InstallationsLater(a: map<Id, Installation>, b: map<Id, Installation>) {
    forall i :: i in a ==> i in b && Stays(a[i], b[i])
  }

  ghost predicate Later(w: World, u: World) {
    HistoryLater(w, u) && VersionsLater(w.versions, u.versions) && InstallationsLater(w.installations, u.installations)
  }

  lemma LaterTwice(w: World, u: World, v: World)
    requires Later(w, u) && Later(u, v)
    ensures Later(w, v)
  {
  }

  lemma DraftGrows(configurations: map<Id, Configuration>, drafts: map<(Id, nat), Content>, i: Id, content: Content)
    requires DraftsOk(configurations, drafts) && i in configurations
    ensures var c := configurations[i];
            var next := (i, c.draftRevision + 1);
            && next !in drafts
            && DraftsOk(configurations[i := c.(draft := content, draftRevision := c.draftRevision + 1)], drafts[next := content])
  {
  }

  lemma WriteLater(w: World, i: Id, content: Content)
    requires DraftsOk(w.configurations, w.drafts) && i in w.configurations
    ensures Later(w, WithDraft(w, i, content))
  {
    DraftGrows(w.configurations, w.drafts, i, content);
  }

  lemma Kept(w: World, u: World)
    requires u.drafts == w.drafts && w.validated <= u.validated && u.safe == w.safe && u.seeds == w.seeds
    requires VersionsLater(w.versions, u.versions) && InstallationsLater(w.installations, u.installations)
    ensures Later(w, u)
  {
  }

  lemma VersionsSelf(a: map<Id, Version>)
    ensures VersionsLater(a, a)
  {
  }

  lemma InstallationsSelf(a: map<Id, Installation>)
    ensures InstallationsLater(a, a)
  {
  }

  lemma PublishLater(w: World, i: Id, expected: nat)
    ensures Later(w, Publish(w, i, expected).0)
  {
    hide Catalogue.Bumped, Later, VersionsLater, InstallationsLater;
    VersionsSelf(w.versions);
    InstallationsSelf(w.installations);
    Kept(w, Publish(w, i, expected).0);
  }

  lemma InstalledLater(installations: map<Id, Installation>, id: Id, store: Id, row: Installation)
    requires id !in installations
    ensures InstallationsLater(installations, Deactivated(installations, store)[id := row])
  {
  }

  lemma InstallLater(w: World, id: Id, store: Id, theme: Id, version: Id)
    requires DraftsOk(w.configurations, w.drafts)
    requires w.seeds.Keys == w.configurations.Keys
    ensures version in w.versions ==> Later(w, InstallAtomically(w, id, store, theme, version, w.versions[version].defaults).0)
  {
    hide Catalogue.Bumped, VersionsLater, InstallationsLater, Deactivated;
    VersionsSelf(w.versions);
    InstallationsSelf(w.installations);
    if id !in w.installations { InstalledLater(w.installations, id, store, Installation(store, theme, version, true)); }
  }

  lemma UpgradeLater(w: World, i: Id, version: Id)
    ensures Later(w, SetVersion(w, i, version))
  {
    hide Catalogue.Bumped, Later, VersionsLater;
    VersionsSelf(w.versions);
    Kept(w, SetVersion(w, i, version));
  }

  /** A draft revision names one document for all of history: no step rewrites one. */
  lemma StepLater(w: World, s: Step)
    requires Inv(w)
    ensures Later(w, Apply(w, s))
  {
    hide ValidationsOk, PublishedOk, ActiveOk, DraftsOk, InstallAtomically, Publish, WithDraft, SetVersion, Later, InstallationsLater;
    VersionsSelf(w.versions);
    InstallationsSelf(w.installations);
    Kept(w, w);
    match s {
      case Draft(i, content) => if i in w.configurations { WriteLater(w, i, content); }
      case DiscardDraft(i) => if i in w.configurations { WriteLater(w, i, w.configurations[i].published); }
      case Install(id, store, theme, version) => InstallLater(w, id, store, theme, version);
      case PublishAs(v) => PublishLater(w, v.installation, v.revision);
      case Upgrade(i, version) => UpgradeLater(w, i, version);
      case _ => Kept(w, Apply(w, s));
    }
  }

  // ---- Preservation, one invariant at a time.

  lemma ValidationsStay(w: World, u: World)
    requires ValidationsOk(w) && Later(w, u) && u.validated == w.validated
    ensures ValidationsOk(u)
  {
    forall v | v in u.validated ensures Honest(u, v) { assert Honest(w, v); }
  }

  lemma InstallKeepsDrafts(w: World, id: Id, store: Id, theme: Id, version: Id, defaults: Content)
    requires DraftsOk(w.configurations, w.drafts)
    ensures var u := InstallAtomically(w, id, store, theme, version, defaults).0;
            DraftsOk(u.configurations, u.drafts)
  {
  }

  lemma PublishKeepsDrafts(w: World, i: Id, expected: nat)
    requires DraftsOk(w.configurations, w.drafts)
    ensures var u := Publish(w, i, expected).0;
            DraftsOk(u.configurations, u.drafts)
  {
    hide DraftsOk, Catalogue.Bumped;
    if i in w.configurations { PublishedDrafts(w.configurations, w.drafts, i); }
  }

  lemma PublishedDrafts(configurations: map<Id, Configuration>, drafts: map<(Id, nat), Content>, i: Id)
    requires DraftsOk(configurations, drafts) && i in configurations
    ensures var c := configurations[i];
            DraftsOk(configurations[i := c.(published := c.draft, publishedRevision := c.publishedRevision + 1)], drafts)
  {
  }

  lemma StepKeepsDrafts(w: World, s: Step)
    requires Inv(w) && Enabled(w, s)
    ensures DraftsOk(Apply(w, s).configurations, Apply(w, s).drafts)
  {
    hide ValidationsOk, PublishedOk, ActiveOk, DraftsOk, InstallAtomically, Publish;
    match s {
      case Draft(i, content) => if i in w.configurations { DraftGrows(w.configurations, w.drafts, i, content); }
      case DiscardDraft(i) => if i in w.configurations { DraftGrows(w.configurations, w.drafts, i, w.configurations[i].published); }
      case Install(id, store, theme, version) =>
        if version in w.versions { InstallKeepsDrafts(w, id, store, theme, version, w.versions[version].defaults); }
      case PublishAs(v) => PublishKeepsDrafts(w, v.installation, v.revision);
      case _ =>
    }
  }

  ghost predicate SeedsOk(w: World) {
    w.seeds.Keys == w.configurations.Keys
  }

  lemma WriteKeepsSeeds(w: World, i: Id, content: Content)
    requires SeedsOk(w) && i in w.configurations
    ensures SeedsOk(WithDraft(w, i, content))
  {
  }

  lemma PublishKeepsSeeds(w: World, i: Id, expected: nat)
    requires SeedsOk(w)
    ensures SeedsOk(Publish(w, i, expected).0)
  {
    hide Catalogue.Bumped;
  }

  lemma InstallKeepsSeeds(w: World, id: Id, store: Id, theme: Id, version: Id, defaults: Content)
    requires SeedsOk(w)
    ensures SeedsOk(InstallAtomically(w, id, store, theme, version, defaults).0)
  {
    hide Catalogue.Bumped, Deactivated;
  }

  lemma StepKeepsSeeds(w: World, s: Step)
    requires w.seeds.Keys == w.configurations.Keys
    ensures Apply(w, s).seeds.Keys == Apply(w, s).configurations.Keys
  {
    hide Catalogue.Bumped, InstallAtomically, Publish, WithDraft;
    match s {
      case Draft(i, content) => if i in w.configurations { WriteKeepsSeeds(w, i, content); }
      case DiscardDraft(i) => if i in w.configurations { WriteKeepsSeeds(w, i, w.configurations[i].published); }
      case Install(id, store, theme, version) =>
        if version in w.versions { InstallKeepsSeeds(w, id, store, theme, version, w.versions[version].defaults); }
      case PublishAs(v) => PublishKeepsSeeds(w, v.installation, v.revision);
      case _ =>
    }
  }

  lemma StepKeepsValidations(w: World, s: Step)
    requires Inv(w) && Enabled(w, s)
    ensures ValidationsOk(Apply(w, s))
  {
    hide DraftsOk, PublishedOk, ActiveOk;
    StepLater(w, s);
    if s.Record? {
      forall v | v in Apply(w, s).validated ensures Honest(Apply(w, s), v) { assert Honest(w, v); }
    } else {
      ValidationsStay(w, Apply(w, s));
    }
  }

  lemma ProvenanceStays(w: World, u: World, i: Id)
    requires i in w.configurations && Provenance(w, i) && Later(w, u)
    requires i in u.configurations && u.configurations[i].published == w.configurations[i].published
    ensures Provenance(u, i)
  {
  }

  lemma PublishHasProvenance(w: World, v: Validation, u: World)
    requires Inv(w) && v in w.validated && Publish(w, v.installation, v.revision).1.Ok? && u == Publish(w, v.installation, v.revision).0
    ensures v.installation in u.configurations && u.configurations[v.installation].published == v.content
    ensures Provenance(u, v.installation)
  {
    hide PublishedOk, ActiveOk;
    assert Honest(w, v);
    assert v in u.validated;
  }

  lemma StepKeepsPublished(w: World, s: Step)
    requires Inv(w) && Enabled(w, s)
    ensures PublishedOk(Apply(w, s))
  {
    var u := Apply(w, s);
    StepLater(w, s);
    forall i | i in u.configurations ensures Provenance(u, i) {
      StepProvenance(w, s, u, i);
    }
  }

  lemma StepProvenance(w: World, s: Step, u: World, i: Id)
    requires Inv(w) && Enabled(w, s) && u == Apply(w, s) && Later(w, u) && i in u.configurations
    ensures Provenance(u, i)
  {
    hide DraftsOk, ValidationsOk, ActiveOk, Later, Catalogue.Bumped, Deactivated;
    if i in w.configurations && u.configurations[i].published == w.configurations[i].published {
      assert Provenance(w, i);
      ProvenanceStays(w, u, i);
    } else if s.PublishAs? {
      PublishHasProvenance(w, s.validation, u);
    }
  }

  lemma StepKeepsActive(w: World, s: Step)
    requires Inv(w)
    ensures ActiveOk(Apply(w, s).installations)
  {
    hide DraftsOk, ValidationsOk, PublishedOk;
  }

  lemma StepKeepsInv(w: World, s: Step)
    requires Inv(w) && Enabled(w, s)
    ensures Inv(Apply(w, s)) && Later(w, Apply(w, s))
  {
    hide Apply, Later, DraftsOk, ValidationsOk, PublishedOk, ActiveOk;
    StepLater(w, s);
    StepKeepsDrafts(w, s);
    StepKeepsValidations(w, s);
    StepKeepsPublished(w, s);
    StepKeepsActive(w, s);
    StepKeepsSeeds(w, s);
  }

  // ---- Runs.

  ghost predicate Possible(w: World, steps: seq<Step>)
    decreases |steps|
  {
    steps == [] || (Enabled(w, steps[0]) && Possible(Apply(w, steps[0]), steps[1..]))
  }

  ghost function Run(w: World, steps: seq<Step>): World
    decreases |steps|
  {
    if steps == [] then w else Run(Apply(w, steps[0]), steps[1..])
  }

  lemma {:induction false} RunKeepsInv(w: World, steps: seq<Step>)
    requires Inv(w) && Possible(w, steps)
    ensures Inv(Run(w, steps)) && Later(w, Run(w, steps))
    decreases |steps|
  {
    if steps != [] {
      hide Apply, Enabled, Inv, Later;
      StepKeepsInv(w, steps[0]);
      RunKeepsInv(Apply(w, steps[0]), steps[1..]);
      LaterTwice(w, Apply(w, steps[0]), Run(w, steps));
    }
  }

  /** Every published configuration is a seeded default or exactly a draft that was held at
      some revision and passed validation, whatever edits, discards, publishes and
      upgrades ran in between. */
  lemma PublishedWasValidated(w: World, steps: seq<Step>, i: Id)
    requires Inv(w) && Possible(w, steps) && i in Run(w, steps).configurations
    ensures var u := Run(w, steps);
            var p := u.configurations[i].published;
            || (i in u.seeds && p == u.seeds[i])
            || (exists v :: v in u.validated && v.installation == i && v.content == p && Honest(u, v))
  {
    RunKeepsInv(w, steps);
    var u := Run(w, steps);
    assert Provenance(u, i);
    hide Run, Possible;
    if !(i in u.seeds && u.configurations[i].published == u.seeds[i]) {
      var v :| v in u.validated && v.installation == i && v.content == u.configurations[i].published;
      assert Honest(u, v);
    }
  }

  /** A publish commits exactly the document its caller validated, and commits nothing
      after any later write of the draft, even one that restored the same document. */
  lemma PublishIsExact(w: World, v: Validation, steps: seq<Step>)
    requires Inv(w) && v in w.validated && Possible(w, steps)
    ensures var u := Run(w, steps);
            var (u', r) := Publish(u, v.installation, v.revision);
            && (r.Ok? <==> v.installation in u.configurations && u.configurations[v.installation].draftRevision == v.revision)
            && (r.Ok? ==> v.installation in u'.configurations && u'.configurations[v.installation].published == v.content && Passes(u', v.content, v.version))
            && (r.Err? ==> u' == u)
  {
    RunKeepsInv(w, steps);
    var u := Run(w, steps);
    assert Honest(u, v);
    hide Run, Possible, PublishedOk, ActiveOk;
    PublishLater(u, v.installation, v.revision);
  }

  // ---- Previews.

  /** The signature is taken as unforgeable: a token is its claims. */
  datatype Claims = Claims(store: Id, installation: Id, revision: nat, expires: Time)

  predicate ThemeRenderable(t: Theme) {
    t.status in {ThemeActive, ThemeDeprecated}
  }

  predicate VersionRenderable(v: Version) {
    v.status in {VersionPublished, VersionDeprecated}
  }

  /** Between the read a token was issued from and the read that resolves it, whatever
      ran: while the revision is the token's, the draft is the one the token is for. */
  lemma PreviewIsExact(w: World, steps: seq<Step>, i: Id)
    requires Inv(w) && Possible(w, steps) && i in w.configurations && i in Run(w, steps).configurations
    ensures var u := Run(w, steps);
            && w.configurations[i].draftRevision <= u.configurations[i].draftRevision
            && (u.configurations[i].draftRevision == w.configurations[i].draftRevision ==>
                  u.configurations[i].draft == w.configurations[i].draft)
  {
    RunKeepsInv(w, steps);
    hide Run, Possible, PublishedOk, ActiveOk, ValidationsOk;
    assert (i, w.configurations[i].draftRevision) in Run(w, steps).drafts;
  }
}
