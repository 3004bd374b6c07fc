/** When published content satisfies the schema of the version installed now
    (modules/themes/service.go:183-263). */
module ThemeUpgrades {
  import opened Base
  import opened Themes
  import Catalogue

  ghost predicate Fits(w: World, i: Id) {
    && i in w.installations && i in w.configurations
    && Passes(w, w.configurations[i].published, w.installations[i].version)
  }

  // ---- Which steps can break it.

  /** A publish that commits a document its publisher validated against a version that is
      no longer installed. */
  ghost predicate LatePublish(w: World, s: Step, i: Id)
    requires Fits(w, i)
  {
    && s.PublishAs? && s.validation.installation == i && s.validation.revision == w.configurations[i].draftRevision
    && !Passes(w, s.validation.content, w.installations[i].version)
  }

  /** An upgrade to a version that refuses what is published. */
  ghost predicate BlindUpgrade(w: World, s: Step, i: Id)
    requires Fits(w, i)
  {
    && s.Upgrade? && s.installation == i && s.version in w.versions && w.versions[s.version].theme == w.installations[i].theme
    && !Passes(w, w.configurations[i].published, s.version)
  }

  /** These two are the only steps after which published content stops satisfying the
      version installed, and they always have that effect. */
  lemma WhatBreaksFit(w: World, s: Step, i: Id)
    requires Inv(w) && Enabled(w, s) && Fits(w, i)
    ensures !Fits(Apply(w, s), i) <==> LatePublish(w, s, i) || BlindUpgrade(w, s, i)
  {
    hide Inv, Bumped, Publish, InstallAtomically, WithDraft, SetVersion;
    match s {
      case Upgrade(x, version) => UpgradeFits(w, x, version, i);
      case PublishAs(v) => PublishFits(w, v, i);
      case Install(id, store, theme, version) =>
        if version in w.versions { InstallKeepsFit(w, id, store, theme, version, w.versions[version].defaults, i); }
      case Draft(x, content) => DraftKeepsFit(w, x, content, i);
      case DiscardDraft(x) => if x in w.configurations { DraftKeepsFit(w, x, w.configurations[x].published, i); }
      case _ =>
    }
  }

  lemma PublishFits(w: World, v: Validation, i: Id)
    requires Inv(w) && v in w.validated && Fits(w, i)
    ensures !Fits(Publish(w, v.installation, v.revision).0, i) <==> LatePublish(w, PublishAs(v), i)
  {
    hide PublishedOk, ActiveOk, Catalogue.Bumped;
    assert Honest(w, v);
  }

  lemma InstallKeepsFit(w: World, id: Id, store: Id, theme: Id, version: Id, defaults: Content, i: Id)
    requires Fits(w, i)
    ensures Fits(InstallAtomically(w, id, store, theme, version, defaults).0, i)
  {
    hide Catalogue.Bumped;
  }

  lemma UpgradeFits(w: World, x: Id, version: Id, i: Id)
    requires Fits(w, i)
    ensures !Fits(SetVersion(w, x, version), i) <==> BlindUpgrade(w, Upgrade(x, version), i)
  {
    hide Catalogue.Bumped;
  }

  lemma DraftKeepsFit(w: World, x: Id, content: Content, i: Id)
    requires Fits(w, i)
    ensures x in w.configurations ==> Fits(WithDraft(w, x, content), i)
  {
  }

  // ---- One upgrade, from the validation of the draft to the write.

  /** Others run these steps, the upgrade commits, and published content fits the target. */
  ghost predicate FitsAfterUpgrade(w: World, steps: seq<Step>, i: Id, target: Id) {
    var u := Apply(Run(w, steps), Upgrade(i, target));
    Fits(u, i) && u.installations[i].version == target
  }

  lemma WrittenUpgrade(w: World, i: Id, target: Id)
    requires i in w.installations && i in w.configurations && target in w.versions
    requires w.versions[target].theme == w.installations[i].theme
    ensures var u := Apply(w, Upgrade(i, target));
            && i in u.installations && u.installations[i].version == target
            && (Fits(u, i) <==> Passes(w, w.configurations[i].published, target))
  {
    hide Catalogue.Bumped;
  }

  /** What a run of others leaves of an installation, its draft read before, and a version. */
  lemma RowsStay(w: World, steps: seq<Step>, i: Id, target: Id)
    requires Inv(w) && Possible(w, steps) && i in w.installations && i in w.configurations && target in w.versions
    ensures var u := Run(w, steps);
            && i in u.installations && i in u.configurations && target in u.versions
            && u.installations[i].theme == w.installations[i].theme && u.versions[target].theme == w.versions[target].theme
            && (forall d :: Passes(u, d, target) <==> Passes(w, d, target))
  {
    RunKeepsInv(w, steps);
    hide Run, Possible, PublishedOk, ActiveOk, ValidationsOk;
    assert (i, w.configurations[i].draftRevision) in Run(w, steps).drafts;
  }

  /** Whatever ran between the validation of the draft and the write, the upgrade leaves
      published content that fits exactly when the target accepts what is published at the
      write; with the validated document published there, it does. */
  lemma UpgradeOfPublishedDraftFits(w: World, steps: seq<Step>, i: Id, target: Id)
    requires Inv(w) && Possible(w, steps) && i in w.installations && i in w.configurations && target in w.versions
    requires w.versions[target].theme == w.installations[i].theme && Passes(w, w.configurations[i].draft, target)
    ensures i in Run(w, steps).configurations
    ensures FitsAfterUpgrade(w, steps, i, target) <==> Passes(w, Run(w, steps).configurations[i].published, target)
    ensures Run(w, steps).configurations[i].published == w.configurations[i].draft ==> FitsAfterUpgrade(w, steps, i, target)
  {
    hide Inv, Run, Possible, Apply;
    RowsStay(w, steps, i, target);
    WrittenUpgrade(Run(w, steps), i, target);
  }

  // ---- The exact condition, over every schema the target may have.

  function WithVersion(w: World, id: Id, row: Version): World {
    w.(versions := w.versions[id := row])
  }

  predicate Names(s: Step, id: Id) {
    match s
    case Install(_, _, _, version) => version == id
    case Record(v) => v.version == id
    case Upgrade(_, version) => version == id
    case AddVersion(x, _) => x == id
    case MarkVersion(x, _) => x == id
    case _ => false
  }

  /** The steps of others, none of which is about the given version. */
  predicate Unnamed(steps: seq<Step>, id: Id) {
    forall k :: 0 <= k < |steps| ==> !Names(steps[k], id)
  }

  /** A row the upgrade goes through for: published, of this theme, accepting the draft. */
  predicate Suits(w: World, i: Id, row: Version)
    requires i in w.installations && i in w.configurations
  {
    row.theme == w.installations[i].theme && row.status == VersionPublished && w.configurations[i].draft in row.accepts
  }

  lemma InvWithVersion(w: World, id: Id, row: Version)
    requires Inv(w) && id !in w.versions
    ensures Inv(WithVersion(w, id, row))
  {
    var u := WithVersion(w, id, row);
    assert Later(w, u);
    ValidationsStay(w, u);
    forall i | i in u.configurations ensures Provenance(u, i) {
      assert Provenance(w, i);
    }
  }

  lemma BumpIgnoresVersion(w: World, store: Id, id: Id, row: Version)
    ensures Bumped(WithVersion(w, id, row), store) == WithVersion(Bumped(w, store), id, row)
  {
    hide Catalogue.Bumped;
  }

  lemma InstallIgnoresVersion(w: World, x: Id, store: Id, theme: Id, version: Id, defaults: Content, id: Id, row: Version)
    requires version != id && id !in w.versions
    ensures InstallAtomically(WithVersion(w, id, row), x, store, theme, version, defaults).0 ==
            WithVersion(InstallAtomically(w, x, store, theme, version, defaults).0, id, row)
  {
    hide Catalogue.Bumped, Deactivated;
  }

  lemma PublishIgnoresVersion(w: World, i: Id, expected: nat, id: Id, row: Version)
    ensures Publish(WithVersion(w, id, row), i, expected).0 == WithVersion(Publish(w, i, expected).0, id, row)
  {
    hide Bumped;
    if i in w.configurations && w.configurations[i].draftRevision == expected && i in w.installations {
      var c := w.configurations[i];
      var after := w.configurations[i := c.(published := c.draft, publishedRevision := c.publishedRevision + 1)];
      BumpIgnoresVersion(w.(configurations := after), w.installations[i].store, id, row);
    }
  }

  lemma UpgradeIgnoresVersion(w: World, i: Id, version: Id, id: Id, row: Version)
    requires version != id
    ensures SetVersion(WithVersion(w, id, row), i, version) == WithVersion(SetVersion(w, i, version), id, row)
  {
    hide Catalogue.Bumped;
  }

  lemma VersionsCommute(versions: map<Id, Version>, a: Id, x: Version, b: Id, y: Version)
    requires a != b
    ensures versions[a := x][b := y] == versions[b := y][a := x]
  {
  }

  lemma CatalogIgnoresVersion(w: World, s: Step, id: Id, row: Version)
    requires (s.AddVersion? || s.MarkVersion?) && !Names(s, id) && id !in w.versions
    ensures Apply(WithVersion(w, id, row), s) == WithVersion(Apply(w, s), id, row) && id !in Apply(w, s).versions
  {
    match s {
      case AddVersion(x, added) => VersionsCommute(w.versions, x, added, id, row);
      case MarkVersion(x, status) =>
        if x in w.versions { VersionsCommute(w.versions, x, w.versions[x].(status := status), id, row); }
    }
  }

  lemma StepIgnoresVersion(w: World, s: Step, id: Id, row: Version)
    requires Enabled(w, s) && !Names(s, id) && id !in w.versions
    ensures Enabled(WithVersion(w, id, row), s)
    ensures Apply(WithVersion(w, id, row), s) == WithVersion(Apply(w, s), id, row) && id !in Apply(w, s).versions
  {
    if s.AddVersion? || s.MarkVersion? {
      CatalogIgnoresVersion(w, s, id, row);
    } else {
      RowsIgnoreVersion(w, s, id, row);
    }
  }

  lemma RowsIgnoreVersion(w: World, s: Step, id: Id, row: Version)
    requires Enabled(w, s) && !Names(s, id) && id !in w.versions && !s.AddVersion? && !s.MarkVersion?
    ensures Enabled(WithVersion(w, id, row), s)
    ensures Apply(WithVersion(w, id, row), s) == WithVersion(Apply(w, s), id, row) && id !in Apply(w, s).versions
  {
    hide Bumped, InstallAtomically, Publish, SetVersion;
    match s {
      case Install(x, store, theme, version) =>
        if version in w.versions {
          InstallIgnoresVersion(w, x, store, theme, version, w.versions[version].defaults, id, row);
          InstallKeepsVersions(w, x, store, theme, version, w.versions[version].defaults);
        }
      case PublishAs(v) => PublishIgnoresVersion(w, v.installation, v.revision, id, row); PublishKeepsVersions(w, v.installation, v.revision);
      case Upgrade(i, version) => UpgradeIgnoresVersion(w, i, version, id, row); UpgradeKeepsVersions(w, i, version);
      case _ =>
    }
  }

  lemma InstallKeepsVersions(w: World, x: Id, store: Id, theme: Id, version: Id, defaults: Content)
    ensures InstallAtomically(w, x, store, theme, version, defaults).0.versions == w.versions
  {
    hide Catalogue.Bumped, Deactivated;
  }

  lemma PublishKeepsVersions(w: World, i: Id, expected: nat)
    ensures Publish(w, i, expected).0.versions == w.versions
  {
    hide Catalogue.Bumped;
  }

  lemma UpgradeKeepsVersions(w: World, i: Id, version: Id)
    ensures SetVersion(w, i, version).versions == w.versions
  {
    hide Catalogue.Bumped;
  }

  lemma {:induction false} RunIgnoresVersion(w: World, steps: seq<Step>, id: Id, row: Version)
    requires Possible(w, steps) && Unnamed(steps, id) && id !in w.versions
    ensures Possible(WithVersion(w, id, row), steps)
    ensures Run(WithVersion(w, id, row), steps) == WithVersion(Run(w, steps), id, row)
    decreases |steps|
  {
    hide Apply, Enabled, WithVersion, Names;
    if steps != [] {
      assert !Names(steps[0], id);
      StepIgnoresVersion(w, steps[0], id, row);
      forall k | 0 <= k < |steps[1..]| ensures !Names(steps[1..][k], id) { assert steps[1..][k] == steps[k + 1]; }
      RunIgnoresVersion(Apply(w, steps[0]), steps[1..], id, row);
    }
  }

  lemma AfterUpgradeTo(w: World, steps: seq<Step>, i: Id, target: Id, row: Version)
    requires Inv(w) && Possible(w, steps) && i in w.installations && i in w.configurations
    requires target !in w.versions && Unnamed(steps, target)
    requires Suits(w, i, row)
    ensures i in Run(w, steps).configurations && Possible(WithVersion(w, target, row), steps)
    ensures var published := Run(w, steps).configurations[i].published;
            FitsAfterUpgrade(WithVersion(w, target, row), steps, i, target) <==> published in row.accepts && published in w.safe
  {
    var v := WithVersion(w, target, row);
    InvWithVersion(w, target, row);
    RunIgnoresVersion(w, steps, target, row);
    hide Inv, Run, Possible, Apply, Unnamed;
    RowsStay(v, steps, i, target);
    WrittenUpgrade(Run(v, steps), i, target);
  }

  /** The exact condition. Take the state in which the client reads and validates the
      draft of an installation, and anything others do before its write. The upgrade
      leaves fitting published content for every target version that accepts the draft if
      and only if the document published at the write is the draft that was validated. */
  lemma UpgradeFitsExactly(w: World, steps: seq<Step>, i: Id, target: Id)
    requires Inv(w) && Possible(w, steps) && i in w.installations && i in w.configurations
    requires w.configurations[i].draft in w.safe && target !in w.versions && Unnamed(steps, target)
    ensures i in Run(w, steps).configurations
    ensures (forall row :: Suits(w, i, row) ==> FitsAfterUpgrade(WithVersion(w, target, row), steps, i, target)) <==>
            Run(w, steps).configurations[i].published == w.configurations[i].draft
  {
    hide Inv, Run, Possible, FitsAfterUpgrade, Unnamed;
    var d := w.configurations[i].draft;
    // A version that accepts the draft and nothing else.
    var only := Version(w.installations[i].theme, "", VersionPublished, {d}, d);
    assert Suits(w, i, only);
    AfterUpgradeTo(w, steps, i, target, only);
    forall row | Suits(w, i, row)
      ensures Run(w, steps).configurations[i].published == d ==> FitsAfterUpgrade(WithVersion(w, target, row), steps, i, target)
    {
      AfterUpgradeTo(w, steps, i, target, row);
    }
  }

  // ---- The guard a client can check.

  /** The published revision only grows, and while it stands so does what is published. */
  ghost predicate PublishedLater(w: World, u: World, i: Id) {
    i in w.configurations ==>
      && i in u.configurations && w.configurations[i].publishedRevision <= u.configurations[i].publishedRevision
      && (w.configurations[i].publishedRevision == u.configurations[i].publishedRevision ==>
            w.configurations[i].published == u.configurations[i].published)
  }

  lemma StepPublishedLater(w: World, s: Step, i: Id)
    ensures PublishedLater(w, Apply(w, s), i)
  {
    hide Catalogue.Bumped, Deactivated, Publish;
    if s.PublishAs? { PublishMovesRevision(w, s.validation.installation, s.validation.revision, i); }
  }

  lemma PublishMovesRevision(w: World, x: Id, expected: nat, i: Id)
    ensures PublishedLater(w, Publish(w, x, expected).0, i)
  {
    hide Catalogue.Bumped;
  }

  lemma {:induction false} RunPublishedLater(w: World, steps: seq<Step>, i: Id)
    ensures PublishedLater(w, Run(w, steps), i)
    decreases |steps|
  {
    hide Apply;
    if steps != [] {
      StepPublishedLater(w, steps[0], i);
      RunPublishedLater(Apply(w, steps[0]), steps[1..], i);
    }
  }

  /** With the published revision unchanged at the write, the condition is one the client
      checks at the read: the draft it validates is the document published. */
  lemma GuardedUpgradeExact(w: World, steps: seq<Step>, i: Id, target: Id)
    requires Inv(w) && Possible(w, steps) && i in w.installations && i in w.configurations
    requires w.configurations[i].draft in w.safe && target !in w.versions && Unnamed(steps, target)
    requires i in Run(w, steps).configurations
    requires Run(w, steps).configurations[i].publishedRevision == w.configurations[i].publishedRevision
    ensures (forall row :: Suits(w, i, row) ==> FitsAfterUpgrade(WithVersion(w, target, row), steps, i, target)) <==>
            w.configurations[i].draft == w.configurations[i].published
  {
    hide Inv, Run, Possible, FitsAfterUpgrade, Unnamed, Suits;
    RunPublishedLater(w, steps, i);
    UpgradeFitsExactly(w, steps, i, target);
  }

  /** A step whose publisher checks at its commit that the version it validated against is
      the one installed, and whose upgrader checks at its write that what is published is
      the document it validated. */
  ghost predicate Guarded(w: World, s: Step, i: Id) {
    && (s.PublishAs? && s.validation.installation == i && i in w.installations ==> s.validation.version == w.installations[i].version)
    && (s.Upgrade? && s.installation == i && i in w.configurations ==>
          exists v :: v in w.validated && v.content == w.configurations[i].published && v.version == s.version)
  }

  ghost predicate AllGuarded(w: World, steps: seq<Step>, i: Id)
    decreases |steps|
  {
    steps == [] || (Guarded(w, steps[0], i) && AllGuarded(Apply(w, steps[0]), steps[1..], i))
  }

  lemma GuardedStepFits(w: World, s: Step, i: Id)
    requires Inv(w) && Enabled(w, s) && Fits(w, i) && Guarded(w, s, i)
    ensures Fits(Apply(w, s), i)
  {
    WhatBreaksFit(w, s, i);
    hide DraftsOk, PublishedOk, ActiveOk, Apply;
    if s.PublishAs? { assert Honest(w, s.validation); }
    if s.Upgrade? && s.installation == i {
      var v :| v in w.validated && v.content == w.configurations[i].published && v.version == s.version;
      assert Honest(w, v);
    }
  }

  /** With both guards published content fits in every state of every run, whatever the
      interleaving. */
  lemma {:induction false} GuardedRunFits(w: World, steps: seq<Step>, i: Id)
    requires Inv(w) && Possible(w, steps) && Fits(w, i) && AllGuarded(w, steps, i)
    ensures Fits(Run(w, steps), i)
    decreases |steps|
  {
    hide Inv, Apply, Enabled, Fits, Guarded;
    if steps != [] {
      StepKeepsInv(w, steps[0]);
      GuardedStepFits(w, steps[0], i);
      GuardedRunFits(Apply(w, steps[0]), steps[1..], i);
    }
  }

  // ---- What goes wrong without them.

  /** A state in which draft and published content agree and pass both the installed and
      the target version, and another document passes the installed one only. */
  ghost predicate AtRisk(w: World, i: Id, target: Id, other: Content) {
    && Fits(w, i) && target in w.versions && w.versions[target].theme == w.installations[i].theme
    && w.configurations[i].draft == w.configurations[i].published && Passes(w, w.configurations[i].draft, target)
    && Passes(w, other, w.installations[i].version) && !Passes(w, other, target)
  }

  /** Another client's honest validation of the other document, once it is the draft. */
  function Rival(w: World, i: Id, other: Content): Validation
    requires i in w.installations && i in w.configurations
  {
    Validation(i, w.configurations[i].draftRevision + 1, other, w.installations[i].version)
  }

  /** The rival's draft, validated against the version installed. */
  lemma RivalDrafts(w: World, i: Id, target: Id, other: Content)
    requires AtRisk(w, i, target, other)
    ensures var v := Rival(w, i, other);
            var w1 := Apply(w, Draft(i, other));
            var w2 := Apply(w1, Record(v));
            && Enabled(w, Draft(i, other)) && Enabled(w1, Record(v)) && Enabled(w2, PublishAs(v))
            && i in w2.configurations && w2.configurations[i].published == w.configurations[i].published
            && w2.configurations[i].draft == other && w2.configurations[i].draftRevision == v.revision
            && w2.installations == w.installations && w2.versions == w.versions && w2.safe == w.safe && v in w2.validated
  {
  }

  lemma RivalPublishes(w: World, i: Id, v: Validation)
    requires i in w.configurations && v.installation == i && v.revision == w.configurations[i].draftRevision
    ensures var u := Apply(w, PublishAs(v));
            && i in u.configurations && u.configurations[i].draft == u.configurations[i].published == w.configurations[i].draft
            && u.installations == w.installations && u.versions == w.versions && u.safe == w.safe
  {
    hide Catalogue.Bumped;
  }

  lemma ThreeSteps(w: World, a: Step, b: Step, c: Step)
    requires Enabled(w, a) && Enabled(Apply(w, a), b) && Enabled(Apply(Apply(w, a), b), c)
    ensures Possible(w, [a, b, c]) && Run(w, [a, b, c]) == Apply(Apply(Apply(w, a), b), c)
  {
    hide Apply, Enabled;
    var s := [a, b, c];
    var w1 := Apply(w, a);
    var w2 := Apply(w1, b);
    assert s[1..][0] == b && s[1..][1..] == [c] && [c][1..] == [];
    assert Possible(Apply(w2, c), []) && Run(Apply(w2, c), []) == Apply(w2, c);
    assert Possible(w2, [c]) && Run(w2, [c]) == Apply(w2, c);
    assert Possible(w1, s[1..]) && Run(w1, s[1..]) == Run(w2, [c]);
  }

  /** A race: an honest publish of another document between the read and the write.
      Draft and published content agree at the read and again at the write, and what is
      published afterwards fails the version installed. */
  lemma RaceBreaksFit(w: World, i: Id, target: Id, other: Content)
    requires AtRisk(w, i, target, other)
    ensures var v := Rival(w, i, other);
            var steps := [Draft(i, other), Record(v), PublishAs(v)];
            var u := Run(w, steps);
            && Possible(w, steps) && i in u.configurations && u.configurations[i].draft == u.configurations[i].published
            && Fits(u, i) && !FitsAfterUpgrade(w, steps, i, target)
  {
    var v := Rival(w, i, other);
    RivalDrafts(w, i, target, other);
    var w2 := Apply(Apply(w, Draft(i, other)), Record(v));
    ThreeSteps(w, Draft(i, other), Record(v), PublishAs(v));
    RivalPublishes(w2, i, v);
    hide Apply, Run, Possible;
    WrittenUpgrade(Run(w, [Draft(i, other), Record(v), PublishAs(v)]), i, target);
  }

  /** A late publish: validated against the old version, committed after the upgrade. */
  lemma LatePublishBreaksFit(w: World, i: Id, target: Id, other: Content)
    requires AtRisk(w, i, target, other)
    ensures var v := Rival(w, i, other);
            var steps := [Draft(i, other), Record(v), Upgrade(i, target)];
            var u := Run(w, steps);
            Possible(w, steps) && Fits(u, i) && Enabled(u, PublishAs(v)) && !Fits(Apply(u, PublishAs(v)), i)
  {
    var v := Rival(w, i, other);
    RivalDrafts(w, i, target, other);
    var w2 := Apply(Apply(w, Draft(i, other)), Record(v));
    ThreeSteps(w, Draft(i, other), Record(v), Upgrade(i, target));
    WrittenUpgrade(w2, i, target);
    var u := Apply(w2, Upgrade(i, target));
    UpgradeOnly(w2, i, target);
    RivalPublishes(u, i, v);
  }

  lemma UpgradeOnly(w: World, i: Id, target: Id)
    ensures var u := Apply(w, Upgrade(i, target));
            u.configurations == w.configurations && u.versions == w.versions && u.safe == w.safe && u.validated == w.validated
  {
    hide Catalogue.Bumped;
  }

  // ---- Concrete runs that reach such states.

  /** No store has a theme yet; the documents 1 and 2 are safe. */
  function NoThemes(): World {
    World(map[], map[], map[], map[], map[], {1, 2}, map[], {}, map[])
  }

  const FIRST := Version(9, "1", VersionPublished, {1, 2}, 1)
  const SECOND := Version(9, "2", VersionPublished, {2}, 2)

  /** The store publishes 1 under the first version and drafts 2. */
  function Drafting(): seq<Step> {
    [AddVersion(5, FIRST), AddVersion(6, SECOND), Install(7, 3, 9, 5), Draft(7, 2)]
  }

  ghost predicate Drafted(w: World) {
    && 7 in w.configurations && w.configurations[7] == Configuration(2, 1, 1, 0) && (7, 1) in w.drafts && w.drafts[(7, 1)] == 2
    && 7 in w.installations && w.installations[7] == Installation(3, 9, 5, true)
    && 5 in w.versions && w.versions[5] == FIRST && 6 in w.versions && w.versions[6] == SECOND && w.safe == {1, 2}
  }

  lemma DraftingSteps()
    ensures var s := Drafting();
            Drafted(Apply(Apply(Apply(Apply(NoThemes(), s[0]), s[1]), s[2]), s[3]))
  {
    hide Catalogue.Bumped, Publish, SetVersion;
    var s := Drafting();
    var w2 := Apply(Apply(NoThemes(), s[0]), s[1]);
    assert w2.versions[5] == FIRST && w2.versions[6] == SECOND && w2.installations == map[] && w2.configurations == map[];
    var w3 := Apply(w2, s[2]);
    assert 7 in w3.configurations && w3.configurations[7] == Configuration(1, 1, 0, 0) && w3.installations[7] == Installation(3, 9, 5, true);
  }

  lemma DraftingReaches()
    ensures Inv(NoThemes()) && Possible(NoThemes(), Drafting()) && Drafted(Run(NoThemes(), Drafting()))
  {
    DraftingSteps();
    hide Apply, Enabled, Drafted;
    var s := Drafting();
    var w1 := Apply(NoThemes(), s[0]);
    AllEnabled(NoThemes(), w1, Apply(w1, s[1]), Apply(Apply(w1, s[1]), s[2]));
    ThreeSteps(w1, s[1], s[2], s[3]);
    assert s[1..] == [s[1], s[2], s[3]];
  }

  lemma AllEnabled(a: World, b: World, c: World, d: World)
    ensures Enabled(a, Drafting()[0]) && Enabled(b, Drafting()[1]) && Enabled(c, Drafting()[2]) && Enabled(d, Drafting()[3])
  {
  }

  /** From the state above the draft passes the second version, the upgrade goes through
      with nothing in between, and what is published fails it. */
  lemma UpgradeChecksTheDraftOnly(w: World)
    requires Drafted(w)
    ensures Fits(w, 7) && Passes(w, w.configurations[7].draft, 6) && !FitsAfterUpgrade(w, [], 7, 6)
  {
    WrittenUpgrade(w, 7, 6);
  }

  /** Publishing the draft first leads to a state in which the race and the late publish
      are both possible. */
  lemma PublishingPutsAtRisk(w: World)
    requires Drafted(w)
    ensures var v := Validation(7, 1, 2, 5);
            var w1 := Apply(w, Record(v));
            Enabled(w, Record(v)) && Enabled(w1, PublishAs(v)) && AtRisk(Apply(w1, PublishAs(v)), 7, 6, 1)
  {
    var v := Validation(7, 1, 2, 5);
    RivalPublishes(Apply(w, Record(v)), 7, v);
  }
}
