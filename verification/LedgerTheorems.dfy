/** What every interleaving of admin and seed transactions keeps. */
module LedgerTheorems {
  import opened Rubric
  import opened Text
  import opened Ledger
  import StandardValidator

  /** The tables after a sequence of transactions, committed or not. */
  ghost function Run(env: Env, db: Db, steps: seq<Step>): (r: Db)
    requires Inv(env, db) && Injective(env)
    ensures Inv(env, r)
    decreases |steps|
  {
    if steps == [] then db
    else
      ApplyKeepsInv(env, db, steps[0]);
      Run(env, Apply(env, db, steps[0]).db, steps[1..])
  }

  lemma EmptyLedger(env: Env, campaigns: set<nat>)
    ensures Inv(env, Db(campaigns, map[], [], 0))
  {
  }

  lemma LaterIsLarger(env: Env, db: Db, i: nat, j: nat)
    requires Inv(env, db) && i < j < |db.versions| && db.versions[i].standard == db.versions[j].standard
    ensures db.versions[i].number < db.versions[j].number && db.versions[i].snapshot != db.versions[j].snapshot
  {
    hide StandardValidator.Publishable, RowsDistinct, VersionsOwned;
    var versions := db.versions;
    CountUpto(versions[..j], versions[i].standard, i + 1);
    assert versions[..j][..i + 1] == versions[..i + 1] && versions[..i + 1][..i] == versions[..i];
    assert versions[i].hash != versions[j].hash;
  }

  lemma NumbersExactly(versions: seq<VersionRow>, standard: nat, number: int)
    requires Numbered(versions)
    ensures (exists w :: w in versions && w.standard == standard && w.number == number) <==> 1 <= number <= CountOf(versions, standard)
  {
    hide CountOf, Numbered;
    if 1 <= number <= CountOf(versions, standard) {
      NumbersTaken(versions, standard, number);
    }
    if w :| w in versions && w.standard == standard && w.number == number {
      var i :| 0 <= i < |versions| && versions[i] == w;
      NumberRange(versions, i);
    }
  }

  /** The numbers of each standard's versions are exactly 1..n, in order, and no content repeats. */
  lemma VersionsNumberedInOrder(env: Env, db: Db, steps: seq<Step>, standard: nat, number: int)
    requires Inv(env, db) && Injective(env)
    ensures var versions := Run(env, db, steps).versions;
      && ((exists w :: w in versions && w.standard == standard && w.number == number) <==> 1 <= number <= CountOf(versions, standard))
      && (forall i, j :: 0 <= i < j < |versions| && versions[i].standard == versions[j].standard ==>
            versions[i].number < versions[j].number && versions[i].snapshot != versions[j].snapshot)
  {
    hide StandardValidator.Publishable, RowsDistinct, VersionsOwned, HashesDistinct, HashesTrue, Numbered, CountOf, Run, Injective;
    var after := Run(env, db, steps);
    var versions := after.versions;
    NumbersExactly(versions, standard, number);
    forall i, j | 0 <= i < j < |versions| && versions[i].standard == versions[j].standard
      ensures versions[i].number < versions[j].number && versions[i].snapshot != versions[j].snapshot
    {
      LaterIsLarger(env, after, i, j);
    }
  }

  // ----- versions are never changed, pointers never lost

  lemma StepAppends(env: Env, db: Db, step: Step)
    requires PointersExist(db)
    ensures db.versions <= Apply(env, db, step).db.versions
  {
  }

  /** A pinned version id resolves to the same snapshot for ever. */
  lemma {:induction false} VersionsAppendOnly(env: Env, db: Db, steps: seq<Step>)
    requires Inv(env, db) && Injective(env)
    ensures db.versions <= Run(env, db, steps).versions
    decreases |steps|
  {
    if steps != [] {
      ApplyKeepsInv(env, db, steps[0]);
      StepAppends(env, db, steps[0]);
      VersionsAppendOnly(env, Apply(env, db, steps[0]).db, steps[1..]);
    }
  }

  lemma StepKeepsPointer(env: Env, db: Db, step: Step, campaign: nat)
    requires Inv(env, db) && campaign in db.standards && db.standards[campaign].current.Some?
    ensures PointersExist(db)
    ensures var after := Apply(env, db, step).db;
      campaign in after.standards && after.standards[campaign].id == db.standards[campaign].id && after.standards[campaign].current.Some?
  {
    hide StandardValidator.Publishable, Numbered, HashesDistinct, HashesTrue, RowsDistinct, VersionsOwned;
    InvPointersExist(env, db);
    assert PointerSound(env, db, db.standards[campaign]);
    assert db.versions[db.standards[campaign].current.value] in db.versions;
  }

  /** A set pointer never becomes null, and its standard is never deleted. */
  lemma {:induction false} PointerNeverLost(env: Env, db: Db, steps: seq<Step>, campaign: nat)
    requires Inv(env, db) && Injective(env) && campaign in db.standards && db.standards[campaign].current.Some?
    ensures var after := Run(env, db, steps);
      campaign in after.standards && after.standards[campaign].id == db.standards[campaign].id && after.standards[campaign].current.Some?
    decreases |steps|
  {
    if steps != [] {
      ApplyKeepsInv(env, db, steps[0]);
      StepKeepsPointer(env, db, steps[0], campaign);
      PointerNeverLost(env, Apply(env, db, steps[0]).db, steps[1..], campaign);
    }
  }

  /** A published standard points at a version of its own whose content passed publish validation. */
  lemma PublishedPointsAtOwnVersion(env: Env, db: Db, steps: seq<Step>, campaign: nat)
    requires Inv(env, db) && Injective(env)
    requires campaign in Run(env, db, steps).standards && Run(env, db, steps).standards[campaign].status == Published
    ensures var after := Run(env, db, steps);
      && after.standards[campaign].current.Some?
      && after.standards[campaign].current.value < |after.versions|
      && after.versions[after.standards[campaign].current.value].standard == after.standards[campaign].id
      && StandardValidator.Publishable(env.fold, after.versions[after.standards[campaign].current.value].snapshot)
  {
    var after := Run(env, db, steps);
    assert PointerSound(env, after, after.standards[campaign]);
  }

  // ----- optimistic revisions

  /** If the campaign still has the row `id`, its revision is at least `revision`; `id` cannot be handed out again. */
  ghost predicate NotBefore(db: Db, campaign: nat, id: nat, revision: nat) {
    id < db.nextStandard
    && (campaign in db.standards && db.standards[campaign].id == id ==> db.standards[campaign].revision >= revision)
  }

  lemma StepNotBefore(env: Env, db: Db, step: Step, campaign: nat, id: nat, revision: nat)
    requires PointersExist(db) && NotBefore(db, campaign, id, revision)
    ensures NotBefore(Apply(env, db, step).db, campaign, id, revision)
  {
    hide StandardValidator.Publishable, Violates, WithVersion;
  }

  lemma {:induction false} RunNotBefore(env: Env, db: Db, steps: seq<Step>, campaign: nat, id: nat, revision: nat)
    requires Inv(env, db) && Injective(env) && NotBefore(db, campaign, id, revision)
    ensures NotBefore(Run(env, db, steps), campaign, id, revision)
    decreases |steps|
  {
    if steps != [] {
      ApplyKeepsInv(env, db, steps[0]);
      StepNotBefore(env, db, steps[0], campaign, id, revision);
      RunNotBefore(env, Apply(env, db, steps[0]).db, steps[1..], campaign, id, revision);
    }
  }

  /** Of all updates of one standard carrying the same expected revision, at most one commits. */
  lemma UpdateCommitsOnce(env: Env, db: Db, steps: seq<Step>, first: Step, second: Step)
    requires Inv(env, db) && Injective(env)
    requires first.Update? && second.Update? && first.campaign == second.campaign && first.expected == second.expected
    requires Apply(env, db, first).outcome == Committed
    ensures Inv(env, Apply(env, db, first).db)
    ensures var later := Run(env, Apply(env, db, first).db, steps);
      && PointersExist(later)
      && (first.campaign in later.standards && later.standards[first.campaign].id == db.standards[first.campaign].id ==>
            Apply(env, later, second).outcome != Committed)
  {
    ApplyKeepsInv(env, db, first);
    var after := Apply(env, db, first).db;
    var id := db.standards[first.campaign].id;
    RunNotBefore(env, after, steps, first.campaign, id, first.expected + 1);
    InvPointersExist(env, Run(env, after, steps));
  }

  // ----- when admin publication aborts

  /** Admin publication aborts on a constraint exactly when the version it compares with differs from the draft
      and either is not the newest version or some other version already has the draft's content. */
  lemma PublishAbortsExactly(env: Env, db: Db, campaign: nat, note: Option<string>)
    requires Inv(env, db) && campaign in db.standards && db.standards[campaign].status != Archived
    requires StandardValidator.Publishable(env.fold, db.standards[campaign].draft)
    ensures PointersExist(db)
    ensures PublishTx(env, db, campaign, note).outcome == Aborted <==>
      var row := db.standards[campaign];
      var current := CurrentOf(db, row);
      && current.Some?
      && db.versions[current.value].hash != env.hash(row.draft)
      && (db.versions[current.value].number < CountOf(db.versions, row.id)
          || FindHash(db.versions, row.id, env.hash(row.draft)).Some?)
  {
    hide StandardValidator.Publishable, RowsDistinct, VersionsOwned, HashesTrue, Violates, Numbered, HashesDistinct, FindHash, Latest;
    InvPointersExist(env, db);
    var row := db.standards[campaign];
    assert PointerSound(env, db, row);
    NextVersionViolates(env, db, row, note);
    CurrentInRange(env, db, row);
  }

  /** The version compared with, if any, is one of the standard's own; without any there is no version at all. */
  lemma CurrentInRange(env: Env, db: Db, row: Row)
    requires Inv(env, db) && PointerSound(env, db, row)
    ensures var current := CurrentOf(db, row);
      if current.Some? then current.value < |db.versions| && 1 <= db.versions[current.value].number <= CountOf(db.versions, row.id)
      else CountOf(db.versions, row.id) == 0 && FindHash(db.versions, row.id, env.hash(row.draft)).None?
  {
    hide StandardValidator.Publishable, RowsDistinct, VersionsOwned, HashesTrue;
    LatestIsCount(db.versions, row.id, |db.versions|);
    assert db.versions[..|db.versions|] == db.versions;
    var current, found := CurrentOf(db, row), FindHash(db.versions, row.id, env.hash(row.draft));
    if current.Some? {
      NumberRange(db.versions, current.value);
    }
    if found.Some? {
      NumberRange(db.versions, found.value);
    }
  }

  lemma NextVersionViolates(env: Env, db: Db, row: Row, note: Option<string>)
    requires Inv(env, db) && PointerSound(env, db, row)
    ensures var v, found := NextVersion(env, db, row, note), FindHash(db.versions, row.id, env.hash(row.draft));
      Violates(db.versions, v) <==> v.number <= CountOf(db.versions, row.id) || found.Some?
  {
    hide StandardValidator.Publishable, RowsDistinct, VersionsOwned, HashesTrue;
    var v, found := NextVersion(env, db, row, note), FindHash(db.versions, row.id, env.hash(row.draft));
    if found.Some? {
      assert db.versions[found.value] in db.versions;
    }
    if row.current.Some? {
      NumberRange(db.versions, row.current.value);
    }
    LatestIsCount(db.versions, row.id, |db.versions|);
    assert db.versions[..|db.versions|] == db.versions;
    if v.number <= CountOf(db.versions, row.id) {
      NumbersTaken(db.versions, row.id, v.number);
    }
    if w :| w in db.versions && w.standard == row.id && (w.number == v.number || w.hash == v.hash) {
      var i :| 0 <= i < |db.versions| && db.versions[i] == w;
      NumberRange(db.versions, i);
    }
  }

  // ----- what a seeded definition does

  /** All standards but this campaign's are as before. */
  ghost predicate OthersKept(before: map<nat, Row>, after: map<nat, Row>, campaign: nat) {
    forall c :: c != campaign ==> (c in before <==> c in after) && (c in before ==> after[c] == before[c])
  }

  /** A source is named by the words of its text, cut at 120 characters, or "unknown" when there are none. */
  lemma SafeSourceMeaning(source: string)
    ensures var words := Words(source, []);
      && (words == [] ==> SafeSource(source) == "unknown")
      && (words != [] ==> SafeSource(source) <= Join(words) && |SafeSource(source)| == Min(|Join(words)|, 120))
      && 1 <= |SafeSource(source)| <= 120
  {
    WordsClean(source, []);
    var words := Words(source, []);
    if words != [] {
      assert words[0] != [] && (|words| > 1 ==> Join(words) == words[0] + " " + Join(words[1..]));
    }
  }

  function Min(a: int, b: int): int { if a < b then a else b }

  /** Two definitions are one rubric exactly when their sources have one name and their names have the same words up to case. */
  lemma IdentityExactly(env: Env, d: Definition, e: Definition)
    ensures IdentityOf(env, d) == IdentityOf(env, e) <==>
      SafeSource(d.source) == SafeSource(e.source) && env.fold(Join(Words(d.name, []))) == env.fold(Join(Words(e.name, [])))
  {
  }

  /** The row was seeded from this source under this name. */
  predicate SeededAs(env: Env, row: Row, d: Definition) {
    && row.identity.Some? && row.identity.value.source == SafeSource(d.source)
    && row.identity.value.key == env.fold(Join(Words(d.name, [])))
  }

  /** A definition succeeds exactly when its campaign exists, no other campaign's standard was seeded as this rubric, its own
      campaign's was if it has one, and, to be published, that is not archived and the content may be. */
  lemma SeedSucceedsExactly(env: Env, db: Db, d: Definition)
    ensures SeedTx(env, db, d).outcome.Returned? <==>
      && d.campaign in db.campaigns
      && (forall c :: c in db.standards && c != d.campaign ==> !SeededAs(env, db.standards[c], d))
      && (d.campaign in db.standards ==> SeededAs(env, db.standards[d.campaign], d))
      && (d.publish ==>
            && (d.campaign in db.standards ==> db.standards[d.campaign].status != Archived)
            && StandardValidator.Publishable(env.fold, d.content))
    ensures !SeedTx(env, db, d).outcome.Returned? ==> SeedTx(env, db, d).db == db
  {
    hide StandardValidator.Publishable, WithVersion, SafeSource, Join, Words;
    forall c | c in db.standards ensures OwnsIdentity(db, c, IdentityOf(env, d)) <==> SeededAs(env, db.standards[c], d) {
    }
  }

  /** The version with this content exists already. */
  predicate HasContent(versions: seq<VersionRow>, standard: nat, content: Standard) {
    exists v :: v in versions && v.standard == standard && v.snapshot == content
  }

  lemma VersionMeaning(env: Env, db: Db, campaign: nat, content: Standard, note: Option<string>)
    requires Inv(env, db) && Injective(env) && campaign in db.standards
    ensures var (versions, k) := WithVersion(env, db, db.standards[campaign].id, content, note);
      && k < |versions| && versions[k].standard == db.standards[campaign].id && versions[k].snapshot == content
      && db.versions <= versions
      && (HasContent(db.versions, db.standards[campaign].id, content) ==> versions == db.versions)
      && (!HasContent(db.versions, db.standards[campaign].id, content) ==>
            && |versions| == |db.versions| + 1 && k == |db.versions|
            && versions[k].number == CountOf(db.versions, db.standards[campaign].id) + 1
            && versions[k].note == note && versions[k].schemaVersion == content.schemaVersion)
  {
    hide StandardValidator.Publishable, RowsDistinct, VersionsOwned, Numbered, HashesDistinct;
    WithVersionKeepsInv(env, db, campaign, content, note);
    var id := db.standards[campaign].id;
    var found := FindHash(db.versions, id, env.hash(content));
    if found.Some? {
      SameHashSameContent(env, db, found.value, content);
      assert db.versions[found.value] in db.versions;
    } else {
      LatestIsCount(db.versions, id, |db.versions|);
      assert db.versions[..|db.versions|] == db.versions;
      assert forall i :: 0 <= i < |db.versions| && db.versions[i].standard == id ==> db.versions[i].snapshot != content;
    }
  }

  /** A definition that succeeds creates its standard if there is none, adds a version if there is none with its content, and,
      to be published, points the standard at it; nothing else changes. */
  lemma SeedMeaning(env: Env, db: Db, d: Definition)
    requires Inv(env, db) && Injective(env) && SeedTx(env, db, d).outcome.Returned?
    ensures var t := SeedTx(env, db, d);
      var after, k := t.db, t.outcome.version;
      && d.campaign in after.standards && OthersKept(db.standards, after.standards, d.campaign)
      && after.campaigns == db.campaigns
      && db.versions <= after.versions && k < |after.versions|
      && after.versions[k].standard == after.standards[d.campaign].id && after.versions[k].snapshot == d.content
    ensures var t := SeedTx(env, db, d);
      var after, k := t.db, t.outcome.version;
      if d.campaign in db.standards then
        var row := db.standards[d.campaign];
        && after.nextStandard == db.nextStandard
        && |after.versions| == |db.versions| + (if HasContent(db.versions, row.id, d.content) then 0 else 1)
        && after.standards[d.campaign]
          == if d.publish && row.current != Some(k) then row.(current := Some(k), status := Published, revision := row.revision + 1) else row
      else
        && after.nextStandard == db.nextStandard + 1 && |after.versions| == |db.versions| + 1 && k == |db.versions|
        && var row := after.standards[d.campaign];
        && row.id == db.nextStandard && row.name == d.name && row.description == d.description && SeededAs(env, row, d)
        && row.draft == d.content && row.passingScore == d.content.overallPassingScore
        && (if d.publish then row.status == Published && row.current == Some(k) && row.revision == 2
            else row.status == Draft && row.current == None && row.revision == 1)
  {
    hide StandardValidator.Publishable, WithVersion, SafeSource, Join, Words, Inv, Injective, OwnershipConflict;
    WithStandardKeepsInv(env, db, d);
    var owned := WithStandard(env, db, d);
    VersionMeaning(env, owned, d.campaign, d.content, d.note);
    if d.campaign !in db.standards {
      FreshHasNoContent(env, db, db.nextStandard, d.content);
    }
  }

  lemma FreshHasNoContent(env: Env, db: Db, standard: nat, content: Standard)
    requires Inv(env, db) && db.nextStandard <= standard
    ensures !HasContent(db.versions, standard, content)
  {
    hide StandardValidator.Publishable;
    forall i | 0 <= i < |db.versions| ensures db.versions[i].standard < db.nextStandard {
      assert Owned(db.standards, db.versions[i].standard);
    }
  }

  // ----- the seeder is idempotent

  /** The database as seeding may have grown it: rows and versions stay, and so does an archived status. */
  ghost predicate Grown(before: Db, after: Db) {
    && before.campaigns == after.campaigns
    && before.versions <= after.versions
    && forall c :: c in before.standards ==>
         && c in after.standards
         && after.standards[c].id == before.standards[c].id
         && after.standards[c].identity == before.standards[c].identity
         && (after.standards[c].status == Archived <==> before.standards[c].status == Archived)
  }

  ghost predicate Fails(env: Env, db: Db, d: Definition) {
    SeedRefusal(env, db, d).Some?
  }

  lemma SeedGrows(env: Env, db: Db, d: Definition)
    ensures Grown(db, SeedTx(env, db, d).db)
  {
    hide StandardValidator.Publishable, FindHash, Latest, OwnershipConflict;
  }

  lemma GrownTransitive(a: Db, b: Db, c: Db)
    requires Grown(a, b) && Grown(b, c)
    ensures Grown(a, c)
  {
  }

  /** A definition that failed once fails again, whatever has been seeded since. */
  lemma FailureRepeats(env: Env, db: Db, later: Db, d: Definition)
    requires Fails(env, db, d) && Grown(db, later)
    ensures Fails(env, later, d)
  {
    if d.campaign in db.campaigns && OwnershipConflict(env, db, d) {
      if c :| c in db.standards && c != d.campaign && OwnsIdentity(db, c, IdentityOf(env, d)) {
        assert OwnsIdentity(later, c, IdentityOf(env, d));
      }
      assert OwnershipConflict(env, later, d);
    }
  }

  /** The version a successful definition resolves to. */
  ghost function Resolved(env: Env, db: Db, d: Definition): (k: nat)
    requires !Fails(env, db, d)
  {
    var owned := WithStandard(env, db, d);
    WithVersion(env, owned, owned.standards[d.campaign].id, d.content, d.note).1
  }

  lemma {:induction false} FirstHash(versions: seq<VersionRow>, more: seq<VersionRow>, standard: nat, hash: string)
    requires versions <= more && FindHash(versions, standard, hash).Some?
    ensures FindHash(more, standard, hash) == FindHash(versions, standard, hash)
  {
    if |versions| < |more| {
      FirstHash(versions, more[..|more| - 1], standard, hash);
    } else {
      assert versions == more;
    }
  }

  lemma {:induction false} AppendedHash(versions: seq<VersionRow>, v: VersionRow)
    requires FindHash(versions, v.standard, v.hash).None?
    ensures FindHash(versions + [v], v.standard, v.hash) == Some(|versions|)
  {
    assert (versions + [v])[..|versions|] == versions;
  }

  lemma VersionFoundAgain(env: Env, db: Db, standard: nat, content: Standard, note: Option<string>)
    ensures var (versions, k) := WithVersion(env, db, standard, content, note);
      FindHash(versions, standard, env.hash(content)) == Some(k)
  {
    if FindHash(db.versions, standard, env.hash(content)).None? {
      var latest := Latest(db.versions, standard);
      var number := if latest.Some? then db.versions[latest.value].number + 1 else 1;
      AppendedHash(db.versions, VersionRow(standard, number, content.schemaVersion, content, env.hash(content), note));
    }
  }

  /** After a definition succeeded, its row and version are found again. */
  lemma Settles(env: Env, db: Db, d: Definition)
    requires !Fails(env, db, d)
    ensures var after := SeedTx(env, db, d).db;
      && OwnsIdentity(after, d.campaign, IdentityOf(env, d))
      && (d.publish ==> after.standards[d.campaign].status != Archived)
      && FindHash(after.versions, after.standards[d.campaign].id, env.hash(d.content)) == Some(Resolved(env, db, d))
  {
    hide StandardValidator.Publishable, WithVersion, FindHash, Latest;
    var owned := WithStandard(env, db, d);
    VersionFoundAgain(env, owned, owned.standards[d.campaign].id, d.content, d.note);
  }

  /** What a seeded definition does to a database that already has its standard and version. */
  datatype Effect = Nothing | Pointed(campaign: nat, version: nat)

  ghost function EffectOf(env: Env, db: Db, d: Definition): Effect {
    if Fails(env, db, d) || !d.publish then Nothing else Pointed(d.campaign, Resolved(env, db, d))
  }

  function ApplyEffect(db: Db, e: Effect): Db {
    if e.Pointed? && e.campaign in db.standards
    then db.(standards := db.standards[e.campaign := PointOnce(db.standards[e.campaign], e.version)]) else db
  }

  /** A definition that succeeded once creates nothing again; it can only move its pointer. */
  lemma SuccessRepeats(env: Env, db: Db, later: Db, d: Definition)
    requires !Fails(env, db, d) && Inv(env, later) && Grown(SeedTx(env, db, d).db, later)
    ensures !Fails(env, later, d)
    ensures SeedTx(env, later, d).db == ApplyEffect(later, EffectOf(env, db, d))
  {
    hide StandardValidator.Publishable, Numbered, HashesDistinct, HashesTrue, VersionsOwned, Latest;
    var after := SeedTx(env, db, d).db;
    Settles(env, db, d);
    FirstHash(after.versions, later.versions, after.standards[d.campaign].id, env.hash(d.content));
    assert OwnsIdentity(later, d.campaign, IdentityOf(env, d));
    assert !OwnershipConflict(env, later, d);
    assert WithStandard(env, later, d) == later;
    assert later.(versions := later.versions) == later;
  }

  /** A published definition leaves its standard published, except a reopened draft that already pointed at its version. */
  lemma SeedLeavesPublished(env: Env, db: Db, d: Definition)
    requires Inv(env, db) && !Fails(env, db, d) && d.publish
    ensures d.campaign in SeedTx(env, db, d).db.standards
    ensures SeedTx(env, db, d).db.standards[d.campaign].current == Some(Resolved(env, db, d))
    ensures SeedTx(env, db, d).db.standards[d.campaign].status != Published <==>
      && d.campaign in db.standards
      && db.standards[d.campaign].status == Draft && db.standards[d.campaign].current == Some(Resolved(env, db, d))
  {
    hide StandardValidator.Publishable, Numbered, HashesDistinct, HashesTrue, VersionsOwned, WithVersion, FindHash, Latest, OwnershipConflict;
  }

  /** Seeds a list of definitions, each in its own transaction. */
  ghost function SeedAll(env: Env, db: Db, ds: seq<Definition>): (r: Db)
    requires Inv(env, db) && Injective(env)
    ensures Inv(env, r)
    decreases |ds|
  {
    if ds == [] then db
    else
      SeedKeepsInv(env, db, ds[0]);
      SeedAll(env, SeedTx(env, db, ds[0]).db, ds[1..])
  }

  /** Seeding one more definition is one more transaction. */
  lemma {:induction false} SeedAllStep(env: Env, db: Db, ds: seq<Definition>, d: Definition)
    requires Inv(env, db) && Injective(env)
    ensures SeedAll(env, db, ds + [d]) == SeedTx(env, SeedAll(env, db, ds), d).db
    decreases |ds|
  {
    hide SeedTx, Inv, Injective;
    if ds == [] {
      assert ds + [d] == [d] && [d][1..] == [];
      SeedKeepsInv(env, db, d);
      assert SeedAll(env, SeedTx(env, db, d).db, []) == SeedTx(env, db, d).db;
    } else {
      SeedKeepsInv(env, db, ds[0]);
      SeedAllStep(env, SeedTx(env, db, ds[0]).db, ds[1..], d);
      assert (ds + [d])[1..] == ds[1..] + [d];
    }
  }

  ghost function Effects(env: Env, db: Db, ds: seq<Definition>): seq<Effect>
    requires Inv(env, db) && Injective(env)
    decreases |ds|
  {
    if ds == [] then []
    else
      SeedKeepsInv(env, db, ds[0]);
      [EffectOf(env, db, ds[0])] + Effects(env, SeedTx(env, db, ds[0]).db, ds[1..])
  }

  function ApplyAll(db: Db, es: seq<Effect>): Db
    decreases |es|
  {
    if es == [] then db else ApplyAll(ApplyEffect(db, es[0]), es[1..])
  }

  lemma {:induction false} SeedAllGrows(env: Env, db: Db, ds: seq<Definition>)
    requires Inv(env, db) && Injective(env)
    ensures Grown(db, SeedAll(env, db, ds))
    decreases |ds|
  {
    if ds != [] {
      SeedKeepsInv(env, db, ds[0]);
      SeedGrows(env, db, ds[0]);
      SeedAllGrows(env, SeedTx(env, db, ds[0]).db, ds[1..]);
      GrownTransitive(db, SeedTx(env, db, ds[0]).db, SeedAll(env, db, ds));
    }
  }

  /** One definition again, on a database grown from the one it was first run on. */
  lemma StepRepeats(env: Env, db: Db, later: Db, d: Definition)
    requires Inv(env, later) && Grown(db, later) && Grown(SeedTx(env, db, d).db, later)
    ensures SeedTx(env, later, d).db == ApplyEffect(later, EffectOf(env, db, d))
  {
    hide Inv, Grown, OwnershipConflict, WithVersion, WithStandard;
    if Fails(env, db, d) {
      FailureRepeats(env, db, later, d);
    } else {
      SuccessRepeats(env, db, later, d);
    }
  }

  /** Running the whole list again only replays the pointer moves of the first run. */
  lemma {:induction false} RunRepeats(env: Env, db: Db, later: Db, ds: seq<Definition>)
    requires Inv(env, db) && Injective(env) && Inv(env, later) && Grown(SeedAll(env, db, ds), later)
    ensures SeedAll(env, later, ds) == ApplyAll(later, Effects(env, db, ds))
    decreases |ds|
  {
    hide Inv, Grown, SeedTx, ApplyEffect;
    if ds != [] {
      var d := ds[0];
      SeedKeepsInv(env, db, d);
      SeedKeepsInv(env, later, d);
      var after, later' := SeedTx(env, db, d).db, SeedTx(env, later, d).db;
      SeedGrows(env, db, d);
      SeedAllGrows(env, after, ds[1..]);
      GrownTransitive(after, SeedAll(env, db, ds), later);
      GrownTransitive(db, after, later);
      StepRepeats(env, db, later, d);
      SeedGrows(env, later, d);
      GrownTransitive(SeedAll(env, db, ds), later, later');
      RunRepeats(env, after, later', ds[1..]);
    }
  }

  // ----- the pointer moves of one standard

  /** The pointer moves of one campaign, applied to its row. */
  function FoldRow(row: Row, es: seq<Effect>, campaign: nat): Row
    decreases |es|
  {
    if es == [] then row
    else if es[0].Pointed? && es[0].campaign == campaign then FoldRow(PointOnce(row, es[0].version), es[1..], campaign)
    else FoldRow(row, es[1..], campaign)
  }

  /** Pointer, status and everything else but the revision. */
  predicate SameButRevision(a: Row, b: Row) {
    a.(revision := 0) == b.(revision := 0)
  }

  lemma {:induction false} FoldUnchanged(row: Row, es: seq<Effect>, campaign: nat)
    requires forall e :: e in es && e.Pointed? && e.campaign == campaign ==> row.current == Some(e.version)
    ensures FoldRow(row, es, campaign) == row
  {
    if es != [] {
      assert es[0] in es;
      FoldUnchanged(row, es[1..], campaign);
    }
  }

  /** A row still unpublished after its moves was already where every one of them pointed. */
  lemma {:induction false} UnpublishedNeverMoved(row: Row, es: seq<Effect>, campaign: nat)
    requires FoldRow(row, es, campaign).status != Published
    ensures forall e :: e in es && e.Pointed? && e.campaign == campaign ==> FoldRow(row, es, campaign).current == Some(e.version)
    ensures FoldRow(row, es, campaign) == row
    decreases |es|
  {
    if es != [] {
      assert es == [es[0]] + es[1..];
      if es[0].Pointed? && es[0].campaign == campaign {
        UnpublishedNeverMoved(PointOnce(row, es[0].version), es[1..], campaign);
      } else {
        UnpublishedNeverMoved(row, es[1..], campaign);
      }
    }
  }

  lemma {:induction false} PublishedStays(row: Row, es: seq<Effect>, campaign: nat)
    requires row.status == Published
    ensures FoldRow(row, es, campaign).status == Published
    decreases |es|
  {
    if es != [] {
      PublishedStays(if es[0].Pointed? && es[0].campaign == campaign then PointOnce(row, es[0].version) else row, es[1..], campaign);
    }
  }

  /** Two rows of one standard end on the same pointer if anything moves it, or if they started on the same one. */
  lemma {:induction false} FoldPointer(a: Row, b: Row, es: seq<Effect>, campaign: nat)
    requires a.(current := None, status := Draft, revision := 0) == b.(current := None, status := Draft, revision := 0)
    ensures var x, y := FoldRow(a, es, campaign), FoldRow(b, es, campaign);
      && x.(current := None, status := Draft, revision := 0) == y.(current := None, status := Draft, revision := 0)
      && (a.current == b.current || (exists e :: e in es && e.Pointed? && e.campaign == campaign) ==> x.current == y.current)
    decreases |es|
  {
    if es != [] {
      assert es == [es[0]] + es[1..];
      if es[0].Pointed? && es[0].campaign == campaign {
        FoldPointer(PointOnce(a, es[0].version), PointOnce(b, es[0].version), es[1..], campaign);
      } else {
        FoldPointer(a, b, es[1..], campaign);
      }
    }
  }

  /** Folding the same moves over their own result changes nothing but the revision. */
  lemma FoldTwice(row: Row, es: seq<Effect>, campaign: nat)
    ensures SameButRevision(FoldRow(FoldRow(row, es, campaign), es, campaign), FoldRow(row, es, campaign))
  {
    var once := FoldRow(row, es, campaign);
    if once.status != Published {
      UnpublishedNeverMoved(row, es, campaign);
      FoldUnchanged(once, es, campaign);
    } else {
      PublishedStays(once, es, campaign);
      FoldRowKeeps(row, es, campaign);
      FoldPointer(once, row, es, campaign);
      if !(exists e :: e in es && e.Pointed? && e.campaign == campaign) {
        FoldUnchanged(once, es, campaign);
      }
    }
  }

  lemma {:induction false} FoldRowKeeps(row: Row, es: seq<Effect>, campaign: nat)
    ensures FoldRow(row, es, campaign).(current := None, status := Draft, revision := 0) == row.(current := None, status := Draft, revision := 0)
    decreases |es|
  {
    if es != [] {
      FoldRowKeeps(if es[0].Pointed? && es[0].campaign == campaign then PointOnce(row, es[0].version) else row, es[1..], campaign);
    }
  }

  lemma {:induction false} ApplyAllRows(db: Db, es: seq<Effect>)
    ensures ApplyAll(db, es).standards.Keys == db.standards.Keys
    ensures ApplyAll(db, es) == db.(standards := ApplyAll(db, es).standards)
    ensures forall c :: c in db.standards ==> ApplyAll(db, es).standards[c] == FoldRow(db.standards[c], es, c)
    decreases |es|
  {
    if es != [] {
      ApplyAllRows(ApplyEffect(db, es[0]), es[1..]);
    }
  }

  // ----- the first run, row by row

  lemma SeedRow(env: Env, db: Db, d: Definition, campaign: nat)
    requires campaign in db.standards
    ensures campaign in SeedTx(env, db, d).db.standards
    ensures SeedTx(env, db, d).db.standards[campaign] == ApplyEffect(db, EffectOf(env, db, d)).standards[campaign]
  {
    hide StandardValidator.Publishable, OwnershipConflict, WithVersion;
  }

  /** A row the definition inserts starts unpublished and takes at most this definition's move. */
  lemma SeedNewRow(env: Env, db: Db, d: Definition, campaign: nat) returns (inserted: Row)
    requires campaign !in db.standards && campaign in SeedTx(env, db, d).db.standards
    ensures SeedTx(env, db, d).db.standards[campaign] == FoldRow(inserted, [EffectOf(env, db, d)], campaign)
  {
    hide StandardValidator.Publishable, OwnershipConflict, WithVersion;
    inserted := WithStandard(env, db, d).standards[campaign];
    assert FoldRow(inserted, [], campaign) == inserted;
  }

  lemma NoMoveWithoutRow(env: Env, db: Db, d: Definition, campaign: nat)
    requires campaign !in SeedTx(env, db, d).db.standards
    ensures EffectOf(env, db, d).Pointed? ==> EffectOf(env, db, d).campaign != campaign
  {
    hide StandardValidator.Publishable, OwnershipConflict, WithVersion;
  }

  lemma {:induction false} FoldFirst(row: Row, e: Effect, es: seq<Effect>, campaign: nat)
    ensures FoldRow(row, [e] + es, campaign) == FoldRow(FoldRow(row, [e], campaign), es, campaign)
  {
    assert ([e] + es)[1..] == es && [e][1..] == [];
  }

  /** Each row after the first run is some starting row with the run's moves applied. */
  lemma {:induction false} FirstRunRow(env: Env, db: Db, ds: seq<Definition>, campaign: nat) returns (start: Row)
    requires Inv(env, db) && Injective(env) && campaign in SeedAll(env, db, ds).standards
    ensures SeedAll(env, db, ds).standards[campaign] == FoldRow(start, Effects(env, db, ds), campaign)
    ensures campaign in db.standards ==> start == db.standards[campaign]
    decreases |ds|
  {
    if ds == [] {
      start := db.standards[campaign];
    } else {
      hide Inv, SeedTx, ApplyEffect, EffectOf;
      SeedKeepsInv(env, db, ds[0]);
      var next, e := SeedTx(env, db, ds[0]).db, EffectOf(env, db, ds[0]);
      var row := FirstRunRow(env, next, ds[1..], campaign);
      if campaign in db.standards {
        start := db.standards[campaign];
        MovedRow(env, db, ds[0], campaign);
      } else if campaign in next.standards {
        start := SeedNewRow(env, db, ds[0], campaign);
      } else {
        start := row;
        NoMoveWithoutRow(env, db, ds[0], campaign);
        FoldUnchanged(row, [e], campaign);
      }
      FoldFirst(start, e, Effects(env, next, ds[1..]), campaign);
    }
  }

  lemma MovedRow(env: Env, db: Db, d: Definition, campaign: nat)
    requires campaign in db.standards
    ensures campaign in SeedTx(env, db, d).db.standards
    ensures SeedTx(env, db, d).db.standards[campaign] == FoldRow(db.standards[campaign], [EffectOf(env, db, d)], campaign)
  {
    hide SeedTx, EffectOf;
    SeedRow(env, db, d, campaign);
    var e := EffectOf(env, db, d);
    assert FoldRow(db.standards[campaign], [e], campaign)
      == FoldRow(if e.Pointed? && e.campaign == campaign then PointOnce(db.standards[campaign], e.version) else db.standards[campaign], [], campaign) by {
      assert [e][1..] == [];
    }
  }

  /** Seeding the same list again creates no standard and no version, and leaves every pointer and status where it was. */
  lemma SeedingIsIdempotent(env: Env, db: Db, ds: seq<Definition>)
    requires Inv(env, db) && Injective(env)
    ensures var once := SeedAll(env, db, ds);
      var twice := SeedAll(env, once, ds);
      && twice.versions == once.versions && twice.nextStandard == once.nextStandard && twice.campaigns == once.campaigns
      && twice.standards.Keys == once.standards.Keys
      && forall c :: c in once.standards ==> SameButRevision(twice.standards[c], once.standards[c])
  {
    hide Inv, SameButRevision;
    var once, es := SeedAll(env, db, ds), Effects(env, db, ds);
    GrownReflexive(once);
    RunRepeats(env, db, once, ds);
    ApplyAllRows(once, es);
    forall c | c in once.standards ensures SameButRevision(ApplyAll(once, es).standards[c], once.standards[c]) {
      var start := FirstRunRow(env, db, ds, c);
      FoldTwice(start, es, c);
    }
  }

  lemma GrownReflexive(db: Db)
    ensures Grown(db, db)
  {
  }
}
