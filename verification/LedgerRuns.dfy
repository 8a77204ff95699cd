/** Concrete runs of the ledger, from an empty one, that end where one would not expect. */
module LedgerRuns {
  import opened Rubric
  import opened Text
  import opened Ledger
  import opened LedgerTheorems
  import StandardValidator

  /** The run from `db` is sound and ends in `last`. */
  ghost predicate Reaches(env: Env, db: Db, steps: seq<Step>, last: Db) {
    && Injective(env) && Inv(env, db) && Inv(env, last) && PointersExist(last)
    && Run(env, db, steps) == last
  }

  lemma {:induction false} RunAppend(env: Env, db: Db, steps: seq<Step>, step: Step)
    requires Inv(env, db) && Injective(env)
    ensures PointersExist(Run(env, db, steps))
    ensures Run(env, db, steps + [step]) == Apply(env, Run(env, db, steps), step).db
    decreases |steps|
  {
    hide Inv, Injective;
    InvPointersExist(env, Run(env, db, steps));
    if steps == [] {
      assert [step][1..] == [] && steps + [step] == [step];
      InvPointersExist(env, db);
      ApplyKeepsInv(env, db, step);
      assert Run(env, Apply(env, db, step).db, []) == Apply(env, db, step).db;
    } else {
      ApplyKeepsInv(env, db, steps[0]);
      RunAppend(env, Apply(env, db, steps[0]).db, steps[1..], step);
      assert (steps + [step])[1..] == steps[1..] + [step];
    }
  }

  /** One more transaction. */
  lemma Then(env: Env, db: Db, steps: seq<Step>, now: Db, step: Step, next: Db) returns (longer: seq<Step>)
    requires Reaches(env, db, steps, now)
    requires PointersExist(now) ==> Apply(env, now, step).db == next
    ensures longer == steps + [step] && Reaches(env, db, longer, next)
  {
    longer := steps + [step];
    hide Inv, Injective;
    RunAppend(env, db, steps, step);
    ApplyKeepsInv(env, now, step);
    InvPointersExist(env, next);
  }

  const EMPTY := Db({0}, map[], [], 0)

  lemma StartEmpty(env: Env)
    requires Injective(env)
    ensures Reaches(env, EMPTY, [], EMPTY)
  {
    EmptyLedger(env, {0});
  }

  /** One standard, of campaign 0, with the name and identity of `base`. */
  ghost function Single(base: Row, versions: seq<VersionRow>, status: Lifecycle, draft: Standard, current: Option<nat>, revision: nat): Db {
    var row := Row(0, base.name, base.description, base.identity, status, draft.overallPassingScore, draft, current, revision);
    Db({0}, map[0 := row], versions, 1)
  }

  function VersionOf(env: Env, content: Standard, number: int): VersionRow {
    VersionRow(0, number, content.schemaVersion, content, env.hash(content), None)
  }

  lemma Reopened(base: Row, versions: seq<VersionRow>, draft: Standard, current: Option<nat>, revision: nat)
    ensures ReopenTx(Single(base, versions, Published, draft, current, revision), 0).db
      == Single(base, versions, Draft, draft, current, revision + 1)
  {
  }

  lemma Updated(base: Row, versions: seq<VersionRow>, draft: Standard, current: Option<nat>, revision: nat, content: Standard)
    ensures UpdateTx(Single(base, versions, Draft, draft, current, revision), 0, revision, None, None, Some(content)).db
      == Single(base, versions, Draft, content, current, revision + 1)
  {
  }

  /** Publication of new content appends the number after the current one. */
  lemma PublishedNext(env: Env, base: Row, versions: seq<VersionRow>, draft: Standard, revision: nat)
    requires StandardValidator.Publishable(env.fold, draft)
    requires forall i :: 0 <= i < |versions| ==>
      versions[i].standard == 0 && versions[i].number == i + 1 && versions[i].hash != env.hash(draft)
    ensures var current := if versions == [] then None else Some(|versions| - 1);
      PointersExist(Single(base, versions, Draft, draft, current, revision)) &&
      PublishTx(env, Single(base, versions, Draft, draft, current, revision), 0, None).db
      == Single(base, versions + [VersionOf(env, draft, |versions| + 1)], Published, draft, Some(|versions|), revision + 1)
  {
    hide StandardValidator.Publishable;
  }

  /** A pointer below the newest version, or content that some version has, makes publication abort. */
  lemma PublicationBlocked(env: Env, base: Row, versions: seq<VersionRow>, draft: Standard, current: nat, revision: nat)
    requires StandardValidator.Publishable(env.fold, draft) && current < |versions| && versions[current].hash != env.hash(draft)
    requires exists v :: v in versions && v.standard == 0 && (v.number == versions[current].number + 1 || v.hash == env.hash(draft))
    ensures PointersExist(Single(base, versions, Draft, draft, Some(current), revision))
    ensures PublishTx(env, Single(base, versions, Draft, draft, Some(current), revision), 0, None).outcome == Aborted
  {
    hide StandardValidator.Publishable;
  }

  lemma Created(content: Standard, base: Row)
    requires base == Row(0, "", None, None, Draft, 0, content, None, 0)
    ensures CreateTx(EMPTY, 0, "", None, content).db == Single(base, [], Draft, content, None, 1)
  {
  }

  /** Reopening and drafting other content. */
  lemma Redrafted(env: Env, base: Row, versions: seq<VersionRow>, a: Standard, current: nat, revision: nat, c: Standard, before: seq<Step>)
    returns (steps: seq<Step>)
    requires Reaches(env, EMPTY, before, Single(base, versions, Published, a, Some(current), revision))
    ensures steps == before + [Reopen(0), Update(0, revision + 1, None, None, Some(c))]
    ensures Reaches(env, EMPTY, steps, Single(base, versions, Draft, c, Some(current), revision + 2))
  {
    hide Reaches, UpdateTx, ReopenTx, Single;
    var at := Some(current);
    Reopened(base, versions, a, at, revision);
    steps := Then(env, EMPTY, before, Single(base, versions, Published, a, at, revision), Reopen(0), Single(base, versions, Draft, a, at, revision + 1));
    Updated(base, versions, a, at, revision + 1, c);
    steps := Then(env, EMPTY, steps, Single(base, versions, Draft, a, at, revision + 1),
      Update(0, revision + 1, None, None, Some(c)), Single(base, versions, Draft, c, at, revision + 2));
  }

  // ----- publishing A, then B, then A again

  /** Creating and publishing A, then a draft of B. */
  lemma PublishedA(env: Env, base: Row, a: Standard, b: Standard) returns (steps: seq<Step>)
    requires Injective(env) && StandardValidator.Publishable(env.fold, a) && base == Row(0, "", None, None, Draft, 0, a, None, 0)
    ensures steps == [Create(0, "", None, a), Publish(0, None), Reopen(0), Update(0, 3, None, None, Some(b))]
    ensures Reaches(env, EMPTY, steps, Single(base, [VersionOf(env, a, 1)], Draft, b, Some(0), 4))
  {
    hide Injective, Reaches, CreateTx, UpdateTx, PublishTx, ReopenTx, StandardValidator.Publishable, Single, VersionOf;
    var one := [VersionOf(env, a, 1)];
    StartEmpty(env);
    Created(a, base);
    steps := Then(env, EMPTY, [], EMPTY, Create(0, "", None, a), Single(base, [], Draft, a, None, 1));
    PublishedNext(env, base, [], a, 1);
    assert [] + [VersionOf(env, a, 1)] == one;
    steps := Then(env, EMPTY, steps, Single(base, [], Draft, a, None, 1), Publish(0, None), Single(base, one, Published, a, Some(0), 2));
    steps := Redrafted(env, base, one, a, 0, 2, b, steps);
  }

  /** Then publishing B, and a draft of A again. */
  lemma PublishedB(env: Env, base: Row, a: Standard, b: Standard, before: seq<Step>) returns (steps: seq<Step>)
    requires Injective(env) && StandardValidator.Publishable(env.fold, b) && env.hash(a) != env.hash(b)
    requires Reaches(env, EMPTY, before, Single(base, [VersionOf(env, a, 1)], Draft, b, Some(0), 4))
    ensures steps == before + [Publish(0, None), Reopen(0), Update(0, 6, None, None, Some(a))]
    ensures Reaches(env, EMPTY, steps, Single(base, [VersionOf(env, a, 1), VersionOf(env, b, 2)], Draft, a, Some(1), 7))
  {
    var one, two := [VersionOf(env, a, 1)], [VersionOf(env, a, 1), VersionOf(env, b, 2)];
    PublishedNext(env, base, one, b, 4);
    hide Injective, Reaches, CreateTx, UpdateTx, PublishTx, ReopenTx, StandardValidator.Publishable, Single, VersionOf;
    assert one + [VersionOf(env, b, 2)] == two;
    steps := Then(env, EMPTY, before, Single(base, one, Draft, b, Some(0), 4), Publish(0, None), Single(base, two, Published, b, Some(1), 5));
    steps := Redrafted(env, base, two, b, 1, 5, a, steps);
  }

  /** From an empty ledger, republishing the first of two published contents aborts on the content-hash constraint. */
  lemma RepublishOldContentAborts(env: Env, a: Standard, b: Standard) returns (steps: seq<Step>, db: Db)
    requires Injective(env) && a != b
    requires StandardValidator.Publishable(env.fold, a) && StandardValidator.Publishable(env.fold, b)
    ensures steps == [Create(0, "", None, a), Publish(0, None), Reopen(0), Update(0, 3, None, None, Some(b)),
                      Publish(0, None), Reopen(0), Update(0, 6, None, None, Some(a))]
    ensures Reaches(env, EMPTY, steps, db)
    ensures 0 in db.standards && db.standards[0].draft == a && db.standards[0].current == Some(1) && PointersExist(db)
    ensures |db.versions| == 2 && db.versions[0].snapshot == a && db.versions[1].snapshot == b
    ensures PublishTx(env, db, 0, None).outcome == Aborted
  {
    var base := Row(0, "", None, None, Draft, 0, a, None, 0);
    assert env.hash(a) != env.hash(b);
    hide Injective, Reaches, PublishTx, StandardValidator.Publishable, Single;
    var two := [VersionOf(env, a, 1), VersionOf(env, b, 2)];
    var before := PublishedA(env, base, a, b);
    steps := PublishedB(env, base, a, b, before);
    db := Single(base, two, Draft, a, Some(1), 7);
    assert two[0] in two;
    PublicationBlocked(env, base, two, a, 1, 7);
    SingleAt(env, base, two, a, Some(1), 7, steps);
  }

  lemma SingleAt(env: Env, base: Row, versions: seq<VersionRow>, draft: Standard, current: Option<nat>, revision: nat, steps: seq<Step>)
    requires Reaches(env, EMPTY, steps, Single(base, versions, Draft, draft, current, revision))
    ensures var db := Single(base, versions, Draft, draft, current, revision);
      PointersExist(db) && 0 in db.standards && db.versions == versions
      && db.standards[0].draft == draft && db.standards[0].current == current && db.standards[0].status == Draft
  {
  }

  // ----- the seeder and a reopened draft

  /** A definition for campaign 0 that may be published, with no note. */
  ghost predicate Ready(env: Env, d: Definition) {
    d.campaign == 0 && d.publish && d.note == None && StandardValidator.Publishable(env.fold, d.content)
  }

  /** The name and identity a seeded standard gets. */
  function BaseOf(env: Env, d: Definition): Row {
    Row(0, d.name, d.description, Some(IdentityOf(env, d)), Draft, 0, d.content, None, 0)
  }

  lemma SeededFirst(env: Env, d: Definition)
    requires Ready(env, d)
    ensures SeedTx(env, EMPTY, d).db == Single(BaseOf(env, d), [VersionOf(env, d.content, 1)], Published, d.content, Some(0), 2)
  {
    hide StandardValidator.Publishable;
    assert !OwnershipConflict(env, EMPTY, d);
    var owned := WithStandard(env, EMPTY, d);
    assert owned == Single(BaseOf(env, d), [], Draft, d.content, None, 1);
    assert owned.versions == [] && [] + [VersionOf(env, d.content, 1)] == [VersionOf(env, d.content, 1)];
    assert FindHash([], 0, env.hash(d.content)).None? && Latest([], 0).None?;
  }

  /** Seeding again: the version is found, and the pointer moves unless it is already there. */
  lemma SeededAgain(env: Env, d: Definition, e: Definition, versions: seq<VersionRow>, status: Lifecycle, current: nat, revision: nat, k: nat)
    requires Ready(env, d) && IdentityOf(env, d) == IdentityOf(env, e) && status != Archived
    requires FindHash(versions, 0, env.hash(d.content)) == Some(k)
    ensures SeedTx(env, Single(BaseOf(env, e), versions, status, e.content, Some(current), revision), d).db
      == if current == k then Single(BaseOf(env, e), versions, status, e.content, Some(current), revision)
         else Single(BaseOf(env, e), versions, Published, e.content, Some(k), revision + 1)
  {
    hide StandardValidator.Publishable, FindHash, Latest;
    var db := Single(BaseOf(env, e), versions, status, e.content, Some(current), revision);
    assert OwnsIdentity(db, 0, IdentityOf(env, d)) && !OwnershipConflict(env, db, d);
    assert WithVersion(env, db, 0, d.content, None) == (versions, k);
  }

  lemma SeededNew(env: Env, d: Definition, e: Definition, versions: seq<VersionRow>, revision: nat)
    requires Ready(env, d) && IdentityOf(env, d) == IdentityOf(env, e)
    requires |versions| == 1 && versions[0].standard == 0 && versions[0].number == 1 && versions[0].hash != env.hash(d.content)
    ensures SeedTx(env, Single(BaseOf(env, e), versions, Published, e.content, Some(0), revision), d).db
      == Single(BaseOf(env, e), versions + [VersionOf(env, d.content, 2)], Published, e.content, Some(1), revision + 1)
  {
    hide StandardValidator.Publishable;
    var db := Single(BaseOf(env, e), versions, Published, e.content, Some(0), revision);
    assert OwnsIdentity(db, 0, IdentityOf(env, d)) && !OwnershipConflict(env, db, d);
    assert WithVersion(env, db, 0, d.content, None) == (versions + [VersionOf(env, d.content, 2)], 1);
  }

  /** Seed, reopen, seed again: the second seeding succeeds and leaves the standard a draft. */
  lemma SeedAfterReopenStaysDraft(env: Env, d: Definition) returns (steps: seq<Step>, db: Db)
    requires Injective(env) && Ready(env, d)
    ensures steps == [Seed(d), Reopen(0), Seed(d)]
    ensures Reaches(env, EMPTY, steps, db) && 0 in db.standards && db.standards[0].status == Draft
    ensures !Fails(env, db, d) && db.standards[0].current == Some(0) && db.versions == [VersionOf(env, d.content, 1)]
  {
    hide Injective, Reaches, SeedTx, ReopenTx, StandardValidator.Publishable, Single;
    var base, one := BaseOf(env, d), [VersionOf(env, d.content, 1)];
    StartEmpty(env);
    SeededFirst(env, d);
    steps := Then(env, EMPTY, [], EMPTY, Seed(d), Single(base, one, Published, d.content, Some(0), 2));
    Reopened(base, one, d.content, Some(0), 2);
    steps := Then(env, EMPTY, steps, Single(base, one, Published, d.content, Some(0), 2), Reopen(0), Single(base, one, Draft, d.content, Some(0), 3));
    OnlyHash(env, d.content);
    SeededAgain(env, d, d, one, Draft, 0, 3, 0);
    steps := Then(env, EMPTY, steps, Single(base, one, Draft, d.content, Some(0), 3), Seed(d), Single(base, one, Draft, d.content, Some(0), 3));
    db := Single(base, one, Draft, d.content, Some(0), 3);
    SingleAt(env, base, one, d.content, Some(0), 3, steps);
    SeededSucceeds(env, d, one, 0, 3);
  }

  lemma SeededSucceeds(env: Env, d: Definition, versions: seq<VersionRow>, current: nat, revision: nat)
    requires Ready(env, d)
    ensures !Fails(env, Single(BaseOf(env, d), versions, Draft, d.content, Some(current), revision), d)
  {
    hide StandardValidator.Publishable;
    var db := Single(BaseOf(env, d), versions, Draft, d.content, Some(current), revision);
    assert OwnsIdentity(db, 0, IdentityOf(env, d)) && !OwnershipConflict(env, db, d);
  }

  lemma OnlyHash(env: Env, a: Standard)
    ensures FindHash([VersionOf(env, a, 1)], 0, env.hash(a)) == Some(0)
  {
  }

  lemma FirstOfTwo(env: Env, a: Standard, b: Standard)
    requires env.hash(a) != env.hash(b)
    ensures FindHash([VersionOf(env, a, 1), VersionOf(env, b, 2)], 0, env.hash(a)) == Some(0)
  {
    var two := [VersionOf(env, a, 1), VersionOf(env, b, 2)];
    assert two[0].hash == env.hash(a);
  }

  /** Seeding A, then B, then A: the pointer is back on version 1 of 2. */
  lemma SeededBack(env: Env, d: Definition, e: Definition) returns (steps: seq<Step>)
    requires Injective(env) && Ready(env, d) && Ready(env, e) && IdentityOf(env, d) == IdentityOf(env, e)
    requires env.hash(d.content) != env.hash(e.content)
    ensures steps == [Seed(d), Seed(e), Seed(d)]
    ensures Reaches(env, EMPTY, steps,
      Single(BaseOf(env, d), [VersionOf(env, d.content, 1), VersionOf(env, e.content, 2)], Published, d.content, Some(0), 4))
  {
    hide Injective, Reaches, SeedTx, StandardValidator.Publishable, Single, FindHash, IdentityOf, BaseOf, Ready;
    var base, a, b := BaseOf(env, d), d.content, e.content;
    var one, two := [VersionOf(env, a, 1)], [VersionOf(env, a, 1), VersionOf(env, b, 2)];
    SeededFirst(env, d);
    SeededNew(env, e, d, one, 2);
    FirstOfTwo(env, a, b);
    SeededAgain(env, d, d, two, Published, 1, 3, 0);
    StartEmpty(env);
    steps := Then(env, EMPTY, [], EMPTY, Seed(d), Single(base, one, Published, a, Some(0), 2));
    assert one + [VersionOf(env, b, 2)] == two;
    steps := Then(env, EMPTY, steps, Single(base, one, Published, a, Some(0), 2), Seed(e), Single(base, two, Published, a, Some(1), 3));
    steps := Then(env, EMPTY, steps, Single(base, two, Published, a, Some(1), 3), Seed(d), Single(base, two, Published, a, Some(0), 4));
  }

  lemma NeitherOfTwo(env: Env, a: Standard, b: Standard, c: Standard)
    requires env.hash(c) != env.hash(a) && env.hash(c) != env.hash(b)
    ensures FindHash([VersionOf(env, a, 1), VersionOf(env, b, 2)], 0, env.hash(c)).None?
  {
    var two := [VersionOf(env, a, 1), VersionOf(env, b, 2)];
    assert two[..1] == [VersionOf(env, a, 1)] && FindHash([VersionOf(env, a, 1)], 0, env.hash(c)).None?;
  }

  /** The seeder moves the pointer back to version 1 of 2; publishing new content then takes number 2 again and aborts. */
  lemma PublishAfterSeedMovedBackAborts(env: Env, d: Definition, e: Definition, c: Standard) returns (steps: seq<Step>, db: Db)
    requires Injective(env) && Ready(env, d) && Ready(env, e) && IdentityOf(env, d) == IdentityOf(env, e)
    requires StandardValidator.Publishable(env.fold, c) && d.content != e.content && c != d.content && c != e.content
    ensures steps == [Seed(d), Seed(e), Seed(d), Reopen(0), Update(0, 5, None, None, Some(c))]
    ensures Reaches(env, EMPTY, steps, db)
    ensures 0 in db.standards && db.standards[0].current == Some(0) && db.standards[0].draft == c && PointersExist(db)
    ensures |db.versions| == 2 && FindHash(db.versions, 0, env.hash(c)).None?
    ensures PublishTx(env, db, 0, None).outcome == Aborted
  {
    var base, a, b := BaseOf(env, d), d.content, e.content;
    assert env.hash(a) != env.hash(b) && env.hash(c) != env.hash(a) && env.hash(c) != env.hash(b);
    var two := [VersionOf(env, a, 1), VersionOf(env, b, 2)];
    hide Injective, Reaches, PublishTx, StandardValidator.Publishable, Single, FindHash, BaseOf, Ready, IdentityOf;
    var before := SeededBack(env, d, e);
    steps := Redrafted(env, base, two, a, 0, 4, c, before);
    db := Single(base, two, Draft, c, Some(0), 6);
    assert two[1] in two;
    NeitherOfTwo(env, a, b, c);
    PublicationBlocked(env, base, two, c, 0, 6);
    SingleAt(env, base, two, c, Some(0), 6, steps);
  }

  /** One source, two campaigns, two names: from a ledger without standards, both rubrics are created and published. */
  lemma TwoRubricsOfOneSource(env: Env, d: Definition, e: Definition)
    requires Injective(env) && d.campaign == 0 && e.campaign == 1 && d.source == e.source
    requires env.fold(Join(Words(d.name, []))) != env.fold(Join(Words(e.name, [])))
    requires d.publish && e.publish
    requires StandardValidator.Publishable(env.fold, d.content) && StandardValidator.Publishable(env.fold, e.content)
    ensures Inv(env, Db({0, 1}, map[], [], 0))
    ensures var db := SeedAll(env, Db({0, 1}, map[], [], 0), [d, e]);
      && db.standards.Keys == {0, 1} && |db.versions| == 2
      && db.standards[0].status == Published && db.standards[0].current == Some(0) && db.standards[0].draft == d.content
      && db.standards[1].status == Published && db.standards[1].current == Some(1) && db.standards[1].draft == e.content
  {
    hide Injective, Inv, SeedTx, StandardValidator.Publishable, Join, Words, SafeSource;
    var start := Db({0, 1}, map[], [], 0);
    EmptyLedger(env, {0, 1});
    SeedSucceedsExactly(env, start, d);
    SeedMeaning(env, start, d);
    SeedKeepsInv(env, start, d);
    var one := SeedTx(env, start, d).db;
    SeedSucceedsExactly(env, one, e);
    SeedMeaning(env, one, e);
    assert [d] + [e] == [d, e] && [] + [d] == [d];
    SeedAllStep(env, start, [], d);
    SeedAllStep(env, start, [d], e);
    assert SeedAll(env, start, []) == start;
  }
}
