/** The lifecycle service and the rubric seeder, acting on the shared tables. */
module StandardService {
  import opened Rubric
  import opened Text
  import opened Ledger
  import opened LedgerTheorems
  import StandardValidator

  class Tables {
    const env: Env
    const campaigns: set<nat>
    var standards: map<nat, Row>
    var versions: seq<VersionRow>
    var nextStandard: nat

    ghost function State(): Db
      reads this
    {
      Db(campaigns, standards, versions, nextStandard)
    }

    ghost predicate Valid()
      reads this
    {
      Injective(env) && Inv(env, State())
    }

    constructor (env: Env, campaigns: set<nat>)
      requires Injective(env)
      ensures Valid() && State() == Db(campaigns, map[], [], 0) && this.env == env
    {
      this.env, this.campaigns := env, campaigns;
      standards, versions, nextStandard := map[], [], 0;
    }

    method CreateStandard(campaign: nat, name: string, description: Option<string>, content: Standard) returns (outcome: Outcome)
      requires Valid()
      modifies this
      ensures Valid() && Tx(State(), outcome) == CreateTx(old(State()), campaign, name, description, content)
      ensures outcome == Committed <==> campaign in campaigns && campaign !in old(standards)
      ensures outcome == Committed ==>
        && campaign in standards && OthersKept(old(standards), standards, campaign)
        && versions == old(versions) && nextStandard == old(nextStandard) + 1
        && var row := standards[campaign];
        && row.id == old(nextStandard) && row.name == name && row.description == description && row.identity == None
        && row.status == Draft && row.draft == content && row.passingScore == content.overallPassingScore
        && row.current == None && row.revision == 1
      ensures outcome != Committed ==> State() == old(State())
    {
      ApplyKeepsInv(env, State(), Create(campaign, name, description, content));
      if campaign !in campaigns {
        return Refused(NotFound);
      }
      if campaign in standards {
        return Refused(Conflict);
      }
      var row := Row(nextStandard, name, description, None, Draft, content.overallPassingScore, content, None, 1);
      nextStandard := nextStandard + 1;
      standards := standards[campaign := row];
      return Committed;
    }

    method UpdateDraft(campaign: nat, expected: nat, name: Option<string>, description: Option<string>, content: Option<Standard>)
      returns (outcome: Outcome)
      requires Valid()
      modifies this
      ensures Valid() && Tx(State(), outcome) == UpdateTx(old(State()), campaign, expected, name, description, content)
      ensures outcome == Committed <==>
        campaign in old(standards) && old(standards[campaign].status) == Draft && old(standards[campaign].revision) == expected
      ensures outcome == Refused(StaleRevision) <==>
        campaign in old(standards) && old(standards[campaign].status) == Draft && old(standards[campaign].revision) != expected
      ensures outcome == Committed ==>
        && campaign in standards && OthersKept(old(standards), standards, campaign)
        && versions == old(versions) && nextStandard == old(nextStandard)
        && var row, was := standards[campaign], old(standards[campaign]);
        && row.id == was.id && row.identity == was.identity && row.status == Draft && row.current == was.current
        && row.revision == expected + 1
        && row.name == (if name.Some? then name.value else was.name)
        && row.description == (if description.Some? then description else was.description)
        && row.draft == (if content.Some? then content.value else was.draft)
        && row.passingScore == (if content.Some? then content.value.overallPassingScore else was.passingScore)
      ensures outcome != Committed ==> State() == old(State())
    {
      hide Inv, Injective;
      ApplyKeepsInv(env, State(), Update(campaign, expected, name, description, content));
      if campaign !in standards {
        return Refused(NotFound);
      }
      var row := standards[campaign];
      if row.status != Draft {
        return Refused(Conflict);
      }
      if row.revision != expected {
        return Refused(StaleRevision);
      }
      if name.Some? {
        row := row.(name := name.value);
      }
      if description.Some? {
        row := row.(description := description);
      }
      if content.Some? {
        row := row.(passingScore := content.value.overallPassingScore, draft := content.value);
      }
      row := row.(revision := row.revision + 1);
      standards := standards[campaign := row];
      return Committed;
    }

    method DeleteDraft(campaign: nat) returns (outcome: Outcome)
      requires Valid()
      modifies this
      ensures Valid() && Tx(State(), outcome) == DeleteTx(old(State()), campaign)
      ensures outcome == Committed <==>
        && campaign in old(standards) && old(standards[campaign].status) == Draft
        && forall v :: v in old(versions) ==> v.standard != old(standards[campaign].id)
      ensures outcome == Committed ==>
        && campaign !in standards && OthersKept(old(standards), standards, campaign)
        && versions == old(versions) && nextStandard == old(nextStandard)
      ensures outcome != Committed ==> State() == old(State())
    {
      DeleteKeepsInv(env, State(), campaign);
      if campaign !in standards {
        return Refused(NotFound);
      }
      var row := standards[campaign];
      if row.status != Draft {
        return Refused(Conflict);
      }
      if exists v :: v in versions && v.standard == row.id {
        return Refused(Conflict);
      }
      standards := standards - {campaign};
      return Committed;
    }

    /** Inserts a version unless a uniqueness constraint rejects it. */
    method InsertVersion(v: VersionRow) returns (ok: bool)
      modifies this`versions
      ensures ok == !Violates(old(versions), v)
      ensures versions == if ok then old(versions) + [v] else old(versions)
    {
      ok := !Violates(versions, v);
      if ok {
        versions := versions + [v];
      }
    }

    method PublishStandard(campaign: nat, note: Option<string>) returns (outcome: Outcome)
      requires Valid()
      modifies this
      ensures PointersExist(old(State()))
      ensures Valid() && Tx(State(), outcome) == PublishTx(env, old(State()), campaign, note)
      ensures outcome == Refused(NotFound) <==> campaign !in old(standards)
      ensures outcome == Refused(Conflict) <==> campaign in old(standards) && old(standards[campaign].status) == Archived
      ensures outcome == Refused(Invalid) <==>
        && campaign in old(standards) && old(standards[campaign].status) != Archived
        && !StandardValidator.Publishable(env.fold, old(standards[campaign].draft))
      ensures outcome.Returned? ==>
        && campaign in old(standards) && campaign in standards && OthersKept(old(standards), standards, campaign)
        && nextStandard == old(nextStandard)
        && var k, row, was := outcome.version, standards[campaign], old(standards[campaign]);
        && k < |versions| && versions[k].standard == row.id && versions[k].snapshot == was.draft
        && old(versions) <= versions
        && (k < |old(versions)| ==> versions == old(versions))
        && (k >= |old(versions)| ==> |versions| == |old(versions)| + 1 && versions[k].note == note && versions[k].schemaVersion == was.draft.schemaVersion)
        && row == was.(status := Published, current := Some(k), revision := row.revision)
        && row.revision == was.revision + (if was.status == Published && was.current == Some(k) then 0 else 1)
      ensures !outcome.Returned? ==> State() == old(State())
    {
      hide Inv, Injective, StandardValidator.Publishable, Violates, FindHash, Latest;
      PublishKeepsInv(env, State(), campaign, note);
      if campaign !in standards {
        return Refused(NotFound);
      }
      var row := standards[campaign];
      CurrentIsOwn(env, State(), campaign);
      if row.status == Archived {
        return Refused(Conflict);
      }
      var valid, _, _ := StandardValidator.ValidateStandard(env.fold, row.draft);
      if !valid {
        return Refused(Invalid);
      }
      var hash := env.hash(row.draft);
      var current := row.current;
      if current.None? {
        current := Latest(versions, row.id);
      }
      if current.Some? && versions[current.value].hash == hash {
        if row.status != Published || row.current != current {
          standards := standards[campaign := Point(row, current.value)];
        }
        return Returned(current.value);
      }
      var number := if current.Some? then versions[current.value].number + 1 else 1;
      var id := |versions|;
      var inserted := InsertVersion(VersionRow(row.id, number, row.draft.schemaVersion, row.draft, hash, note));
      if !inserted {
        return Aborted;
      }
      standards := standards[campaign := row.(current := Some(id), status := Published, revision := row.revision + 1)];
      return Returned(id);
    }

    method ReopenDraft(campaign: nat) returns (outcome: Outcome)
      requires Valid()
      modifies this
      ensures Valid() && Tx(State(), outcome) == ReopenTx(old(State()), campaign)
      ensures outcome == Committed <==> campaign in old(standards) && old(standards[campaign].status) != Draft
      ensures outcome == Committed ==>
        && campaign in standards && OthersKept(old(standards), standards, campaign)
        && versions == old(versions) && nextStandard == old(nextStandard)
        && standards[campaign] == old(standards[campaign]).(status := Draft, revision := old(standards[campaign].revision) + 1)
      ensures outcome != Committed ==> State() == old(State())
    {
      hide Inv, Injective;
      ApplyKeepsInv(env, State(), Reopen(campaign));
      if campaign !in standards {
        return Refused(NotFound);
      }
      var row := standards[campaign];
      if row.status == Draft {
        return Refused(Conflict);
      }
      standards := standards[campaign := row.(status := Draft, revision := row.revision + 1)];
      return Committed;
    }

    method ArchiveStandard(campaign: nat) returns (outcome: Outcome)
      requires Valid()
      modifies this
      ensures Valid() && Tx(State(), outcome) == ArchiveTx(old(State()), campaign)
      ensures outcome == Committed <==> campaign in old(standards)
      ensures outcome == Committed ==>
        && campaign in standards && OthersKept(old(standards), standards, campaign)
        && versions == old(versions) && nextStandard == old(nextStandard)
        && var row, was := standards[campaign], old(standards[campaign]);
        && row == was.(status := Archived, revision := row.revision)
        && row.revision == was.revision + (if was.status == Archived then 0 else 1)
      ensures outcome != Committed ==> State() == old(State())
    {
      hide Inv, Injective;
      ApplyKeepsInv(env, State(), Archive(campaign));
      if campaign !in standards {
        return Refused(NotFound);
      }
      var row := standards[campaign];
      if row.status == Archived {
        return Committed;
      }
      standards := standards[campaign := row.(status := Archived, revision := row.revision + 1)];
      return Committed;
    }

    /** Finds or inserts the standard; flushes only, so the caller can still roll back. */
    method GetOrCreateSeedStandard(d: Definition) returns (found: bool)
      requires Valid()
      modifies this
      ensures found <==> d.campaign in campaigns && !OwnershipConflict(env, old(State()), d)
      ensures State() == if found then WithStandard(env, old(State()), d) else old(State())
      ensures found ==> Valid() && d.campaign in standards
    {
      if d.campaign !in campaigns {
        return false;
      }
      var identity := IdentityOf(env, d);
      if c :| c in standards && standards[c].identity == Some(identity) {
        if c != d.campaign {
          assert OwnsIdentity(State(), c, identity);
          return false;
        }
        OwnerIsUnique(env, State(), d);
        assert WithStandard(env, State(), d) == State();
        return true;
      }
      if d.campaign in standards {
        return false;
      }
      WithStandardKeepsInv(env, State(), d);
      var row := Row(nextStandard, d.name, d.description, Some(identity), Draft, d.content.overallPassingScore, d.content, None, 1);
      nextStandard := nextStandard + 1;
      standards := standards[d.campaign := row];
      return true;
    }

    /** Reuses the standard's version with this content, or inserts the next-numbered one. */
    method GetOrCreateSeedVersion(campaign: nat, content: Standard, note: Option<string>) returns (k: nat, created: bool)
      requires Valid() && campaign in standards
      modifies this`versions
      ensures (versions, k) == WithVersion(env, old(State()), standards[campaign].id, content, note)
      ensures created ==> k == |old(versions)|
      ensures Valid()
      ensures k < |versions| && (created <==> k >= |old(versions)|)
    {
      hide Inv, Injective, FindHash, Latest, Violates;
      var standard, hash := standards[campaign].id, env.hash(content);
      WithVersionKeepsInv(env, State(), campaign, content, note);
      var existing := FindHash(versions, standard, hash);
      if existing.Some? {
        return existing.value, false;
      }
      SeedInsertFits(env, State(), standard, content, note);
      var latest := Latest(versions, standard);
      var number := if latest.Some? then versions[latest.value].number + 1 else 1;
      k := |versions|;
      created := InsertVersion(VersionRow(standard, number, content.schemaVersion, content, hash, note));
    }

    /** Publishes seed content under the definition's transaction; `published` says whether the row changed. */
    method PublishSeedStandard(d: Definition) returns (r: Result<nat, Refusal>, published: bool)
      requires Valid() && d.campaign in standards
      modifies this
      ensures standards.Keys == old(standards.Keys)
      ensures r.Err? ==> State() == old(State()) && !published
      ensures r.Ok? ==> (published <==> old(standards[d.campaign].current) != Some(r.value))
      ensures old(standards[d.campaign].status) == Archived ==> r == Err(Conflict)
      ensures old(standards[d.campaign].status) != Archived && !StandardValidator.Publishable(env.fold, d.content) ==> r == Err(Invalid)
      ensures old(standards[d.campaign].status) != Archived && StandardValidator.Publishable(env.fold, d.content) ==>
        var (vs, k) := WithVersion(env, old(State()), old(standards[d.campaign].id), d.content, d.note);
        r == Ok(k) && State() == old(State()).(versions := vs, standards := old(standards)[d.campaign := PointOnce(old(standards[d.campaign]), k)])
    {
      hide Inv, Injective, StandardValidator.Publishable, WithVersion, StandardValidator.Defect;
      var row := standards[d.campaign];
      if row.status == Archived {
        return Err(Conflict), false;
      }
      var valid, _, _ := StandardValidator.ValidateStandard(env.fold, d.content);
      if !valid {
        return Err(Invalid), false;
      }
      var k, created := GetOrCreateSeedVersion(d.campaign, d.content, d.note);
      InvPointersExist(env, old(State()));
      if !created && row.current == Some(k) {
        assert standards == old(standards)[d.campaign := row];
        return Ok(k), false;
      }
      standards := standards[d.campaign := row.(current := Some(k), status := Published, revision := row.revision + 1)];
      return Ok(k), true;
    }

    /** One definition in its own transaction: any failure restores the tables. */
    method SeedDefinition(d: Definition) returns (outcome: Outcome)
      requires Valid()
      modifies this
      ensures Valid() && Tx(State(), outcome) == SeedTx(env, old(State()), d)
      ensures outcome.Returned? ==>
        && d.campaign in standards && OthersKept(old(standards), standards, d.campaign)
        && old(versions) <= versions && outcome.version < |versions|
        && versions[outcome.version].standard == standards[d.campaign].id && versions[outcome.version].snapshot == d.content
        && (d.publish ==> standards[d.campaign].current == Some(outcome.version))
        && (d.campaign in old(standards) && !d.publish ==> standards[d.campaign] == old(standards[d.campaign]))
      ensures !outcome.Returned? ==> State() == old(State())
    {
      hide Words, Join, Inv, Injective, StandardValidator.Publishable, Latest, FindHash;
      SeedKeepsInv(env, State(), d);
      SeedSucceedsExactly(env, State(), d);
      if SeedTx(env, State(), d).outcome.Returned? {
        SeedMeaning(env, State(), d);
      }
      var savedStandards, savedVersions, savedNext := standards, versions, nextStandard;
      var owned := GetOrCreateSeedStandard(d);
      if !owned {
        return Refused(Conflict);
      }
      if d.publish {
        var version, _ := PublishSeedStandard(d);
        if version.Err? {
          standards, versions, nextStandard := savedStandards, savedVersions, savedNext;
          return Refused(version.error);
        }
        return Returned(version.value);
      }
      var k, _ := GetOrCreateSeedVersion(d.campaign, d.content, d.note);
      return Returned(k);
    }

    /** Seeds a document: independent transactions, in order. Each outcome is that of its definition on the
        tables the definitions before it left. */
    method SeedRubrics(ds: seq<Definition>) returns (outcomes: seq<Outcome>)
      requires Valid()
      modifies this
      ensures Valid() && State() == SeedAll(env, old(State()), ds) && |outcomes| == |ds|
      ensures forall i :: 0 <= i < |ds| ==> outcomes[i] == SeedTx(env, SeedAll(env, old(State()), ds[..i]), ds[i]).outcome
    {
      hide Inv, Injective, SeedAll;
      outcomes := [];
      NothingSeeded(env, State());
      for i := 0 to |ds|
        invariant Valid() && |outcomes| == i
        invariant State() == SeedAll(env, old(State()), ds[..i])
        invariant forall j :: 0 <= j < i ==> outcomes[j] == SeedTx(env, SeedAll(env, old(State()), ds[..j]), ds[j]).outcome
      {
        SeedAllStep(env, old(State()), ds[..i], ds[i]);
        assert ds[..i + 1] == ds[..i] + [ds[i]];
        var outcome := SeedDefinition(ds[i]);
        outcomes := outcomes + [outcome];
      }
      assert ds[..|ds|] == ds;
    }
  }

  lemma NothingSeeded(env: Env, db: Db)
    requires Inv(env, db) && Injective(env)
    ensures SeedAll(env, db, []) == db
  {
  }

  /** The version publication compares with is one of the standard's own; with the draft's hash it has the draft's content. */
  lemma CurrentIsOwn(env: Env, db: Db, campaign: nat)
    requires Inv(env, db) && Injective(env) && campaign in db.standards
    ensures var row := db.standards[campaign];
      var current := if row.current.Some? then row.current else Latest(db.versions, row.id);
      current.Some? ==>
        && current.value < |db.versions| && db.versions[current.value].standard == row.id
        && (db.versions[current.value].hash == env.hash(row.draft) ==> db.versions[current.value].snapshot == row.draft)
  {
    assert PointerSound(env, db, db.standards[campaign]);
  }

  lemma OwnerIsUnique(env: Env, db: Db, d: Definition)
    requires Inv(env, db) && OwnsIdentity(db, d.campaign, IdentityOf(env, d))
    ensures !OwnershipConflict(env, db, d)
  {
  }
}
