/** Negotiation standards and their immutable versions, as committed transactions see them. */
module Ledger {
  import opened Rubric
  import opened Text
  import StandardValidator

  datatype Lifecycle = Draft | Published | Archived

  /** Where a seeded rubric comes from: `(source_id, source_rubric_key)`. */
  datatype Identity = Identity(source: string, key: string)

  /** A standard row; `current` is a position in the version table. */
  datatype Row = Row(
    id: nat, name: string, description: Option<string>, identity: Option<Identity>, status: Lifecycle,
    passingScore: int, draft: Standard, current: Option<nat>, revision: nat)

  datatype VersionRow = VersionRow(
    standard: nat, number: int, schemaVersion: int, snapshot: Standard, hash: string, note: Option<string>)

  /** The tables. Standards are keyed by their unique campaign; a version's id is its position. */
  datatype Db = Db(campaigns: set<nat>, standards: map<nat, Row>, versions: seq<VersionRow>, nextStandard: nat)

  /** The foreign functions: content hashing and case folding. */
  datatype Env = Env(hash: Standard -> string, fold: string -> string)

  datatype Refusal =
    | NotFound | Conflict | StaleRevision | Invalid

  datatype Outcome =
    | Committed
    | Returned(version: nat)
    | Refused(reason: Refusal)
    | Aborted

  datatype Tx = Tx(db: Db, outcome: Outcome)

  /** The foreign key on `current_version_id`. */
  predicate PointersExist(db: Db) {
    forall c :: c in db.standards && db.standards[c].current.Some? ==> db.standards[c].current.value < |db.versions|
  }

  // ----- queries

  /** The version of `standard` with the largest number among the first `n` rows. */
  function LatestIn(versions: seq<VersionRow>, standard: nat, n: nat): (r: Option<nat>)
    requires n <= |versions|
    ensures r.Some? ==> r.value < n && versions[r.value].standard == standard
  {
    if n == 0 then None
    else
      var rest := LatestIn(versions, standard, n - 1);
      if versions[n - 1].standard == standard && (rest.None? || versions[rest.value].number < versions[n - 1].number)
      then Some(n - 1) else rest
  }

  function Latest(versions: seq<VersionRow>, standard: nat): (r: Option<nat>)
    ensures r.Some? ==> r.value < |versions| && versions[r.value].standard == standard
  {
    LatestIn(versions, standard, |versions|)
  }

  /** The version of `standard` with the given content hash. */
  function FindHash(versions: seq<VersionRow>, standard: nat, hash: string): (r: Option<nat>)
    ensures r.Some? ==> r.value < |versions| && versions[r.value].standard == standard && versions[r.value].hash == hash
    ensures r.None? ==> forall i :: 0 <= i < |versions| ==> !(versions[i].standard == standard && versions[i].hash == hash)
  {
    if versions == [] then None
    else
      var n := |versions| - 1;
      var rest := FindHash(versions[..n], standard, hash);
      if rest.Some? then rest
      else if versions[n].standard == standard && versions[n].hash == hash then Some(n) else None
  }

  /** The uniqueness constraints on `(standard_id, version_number)` and `(standard_id, content_hash)`. */
  predicate Violates(versions: seq<VersionRow>, v: VersionRow) {
    exists w :: w in versions && w.standard == v.standard && (w.number == v.number || w.hash == v.hash)
  }

  predicate OwnsIdentity(db: Db, campaign: nat, identity: Identity) {
    campaign in db.standards && db.standards[campaign].identity == Some(identity)
  }

  // ----- the lifecycle transactions

  ghost function CreateTx(db: Db, campaign: nat, name: string, description: Option<string>, content: Standard): Tx {
    if campaign !in db.campaigns then Tx(db, Refused(NotFound))
    else if campaign in db.standards then Tx(db, Refused(Conflict))
    else
      var row := Row(db.nextStandard, name, description, None, Draft, content.overallPassingScore, content, None, 1);
      Tx(db.(standards := db.standards[campaign := row], nextStandard := db.nextStandard + 1), Committed)
  }

  ghost function UpdateTx(db: Db, campaign: nat, expected: nat, name: Option<string>, description: Option<string>, content: Option<Standard>): Tx {
    if campaign !in db.standards then Tx(db, Refused(NotFound))
    else
      var row := db.standards[campaign];
      if row.status != Draft then Tx(db, Refused(Conflict))
      else if row.revision != expected then Tx(db, Refused(StaleRevision))
      else
        var changed := row.(
          name := if name.Some? then name.value else row.name,
          description := if description.Some? then description else row.description,
          passingScore := if content.Some? then content.value.overallPassingScore else row.passingScore,
          draft := if content.Some? then content.value else row.draft,
          revision := row.revision + 1);
        Tx(db.(standards := db.standards[campaign := changed]), Committed)
  }

  ghost function DeleteTx(db: Db, campaign: nat): Tx {
    if campaign !in db.standards then Tx(db, Refused(NotFound))
    else
      var row := db.standards[campaign];
      if row.status != Draft then Tx(db, Refused(Conflict))
      else if exists v :: v in db.versions && v.standard == row.id then Tx(db, Refused(Conflict))
      else Tx(db.(standards := db.standards - {campaign}), Committed)
  }

  /** Points a standard at a version and publishes it. */
  function Point(row: Row, version: nat): Row {
    row.(current := Some(version), status := Published, revision := row.revision + 1)
  }

  /** The version admin publication compares with: the pointer, or else the latest. */
  function CurrentOf(db: Db, row: Row): Option<nat> {
    if row.current.Some? then row.current else Latest(db.versions, row.id)
  }

  /** The version admin publication would insert. */
  function NextVersion(env: Env, db: Db, row: Row, note: Option<string>): VersionRow
    requires row.current.Some? ==> row.current.value < |db.versions|
  {
    var current := CurrentOf(db, row);
    VersionRow(row.id, if current.Some? then db.versions[current.value].number + 1 else 1,
               row.draft.schemaVersion, row.draft, env.hash(row.draft), note)
  }

  ghost function PublishTx(env: Env, db: Db, campaign: nat, note: Option<string>): Tx
    requires PointersExist(db)
  {
    if campaign !in db.standards then Tx(db, Refused(NotFound))
    else
      var row := db.standards[campaign];
      var current := CurrentOf(db, row);
      if row.status == Archived then Tx(db, Refused(Conflict))
      else if !StandardValidator.Publishable(env.fold, row.draft) then Tx(db, Refused(Invalid))
      else if current.Some? && db.versions[current.value].hash == env.hash(row.draft) then
        if row.status != Published || row.current != current
        then Tx(db.(standards := db.standards[campaign := Point(row, current.value)]), Returned(current.value))
        else Tx(db, Returned(current.value))
      else if Violates(db.versions, NextVersion(env, db, row, note)) then Tx(db, Aborted)
      else Tx(db.(versions := db.versions + [NextVersion(env, db, row, note)],
                  standards := db.standards[campaign := Point(row, |db.versions|)]), Returned(|db.versions|))
  }

  ghost function ReopenTx(db: Db, campaign: nat): Tx {
    if campaign !in db.standards then Tx(db, Refused(NotFound))
    else if db.standards[campaign].status == Draft then Tx(db, Refused(Conflict))
    else
      var row := db.standards[campaign];
      Tx(db.(standards := db.standards[campaign := row.(status := Draft, revision := row.revision + 1)]), Committed)
  }

  ghost function ArchiveTx(db: Db, campaign: nat): Tx {
    if campaign !in db.standards then Tx(db, Refused(NotFound))
    else if db.standards[campaign].status == Archived then Tx(db, Committed)
    else
      var row := db.standards[campaign];
      Tx(db.(standards := db.standards[campaign := row.(status := Archived, revision := row.revision + 1)]), Committed)
  }

  // ----- the seed transaction

  datatype Definition = Definition(
    source: string, campaign: nat, name: string, description: Option<string>, content: Standard,
    publish: bool, note: Option<string>)

  function SafeSource(source: string): string {
    var normalized := Normalize(source);
    if normalized == "" then "unknown" else if |normalized| > 120 then normalized[..120] else normalized
  }

  function IdentityOf(env: Env, d: Definition): Identity {
    Identity(SafeSource(d.source), env.fold(Normalize(d.name)))
  }

  /** The identity is taken by another campaign, or the campaign by another identity. */
  predicate OwnershipConflict(env: Env, db: Db, d: Definition) {
    || (exists c :: c in db.standards && c != d.campaign && OwnsIdentity(db, c, IdentityOf(env, d)))
    || (d.campaign in db.standards && !OwnsIdentity(db, d.campaign, IdentityOf(env, d)))
  }

  /** Finds or inserts the standard of a definition without an ownership conflict. */
  function WithStandard(env: Env, db: Db, d: Definition): Db {
    if d.campaign in db.standards then db
    else
      var row := Row(db.nextStandard, d.name, d.description, Some(IdentityOf(env, d)), Draft,
                     d.content.overallPassingScore, d.content, None, 1);
      db.(standards := db.standards[d.campaign := row], nextStandard := db.nextStandard + 1)
  }

  /** Finds the standard's version with this content, or appends the next-numbered one. */
  function WithVersion(env: Env, db: Db, standard: nat, content: Standard, note: Option<string>): (r: (seq<VersionRow>, nat))
    ensures r.1 < |r.0| && db.versions <= r.0
  {
    var hash := env.hash(content);
    var existing := FindHash(db.versions, standard, hash);
    if existing.Some? then (db.versions, existing.value)
    else
      var latest := Latest(db.versions, standard);
      var number := if latest.Some? then db.versions[latest.value].number + 1 else 1;
      (db.versions + [VersionRow(standard, number, content.schemaVersion, content, hash, note)], |db.versions|)
  }

  /** Why a definition's transaction is rolled back, if it is. */
  ghost function SeedRefusal(env: Env, db: Db, d: Definition): Option<Refusal> {
    if d.campaign !in db.campaigns || OwnershipConflict(env, db, d) then Some(Conflict)
    else if !d.publish then None
    else if d.campaign in db.standards && db.standards[d.campaign].status == Archived then Some(Conflict)
    else if !StandardValidator.Publishable(env.fold, d.content) then Some(Invalid)
    else None
  }

  /** Repeated publication of the current version changes nothing. */
  function PointOnce(row: Row, version: nat): Row {
    if row.current == Some(version) then row else Point(row, version)
  }

  ghost function SeedTx(env: Env, db: Db, d: Definition): Tx {
    var refusal := SeedRefusal(env, db, d);
    if refusal.Some? then Tx(db, Refused(refusal.value))
    else
      var owned := WithStandard(env, db, d);
      var row := owned.standards[d.campaign];
      var (versions, k) := WithVersion(env, owned, row.id, d.content, d.note);
      var standards := if d.publish then owned.standards[d.campaign := PointOnce(row, k)] else owned.standards;
      Tx(owned.(versions := versions, standards := standards), Returned(k))
  }

  // ----- runs

  datatype Step =
    | Create(campaign: nat, name: string, description: Option<string>, content: Standard)
    | Update(campaign: nat, expected: nat, newName: Option<string>, newDescription: Option<string>, newContent: Option<Standard>)
    | Delete(campaign: nat)
    | Publish(campaign: nat, note: Option<string>)
    | Reopen(campaign: nat)
    | Archive(campaign: nat)
    | Seed(definition: Definition)

  ghost function Apply(env: Env, db: Db, step: Step): Tx
    requires PointersExist(db)
  {
    match step
    case Create(c, name, description, content) => CreateTx(db, c, name, description, content)
    case Update(c, expected, name, description, content) => UpdateTx(db, c, expected, name, description, content)
    case Delete(c) => DeleteTx(db, c)
    case Publish(c, note) => PublishTx(env, db, c, note)
    case Reopen(c) => ReopenTx(db, c)
    case Archive(c) => ArchiveTx(db, c)
    case Seed(d) => SeedTx(env, db, d)
  }

  // ----- what every step keeps

  /** How many versions of `standard` there are. */
  function CountOf(versions: seq<VersionRow>, standard: nat): nat {
    if versions == [] then 0
    else CountOf(versions[..|versions| - 1], standard) + if versions[|versions| - 1].standard == standard then 1 else 0
  }

  /** Each version's number is one more than the number of earlier versions of its standard. */
  ghost predicate Numbered(versions: seq<VersionRow>) {
    forall i :: 0 <= i < |versions| ==> versions[i].number == CountOf(versions[..i], versions[i].standard) + 1
  }

  ghost predicate HashesDistinct(versions: seq<VersionRow>) {
    forall i, j :: 0 <= i < j < |versions| && versions[i].standard == versions[j].standard ==> versions[i].hash != versions[j].hash
  }

  ghost predicate HashesTrue(env: Env, versions: seq<VersionRow>) {
    forall i :: 0 <= i < |versions| ==> versions[i].hash == env.hash(versions[i].snapshot)
  }

  ghost predicate Owned(standards: map<nat, Row>, standard: nat) {
    exists c :: c in standards && standards[c].id == standard
  }

  ghost predicate VersionsOwned(db: Db) {
    forall i :: 0 <= i < |db.versions| ==> Owned(db.standards, db.versions[i].standard)
  }

  ghost predicate RowsDistinct(db: Db) {
    && (forall c :: c in db.standards ==> db.standards[c].id < db.nextStandard)
    && (forall c, d :: c in db.standards && d in db.standards && c != d ==>
          db.standards[c].id != db.standards[d].id
          && (db.standards[c].identity.Some? ==> db.standards[c].identity != db.standards[d].identity))
  }

  /** A pointer names a version of its own standard whose content may be published. */
  ghost predicate PointerSound(env: Env, db: Db, row: Row) {
    && (row.status == Published ==> row.current.Some?)
    && (row.current.Some? ==>
          && row.current.value < |db.versions|
          && db.versions[row.current.value].standard == row.id
          && StandardValidator.Publishable(env.fold, db.versions[row.current.value].snapshot))
  }

  ghost predicate Inv(env: Env, db: Db) {
    && db.standards.Keys <= db.campaigns
    && RowsDistinct(db) && VersionsOwned(db)
    && Numbered(db.versions) && HashesDistinct(db.versions) && HashesTrue(env, db.versions)
    && forall c :: c in db.standards ==> PointerSound(env, db, db.standards[c])
  }

  /** The hash identifies the content it was taken of. */
  ghost predicate Injective(env: Env) {
    forall a, b :: env.hash(a) == env.hash(b) ==> a == b
  }

  lemma {:induction false} CountUpto(versions: seq<VersionRow>, standard: nat, n: nat)
    requires n <= |versions|
    ensures CountOf(versions[..n], standard) <= CountOf(versions, standard)
  {
    if n < |versions| {
      CountUpto(versions[..|versions| - 1], standard, n);
      assert versions[..|versions| - 1][..n] == versions[..n];
    } else {
      assert versions[..n] == versions;
    }
  }

  /** With numbers in order, the latest version carries the count as its number. */
  lemma {:induction false} LatestIsCount(versions: seq<VersionRow>, standard: nat, n: nat)
    requires n <= |versions| && Numbered(versions)
    ensures LatestIn(versions, standard, n).None? <==> CountOf(versions[..n], standard) == 0
    ensures LatestIn(versions, standard, n).Some? ==> versions[LatestIn(versions, standard, n).value].number == CountOf(versions[..n], standard)
  {
    if n > 0 {
      LatestIsCount(versions, standard, n - 1);
      assert versions[..n][..n - 1] == versions[..n - 1];
    }
  }

  /** A version's number lies between 1 and the count of its standard. */
  lemma NumberRange(versions: seq<VersionRow>, i: nat)
    requires Numbered(versions) && i < |versions|
    ensures 1 <= versions[i].number <= CountOf(versions, versions[i].standard)
  {
    CountUpto(versions, versions[i].standard, i + 1);
    assert versions[..i + 1][..i] == versions[..i];
  }

  /** Every number up to the count is taken by a version of the standard. */
  lemma {:induction false} NumbersTaken(versions: seq<VersionRow>, standard: nat, number: nat)
    requires Numbered(versions) && 1 <= number <= CountOf(versions, standard)
    ensures exists w :: w in versions && w.standard == standard && w.number == number
  {
    var n := |versions| - 1;
    var front := versions[..n];
    if number <= CountOf(front, standard) {
      assert Numbered(front) by {
        forall j | 0 <= j < n ensures front[j].number == CountOf(front[..j], front[j].standard) + 1 {
          assert front[..j] == versions[..j];
        }
      }
      NumbersTaken(front, standard, number);
      var w :| w in front && w.standard == standard && w.number == number;
      assert w in versions;
    } else {
      assert versions[n] in versions;
    }
  }

  /** Whatever reading a writer took its number from, the constraints let in only the next number. */
  lemma OnlyNextNumberCommits(versions: seq<VersionRow>, v: VersionRow)
    requires Numbered(versions) && HashesDistinct(versions) && !Violates(versions, v)
    requires v.number == 1 || exists w :: w in versions && w.standard == v.standard && v.number == w.number + 1
    ensures v.number == CountOf(versions, v.standard) + 1
    ensures Numbered(versions + [v]) && HashesDistinct(versions + [v])
  {
    var more := versions + [v];
    if v.number != 1 {
      var w :| w in versions && w.standard == v.standard && v.number == w.number + 1;
      var i :| 0 <= i < |versions| && versions[i] == w;
      NumberRange(versions, i);
    }
    if v.number <= CountOf(versions, v.standard) {
      NumbersTaken(versions, v.standard, v.number);
    }
    forall i | 0 <= i < |more| ensures more[i].number == CountOf(more[..i], more[i].standard) + 1 {
      assert more[..i] == versions[..i];
      assert versions[..|versions|] == versions;
    }
    forall i | 0 <= i < |versions| && versions[i].standard == v.standard ensures versions[i].hash != v.hash {
      assert versions[i] in versions;
    }
  }

  // ----- every transaction keeps the invariant

  lemma StillOwned(before: map<nat, Row>, after: map<nat, Row>, standard: nat)
    requires Owned(before, standard)
    requires forall c :: c in before ==> c in after && after[c].id == before[c].id
    ensures Owned(after, standard)
  {
    var c :| c in before && before[c].id == standard;
    assert c in after && after[c].id == standard;
  }

  /** Rewriting a row in place, keeping its identity, needs only a sound pointer. */
  lemma RewriteRow(env: Env, db: Db, campaign: nat, row: Row)
    requires Inv(env, db) && campaign in db.standards && PointerSound(env, db, row)
    requires row.id == db.standards[campaign].id && row.identity == db.standards[campaign].identity
    ensures Inv(env, db.(standards := db.standards[campaign := row]))
  {
    hide StandardValidator.Publishable, Numbered, HashesDistinct, HashesTrue;
    var after := db.(standards := db.standards[campaign := row]);
    forall c | c in after.standards ensures PointerSound(env, after, after.standards[c]) {
      assert PointerSound(env, db, after.standards[c]);
    }
    forall i | 0 <= i < |after.versions| ensures Owned(after.standards, after.versions[i].standard) {
      StillOwned(db.standards, after.standards, db.versions[i].standard);
    }
  }

  function WithRow(db: Db, campaign: nat, row: Row): Db {
    db.(standards := db.standards[campaign := row], nextStandard := db.nextStandard + 1)
  }

  lemma InsertRowDistinct(db: Db, campaign: nat, row: Row)
    requires RowsDistinct(db) && campaign !in db.standards && row.id == db.nextStandard
    requires row.identity.Some? ==> forall c :: c in db.standards ==> db.standards[c].identity != row.identity
    ensures RowsDistinct(WithRow(db, campaign, row))
  {
    var after := WithRow(db, campaign, row);
    forall c, d | c in after.standards && d in after.standards && c != d
      ensures after.standards[c].id != after.standards[d].id
      ensures after.standards[c].identity.Some? ==> after.standards[c].identity != after.standards[d].identity
    {
      if c != campaign && d != campaign {
        assert db.standards[c].id != db.standards[d].id;
      }
    }
  }

  lemma InsertRow(env: Env, db: Db, campaign: nat, row: Row)
    requires Inv(env, db) && campaign in db.campaigns && campaign !in db.standards
    requires row.id == db.nextStandard && row.status == Draft && row.current.None?
    requires row.identity.Some? ==> forall c :: c in db.standards ==> db.standards[c].identity != row.identity
    ensures Inv(env, WithRow(db, campaign, row))
  {
    hide RowsDistinct, Numbered, HashesDistinct, HashesTrue, StandardValidator.Publishable;
    InsertRowDistinct(db, campaign, row);
    var after := WithRow(db, campaign, row);
    forall i | 0 <= i < |after.versions| ensures Owned(after.standards, after.versions[i].standard) {
      StillOwned(db.standards, after.standards, db.versions[i].standard);
    }
    forall c | c in after.standards ensures PointerSound(env, after, after.standards[c]) {
      if c != campaign {
        assert PointerSound(env, db, db.standards[c]);
      }
    }
  }

  lemma AppendVersion(env: Env, db: Db, campaign: nat, v: VersionRow)
    requires Inv(env, db) && campaign in db.standards && v.standard == db.standards[campaign].id
    requires v.hash == env.hash(v.snapshot) && !Violates(db.versions, v)
    requires v.number == 1 || exists w :: w in db.versions && w.standard == v.standard && v.number == w.number + 1
    ensures Inv(env, db.(versions := db.versions + [v]))
  {
    OnlyNextNumberCommits(db.versions, v);
    var after := db.(versions := db.versions + [v]);
    forall c | c in after.standards ensures PointerSound(env, after, after.standards[c]) {
      assert PointerSound(env, db, db.standards[c]);
    }
  }

  lemma DeleteKeepsInv(env: Env, db: Db, campaign: nat)
    requires Inv(env, db)
    ensures Inv(env, DeleteTx(db, campaign).db)
  {
    var after := DeleteTx(db, campaign).db;
    forall i | 0 <= i < |after.versions| ensures Owned(after.standards, after.versions[i].standard) {
      assert Owned(db.standards, db.versions[i].standard);
      var c :| c in db.standards && db.standards[c].id == db.versions[i].standard;
      assert db.versions[i] in db.versions;
      assert c in after.standards && after.standards[c].id == after.versions[i].standard;
    }
    forall c | c in after.standards ensures PointerSound(env, after, after.standards[c]) {
      assert PointerSound(env, db, db.standards[c]);
    }
  }

  lemma SameHashSameContent(env: Env, db: Db, i: nat, content: Standard)
    requires Inv(env, db) && Injective(env) && i < |db.versions| && db.versions[i].hash == env.hash(content)
    ensures db.versions[i].snapshot == content
  {
  }

  lemma PublishNewKeepsInv(env: Env, db: Db, campaign: nat, note: Option<string>)
    requires Inv(env, db) && campaign in db.standards && PointerSound(env, db, db.standards[campaign])
    requires StandardValidator.Publishable(env.fold, db.standards[campaign].draft)
    requires !Violates(db.versions, NextVersion(env, db, db.standards[campaign], note))
    ensures var row := db.standards[campaign];
      Inv(env, db.(versions := db.versions + [NextVersion(env, db, row, note)],
                   standards := db.standards[campaign := Point(row, |db.versions|)]))
  {
    hide StandardValidator.Publishable, Violates;
    var row := db.standards[campaign];
    var current, version := CurrentOf(db, row), NextVersion(env, db, row, note);
    if current.Some? {
      assert db.versions[current.value] in db.versions;
    }
    AppendVersion(env, db, campaign, version);
    var appended := db.(versions := db.versions + [version]);
    RewriteRow(env, appended, campaign, Point(row, |db.versions|));
  }

  lemma PublishKeepsInv(env: Env, db: Db, campaign: nat, note: Option<string>)
    requires Inv(env, db) && Injective(env)
    ensures PointersExist(db) && Inv(env, PublishTx(env, db, campaign, note).db)
  {
    hide StandardValidator.Publishable, Violates, Numbered, HashesDistinct;
    InvPointersExist(env, db);
    if campaign in db.standards {
      var row := db.standards[campaign];
      assert PointerSound(env, db, row);
      var current := CurrentOf(db, row);
      if row.status != Archived && StandardValidator.Publishable(env.fold, row.draft) {
        if current.Some? && db.versions[current.value].hash == env.hash(row.draft) {
          SameHashSameContent(env, db, current.value, row.draft);
          RewriteRow(env, db, campaign, Point(row, current.value));
        } else if !Violates(db.versions, NextVersion(env, db, row, note)) {
          PublishNewKeepsInv(env, db, campaign, note);
        }
      }
    }
  }

  /** Counting from the maximum, the seeder's insert can never violate a constraint. */
  lemma SeedInsertFits(env: Env, db: Db, standard: nat, content: Standard, note: Option<string>)
    requires Inv(env, db) && FindHash(db.versions, standard, env.hash(content)).None?
    ensures var latest := Latest(db.versions, standard);
      var number := if latest.Some? then db.versions[latest.value].number + 1 else 1;
      !Violates(db.versions, VersionRow(standard, number, content.schemaVersion, content, env.hash(content), note))
  {
    LatestIsCount(db.versions, standard, |db.versions|);
    assert db.versions[..|db.versions|] == db.versions;
    forall w | w in db.versions && w.standard == standard
      ensures w.number <= CountOf(db.versions, standard) && w.hash != env.hash(content)
    {
      var i :| 0 <= i < |db.versions| && db.versions[i] == w;
      NumberRange(db.versions, i);
    }
  }

  lemma WithVersionKeepsInv(env: Env, db: Db, campaign: nat, content: Standard, note: Option<string>)
    requires Inv(env, db) && Injective(env) && campaign in db.standards
    ensures var (versions, k) := WithVersion(env, db, db.standards[campaign].id, content, note);
      Inv(env, db.(versions := versions)) && versions[k].standard == db.standards[campaign].id && versions[k].snapshot == content
  {
    hide Inv, Injective, StandardValidator.Publishable, Violates;
    var standard := db.standards[campaign].id;
    var existing := FindHash(db.versions, standard, env.hash(content));
    if existing.Some? {
      SameHashSameContent(env, db, existing.value, content);
      assert db.(versions := db.versions) == db;
    } else {
      SeedInsertFits(env, db, standard, content, note);
      var latest := Latest(db.versions, standard);
      if latest.Some? {
        assert db.versions[latest.value] in db.versions;
      }
      var number := if latest.Some? then db.versions[latest.value].number + 1 else 1;
      AppendVersion(env, db, campaign, VersionRow(standard, number, content.schemaVersion, content, env.hash(content), note));
    }
  }

  lemma WithStandardKeepsInv(env: Env, db: Db, d: Definition)
    requires Inv(env, db) && d.campaign in db.campaigns && !OwnershipConflict(env, db, d)
    ensures Inv(env, WithStandard(env, db, d)) && d.campaign in WithStandard(env, db, d).standards
  {
    if d.campaign !in db.standards {
      forall c | c in db.standards ensures db.standards[c].identity != Some(IdentityOf(env, d)) {
        assert !OwnsIdentity(db, c, IdentityOf(env, d));
      }
      InsertRow(env, db, d.campaign, WithStandard(env, db, d).standards[d.campaign]);
    }
  }

  lemma SeedKeepsInv(env: Env, db: Db, d: Definition)
    requires Inv(env, db) && Injective(env)
    ensures Inv(env, SeedTx(env, db, d).db)
  {
    hide StandardValidator.Publishable, Numbered, HashesDistinct, HashesTrue, VersionsOwned, RowsDistinct, Injective, WithVersion, FindHash, Latest;
    if SeedRefusal(env, db, d).None? {
      WithStandardKeepsInv(env, db, d);
      var owned := WithStandard(env, db, d);
      var row := owned.standards[d.campaign];
      WithVersionKeepsInv(env, owned, d.campaign, d.content, d.note);
      var (versions, k) := WithVersion(env, owned, row.id, d.content, d.note);
      if d.publish {
        assert PointerSound(env, owned.(versions := versions), row);
        RewriteRow(env, owned.(versions := versions), d.campaign, PointOnce(row, k));
      }
    }
  }

  lemma InvPointersExist(env: Env, db: Db)
    requires Inv(env, db)
    ensures PointersExist(db)
  {
    forall c | c in db.standards && db.standards[c].current.Some? ensures db.standards[c].current.value < |db.versions| {
      assert PointerSound(env, db, db.standards[c]);
    }
  }

  lemma ApplyKeepsInv(env: Env, db: Db, step: Step)
    requires Inv(env, db) && Injective(env)
    ensures PointersExist(db) && Inv(env, Apply(env, db, step).db)
  {
    InvPointersExist(env, db);
    match step
    case Create(c, name, description, content) =>
      if c in db.campaigns && c !in db.standards {
        InsertRow(env, db, c, CreateTx(db, c, name, description, content).db.standards[c]);
      }
    case Update(c, expected, name, description, content) =>
      if UpdateTx(db, c, expected, name, description, content).outcome == Committed {
        assert PointerSound(env, db, db.standards[c]);
        RewriteRow(env, db, c, UpdateTx(db, c, expected, name, description, content).db.standards[c]);
      }
    case Delete(c) => DeleteKeepsInv(env, db, c);
    case Publish(c, note) => PublishKeepsInv(env, db, c, note);
    case Reopen(c) =>
      if c in db.standards && db.standards[c].status != Draft {
        assert PointerSound(env, db, db.standards[c]);
        RewriteRow(env, db, c, ReopenTx(db, c).db.standards[c]);
      }
    case Archive(c) =>
      if c in db.standards && db.standards[c].status != Archived {
        assert PointerSound(env, db, db.standards[c]);
        RewriteRow(env, db, c, ArchiveTx(db, c).db.standards[c]);
      }
    case Seed(d) => SeedKeepsInv(env, db, d);
  }
}
