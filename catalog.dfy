/**
 * The public level catalog and the level loop of the sync handler, as pure
 * functions: what one pass over `playerData.publishedLevels` does to the
 * catalog, to the log and to the submitted level objects. The handler in
 * module Api runs the same loop step by step and is proved against Publish.
 */
module Catalog {
  import opened Wrappers
  import opened Records

  /** The ids present in the catalog. */
  function Ids(catalog: seq<PublicLevel>): set<string> {
    set r | r in catalog :: r.id
  }

  /** At most one record per level id. */
  predicate DistinctIds(catalog: seq<PublicLevel>) {
    forall i, j | 0 <= i < j < |catalog| :: catalog[i].id != catalog[j].id
  }

  /**
   * The catalog invariant the sync handler keeps: one record per id, each
   * filed under its level's own id and holding the level already flagged as sent.
   */
  predicate WellFormed(catalog: seq<PublicLevel>) {
    && DistinctIds(catalog)
    && forall i | 0 <= i < |catalog| :: catalog[i].id == catalog[i].data.id && catalog[i].data.sentToServer
  }

  /** `PublicLevel.findOne({ id })`: the first record with that id, or nothing. */
  function FindLevel(catalog: seq<PublicLevel>, id: string): (r: Option<PublicLevel>)
    ensures r.None? <==> id !in Ids(catalog)
    ensures r.Some? ==> r.value in catalog && r.value.id == id
  {
    if catalog == [] then None
    else if catalog[0].id == id then Some(catalog[0])
    else
      assert forall r | r in catalog[1..] :: r in catalog;
      assert Ids(catalog) == {catalog[0].id} + Ids(catalog[1..]) by {
        assert catalog == [catalog[0]] + catalog[1..];
      }
      FindLevel(catalog[1..], id)
  }

  const LEVEL_ADDED := "LEVEL ADDED TO DATABASE! : "

  /** The entry logged after a level record is created. */
  function AddedEntry(level: Level): string {
    LEVEL_ADDED + level.name
  }

  /** `level.sentToServer = true`. */
  function Flag(level: Level): Level {
    level.(sentToServer := true)
  }

  /** The ids of the submitted levels the client has not yet marked as sent. */
  function UnsentIds(levels: seq<Level>): set<string> {
    set l | l in levels && !l.sentToServer :: l.id
  }

  /**
   * The outcome of a pass over the submitted levels: the catalog, the log
   * entries appended, the level objects as the pass leaves them, and whether
   * some level was found already published.
   */
  datatype Batch = Batch(catalog: seq<PublicLevel>, added: seq<string>, sent: seq<Level>, duplicate: bool)

  /**
   * One iteration of `publishedLevels.map`: a level already marked sent is
   * skipped; any other is flagged, then created in the catalog unless a record
   * with its id exists, in which case the pass notes a duplicate.
   */
  function PublishOne(b: Batch, level: Level): (r: Batch)
    ensures b.catalog <= r.catalog && |r.catalog| <= |b.catalog| + 1
    ensures r.sent == b.sent + [Flag(level)]
    ensures r.duplicate <==> b.duplicate || (!level.sentToServer && level.id in Ids(b.catalog))
    ensures |r.catalog| == |b.catalog| + 1 <==> !level.sentToServer && level.id !in Ids(b.catalog)
  {
    if level.sentToServer then
      b.(sent := b.sent + [level])
    else if FindLevel(b.catalog, level.id).Some? then
      b.(sent := b.sent + [Flag(level)], duplicate := true)
    else
      Batch(
        b.catalog + [PublicLevel(level.id, Flag(level))],
        b.added + [AddedEntry(Flag(level))],
        b.sent + [Flag(level)],
        b.duplicate)
  }

  /** The levels processed one after another, in list order. */
  function Publish(catalog: seq<PublicLevel>, levels: seq<Level>): (r: Batch)
    ensures catalog <= r.catalog && |r.sent| == |levels|
    decreases |levels|
  {
    if levels == [] then Batch(catalog, [], [], false)
    else PublishOne(Publish(catalog, levels[..|levels| - 1]), levels[|levels| - 1])
  }

  lemma IdsSnoc(catalog: seq<PublicLevel>, r: PublicLevel)
    ensures Ids(catalog + [r]) == Ids(catalog) + {r.id}
  {
    assert forall x | x in catalog + [r] :: x in catalog || x == r;
  }

  lemma UnsentIdsSnoc(levels: seq<Level>, l: Level)
    ensures UnsentIds(levels + [l]) == UnsentIds(levels) + (if l.sentToServer then {} else {l.id})
  {
    assert forall x | x in levels + [l] :: x in levels || x == l;
  }

  /**
   * The pass never removes or overwrites a record: the old catalog is a prefix
   * of the new one, and each appended record is a flagged unsent submitted
   * level filed under its id, matched by one log entry naming it.
   */
  lemma {:induction false} PublishExtends(catalog: seq<PublicLevel>, levels: seq<Level>)
    ensures var b := Publish(catalog, levels);
      && catalog <= b.catalog
      && |b.catalog| == |catalog| + |b.added|
      && forall k | |catalog| <= k < |b.catalog| ::
           && (exists l :: l in levels && !l.sentToServer && b.catalog[k] == PublicLevel(l.id, Flag(l)))
           && b.added[k - |catalog|] == AddedEntry(b.catalog[k].data)
  {
    if levels != [] {
      var init, l := levels[..|levels| - 1], levels[|levels| - 1];
      PublishExtends(catalog, init);
      assert forall x | x in init :: x in levels;
    }
  }

  /** Every submitted level comes out flagged as sent, and is otherwise untouched. */
  lemma {:induction false} PublishSent(catalog: seq<PublicLevel>, levels: seq<Level>)
    ensures var b := Publish(catalog, levels);
      |b.sent| == |levels| && forall i | 0 <= i < |levels| :: b.sent[i] == Flag(levels[i])
  {
    if levels != [] {
      PublishSent(catalog, levels[..|levels| - 1]);
    }
  }

  /** After the pass the catalog holds exactly the old ids and the ids of the unsent submitted levels. */
  lemma {:induction false} PublishIds(catalog: seq<PublicLevel>, levels: seq<Level>)
    ensures Ids(Publish(catalog, levels).catalog) == Ids(catalog) + UnsentIds(levels)
  {
    if levels == [] {
    } else {
      var init, l := levels[..|levels| - 1], levels[|levels| - 1];
      var b := Publish(catalog, init);
      PublishIds(catalog, init);
      assert levels == init + [l];
      UnsentIdsSnoc(init, l);
      if !l.sentToServer && FindLevel(b.catalog, l.id).None? {
        IdsSnoc(b.catalog, PublicLevel(l.id, Flag(l)));
      }
    }
  }

  /** The pass keeps the catalog invariant: in particular it never creates a second record for an id. */
  lemma {:induction false} PublishWellFormed(catalog: seq<PublicLevel>, levels: seq<Level>)
    requires WellFormed(catalog)
    ensures WellFormed(Publish(catalog, levels).catalog)
  {
    if levels != [] {
      var init, l := levels[..|levels| - 1], levels[|levels| - 1];
      var b := Publish(catalog, init);
      PublishWellFormed(catalog, init);
      if !l.sentToServer && FindLevel(b.catalog, l.id).None? {
        forall i | 0 <= i < |b.catalog|
          ensures b.catalog[i].id != l.id
        {
          assert b.catalog[i] in b.catalog;
        }
      }
    }
  }

  /**
   * The pass reports a duplicate exactly when some unsent level's id was
   * already in the catalog or belonged to an earlier unsent level of the same list.
   */
  lemma {:induction false} PublishDuplicate(catalog: seq<PublicLevel>, levels: seq<Level>)
    ensures Publish(catalog, levels).duplicate <==>
      exists i | 0 <= i < |levels| :: !levels[i].sentToServer && levels[i].id in Ids(catalog) + UnsentIds(levels[..i])
  {
    if levels != [] {
      var n := |levels| - 1;
      var init, l := levels[..n], levels[n];
      PublishDuplicate(catalog, init);
      PublishIds(catalog, init);
      assert forall i | 0 <= i < n :: init[i] == levels[i] && init[..i] == levels[..i];
      assert levels[..n] == init;
    }
  }

  /** Submitting only levels whose ids are all published already creates nothing and logs nothing. */
  lemma {:induction false} PublishKnownIds(catalog: seq<PublicLevel>, levels: seq<Level>)
    requires UnsentIds(levels) <= Ids(catalog)
    ensures var b := Publish(catalog, levels);
      b.catalog == catalog && b.added == [] && (b.duplicate <==> UnsentIds(levels) != {})
  {
    if levels != [] {
      var init, l := levels[..|levels| - 1], levels[|levels| - 1];
      assert levels == init + [l];
      UnsentIdsSnoc(init, l);
      PublishKnownIds(catalog, init);
    }
  }

  /**
   * Submitting the same client state twice: the second pass creates no record
   * and logs no level, and it reports a duplicate exactly when the list holds
   * an unsent level.
   */
  lemma PublishTwice(catalog: seq<PublicLevel>, levels: seq<Level>)
    ensures var b := Publish(catalog, levels);
      var b2 := Publish(b.catalog, levels);
      b2.catalog == b.catalog && b2.added == [] && (b2.duplicate <==> UnsentIds(levels) != {})
  {
    PublishIds(catalog, levels);
    PublishKnownIds(Publish(catalog, levels).catalog, levels);
  }

  /** A list whose levels are all marked sent is skipped entirely. */
  lemma {:induction false} PublishAllSent(catalog: seq<PublicLevel>, levels: seq<Level>)
    requires forall i | 0 <= i < |levels| :: levels[i].sentToServer
    ensures Publish(catalog, levels) == Batch(catalog, [], levels, false)
  {
    if levels != [] {
      PublishAllSent(catalog, levels[..|levels| - 1]);
    }
  }

  /**
   * Publish alone: a second pass over the level objects as a first pass left
   * them skips every level, since each now carries the flag.
   */
  lemma PublishResubmitSent(catalog0: seq<PublicLevel>, catalog: seq<PublicLevel>, levels: seq<Level>)
    ensures var sent := Publish(catalog0, levels).sent;
      Publish(catalog, sent) == Batch(catalog, [], sent, false)
  {
    PublishSent(catalog0, levels);
    PublishAllSent(catalog, Publish(catalog0, levels).sent);
  }

  /** With one record per id, the catalog's size is the number of distinct ids it holds. */
  lemma {:induction false} CatalogSize(catalog: seq<PublicLevel>)
    requires DistinctIds(catalog)
    ensures |Ids(catalog)| == |catalog|
  {
    if catalog != [] {
      var init, r := catalog[..|catalog| - 1], catalog[|catalog| - 1];
      assert catalog == init + [r];
      CatalogSize(init);
      IdsSnoc(init, r);
    }
  }
}
