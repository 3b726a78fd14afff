/** `seedLanguages`: insert the twenty built-in languages one at a time,
    skipping any whose code is already in the table (the insert's
    `onConflictDoNothing` on the unique `code` column), and count the rows
    actually inserted.  A failing insert is rethrown; the rows inserted
    before it stay, since the inserts are not wrapped in a transaction. */
module LanguageSeed {
  import opened Common
  import opened Database

  datatype LanguageSeed = LanguageSeed(name: string, code: string)

  /** The languages the seed inserts, in insertion order. */
  const LanguagesToSeed: seq<LanguageSeed> := [
    LanguageSeed("English", "en"),
    LanguageSeed("Mandarin Chinese", "zh"),
    LanguageSeed("Spanish", "es"),
    LanguageSeed("Hindi", "hi"),
    LanguageSeed("French", "fr"),
    LanguageSeed("Standard Arabic", "ar"),
    LanguageSeed("Bengali", "bn"),
    LanguageSeed("Russian", "ru"),
    LanguageSeed("Portuguese", "pt"),
    LanguageSeed("Urdu", "ur"),
    LanguageSeed("Indonesian", "id"),
    LanguageSeed("German", "de"),
    LanguageSeed("Japanese", "ja"),
    LanguageSeed("Punjabi", "pa"),
    LanguageSeed("Marathi", "mr"),
    LanguageSeed("Telugu", "te"),
    LanguageSeed("Turkish", "tr"),
    LanguageSeed("Korean", "ko"),
    LanguageSeed("Vietnamese", "vi"),
    LanguageSeed("Italian", "it")
  ]

  /** The table after some inserts, and how many of them added a row. */
  datatype SeedState = SeedState(table: map<Id, Language>, inserted: nat)

  function SeedCodes(seeds: seq<LanguageSeed>): set<string> {
    set i | 0 <= i < |seeds| :: seeds[i].code
  }

  predicate DistinctCodes(seeds: seq<LanguageSeed>) {
    forall i, j :: 0 <= i < j < |seeds| ==> seeds[i].code != seeds[j].code
  }

  /** The ids the database generates for the inserts: new and pairwise
      different. */
  predicate FreshIds(table: map<Id, Language>, ids: seq<Id>) {
    && (forall i :: 0 <= i < |ids| ==> ids[i] !in table)
    && (forall i, j :: 0 <= i < j < |ids| ==> ids[i] != ids[j])
  }

  /** One insert with `onConflictDoNothing` on the code: a row under the
      new id when the code is absent, and no row (and no count) otherwise. */
  function Step(state: SeedState, seed: LanguageSeed, id: Id, now: int): SeedState {
    if seed.code in Codes(state.table) then state
    else SeedState(state.table[id := Language(id, seed.name, seed.code, now, now)], state.inserted + 1)
  }

  /** After one insert the code is present.  A present code changes
      nothing; an absent one adds exactly its row under the new id, counts
      it, and leaves every other row as it was. */
  lemma StepInsertsOrSkips(state: SeedState, seed: LanguageSeed, id: Id, now: int)
    ensures var r := Step(state, seed, id, now);
      && seed.code in Codes(r.table)
      && (seed.code in Codes(state.table) ==> r == state)
      && (seed.code !in Codes(state.table) ==>
            && r.inserted == state.inserted + 1
            && r.table == state.table[id := Language(id, seed.name, seed.code, now, now)])
  {
    var r := Step(state, seed, id, now);
    if seed.code !in Codes(state.table) {
      assert r.table[id].code == seed.code;
    }
  }

  /** The effect of inserting `seeds` in order, the i-th with id `ids[i]`. */
  function SeedRun(table: map<Id, Language>, seeds: seq<LanguageSeed>, ids: seq<Id>, now: int): (r: SeedState)
    requires |ids| == |seeds|
    ensures r.inserted <= |seeds|
    decreases |seeds|
  {
    if |seeds| == 0 then SeedState(table, 0)
    else Step(SeedRun(table, seeds[..|seeds| - 1], ids[..|ids| - 1], now), seeds[|seeds| - 1], ids[|ids| - 1], now)
  }

  /** A run over a prefix one longer is one more step. */
  lemma SeedRunPrefixStep(table: map<Id, Language>, seeds: seq<LanguageSeed>, ids: seq<Id>, now: int, i: nat)
    requires |ids| == |seeds| && i < |seeds|
    ensures SeedRun(table, seeds[..i + 1], ids[..i + 1], now) ==
            Step(SeedRun(table, seeds[..i], ids[..i], now), seeds[i], ids[i], now)
  {
    assert seeds[..i + 1][..i] == seeds[..i];
    assert ids[..i + 1][..i] == ids[..i];
  }

  /** Existing rows are kept as they are, and new rows appear only under
      the supplied ids, each stored under its own id. */
  lemma {:induction false} SeedRunKeepsRows(table: map<Id, Language>, seeds: seq<LanguageSeed>, ids: seq<Id>, now: int)
    requires |ids| == |seeds|
    requires FreshIds(table, ids)
    ensures var after := SeedRun(table, seeds, ids, now).table;
      && (forall id :: id in table ==> id in after && after[id] == table[id])
      && (forall id :: id in after && id !in table ==> id in ids && after[id].id == id)
    decreases |seeds|
  {
    if |seeds| > 0 {
      var n := |seeds| - 1;
      assert FreshIds(table, ids[..n]);
      SeedRunKeepsRows(table, seeds[..n], ids[..n], now);
      var before := SeedRun(table, seeds[..n], ids[..n], now).table;
      var after := SeedRun(table, seeds, ids, now).table;
      forall id | id in after && id !in table
        ensures id in ids && after[id].id == id
      {
        if id == ids[n] {
          assert ids[n] in ids;
        } else {
          assert id in before;
          var j :| 0 <= j < n && ids[..n][j] == id;
          assert ids[j] == id;
        }
      }
    }
  }

  /** The id of the last insert is not yet in the table it is inserted into. */
  lemma LastIdFresh(table: map<Id, Language>, seeds: seq<LanguageSeed>, ids: seq<Id>, now: int)
    requires |ids| == |seeds| > 0
    requires FreshIds(table, ids)
    ensures ids[|ids| - 1] !in SeedRun(table, seeds[..|seeds| - 1], ids[..|ids| - 1], now).table
  {
    var n := |seeds| - 1;
    assert FreshIds(table, ids[..n]);
    SeedRunKeepsRows(table, seeds[..n], ids[..n], now);
    forall j | 0 <= j < n
      ensures ids[..n][j] != ids[n]
    {
      assert ids[..n][j] == ids[j];
    }
    assert ids[n] !in ids[..n];
  }

  /** The codes of a list are the codes of all but its last entry, plus
      the last entry's code. */
  lemma SeedCodesSnoc(seeds: seq<LanguageSeed>)
    requires |seeds| > 0
    ensures SeedCodes(seeds) == SeedCodes(seeds[..|seeds| - 1]) + {seeds[|seeds| - 1].code}
  {
    var n := |seeds| - 1;
    forall c | c in SeedCodes(seeds)
      ensures c in SeedCodes(seeds[..n]) + {seeds[n].code}
    {
      var i :| 0 <= i < |seeds| && seeds[i].code == c;
      if i < n {
        assert seeds[..n][i] == seeds[i];
      }
    }
    forall c | c in SeedCodes(seeds[..n])
      ensures c in SeedCodes(seeds)
    {
      var i :| 0 <= i < n && seeds[..n][i].code == c;
      assert seeds[i].code == c;
    }
  }

  /** After a run with fresh ids, the table holds its old codes and every
      seeded code, and no other. */
  lemma {:induction false} SeedRunCodes(table: map<Id, Language>, seeds: seq<LanguageSeed>, ids: seq<Id>, now: int)
    requires |ids| == |seeds|
    requires FreshIds(table, ids)
    ensures Codes(SeedRun(table, seeds, ids, now).table) == Codes(table) + SeedCodes(seeds)
    decreases |seeds|
  {
    if |seeds| > 0 {
      var n := |seeds| - 1;
      assert FreshIds(table, ids[..n]);
      SeedRunCodes(table, seeds[..n], ids[..n], now);
      var before := SeedRun(table, seeds[..n], ids[..n], now);
      SeedCodesSnoc(seeds);
      var seed := seeds[n];
      if seed.code !in Codes(before.table) {
        var id := ids[n];
        LastIdFresh(table, seeds, ids, now);
        var after := before.table[id := Language(id, seed.name, seed.code, now, now)];
        forall c | c in Codes(after)
          ensures c in Codes(before.table) + {seed.code}
        {
          var k :| k in after && after[k].code == c;
          if k != id {
            assert before.table[k].code == c;
          }
        }
        forall c | c in Codes(before.table)
          ensures c in Codes(after)
        {
          var k :| k in before.table && before.table[k].code == c;
          assert after[k].code == c;
        }
        assert seed.code == after[id].code;
      }
    }
  }

  /** With fresh ids, the count is the number of rows the run added. */
  lemma {:induction false} SeedRunCountsNewRows(table: map<Id, Language>, seeds: seq<LanguageSeed>, ids: seq<Id>, now: int)
    requires |ids| == |seeds|
    requires FreshIds(table, ids)
    ensures |SeedRun(table, seeds, ids, now).table| == |table| + SeedRun(table, seeds, ids, now).inserted
    decreases |seeds|
  {
    if |seeds| > 0 {
      var n := |seeds| - 1;
      assert FreshIds(table, ids[..n]);
      SeedRunCountsNewRows(table, seeds[..n], ids[..n], now);
      LastIdFresh(table, seeds, ids, now);
    }
  }

  /** Adding a code to a set of listed codes adds one absent code exactly
      when it was neither present nor listed already. */
  lemma AbsentAfterAdding(present: set<string>, listed: set<string>, code: string)
    ensures code in present + listed ==> (listed + {code}) - present == listed - present
    ensures code !in present + listed ==> |(listed + {code}) - present| == |listed - present| + 1
  {
    if code !in present + listed {
      assert (listed + {code}) - present == (listed - present) + {code};
    }
  }

  /** With fresh ids, the count is the number of distinct listed codes
      that were absent from the table before the run. */
  lemma {:induction false} CountIsAbsentCodes(table: map<Id, Language>, seeds: seq<LanguageSeed>, ids: seq<Id>, now: int)
    requires |ids| == |seeds|
    requires FreshIds(table, ids)
    ensures SeedRun(table, seeds, ids, now).inserted == |SeedCodes(seeds) - Codes(table)|
    decreases |seeds|
  {
    if |seeds| == 0 {
      assert SeedCodes(seeds) == {};
    } else {
      var n := |seeds| - 1;
      assert FreshIds(table, ids[..n]);
      CountIsAbsentCodes(table, seeds[..n], ids[..n], now);
      SeedRunCodes(table, seeds[..n], ids[..n], now);
      SeedCodesSnoc(seeds);
      var before := SeedRun(table, seeds[..n], ids[..n], now);
      assert SeedRun(table, seeds, ids, now) == Step(before, seeds[n], ids[n], now);
      AbsentAfterAdding(Codes(table), SeedCodes(seeds[..n]), seeds[n].code);
    }
  }

  /** When every code is already present, the run adds nothing. */
  lemma {:induction false} SeedRunAllPresent(table: map<Id, Language>, seeds: seq<LanguageSeed>, ids: seq<Id>, now: int)
    requires |ids| == |seeds|
    requires SeedCodes(seeds) <= Codes(table)
    ensures SeedRun(table, seeds, ids, now) == SeedState(table, 0)
    decreases |seeds|
  {
    if |seeds| > 0 {
      var n := |seeds| - 1;
      assert SeedCodes(seeds[..n]) <= SeedCodes(seeds) by {
        forall c | c in SeedCodes(seeds[..n])
          ensures c in SeedCodes(seeds)
        {
          var i :| 0 <= i < n && seeds[..n][i].code == c;
          assert seeds[i].code == c;
        }
      }
      SeedRunAllPresent(table, seeds[..n], ids[..n], now);
      assert seeds[n].code in SeedCodes(seeds);
    }
  }

  /** Seeding is idempotent: a second run over the result of a first one,
      with whatever ids, changes nothing and counts nothing. */
  lemma SeedRunIdempotent(table: map<Id, Language>, seeds: seq<LanguageSeed>, ids: seq<Id>, ids2: seq<Id>, now: int, now2: int)
    requires |ids| == |seeds| && |ids2| == |seeds|
    requires FreshIds(table, ids)
    ensures var first := SeedRun(table, seeds, ids, now).table;
      SeedRun(first, seeds, ids2, now2) == SeedState(first, 0)
  {
    SeedRunCodes(table, seeds, ids, now);
    SeedRunAllPresent(SeedRun(table, seeds, ids, now).table, seeds, ids2, now2);
  }

  /** A run keeps the language codes unique. */
  lemma {:induction false} SeedRunKeepsCodesUnique(table: map<Id, Language>, seeds: seq<LanguageSeed>, ids: seq<Id>, now: int)
    requires |ids| == |seeds|
    requires CodesUnique(table)
    ensures CodesUnique(SeedRun(table, seeds, ids, now).table)
    decreases |seeds|
  {
    if |seeds| > 0 {
      var n := |seeds| - 1;
      SeedRunKeepsCodesUnique(table, seeds[..n], ids[..n], now);
      var before := SeedRun(table, seeds[..n], ids[..n], now);
      var seed := seeds[n];
      if seed.code !in Codes(before.table) {
        forall k | k in before.table
          ensures before.table[k].code != seed.code
        {
          assert before.table[k].code in Codes(before.table);
        }
      }
    }
  }

  /** With distinct codes none of which is present, every seed adds a row. */
  lemma {:induction false} SeedRunInsertsAllAbsent(table: map<Id, Language>, seeds: seq<LanguageSeed>, ids: seq<Id>, now: int)
    requires |ids| == |seeds|
    requires FreshIds(table, ids)
    requires DistinctCodes(seeds)
    requires SeedCodes(seeds) !! Codes(table)
    ensures SeedRun(table, seeds, ids, now).inserted == |seeds|
    decreases |seeds|
  {
    if |seeds| > 0 {
      var n := |seeds| - 1;
      assert FreshIds(table, ids[..n]);
      assert SeedCodes(seeds[..n]) <= SeedCodes(seeds) by {
        forall c | c in SeedCodes(seeds[..n])
          ensures c in SeedCodes(seeds)
        {
          var i :| 0 <= i < n && seeds[..n][i].code == c;
          assert seeds[i].code == c;
        }
      }
      SeedRunInsertsAllAbsent(table, seeds[..n], ids[..n], now);
      SeedRunCodes(table, seeds[..n], ids[..n], now);
      assert seeds[n].code in SeedCodes(seeds);
      forall i | 0 <= i < n
        ensures seeds[..n][i].code != seeds[n].code
      {
        assert seeds[..n][i] == seeds[i];
      }
      assert seeds[n].code !in SeedCodes(seeds[..n]);
    }
  }

  /** The built-in list has twenty languages with pairwise different codes. */
  lemma LanguagesToSeedDistinct()
    ensures |LanguagesToSeed| == 20
    ensures DistinctCodes(LanguagesToSeed)
  {
  }

  /** Seeding a database with no languages inserts all twenty. */
  lemma SeedEmptyTableInsertsAll(ids: seq<Id>, now: int)
    requires |ids| == |LanguagesToSeed|
    requires FreshIds(map[], ids)
    ensures SeedRun(map[], LanguagesToSeed, ids, now).inserted == 20
    ensures Codes(SeedRun(map[], LanguagesToSeed, ids, now).table) == SeedCodes(LanguagesToSeed)
  {
    LanguagesToSeedDistinct();
    assert Codes(map[]) == {};
    SeedRunInsertsAllAbsent(map[], LanguagesToSeed, ids, now);
    SeedRunCodes(map[], LanguagesToSeed, ids, now);
  }

  /** How `seedLanguages` ends: normally, or by rethrowing the error of a
      failed insert.  The function itself returns nothing; `count` is the
      `insertedCount` total it writes to the log on a normal end. */
  datatype SeedOutcome = Completed(count: nat) | Rethrown

  /** A run with fresh ids over a valid table leaves a valid table: rows
      under their own ids and codes unique. */
  lemma SeedRunValid(table: map<Id, Language>, seeds: seq<LanguageSeed>, ids: seq<Id>, now: int)
    requires |ids| == |seeds|
    requires forall id :: id in table ==> table[id].id == id
    requires CodesUnique(table)
    requires FreshIds(table, ids)
    ensures var after := SeedRun(table, seeds, ids, now).table;
      (forall id :: id in after ==> after[id].id == id) && CodesUnique(after)
  {
    SeedRunKeepsRows(table, seeds, ids, now);
    SeedRunKeepsCodesUnique(table, seeds, ids, now);
  }

  /** The loop of `seedLanguages` over a list of seeds.  `failAt` is the
      index of the insert that throws, if any; the ids are the ones the
      database would generate. */
  method InsertSeeds(db: Db, seeds: seq<LanguageSeed>, ids: seq<Id>, now: int, failAt: Option<nat>)
    returns (outcome: SeedOutcome)
    requires db.Valid()
    requires |ids| == |seeds|
    requires FreshIds(db.languages, ids)
    modifies db`languages
    ensures db.Valid()
    ensures !(failAt.Some? && failAt.value < |seeds|) ==>
      var run := SeedRun(old(db.languages), seeds, ids, now);
      outcome == Completed(run.inserted) && db.languages == run.table
    ensures failAt.Some? && failAt.value < |seeds| ==>
      var k := failAt.value;
      outcome == Rethrown && db.languages == SeedRun(old(db.languages), seeds[..k], ids[..k], now).table
  {
    var insertedCount := 0;
    for i := 0 to |seeds|
      invariant SeedRun(old(db.languages), seeds[..i], ids[..i], now) == SeedState(db.languages, insertedCount)
      invariant db.Valid()
      invariant failAt.Some? ==> failAt.value >= i
    {
      if failAt == Some(i) {
        return Rethrown;
      }
      var lang := seeds[i];
      SeedRunPrefixStep(old(db.languages), seeds, ids, now, i);
      if existing :| existing in db.languages && db.languages[existing].code == lang.code {
        assert lang.code in Codes(db.languages);
      } else {
        assert lang.code !in Codes(db.languages);
        db.languages := db.languages[ids[i] := Language(ids[i], lang.name, lang.code, now, now)];
        insertedCount := insertedCount + 1;
      }
      assert FreshIds(old(db.languages), ids[..i + 1]);
      SeedRunValid(old(db.languages), seeds[..i + 1], ids[..i + 1], now);
    }
    assert seeds[..|seeds|] == seeds;
    assert ids[..|ids|] == ids;
    return Completed(insertedCount);
  }

  /** `seedLanguages`: the loop over the built-in list. */
  method SeedLanguages(db: Db, ids: seq<Id>, now: int, failAt: Option<nat>) returns (outcome: SeedOutcome)
    requires db.Valid()
    requires |ids| == |LanguagesToSeed|
    requires FreshIds(db.languages, ids)
    modifies db`languages
    ensures db.Valid()
    ensures !(failAt.Some? && failAt.value < |LanguagesToSeed|) ==>
      var run := SeedRun(old(db.languages), LanguagesToSeed, ids, now);
      outcome == Completed(run.inserted) && db.languages == run.table
    ensures failAt.Some? && failAt.value < |LanguagesToSeed| ==>
      var k := failAt.value;
      outcome == Rethrown && db.languages == SeedRun(old(db.languages), LanguagesToSeed[..k], ids[..k], now).table
  {
    outcome := InsertSeeds(db, LanguagesToSeed, ids, now, failAt);
  }
}
