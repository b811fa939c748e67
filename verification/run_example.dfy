/** A worked run: three attempts of model `m:1b`, two at level 1 and one
    at level 2, aggregated by hand. */
module RunExample {
  import opened Options
  import opened Types
  import Stats
  import Seqs
  import CalcMedian
  import ParamsNum

  const A1 := Attempt("m:1b", 1, 1, Some(100), true, true, true, 100, 100, true)
  const A2 := Attempt("m:1b", 1, 2, Some(300), true, false, false, 10, 10, false)
  const A3 := Attempt("m:1b", 2, 1, None, false, false, false, 0, 0, false)
  const Run := [A1, A2, A3]

  lemma ModelsOfRun()
    ensures Stats.Models(Run) == ["m:1b"]
  {
    var m := "m:1b";
    assert Seqs.Map(Stats.ModelOf, Run) == [] + [m] + [m] + [m];
    Seqs.DistinctOfNew([], m);
    assert [] + [m] == [m];
    Seqs.DistinctOfSeen([m], m);
    Seqs.DistinctOfSeen([m] + [m], m);
  }

  lemma LevelsOfRun()
    ensures Stats.DifficultyLevels(Run) == [1, 2]
  {
    FoundLevels();
    DistinctLevels();
    CalcMedian.SortsTo([1, 2], [1, 2]);
  }

  lemma FoundLevels()
    ensures Seqs.Map(Stats.LevelOf, Run) == [] + [1] + [1] + [2]
  {
  }

  lemma DistinctLevels()
    ensures Seqs.Distinct([] + [1] + [1] + [2]) == [1, 2]
  {
    Seqs.DistinctOfNew([], 1);
    assert [] + [1] == [1];
    Seqs.DistinctOfSeen([1], 1);
    Seqs.DistinctOfNew([1] + [1], 2);
  }

  lemma GroupsOfRun()
    ensures Stats.ForModel(Run, "m:1b") == Run
    ensures Stats.ForLevel(Run, 1) == [A1, A2]
    ensures Stats.ForLevel(Run, 2) == [A3]
  {
    assert Run == [A1] + [A2, A3] && [A2, A3] == [A2] + [A3] && [A3] == [A3] + [];
    var m := "m:1b";
    Stats.HavingOfHead(A3, [], Stats.ModelOf, m);
    Stats.HavingOfHead(A2, [A3], Stats.ModelOf, m);
    Stats.HavingOfHead(A1, [A2, A3], Stats.ModelOf, m);
    LevelGroupsOfRun(1);
    LevelGroupsOfRun(2);
  }

  lemma LevelGroupsOfRun(l: int)
    ensures Stats.ForLevel(Run, l)
         == (if l == 1 then [A1, A2] else []) + (if l == 2 then [A3] else [])
  {
    assert Run == [A1] + [A2, A3] && [A2, A3] == [A2] + [A3] && [A3] == [A3] + [];
    Stats.HavingOfHead(A3, [], Stats.LevelOf, l);
    Stats.HavingOfHead(A2, [A3], Stats.LevelOf, l);
    Stats.HavingOfHead(A1, [A2, A3], Stats.LevelOf, l);
  }

  lemma TotalsOfRun()
    ensures Stats.Total(Run, Stats.AbsoluteScore) == 110
    ensures Stats.Total(Run, Stats.ValidJsonFormat) == 2
    ensures Stats.Total(Run, Stats.Successful) == 1
    ensures Stats.Total(Run, Stats.DurationOrZero) == 400
    ensures Stats.Total([A1, A2], Stats.AbsoluteScore) == 110
    ensures Stats.Total([A3], Stats.AbsoluteScore) == 0
  {
    assert Run[1..] == [A2, A3] && [A2, A3][1..] == [A3] && [A3][1..] == [];
    assert [A1, A2][1..] == [A2] && [A2][1..] == [];
    forall q | q in {Stats.AbsoluteScore, Stats.ValidJsonFormat, Stats.Successful, Stats.DurationOrZero}
      ensures Stats.Total(Run, q) == Stats.Amount(A1, q) + Stats.Amount(A2, q) + Stats.Amount(A3, q)
    {
      assert Stats.Total([A3], q) == Stats.Amount(A3, q);
      assert Stats.Total([A2, A3], q) == Stats.Amount(A2, q) + Stats.Amount(A3, q);
    }
    assert Stats.Total([A2], Stats.AbsoluteScore) == 10;
  }

  /** Only the two present durations enter the median. */
  lemma DurationsOfRun()
    ensures Stats.PresentDurations(Run) == [100, 300]
  {
    assert Run[1..] == [A2, A3] && [A2, A3][1..] == [A3] && [A3][1..] == [];
    assert Stats.PresentDurations([A3]) == [];
    assert Stats.PresentDurations([A2, A3]) == [300];
  }

  lemma MedianOfDurations()
    ensures CalcMedian.Median([100, 300]) == 200.0
  {
    CalcMedian.SortsTo([100, 300], [100, 300]);
    MiddleOfDurations();
  }

  lemma MiddleOfDurations()
    ensures CalcMedian.Middle([100, 300]) == 200.0
  {
  }

  lemma MedianDurationOfRun()
    ensures Stats.MedianOf(Stats.PresentDurations(Run)) == Some(200.0)
  {
    DurationsOfRun();
    MedianOfDurations();
  }

  lemma ParamsOfRun()
    ensures Stats.StoredParams("m:1b") == Some(1.0)
  {
    assert "m:1b" == "m" + ":" + "1" + "b";
    ParamsNum.PlainNumeral("m", "1");
    DigitsOfRun();
  }

  lemma DigitsOfRun()
    ensures ParamsNum.AllDigits("1") && ParamsNum.DigitsValue("1") == 1
  {
    assert "1"[..0] == [];
  }

  lemma ColonsOfRun()
    ensures Stats.NamesHaveColons(Run)
  {
    assert "m:1b"[1] == ':';
  }

  /** The run is aggregated into one model entry for `m:1b`, one billion
      parameters, over the levels 1 and 2. */
  lemma AggregateOfRun()
    ensures Stats.Aggregate(Run).Success?
    ensures Stats.Aggregate(Run).value.models == ["m:1b"]
    ensures Stats.Aggregate(Run).value.difficultyLevels == [1, 2]
    ensures |Stats.Aggregate(Run).value.data| == 1
    ensures Stats.Aggregate(Run).value.data[0] == Stats.ModelEntryOf(Run, "m:1b", Some(1.0), [1, 2])
  {
    ColonsOfRun();
    ModelsOfRun();
    LevelsOfRun();
    ParamsOfRun();
    Stats.EntryOfRun(Run, 0);
  }

  /** The model's summary over all three attempts. */
  lemma SummaryOfRun()
    ensures var s := Stats.ModelSummary(Run);
      && s.count == 3
      && s.totalAbsoluteScore == 110
      && s.totalIsSuccessful == 1
      && s.totalDuration == 400
      && s.averageHasValidJsonFormat == Some(2.0 / 3.0)
      && s.medianDuration == Some(200.0)
  {
    var s := Stats.ModelSummary(Run);
    TotalsOfRun();
    MedianDurationOfRun();
    assert Stats.TotalOf(s, Stats.AbsoluteScore) == 110;
    assert Stats.TotalOf(s, Stats.Successful) == 1;
    assert Stats.TotalOf(s, Stats.DurationOrZero) == 400;
    assert Stats.TotalOf(s, Stats.ValidJsonFormat) == 2;
  }

  /** The source leaves the model's JSON-format average at 0; the
      corrected summary has 2 JSON replies over 3 attempts. */
  lemma JsonAverageOfRun()
    ensures Stats.ModelSummaryAsWritten(Run).averageHasValidJsonFormat == Some(0.0)
    ensures Stats.ModelSummaryAsWritten(Run).totalHasValidJsonFormat == 2
    ensures Stats.ModelSummary(Run).averageHasValidJsonFormat == Some(2.0 / 3.0)
  {
    TotalsOfRun();
    assert Stats.TotalOf(Stats.ModelSummaryAsWritten(Run), Stats.ValidJsonFormat) == 2;
    assert Stats.TotalOf(Stats.ModelSummary(Run), Stats.ValidJsonFormat) == 2;
  }

  /** One level entry per level, each summarising that level's attempts. */
  lemma LevelEntriesOfRun()
    ensures var es := Stats.LevelEntries(Run, "m:1b", Some(1.0), [1, 2]);
      && es[0].difficultyLevel == 1
      && es[0].stats.count == 2
      && es[0].stats.totalAbsoluteScore == 110
      && es[1].difficultyLevel == 2
      && es[1].stats.count == 1
      && es[1].stats.totalAbsoluteScore == 0
  {
    var es := Stats.LevelEntries(Run, "m:1b", Some(1.0), [1, 2]);
    GroupsOfRun();
    TotalsOfRun();
    assert Stats.TotalOf(es[0].stats, Stats.AbsoluteScore) == 110;
    assert Stats.TotalOf(es[1].stats, Stats.AbsoluteScore) == 0;
  }

  /** The model entry of the run is its summary with those level entries:
      the levels 1 and 2 are array indices, so `Object.values` keeps them
      in ascending order. */
  lemma EntryOfRun()
    ensures Stats.ModelEntryOf(Run, "m:1b", Some(1.0), [1, 2])
         == Stats.ModelEntry("m:1b", Some(1.0), Stats.ModelSummary(Run),
                             Stats.LevelEntries(Run, "m:1b", Some(1.0), [1, 2]))
  {
    GroupsOfRun();
    assert Stats.RecordOrder([1, 2]) == [1, 2];
  }
}
