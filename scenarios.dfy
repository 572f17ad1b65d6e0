/** The worked example of a goal whose two units are each other's translation
    (`en_goal1` with `en_cat` and `fr_chat`), downloaded into an empty store. */
module Scenarios {
  import opened Records
  import opened LocalStore
  import opened Operations
  import opened Downloader

  const Goal := LearningGoal("en_goal1", "Animals", [], [], "en", ["en_cat", "fr_chat"], false)
  const Cat := UnitOfMeaning("en_cat", Some("en"), "cat", "noun", None, None, Some(["fr_chat"]), None)
  const Chat := UnitOfMeaning("fr_chat", Some("fr"), "chat", "noun", None, None, Some(["en_cat"]), None)

  /** The content service; `fr_chat` is only found under the French path. */
  const Service := Remote(
    map[Path("en", "en_goal1") := Goal],
    map[Path("en", "en_cat") := Cat, Path("fr", "fr_chat") := Chat])

  const Summary := LearningGoalSummary("en_goal1", "Animals")

  /** Each unit is fetched in the language its uid starts with. */
  lemma ScenarioUnitLanguages()
    ensures UnitPath("en_cat") == Path("en", "en_cat")
    ensures UnitPath("fr_chat") == Path("fr", "fr_chat")
  {
    UidLanguageUnique("en_cat", "en");
    UidLanguageUnique("fr_chat", "fr");
  }

  /** The units of the goal are `en_cat` and `fr_chat`; their translation uids
      are the same two uids, each listed once, in the order they are met. */
  lemma ScenarioTranslationUids()
    ensures TranslationUids([Cat, Chat]) == ["fr_chat", "en_cat"]
  {
    assert TranslationRefs([Cat, Chat]) == ["fr_chat", "en_cat"] by {
      assert [Cat, Chat][1..] == [Chat] && [Chat][1..] == [];
      assert TranslationRefs([Chat]) == ["en_cat"];
    }
    DedupFromDistinct(["fr_chat", "en_cat"], {});
  }

  /** A fetch of two uids whose unit paths are both served gives the two served units. */
  lemma ScenarioFetchPair(remote: Remote, uids: seq<string>, first: UnitOfMeaning, second: UnitOfMeaning)
    requires |uids| == 2
    requires UnitPath(uids[0]) in remote.units && remote.units[UnitPath(uids[0])] == first
    requires UnitPath(uids[1]) in remote.units && remote.units[UnitPath(uids[1])] == second
    ensures FetchUnits(remote, uids) == Some([first, second])
  {
    var r := FetchUnits(remote, uids);
    assert forall i | 0 <= i < |uids| :: UnitPath(uids[i]) in remote.units by {
      assert forall i | 0 <= i < |uids| :: uids[i] == uids[0] || uids[i] == uids[1];
    }
    assert r.value[0] == first && r.value[1] == second;
    assert r.value == [first, second];
  }

  /** All three fetch phases succeed; the translation phase fetches both units again. */
  lemma ScenarioFetch()
    ensures Fetch(Service, Summary, "en") == Some(Fetched(Goal, [Cat, Chat], [Chat, Cat]))
  {
    ScenarioUnitLanguages();
    ScenarioFetchPair(Service, ["en_cat", "fr_chat"], Cat, Chat);
    ScenarioTranslationUids();
    ScenarioFetchPair(Service, ["fr_chat", "en_cat"], Chat, Cat);
  }

  /** The operation planned: the goal, then the units followed by their
      translations, all of them new against the empty store. */
  lemma ScenarioPlan()
    ensures PlanDownload(Service, Summary, "en", Empty) == Apply(DownloadOperation(Some(Goal), [Cat, Chat, Chat, Cat]))
  {
    ScenarioFetch();
    var f := Fetched(Goal, [Cat, Chat], [Chat, Cat]);
    DiffAgainstStore(f, Empty);
    assert f.units + f.translations == [Cat, Chat, Chat, Cat];
    UnstoredFromEmpty(f.units + f.translations);
  }

  /** Since units and translations are not merged, the planned operation
      carries each unit twice. Its `bulkAdd` then meets a repeated key, so the
      transaction adds nothing and the download ends with the failure message. */
  lemma ScenarioRepeatsUnits()
    ensures PlanDownload(Service, Summary, "en", Empty) == Apply(DownloadOperation(Some(Goal), [Cat, Chat, Chat, Cat]))
    ensures DoSpec(Empty, DownloadOperation(Some(Goal), [Cat, Chat, Chat, Cat])).None?
  {
    ScenarioPlan();
    var op := DownloadOperation(Some(Goal), [Cat, Chat, Chat, Cat]);
    DoSucceedsIff(Empty, op);
    assert Uids(op.newUnits)[1] == Uids(op.newUnits)[2];
  }
}
