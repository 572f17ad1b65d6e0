/** `useLearningGoalDownloader`: downloads a learning goal, its units and
    their direct translations from the content service, keeps only what the
    local store does not have yet, and hands the additions to the history as
    one undoable operation. The content service is a value: what it answers
    for each request path. */
module Downloader {
  import opened Records
  import opened LocalStore
  import opened Operations
  import opened History

  // ---------------------------------------------------------------------------
  // The content service

  /** The language and uid segments of a request path
      (`learning_goals/{language}/{uid}.json`, `units_of_meaning/{language}/{uid}.json`). */
  datatype Path = Path(language: string, uid: string)

  /** What the content service answers. A path it has no record for stands for
      any failed fetch: network error, missing file or undecodable body. */
  datatype Remote = Remote(goals: map<Path, LearningGoal>, units: map<Path, UnitOfMeaning>)

  /** `uid.split('_')[0]`: everything before the first underscore, or the
      whole uid when it has none. */
  function UidLanguage(uid: string): (lang: string)
    ensures lang <= uid && '_' !in lang
    ensures lang == uid || uid[|lang|] == '_'
  {
    if uid == [] || uid[0] == '_' then [] else [uid[0]] + UidLanguage(uid[1..])
  }

  /** The two clauses of UidLanguage's contract pin its result down. */
  lemma {:induction false} UidLanguageUnique(uid: string, lang: string)
    requires lang <= uid && '_' !in lang
    requires lang == uid || uid[|lang|] == '_'
    ensures lang == UidLanguage(uid)
  {
    if lang != [] {
      assert uid[0] == lang[0];
      UidLanguageUnique(uid[1..], lang[1..]);
    }
  }

  /** A unit is requested in the language its own uid names, whatever the
      language of the goal that refers to it. */
  function UnitPath(uid: string): Path {
    Path(UidLanguage(uid), uid)
  }

  /** Phase 1: the full goal, requested in the caller's language. */
  function FetchGoal(remote: Remote, language: string, uid: string): Option<LearningGoal> {
    var path := Path(language, uid);
    if path in remote.goals then Some(remote.goals[path]) else None
  }

  /** Phases 2 and 3 (`Promise.all` over the per-uid fetches): every unit in
      the order of the uids, or a failure as soon as one fetch fails. */
  function FetchUnits(remote: Remote, uids: seq<string>): (r: Option<seq<UnitOfMeaning>>)
    ensures r.Some? <==> forall i | 0 <= i < |uids| :: UnitPath(uids[i]) in remote.units
    ensures r.Some? ==> |r.value| == |uids|
    ensures r.Some? ==> forall i | 0 <= i < |uids| :: r.value[i] == remote.units[UnitPath(uids[i])]
  {
    if uids == [] then Some([])
    else
      var path := UnitPath(uids[0]);
      var rest := FetchUnits(remote, uids[1..]);
      if path !in remote.units || rest.None? then
        assert rest.None? ==> exists i | 0 <= i < |uids| - 1 :: UnitPath(uids[1..][i]) !in remote.units;
        None
      else
        assert forall i | 0 < i < |uids| :: uids[i] == uids[1..][i - 1];
        Some([remote.units[path]] + rest.value)
  }

  // ---------------------------------------------------------------------------
  // Translation uids

  /** `units.flatMap(u => u.translations ?? [])` */
  function TranslationRefs(units: seq<UnitOfMeaning>): (r: seq<string>)
    ensures forall x :: x in r <==> exists i | 0 <= i < |units| :: x in TranslationsOf(units[i])
  {
    if units == [] then []
    else
      var rest := TranslationRefs(units[1..]);
      assert forall i | 0 < i < |units| :: units[i] == units[1..][i - 1];
      TranslationsOf(units[0]) + rest
  }

  /** The elements of `s` that are not in `seen`, each once, in the order of
      their first occurrence (what iterating a JavaScript `Set` built from `s`
      gives, minus `seen`). */
  function DedupFrom(s: seq<string>, seen: set<string>): (r: seq<string>)
    ensures Distinct(r)
    ensures forall x :: x in r <==> x in s && x !in seen
  {
    if s == [] then []
    else if s[0] in seen then DedupFrom(s[1..], seen)
    else
      var rest := DedupFrom(s[1..], seen + {s[0]});
      DistinctCons([s[0]] + rest);
      assert ([s[0]] + rest)[1..] == rest;
      [s[0]] + rest
  }

  /** Deduplication changes nothing in a list that has no repeats and avoids `seen`. */
  lemma {:induction false} DedupFromDistinct(s: seq<string>, seen: set<string>)
    requires Distinct(s) && forall x | x in s :: x !in seen
    ensures DedupFrom(s, seen) == s
  {
    if s != [] {
      DistinctCons(s);
      DedupFromDistinct(s[1..], seen + {s[0]});
    }
  }

  /** `Array.from(new Set(units.flatMap(u => u.translations ?? [])))`: every uid
      some fetched unit lists as a translation, each exactly once. */
  function TranslationUids(units: seq<UnitOfMeaning>): (r: seq<string>)
    ensures Distinct(r)
    ensures forall x :: x in r <==> exists i | 0 <= i < |units| :: x in TranslationsOf(units[i])
  {
    DedupFrom(TranslationRefs(units), {})
  }

  // ---------------------------------------------------------------------------
  // Diff against the local store

  /** The three fetch phases' results. */
  datatype Fetched = Fetched(goal: LearningGoal, units: seq<UnitOfMeaning>, translations: seq<UnitOfMeaning>)

  /** Phase 1, then phase 2 over the goal's unit uids, then phase 3 over the
      translation uids of those units (skipped when there are none). */
  function Fetch(remote: Remote, summary: LearningGoalSummary, language: string): (r: Option<Fetched>)
    ensures r.Some? ==> Path(language, summary.uid) in remote.goals && r.value.goal == remote.goals[Path(language, summary.uid)]
    ensures r.Some? ==> FetchUnits(remote, r.value.goal.unitsOfMeaning) == Some(r.value.units)
    ensures r.Some? ==> FetchUnits(remote, TranslationUids(r.value.units)) == Some(r.value.translations)
    ensures r.None? <==>
      || Path(language, summary.uid) !in remote.goals
      || FetchUnits(remote, remote.goals[Path(language, summary.uid)].unitsOfMeaning).None?
      || FetchUnits(remote, TranslationUids(FetchUnits(remote, remote.goals[Path(language, summary.uid)].unitsOfMeaning).value)).None?
  {
    match FetchGoal(remote, language, summary.uid)
    case None => None
    case Some(goal) =>
      match FetchUnits(remote, goal.unitsOfMeaning)
      case None => None
      case Some(units) =>
        var translationUids := TranslationUids(units);
        var translations := if |translationUids| > 0 then FetchUnits(remote, translationUids) else Some([]);
        match translations
        case None => None
        case Some(ts) => Some(Fetched(goal, units, ts))
  }

  /** `bulkGet(...)` answers, keep the stored records, take their uids. */
  function ExistingUnitUids(found: seq<Option<UnitOfMeaning>>): (r: seq<string>)
    ensures forall x :: x in r <==> exists i | 0 <= i < |found| :: found[i].Some? && found[i].value.uid == x
  {
    if found == [] then []
    else
      var rest := ExistingUnitUids(found[1..]);
      assert forall i | 0 < i < |found| :: found[i] == found[1..][i - 1];
      (if found[0].Some? then [found[0].value.uid] else []) + rest
  }

  /** `allUnits.filter(u => !existingUnitUids.includes(u.uid))` */
  function NewUnits(allUnits: seq<UnitOfMeaning>, existing: seq<string>): seq<UnitOfMeaning> {
    if allUnits == [] then []
    else (if allUnits[0].uid in existing then [] else [allUnits[0]]) + NewUnits(allUnits[1..], existing)
  }

  /** The reference definition of the new units: the fetched units, in order
      and with repeats, whose uid is not a key of the unit table. */
  function Unstored(allUnits: seq<UnitOfMeaning>, units: map<string, UnitOfMeaning>): seq<UnitOfMeaning> {
    if allUnits == [] then []
    else (if allUnits[0].uid in units then [] else [allUnits[0]]) + Unstored(allUnits[1..], units)
  }

  /** `existingGoal = await learningGoals.get(goal.uid)`, then
      `!existingGoal ? learningGoal : null`: the goal is new exactly when the
      goal table has no record under its uid. */
  function NewGoal(goal: LearningGoal, goals: map<string, LearningGoal>): (r: Option<LearningGoal>)
    ensures r == if goal.uid in goals then None else Some(goal)
  {
    var existingGoal := Lookup(goals, goal.uid);
    if existingGoal.None? then Some(goal) else None
  }

  /** Step 4 of the download: one `bulkGet` for all fetched units and
      translations together, one `get` for the goal. */
  function Diff(f: Fetched, t: Tables): DownloadOperation {
    var allUnits := f.units + f.translations;
    var existingUnitUids := ExistingUnitUids(BulkGet(t.unitsOfMeaning, Uids(allUnits)));
    DownloadOperation(
      NewGoal(f.goal, t.learningGoals),
      NewUnits(allUnits, existingUnitUids))
  }

  /** Whether a list of uids and the unit table agree on which fetched units exist. */
  lemma {:induction false} NewUnitsByKey(allUnits: seq<UnitOfMeaning>, existing: seq<string>, units: map<string, UnitOfMeaning>)
    requires forall i | 0 <= i < |allUnits| :: allUnits[i].uid in existing <==> allUnits[i].uid in units
    ensures NewUnits(allUnits, existing) == Unstored(allUnits, units)
  {
    if allUnits != [] {
      assert forall i | 0 < i < |allUnits| :: allUnits[i] == allUnits[1..][i - 1];
      NewUnitsByKey(allUnits[1..], existing, units);
    }
  }

  /** On a well-keyed store the diff is what it claims to be: the goal exactly
      when its uid is not stored, and the fetched units (units first, then
      translations, repeats kept) whose uid is not stored. */
  lemma DiffAgainstStore(f: Fetched, t: Tables)
    requires WellKeyed(t)
    ensures Diff(f, t).newGoal == (if f.goal.uid in t.learningGoals then None else Some(f.goal))
    ensures Diff(f, t).newUnits == Unstored(f.units + f.translations, t.unitsOfMeaning)
  {
    var allUnits := f.units + f.translations;
    var found := BulkGet(t.unitsOfMeaning, Uids(allUnits));
    var existing := ExistingUnitUids(found);
    forall i | 0 <= i < |allUnits| ensures allUnits[i].uid in existing <==> allUnits[i].uid in t.unitsOfMeaning {
      if allUnits[i].uid in t.unitsOfMeaning {
        assert found[i].Some? && found[i].value.uid == allUnits[i].uid;
      }
    }
    NewUnitsByKey(allUnits, existing, t.unitsOfMeaning);
  }

  /** Unstored keeps exactly the units whose uid is absent, so none of them is stored. */
  lemma {:induction false} UnstoredMembers(allUnits: seq<UnitOfMeaning>, units: map<string, UnitOfMeaning>)
    ensures forall u :: u in Unstored(allUnits, units) <==> u in allUnits && u.uid !in units
  {
    if allUnits != [] {
      UnstoredMembers(allUnits[1..], units);
      assert forall u | u in allUnits :: u == allUnits[0] || u in allUnits[1..];
    }
  }

  /** Against an empty unit table every fetched unit is new. */
  lemma {:induction false} UnstoredFromEmpty(allUnits: seq<UnitOfMeaning>)
    ensures Unstored(allUnits, map[]) == allUnits
  {
    if allUnits != [] {
      UnstoredFromEmpty(allUnits[1..]);
    }
  }

  // ---------------------------------------------------------------------------
  // The download as a whole

  /** How a download ends before step 7: the fetch failed, there was nothing
      new, or there is an operation to execute. */
  datatype Plan = FetchFailed | NothingNew | Apply(op: DownloadOperation)

  function PlanDownload(remote: Remote, summary: LearningGoalSummary, language: string, t: Tables): Plan {
    match Fetch(remote, summary, language)
    case None => FetchFailed
    case Some(f) =>
      var op := Diff(f, t);
      if op.newGoal.None? && op.newUnits == [] then NothingNew else Apply(op)
  }

  const AlreadyExistsMessage := "All items already exist locally."

  function FailureMessage(name: string): string {
    "Failed to download '" + name + "'. See console for details."
  }

  /** `.filter(Boolean)` on strings: drops the empty ones. */
  function DropEmpty(s: seq<string>): (r: seq<string>)
    ensures |r| <= |s|
    ensures forall x :: x in r <==> x in s && x != ""
  {
    if s == [] then []
    else
      var rest := DropEmpty(s[1..]);
      assert forall x | x in s :: x == s[0] || x in s[1..];
      (if s[0] == "" then [] else [s[0]]) + rest
  }

  /** Dropping empty strings works piece by piece, so it keeps the order of what it keeps. */
  lemma {:induction false} DropEmptyAppend(a: seq<string>, b: seq<string>)
    ensures DropEmpty(a + b) == DropEmpty(a) + DropEmpty(b)
  {
    if a == [] {
      assert a + b == b;
    } else {
      assert (a + b)[0] == a[0] && (a + b)[1..] == a[1..] + b;
      DropEmptyAppend(a[1..], b);
    }
  }

  function Contents(us: seq<UnitOfMeaning>): (r: seq<string>)
    ensures |r| == |us| && forall i | 0 <= i < |us| :: r[i] == us[i].content
  {
    if us == [] then [] else [us[0].content] + Contents(us[1..])
  }

  /** `[newGoal?.name, ...newUnits.map(u => u.content)].filter(Boolean)`; an absent goal contributes nothing. */
  function DownloadedNames(op: DownloadOperation): seq<string> {
    DropEmpty((if op.newGoal.Some? then [op.newGoal.value.name] else []) + Contents(op.newUnits))
  }

  /** The names shown after a download: the new goal's name first when it has
      one, then the non-empty contents of the new units in their order. */
  lemma DownloadedNamesSplit(op: DownloadOperation)
    ensures DownloadedNames(op) ==
      (if op.newGoal.Some? && op.newGoal.value.name != "" then [op.newGoal.value.name] else []) + DropEmpty(Contents(op.newUnits))
    ensures forall x :: x in DownloadedNames(op) <==>
      x != "" && ((op.newGoal.Some? && x == op.newGoal.value.name) || exists i | 0 <= i < |op.newUnits| :: op.newUnits[i].content == x)
  {
    var head := if op.newGoal.Some? then [op.newGoal.value.name] else [];
    DropEmptyAppend(head, Contents(op.newUnits));
    assert DropEmpty(head) == if op.newGoal.Some? && op.newGoal.value.name != "" then [op.newGoal.value.name] else [] by {
      if head != [] {
        assert head[1..] == [];
      }
    }
  }

  // ---------------------------------------------------------------------------
  // Properties of the download plan

  /** What a plan applies was not stored, goal nor units, and is not empty. */
  lemma PlanAddsOnlyUnstored(remote: Remote, summary: LearningGoalSummary, language: string, t: Tables)
    requires WellKeyed(t) && PlanDownload(remote, summary, language, t).Apply?
    ensures var op := PlanDownload(remote, summary, language, t).op;
      && (op.newGoal.Some? || op.newUnits != [])
      && (op.newGoal.Some? ==> op.newGoal.value.uid !in t.learningGoals)
      && (forall k | k in Uids(op.newUnits) :: k !in t.unitsOfMeaning)
  {
    var f := Fetch(remote, summary, language).value;
    var op := Diff(f, t);
    DiffAgainstStore(f, t);
    UnstoredMembers(f.units + f.translations, t.unitsOfMeaning);
    forall k | k in Uids(op.newUnits) ensures k !in t.unitsOfMeaning {
      var i :| 0 <= i < |op.newUnits| && Uids(op.newUnits)[i] == k;
      assert op.newUnits[i] in op.newUnits;
    }
  }

  /** The transaction of a planned download fails exactly when the new units
      repeat a uid: the fetched units and their translations are not
      deduplicated against each other, and `bulkAdd` refuses a repeated key. */
  lemma PlanDoFailsIffRepeats(remote: Remote, summary: LearningGoalSummary, language: string, t: Tables)
    requires WellKeyed(t) && PlanDownload(remote, summary, language, t).Apply?
    ensures var op := PlanDownload(remote, summary, language, t).op;
      DoSpec(t, op).Some? <==> Distinct(Uids(op.newUnits))
  {
    PlanAddsOnlyUnstored(remote, summary, language, t);
    DoSucceedsIff(t, PlanDownload(remote, summary, language, t).op);
  }

  /** With distinct uids, a planned download's `do` succeeds and its `undo`
      restores both tables. */
  lemma PlanDoUndoInverse(remote: Remote, summary: LearningGoalSummary, language: string, t: Tables)
    requires WellKeyed(t) && PlanDownload(remote, summary, language, t).Apply?
    requires Distinct(Uids(PlanDownload(remote, summary, language, t).op.newUnits))
    ensures var op := PlanDownload(remote, summary, language, t).op;
      DoSpec(t, op).Some? && UndoSpec(DoSpec(t, op).value, op) == t
  {
    PlanAddsOnlyUnstored(remote, summary, language, t);
    DoThenUndoRestores(t, PlanDownload(remote, summary, language, t).op);
  }

  /** Downloading again what a successful download stored finds nothing new. */
  lemma RedownloadFindsNothingNew(remote: Remote, summary: LearningGoalSummary, language: string, t: Tables)
    requires WellKeyed(t) && PlanDownload(remote, summary, language, t).Apply?
    requires DoSpec(t, PlanDownload(remote, summary, language, t).op).Some?
    ensures PlanDownload(remote, summary, language, DoSpec(t, PlanDownload(remote, summary, language, t).op).value) == NothingNew
  {
    var f := Fetch(remote, summary, language).value;
    var op := Diff(f, t);
    var t' := DoSpec(t, op).value;
    DiffAgainstStore(f, t);
    DoAddsExactly(t, op);
    DoPreservesWellKeyed(t, op);
    DiffAgainstStore(f, t');
    var allUnits := f.units + f.translations;
    UnstoredMembers(allUnits, t.unitsOfMeaning);
    UnstoredMembers(allUnits, t'.unitsOfMeaning);
    forall u | u in allUnits ensures u.uid in t'.unitsOfMeaning {
      if u.uid !in t.unitsOfMeaning {
        assert u in op.newUnits;
        var i :| 0 <= i < |op.newUnits| && op.newUnits[i] == u;
        assert Uids(op.newUnits)[i] == u.uid;
      }
    }
    if Unstored(allUnits, t'.unitsOfMeaning) != [] {
      assert Unstored(allUnits, t'.unitsOfMeaning)[0] in Unstored(allUnits, t'.unitsOfMeaning);
    }
  }

  // ---------------------------------------------------------------------------
  // The composable's state

  class LearningGoalDownloader {
    var isLoading: bool
    var error: Option<string>
    var lastDownloadedNames: seq<string>

    constructor ()
      ensures !isLoading && error == None && lastDownloadedNames == []
    {
      isLoading := false;
      error := None;
      lastDownloadedNames := [];
    }

    /** `downloadLearningGoal(goalSummary, language, $db, execute)`, with the
        database and `execute` taken from `history`. Every failure (a fetch, or
        the `do` transaction inside `execute`) ends in the generic failure
        message; nothing new ends in the "already exist" message without
        calling `execute`; a success records the added names. `isLoading` is
        false whichever way the call ends. */
    method DownloadLearningGoal(summary: LearningGoalSummary, language: string, remote: Remote,
                                history: HistoryManager, engineFails: bool)
      requires history.db.Valid()
      modifies this, history, history.db
      ensures history.db.Valid()
      ensures !isLoading
      ensures var t := old(history.db.Snapshot());
        var plan := PlanDownload(remote, summary, language, t);
        if plan.Apply? && !engineFails && DoSpec(t, plan.op).Some? then
          && history.db.Snapshot() == DoSpec(t, plan.op).value
          && history.undoStack == old(history.undoStack) + [plan.op] && history.redoStack == []
          && error == None && lastDownloadedNames == DownloadedNames(plan.op)
        else
          && history.db.Snapshot() == t
          && history.undoStack == old(history.undoStack) && history.redoStack == old(history.redoStack)
          && error == Some(if plan.NothingNew? then AlreadyExistsMessage else FailureMessage(summary.name))
          && lastDownloadedNames == []
    {
      isLoading := true;
      error := None;
      lastDownloadedNames := [];
      var db := history.db;
      // 1. the goal
      var goal := FetchGoal(remote, language, summary.uid);
      if goal.None? {
        error := Some(FailureMessage(summary.name));
        isLoading := false;
        return;
      }
      // 2. its units, each in the language of its own uid
      var units := FetchUnits(remote, goal.value.unitsOfMeaning);
      if units.None? {
        error := Some(FailureMessage(summary.name));
        isLoading := false;
        return;
      }
      // 3. their direct translations, if any
      var translationUids := TranslationUids(units.value);
      var translations := if |translationUids| > 0 then FetchUnits(remote, translationUids) else Some([]);
      if translations.None? {
        error := Some(FailureMessage(summary.name));
        isLoading := false;
        return;
      }
      assert Fetch(remote, summary, language) == Some(Fetched(goal.value, units.value, translations.value));
      // 4. what the store does not have yet
      var allUnits := units.value + translations.value;
      var existingUnitUids := ExistingUnitUids(BulkGet(db.unitsOfMeaning, Uids(allUnits)));
      var newUnits := NewUnits(allUnits, existingUnitUids);
      var newGoal := NewGoal(goal.value, db.learningGoals);
      // 5. nothing new
      if newGoal.None? && newUnits == [] {
        error := Some(AlreadyExistsMessage);
        isLoading := false;
        return;
      }
      // 6. and 7. one undoable operation
      var op := DownloadOperation(newGoal, newUnits);
      var ok := history.Execute(op, true, engineFails);
      if ok {
        lastDownloadedNames := DownloadedNames(op);
      } else {
        error := Some(FailureMessage(summary.name));
      }
      isLoading := false;
    }

    /** `reset()`: back to the initial transient state. */
    method Reset()
      modifies this
      ensures !isLoading && error == None && lastDownloadedNames == []
    {
      isLoading := false;
      error := None;
      lastDownloadedNames := [];
    }
  }

  /** Downloading the same goal twice in a row: the second call finds nothing
      new, so the tables and the history are as the first call left them, and
      the undo stack grows by at most the one operation of the first call. */
  method DownloadTwice(d: LearningGoalDownloader, summary: LearningGoalSummary, language: string,
                       remote: Remote, history: HistoryManager)
    requires history.db.Valid()
    modifies d, history, history.db
    ensures var t := old(history.db.Snapshot());
      var plan := PlanDownload(remote, summary, language, t);
      if plan.Apply? && DoSpec(t, plan.op).Some? then
        && history.db.Snapshot() == DoSpec(t, plan.op).value
        && history.undoStack == old(history.undoStack) + [plan.op]
        && d.error == Some(AlreadyExistsMessage)
      else
        && history.db.Snapshot() == t
        && history.undoStack == old(history.undoStack)
  {
    ghost var t := history.db.Snapshot();
    ghost var plan := PlanDownload(remote, summary, language, t);
    d.DownloadLearningGoal(summary, language, remote, history, false);
    if plan.Apply? && DoSpec(t, plan.op).Some? {
      RedownloadFindsNothingNew(remote, summary, language, t);
    }
    d.DownloadLearningGoal(summary, language, remote, history, false);
  }
}
