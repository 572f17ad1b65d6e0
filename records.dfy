/** The records the download pipeline moves from the content service into the
    local store, in the shape the downloader uses them: string identifiers
    (`uid`) that double as primary keys, and string references between records. */
module Records {

  /** A value that may be absent (`undefined`/`null` on the TypeScript side). */
  datatype Option<+T> = None | Some(value: T) {
    function GetOr(default: T): T {
      match this
      case Some(v) => v
      case None => default
    }
  }

  /** A learning goal. `unitsOfMeaning` lists the uids of the units it comprises. */
  datatype LearningGoal = LearningGoal(
    uid: string,
    name: string,
    parents: seq<string>,
    blockedBy: seq<string>,
    language: string,
    unitsOfMeaning: seq<string>,
    userCreated: bool)

  /** A unit of meaning. Its uid starts with its language ("en_cat");
      `translations` and `related` are optional lists of other units' uids. */
  datatype UnitOfMeaning = UnitOfMeaning(
    uid: string,
    languageName: Option<string>,
    content: string,
    wordType: string,
    pronunciation: Option<string>,
    notes: Option<string>,
    translations: Option<seq<string>>,
    related: Option<seq<string>>)

  /** What the caller knows about a goal before downloading it. */
  datatype LearningGoalSummary = LearningGoalSummary(uid: string, name: string)

  /** `u.translations ?? []` */
  function TranslationsOf(u: UnitOfMeaning): seq<string> {
    u.translations.GetOr([])
  }

  /** The uids of a list of units, in order. */
  function Uids(us: seq<UnitOfMeaning>): (r: seq<string>)
    ensures |r| == |us|
    ensures forall i :: 0 <= i < |us| ==> r[i] == us[i].uid
  {
    if us == [] then [] else [us[0].uid] + Uids(us[1..])
  }

  /** The set of strings occurring in a sequence. */
  function Elems(s: seq<string>): (r: set<string>)
    ensures forall x :: x in r <==> x in s
  {
    if s == [] then {} else {s[0]} + Elems(s[1..])
  }

  /** Appending one string adds just that string to the set of elements. */
  lemma ElemsSnoc(s: seq<string>, x: string)
    ensures Elems(s + [x]) == Elems(s) + {x}
  {
    assert forall y | y in s + [x] :: y in s || y == x;
  }

  /** The elements of a non-empty sequence: its head and the elements of its tail. */
  lemma ElemsCons(s: seq<string>)
    requires s != []
    ensures Elems(s) == {s[0]} + Elems(s[1..])
  {
  }

  /** No element occurs twice. */
  predicate Distinct<T(==)>(s: seq<T>) {
    forall i, j :: 0 <= i < j < |s| ==> s[i] != s[j]
  }

  lemma DistinctCons<T>(s: seq<T>)
    requires s != []
    ensures Distinct(s) <==> s[0] !in s[1..] && Distinct(s[1..])
  {
    if s[0] !in s[1..] && Distinct(s[1..]) {
      forall i, j | 0 <= i < j < |s| ensures s[i] != s[j] {
        if i == 0 {
          assert s[j] == s[1..][j - 1];
        } else {
          assert s[1..][i - 1] != s[1..][j - 1];
        }
      }
    }
    if Distinct(s) {
      forall k | 0 <= k < |s| - 1 ensures s[1..][k] != s[0] {
        assert s[0] != s[k + 1];
      }
      forall i, j | 0 <= i < j < |s| - 1 ensures s[1..][i] != s[1..][j] {
        assert s[i + 1] != s[j + 1];
      }
    }
  }
}
