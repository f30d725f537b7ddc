/** The three persisted entities (Infrastructure/Models) and the constraints
    their annotations declare. A Score refers to its Game and its Player by
    the foreign keys GameId and PlayerId only; the Game and Player navigations
    are resolved through the store (module DataStore). */
module Models {
  import opened Common

  /** [StringLength(1000)] on Player.Name, Player.Phone, Game.Genre, Game.Title. */
  const MaxStringLength: nat := 1000

  /** [Range(-999999999, 999999999)] on Score.ScoreValue. */
  const MinScoreValue: int := -999999999
  const MaxScoreValue: int := 999999999

  /** ScoreDbModel: a score with its two optional foreign keys. */
  datatype ScoreDbModel = ScoreDbModel(
    createdAt: DateTime,
    gameId: Option<string>,
    id: string,
    playerId: Option<string>,
    scoreValue: Option<int32>,
    updatedAt: DateTime)

  /** PlayerDbModel. `scores` is the Scores navigation: the list the ORM has
      loaded or the code has assigned, null when None. */
  datatype PlayerDbModel = PlayerDbModel(
    createdAt: DateTime,
    email: Option<string>,
    id: string,
    name: Option<string>,
    phone: Option<string>,
    scores: Option<seq<ScoreDbModel>>,
    updatedAt: DateTime)

  /** GameDbModel, with its Scores navigation as in PlayerDbModel. */
  datatype GameDbModel = GameDbModel(
    createdAt: DateTime,
    genre: Option<string>,
    id: string,
    scores: Option<seq<ScoreDbModel>>,
    title: Option<string>,
    updatedAt: DateTime)

  /** A nullable string column of length 1000 can hold the value. */
  predicate FitsColumn(s: Option<string>)
  {
    s.None? || |s.value| <= MaxStringLength
  }

  /** Name and Phone are bounded; Email has no length bound. */
  predicate PlayerColumnsFit(p: PlayerDbModel)
  {
    FitsColumn(p.name) && FitsColumn(p.phone)
  }

  /** Genre and Title are bounded. */
  predicate GameColumnsFit(g: GameDbModel)
  {
    FitsColumn(g.genre) && FitsColumn(g.title)
  }

  /** The declared range of ScoreValue; null is allowed. */
  predicate ScoreValueInRange(s: ScoreDbModel)
  {
    s.scoreValue.None? || MinScoreValue <= s.scoreValue.value as int <= MaxScoreValue
  }

  /** `scores.Select(x => x.Id)`: the ids of a list of scores, in order.
      Written recursively, unlike the id projections of the DTO inputs, because
      `DataStore.Store.Rows` builds its list by appending one score at a time
      and `ScoreIdsAppend` follows that by induction. */
  function ScoreIds(scores: seq<ScoreDbModel>): seq<string>
  {
    if scores == [] then [] else [scores[0].id] + ScoreIds(scores[1..])
  }

  /** Selecting the ids keeps the length and takes each element's id in place. */
  lemma {:induction false} ScoreIdsInOrder(scores: seq<ScoreDbModel>)
    ensures |ScoreIds(scores)| == |scores|
    ensures forall i :: 0 <= i < |scores| ==> ScoreIds(scores)[i] == scores[i].id
  {
    if scores != [] {
      ScoreIdsInOrder(scores[1..]);
    }
  }

  /** Selecting the ids of a list extended by one score extends the ids by its id. */
  lemma {:induction false} ScoreIdsAppend(scores: seq<ScoreDbModel>, s: ScoreDbModel)
    ensures ScoreIds(scores + [s]) == ScoreIds(scores) + [s.id]
  {
    if scores == [] {
      assert scores + [s] == [s];
    } else {
      assert (scores + [s])[1..] == scores[1..] + [s];
      ScoreIdsAppend(scores[1..], s);
    }
  }
}
