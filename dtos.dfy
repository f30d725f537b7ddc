/** The data-transfer objects of the APIs Dtos folders: field bags without behaviour.
    Nullable fields are Options; the non-nullable DateTime fields of the
    create inputs are plain DateTimes. */
module Dtos {
  import opened Common

  /** Player/Game/ScoreWhereUniqueInput: the id taken from the route. */
  datatype WhereUniqueInput = WhereUniqueInput(id: string)

  /** The Player DTO returned to callers; Scores holds score ids. */
  datatype Player = Player(
    createdAt: DateTime,
    email: Option<string>,
    id: string,
    name: Option<string>,
    phone: Option<string>,
    scores: Option<seq<string>>,
    updatedAt: DateTime)

  /** The Game DTO returned to callers; Scores holds score ids. */
  datatype Game = Game(
    createdAt: DateTime,
    genre: Option<string>,
    id: string,
    scores: Option<seq<string>>,
    title: Option<string>,
    updatedAt: DateTime)

  /** The Score DTO returned to callers; Game and Player hold ids. */
  datatype Score = Score(
    createdAt: DateTime,
    game: Option<string>,
    id: string,
    player: Option<string>,
    scoreValue: Option<int32>,
    updatedAt: DateTime)

  datatype PlayerCreateInput = PlayerCreateInput(
    createdAt: DateTime,
    email: Option<string>,
    id: Option<string>,
    name: Option<string>,
    phone: Option<string>,
    scores: Option<seq<Score>>,
    updatedAt: DateTime)

  datatype PlayerUpdateInput = PlayerUpdateInput(
    createdAt: Option<DateTime>,
    email: Option<string>,
    id: Option<string>,
    name: Option<string>,
    phone: Option<string>,
    scores: Option<seq<string>>,
    updatedAt: Option<DateTime>)

  datatype GameCreateInput = GameCreateInput(
    createdAt: DateTime,
    genre: Option<string>,
    id: Option<string>,
    scores: Option<seq<Score>>,
    title: Option<string>,
    updatedAt: DateTime)

  datatype GameUpdateInput = GameUpdateInput(
    createdAt: Option<DateTime>,
    genre: Option<string>,
    id: Option<string>,
    scores: Option<seq<string>>,
    title: Option<string>,
    updatedAt: Option<DateTime>)

  datatype ScoreCreateInput = ScoreCreateInput(
    createdAt: DateTime,
    game: Option<Game>,
    id: Option<string>,
    player: Option<Player>,
    scoreValue: Option<int32>,
    updatedAt: DateTime)

  datatype ScoreUpdateInput = ScoreUpdateInput(
    createdAt: Option<DateTime>,
    game: Option<string>,
    id: Option<string>,
    player: Option<string>,
    scoreValue: Option<int32>,
    updatedAt: Option<DateTime>)

  /** `childrenIds.Select(x => x.Id)`. */
  function UniqueIds(xs: seq<WhereUniqueInput>): seq<string>
  {
    seq(|xs|, i requires 0 <= i < |xs| => xs[i].id)
  }

  /** `createDto.Scores.Select(t => t.Id)`. */
  function ScoreDtoIds(xs: seq<Score>): seq<string>
  {
    seq(|xs|, i requires 0 <= i < |xs| => xs[i].id)
  }

  /** The primary key a create call gives the new record: the caller's Id
      when it is non-null, otherwise the key supplied as `generated`. */
  function KeyFor(requested: Option<string>, generated: string): string
  {
    if requested.Some? then requested.value else generated
  }
}
