/** ScoresExtensions: the mappers between ScoreDbModel and the Score DTOs. */
module ScoresExtensions {
  import opened Common
  import opened Models
  import Dtos

  /** `model.ToDto()`: the foreign keys become the DTO's Game and Player. */
  function ToDto(model: ScoreDbModel): Dtos.Score
  {
    Dtos.Score(model.createdAt, model.gameId, model.id, model.playerId, model.scoreValue, model.updatedAt)
  }

  /** `updateDto.ToModel(uniqueId)`: the record an update writes. GameId and
      PlayerId are assigned only when the input names them, and otherwise keep
      the null of a fresh ScoreDbModel. */
  function ToModel(updateDto: Dtos.ScoreUpdateInput, uniqueId: Dtos.WhereUniqueInput): ScoreDbModel
  {
    ScoreDbModel(
      if updateDto.createdAt.Some? then updateDto.createdAt.value else MinValue,
      updateDto.game,
      uniqueId.id,
      updateDto.player,
      updateDto.scoreValue,
      if updateDto.updatedAt.Some? then updateDto.updatedAt.value else MinValue)
  }

  /** The Id of the record is the route's; the body's Id plays no part. */
  lemma ToModelTakesRouteId(updateDto: Dtos.ScoreUpdateInput, uniqueId: Dtos.WhereUniqueInput, bodyId: Option<string>)
    ensures ToModel(updateDto, uniqueId).id == uniqueId.id
    ensures ToModel(updateDto.(id := bodyId), uniqueId) == ToModel(updateDto, uniqueId)
  {
  }

  /** ScoreValue is copied as given, null included; a link is set exactly when
      the input names it; the timestamps are copied when present and are
      default(DateTime) otherwise. */
  lemma ToModelFields(updateDto: Dtos.ScoreUpdateInput, uniqueId: Dtos.WhereUniqueInput)
    ensures var m := ToModel(updateDto, uniqueId);
      && m.scoreValue == updateDto.scoreValue
      && (m.gameId.Some? <==> updateDto.game.Some?) && (updateDto.game.Some? ==> m.gameId == updateDto.game)
      && (m.playerId.Some? <==> updateDto.player.Some?) && (updateDto.player.Some? ==> m.playerId == updateDto.player)
      && (updateDto.createdAt.Some? ==> m.createdAt == updateDto.createdAt.value)
      && (updateDto.createdAt.None? ==> m.createdAt == MinValue)
      && (updateDto.updatedAt.Some? ==> m.updatedAt == updateDto.updatedAt.value)
      && (updateDto.updatedAt.None? ==> m.updatedAt == MinValue)
  {
  }

  /** The declared range of ScoreValue is not enforced on the way in: the
      record is within it exactly when the input's value is, so an
      out-of-range value reaches the store unchanged. */
  lemma ToModelDoesNotCheckRange(updateDto: Dtos.ScoreUpdateInput, uniqueId: Dtos.WhereUniqueInput)
    ensures ScoreValueInRange(ToModel(updateDto, uniqueId))
        <==> updateDto.scoreValue.None? || MinScoreValue <= updateDto.scoreValue.value as int <= MaxScoreValue
    ensures updateDto.scoreValue == Some(1_000_000_000) ==> !ScoreValueInRange(ToModel(updateDto, uniqueId))
  {
  }

  /** The DTO names the linked game and player by the foreign keys and copies
      Id, ScoreValue and the timestamps. */
  lemma ToDtoFields(model: ScoreDbModel)
    ensures var d := ToDto(model);
      && d.game == model.gameId && d.player == model.playerId
      && d.id == model.id && d.scoreValue == model.scoreValue
      && d.createdAt == model.createdAt && d.updatedAt == model.updatedAt
  {
  }

  /** Mapping an update to a record and back: the route's Id, and the body's
      Game, Player and ScoreValue. */
  lemma UpdateRoundTrip(updateDto: Dtos.ScoreUpdateInput, uniqueId: Dtos.WhereUniqueInput)
    ensures var d := ToDto(ToModel(updateDto, uniqueId));
      && d.id == uniqueId.id && d.game == updateDto.game && d.player == updateDto.player
      && d.scoreValue == updateDto.scoreValue
  {
  }
}
