/** GamesExtensions: the mappers between GameDbModel and the Game DTOs. */
module GamesExtensions {
  import opened Common
  import opened Models
  import Dtos

  /** `model.ToDto()`: the DTO of a stored or loaded game. */
  function ToDto(model: GameDbModel): Dtos.Game
  {
    Dtos.Game(
      model.createdAt,
      model.genre,
      model.id,
      if model.scores.Some? then Some(ScoreIds(model.scores.value)) else None,
      model.title,
      model.updatedAt)
  }

  /** `updateDto.ToModel(uniqueId)`: the record an update writes. */
  function ToModel(updateDto: Dtos.GameUpdateInput, uniqueId: Dtos.WhereUniqueInput): GameDbModel
  {
    GameDbModel(
      if updateDto.createdAt.Some? then updateDto.createdAt.value else MinValue,
      updateDto.genre,
      uniqueId.id,
      Some([]),
      updateDto.title,
      if updateDto.updatedAt.Some? then updateDto.updatedAt.value else MinValue)
  }

  /** The Id of the record is the route's; the body's Id plays no part. */
  lemma ToModelTakesRouteId(updateDto: Dtos.GameUpdateInput, uniqueId: Dtos.WhereUniqueInput, bodyId: Option<string>)
    ensures ToModel(updateDto, uniqueId).id == uniqueId.id
    ensures ToModel(updateDto.(id := bodyId), uniqueId) == ToModel(updateDto, uniqueId)
  {
  }

  /** Genre and Title are copied as given, null included; the timestamps are
      copied when present and are default(DateTime) otherwise; the Scores list
      is the empty list and the Scores of the input play no part. */
  lemma ToModelFields(updateDto: Dtos.GameUpdateInput, uniqueId: Dtos.WhereUniqueInput)
    ensures var m := ToModel(updateDto, uniqueId);
      && m.genre == updateDto.genre && m.title == updateDto.title
      && (updateDto.createdAt.Some? ==> m.createdAt == updateDto.createdAt.value)
      && (updateDto.createdAt.None? ==> m.createdAt == MinValue)
      && (updateDto.updatedAt.Some? ==> m.updatedAt == updateDto.updatedAt.value)
      && (updateDto.updatedAt.None? ==> m.updatedAt == MinValue)
      && m.scores == Some([])
    ensures forall s :: ToModel(updateDto.(scores := s), uniqueId) == ToModel(updateDto, uniqueId)
  {
  }

  /** The DTO carries the record's scalar fields unchanged, and its Scores is
      null exactly when the record's list is, else the record's score ids in order. */
  lemma ToDtoFields(model: GameDbModel)
    ensures var d := ToDto(model);
      && d.createdAt == model.createdAt && d.genre == model.genre && d.id == model.id
      && d.title == model.title && d.updatedAt == model.updatedAt
      && d.scores.Some? == model.scores.Some?
      && (model.scores.Some? ==>
            |d.scores.value| == |model.scores.value|
            && forall i :: 0 <= i < |model.scores.value| ==> d.scores.value[i] == model.scores.value[i].id)
  {
    if model.scores.Some? {
      ScoreIdsInOrder(model.scores.value);
    }
  }

  /** Mapping an update to a record and back: the route's Id, the body's
      Genre and Title, and an empty Scores list. */
  lemma UpdateRoundTrip(updateDto: Dtos.GameUpdateInput, uniqueId: Dtos.WhereUniqueInput)
    ensures var d := ToDto(ToModel(updateDto, uniqueId));
      && d.id == uniqueId.id && d.genre == updateDto.genre && d.title == updateDto.title
      && d.scores == Some([])
  {
  }
}
