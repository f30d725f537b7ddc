/** PlayersExtensions: the mappers between PlayerDbModel and the Player DTOs. */
module PlayersExtensions {
  import opened Common
  import opened Models
  import Dtos

  /** `model.ToDto()`: the DTO of a stored or loaded player. */
  function ToDto(model: PlayerDbModel): Dtos.Player
  {
    Dtos.Player(
      model.createdAt,
      model.email,
      model.id,
      model.name,
      model.phone,
      if model.scores.Some? then Some(ScoreIds(model.scores.value)) else None,
      model.updatedAt)
  }

  /** `updateDto.ToModel(uniqueId)`: the record an update writes. The Id comes
      from the route; CreatedAt and UpdatedAt keep their default unless given;
      Scores keeps the empty list of a fresh PlayerDbModel. */
  function ToModel(updateDto: Dtos.PlayerUpdateInput, uniqueId: Dtos.WhereUniqueInput): PlayerDbModel
  {
    PlayerDbModel(
      if updateDto.createdAt.Some? then updateDto.createdAt.value else MinValue,
      updateDto.email,
      uniqueId.id,
      updateDto.name,
      updateDto.phone,
      Some([]),
      if updateDto.updatedAt.Some? then updateDto.updatedAt.value else MinValue)
  }

  /** The Id of the record is the route's; the body's Id plays no part. */
  lemma ToModelTakesRouteId(updateDto: Dtos.PlayerUpdateInput, uniqueId: Dtos.WhereUniqueInput, bodyId: Option<string>)
    ensures ToModel(updateDto, uniqueId).id == uniqueId.id
    ensures ToModel(updateDto.(id := bodyId), uniqueId) == ToModel(updateDto, uniqueId)
  {
  }

  /** Email, Name and Phone are copied as given, null included; the timestamps
      are copied when present and are default(DateTime) otherwise; the Scores
      list is the empty list and the Scores of the input play no part. */
  lemma ToModelFields(updateDto: Dtos.PlayerUpdateInput, uniqueId: Dtos.WhereUniqueInput)
    ensures var m := ToModel(updateDto, uniqueId);
      && m.email == updateDto.email && m.name == updateDto.name && m.phone == updateDto.phone
      && (updateDto.createdAt.Some? ==> m.createdAt == updateDto.createdAt.value)
      && (updateDto.createdAt.None? ==> m.createdAt == MinValue)
      && (updateDto.updatedAt.Some? ==> m.updatedAt == updateDto.updatedAt.value)
      && (updateDto.updatedAt.None? ==> m.updatedAt == MinValue)
      && m.scores == Some([])
    ensures forall s :: ToModel(updateDto.(scores := s), uniqueId) == ToModel(updateDto, uniqueId)
  {
  }

  /** The DTO carries the record's scalar fields unchanged, and its Scores is
      null exactly when the record's list is, else the record's score ids in order. */
  lemma ToDtoFields(model: PlayerDbModel)
    ensures var d := ToDto(model);
      && d.createdAt == model.createdAt && d.email == model.email && d.id == model.id
      && d.name == model.name && d.phone == model.phone && d.updatedAt == model.updatedAt
      && d.scores.Some? == model.scores.Some?
      && (model.scores.Some? ==>
            |d.scores.value| == |model.scores.value|
            && forall i :: 0 <= i < |model.scores.value| ==> d.scores.value[i] == model.scores.value[i].id)
  {
    if model.scores.Some? {
      ScoreIdsInOrder(model.scores.value);
    }
  }

  /** Mapping an update to a record and back: the route's Id, the body's
      Email, Name and Phone, and an empty Scores list. */
  lemma UpdateRoundTrip(updateDto: Dtos.PlayerUpdateInput, uniqueId: Dtos.WhereUniqueInput)
    ensures var d := ToDto(ToModel(updateDto, uniqueId));
      && d.id == uniqueId.id
      && d.email == updateDto.email && d.name == updateDto.name && d.phone == updateDto.phone
      && d.scores == Some([])
  {
  }
}
