/** ScoresServiceBase: create, delete, get and update a score, and the
    lookups of the game and the player a score belongs to. */
module ScoresService {
  import opened Common
  import opened Models
  import opened Tables
  import opened DataStore
  import Dtos
  import PlayersExtensions
  import GamesExtensions
  import ScoresExtensions

  /** CreateScore: inserts the score under the caller's Id, or, when that Id
      is null, under the key supplied as `generatedId`; the C# code
      configures no key generation. The score is linked to the
      input's Game and Player only when a record with that id exists; a miss
      leaves the link null. A taken key is refused and nothing is written. */
  method CreateScore(db: Store, createDto: Dtos.ScoreCreateInput, generatedId: string)
    returns (r: Result<Dtos.Score>)
    requires db.Valid()
    modifies db
    ensures db.Valid()
    ensures db.players == old(db.players) && db.games == old(db.games)
    ensures var id := Dtos.KeyFor(createDto.id, generatedId);
      && (r.Failure? <==> id in old(db.scores))
      && (r.Failure? ==> r.error == DuplicateKey && db.scores == old(db.scores))
    ensures var id := Dtos.KeyFor(createDto.id, generatedId);
      r.Success? ==>
        && id in db.scores && db.scores == old(db.scores)[id := db.scores[id]]
        && var s := db.scores[id];
        && s.createdAt == createDto.createdAt && s.scoreValue == createDto.scoreValue
        && s.updatedAt == createDto.updatedAt
        && (s.gameId.Some? <==> createDto.game.Some? && createDto.game.value.id in db.games)
        && (s.gameId.Some? ==> s.gameId.value == createDto.game.value.id)
        && (s.playerId.Some? <==> createDto.player.Some? && createDto.player.value.id in db.players)
        && (s.playerId.Some? ==> s.playerId.value == createDto.player.value.id)
        && r.value == ScoresExtensions.ToDto(s)
  {
    var score := ScoreDbModel(createDto.createdAt, None, generatedId, None, createDto.scoreValue, createDto.updatedAt);
    if createDto.id.Some? {
      score := score.(id := createDto.id.value);
    }
    if createDto.game.Some? {
      // look up the game with the given id; a miss yields no game
      var g := createDto.game.value.id;
      score := score.(gameId := if g in db.games then Some(g) else None);
    }
    if createDto.player.Some? {
      var p := createDto.player.value.id;
      score := score.(playerId := if p in db.players then Some(p) else None);
    }
    // insert the new score and save
    if score.id in db.scores {
      return Failure(DuplicateKey);
    }
    db.scores := db.scores[score.id := score];
    r := Success(ScoresExtensions.ToDto(score));
  }

  /** DeleteScore: NotFound for an unknown id; otherwise exactly that score
      goes, and with it its place in its game's and player's Scores. */
  method DeleteScore(db: Store, uniqueId: Dtos.WhereUniqueInput) returns (r: Outcome)
    requires db.Valid()
    modifies db
    ensures db.Valid()
    ensures db.players == old(db.players) && db.games == old(db.games)
    ensures r.Fail? <==> uniqueId.id !in old(db.scores)
    ensures r.Fail? ==> r.error == NotFound && db.scores == old(db.scores)
    ensures r.Pass? ==> db.scores == old(db.scores) - {uniqueId.id}
    ensures r.Pass? ==> forall rel, parent ::
      Children(db.scores, rel, parent) == Children(old(db.scores), rel, parent) - {uniqueId.id}
  {
    if uniqueId.id !in db.scores {
      return Fail(NotFound);
    }
    db.scores := db.scores - {uniqueId.id};
    r := Pass;
  }

  /** Score (get one): NotFound when no score has the id; otherwise the stored
      score's DTO. */
  method Score(db: Store, uniqueId: Dtos.WhereUniqueInput) returns (r: Result<Dtos.Score>)
    requires db.Valid()
    ensures r.Failure? <==> uniqueId.id !in db.scores
    ensures r.Failure? ==> r.error == NotFound
    ensures r.Success? ==> r.value == ScoresExtensions.ToDto(db.scores[uniqueId.id]) && r.value.id == uniqueId.id
  {
    if uniqueId.id !in db.scores {
      return Failure(NotFound);
    }
    r := Success(ScoresExtensions.ToDto(db.scores[uniqueId.id]));
  }

  /** UpdateScore: writes ToModel's record over the stored row. A Game or
      Player the input names becomes the link, and the store refuses the
      write when no such record exists; a Game or Player the input omits
      leaves the link null. When no row has the id the save fails: NotFound,
      or the re-raised conflict when the re-check finds the row again. */
  method UpdateScore(db: Store, uniqueId: Dtos.WhereUniqueInput, updateDto: Dtos.ScoreUpdateInput,
                     presentAtRecheck: bool)
    returns (r: Outcome)
    requires db.Valid()
    modifies db
    ensures db.Valid()
    ensures db.players == old(db.players) && db.games == old(db.games)
    ensures var linksExist := && (updateDto.game.None? || updateDto.game.value in db.games)
                              && (updateDto.player.None? || updateDto.player.value in db.players);
      && (uniqueId.id !in old(db.scores) ==> r == Fail(if presentAtRecheck then ConcurrencyConflict else NotFound))
      && (uniqueId.id in old(db.scores) && !linksExist ==> r == Fail(ForeignKeyViolation))
      && (r.Pass? <==> uniqueId.id in old(db.scores) && linksExist)
      && (r.Fail? ==> db.scores == old(db.scores))
      && (r.Pass? ==> db.scores == old(db.scores)[uniqueId.id := ScoresExtensions.ToModel(updateDto, uniqueId)])
    ensures r.Pass? ==>
      && db.scores[uniqueId.id].gameId == updateDto.game
      && db.scores[uniqueId.id].playerId == updateDto.player
      && db.scores[uniqueId.id].scoreValue == updateDto.scoreValue
  {
    var score := ScoresExtensions.ToModel(updateDto, uniqueId);
    // The lookups that follow only set the Game and Player navigations; a
    // miss leaves them null, and then the foreign keys ToModel set are saved.
    // mark the whole row modified and save
    if score.id !in db.scores {
      // the save finds no row to update; a second lookup decides which error is raised
      if presentAtRecheck {
        return Fail(ConcurrencyConflict);
      }
      return Fail(NotFound);
    }
    if !LinkValid(score.gameId, db.games) || !LinkValid(score.playerId, db.players) {
      return Fail(ForeignKeyViolation);
    }
    db.scores := db.scores[score.id := score];
    r := Pass;
  }

  /** GetGame: NotFound when no score has the id. A score with no game fails
      on the null navigation. Otherwise the result is the linked game's DTO,
      whose Scores holds the one score this query loaded. */
  method GetGame(db: Store, uniqueId: Dtos.WhereUniqueInput) returns (r: Result<Dtos.Game>)
    requires db.Valid()
    ensures r == Failure(NotFound) <==> uniqueId.id !in db.scores
    ensures r == Failure(NullReference) <==> uniqueId.id in db.scores && db.scores[uniqueId.id].gameId.None?
    ensures r.Failure? ==> r.error in {NotFound, NullReference}
    ensures r.Success? ==>
      && uniqueId.id in db.scores && db.scores[uniqueId.id].gameId.Some?
      && var g := db.scores[uniqueId.id].gameId.value;
      && g in db.games && uniqueId.id in Children(db.scores, GameScores, g)
      && r.value == GamesExtensions.ToDto(db.games[g]).(scores := Some([uniqueId.id]))
  {
    if uniqueId.id !in db.scores {
      return Failure(NotFound);
    }
    var score := db.scores[uniqueId.id];
    if score.gameId.None? {
      return Failure(NullReference);
    }
    var game := db.games[score.gameId.value];
    assert ScoreIds([score]) == [uniqueId.id] by {
      assert [score][1..] == [];
    }
    // loading the game with the score puts the score in the game's Scores
    r := Success(GamesExtensions.ToDto(game.(scores := Some([score]))));
  }

  /** GetPlayer: as GetGame, for the score's player. */
  method GetPlayer(db: Store, uniqueId: Dtos.WhereUniqueInput) returns (r: Result<Dtos.Player>)
    requires db.Valid()
    ensures r == Failure(NotFound) <==> uniqueId.id !in db.scores
    ensures r == Failure(NullReference) <==> uniqueId.id in db.scores && db.scores[uniqueId.id].playerId.None?
    ensures r.Failure? ==> r.error in {NotFound, NullReference}
    ensures r.Success? ==>
      && uniqueId.id in db.scores && db.scores[uniqueId.id].playerId.Some?
      && var p := db.scores[uniqueId.id].playerId.value;
      && p in db.players && uniqueId.id in Children(db.scores, PlayerScores, p)
      && r.value == PlayersExtensions.ToDto(db.players[p]).(scores := Some([uniqueId.id]))
  {
    if uniqueId.id !in db.scores {
      return Failure(NotFound);
    }
    var score := db.scores[uniqueId.id];
    if score.playerId.None? {
      return Failure(NullReference);
    }
    var player := db.players[score.playerId.value];
    assert ScoreIds([score]) == [uniqueId.id] by {
      assert [score][1..] == [];
    }
    // loading the player with the score puts the score in the player's Scores
    r := Success(PlayersExtensions.ToDto(player.(scores := Some([score]))));
  }
}
