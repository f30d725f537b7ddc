/** GamesServiceBase: create, delete, get and update a game, and the
    relationship calls on its Scores collection. */
module GamesService {
  import opened Common
  import opened Models
  import opened Tables
  import opened DataStore
  import Dtos
  import GamesExtensions
  import ScoresExtensions
  import RelationshipSync

  /** The row CreateGame inserts: the input's columns under the caller's Id,
      or, when that Id is null, under the key supplied as `generatedId`; the C#
      code configures no key generation. */
  function CreatedRow(createDto: Dtos.GameCreateInput, generatedId: string): GameDbModel
  {
    GameDbModel(createDto.createdAt, createDto.genre, Dtos.KeyFor(createDto.id, generatedId),
                None, createDto.title, createDto.updatedAt)
  }

  /** The stored scores a create input names, none when its Scores is null. */
  function CreateLinks(scores: ScoreTable, createDto: Dtos.GameCreateInput): set<string>
  {
    if createDto.scores.Some? then Matched(scores, Dtos.ScoreDtoIds(createDto.scores.value)) else {}
  }

  /** The stored scores an update input names, none when its Scores is null. */
  function UpdateLinks(scores: ScoreTable, updateDto: Dtos.GameUpdateInput): set<string>
  {
    if updateDto.scores.Some? then Matched(scores, updateDto.scores.value) else {}
  }

  /** CreateGame: inserts the game and links exactly the stored scores the
      input names (taking them from any previous game). The store refuses a
      taken key or an over-long column, and then nothing is written. Both are
      refused by the one save; when both apply, `keyCheckedFirst` says which
      the database reports. The result is the DTO of the new record, which is
      now in the table under its key. */
  method CreateGame(db: Store, createDto: Dtos.GameCreateInput, generatedId: string,
                    keyCheckedFirst: bool)
    returns (r: Result<Dtos.Game>)
    requires db.Valid()
    modifies db
    ensures db.Valid()
    ensures db.players == old(db.players)
    ensures var row := CreatedRow(createDto, generatedId);
      && (r.Failure? <==> row.id in old(db.games) || !GameColumnsFit(row))
      && (r.Failure? ==> db.games == old(db.games) && db.scores == old(db.scores)
                         && r.error == if row.id in old(db.games) && (GameColumnsFit(row) || keyCheckedFirst)
                                    then DuplicateKey else ValueTooLong)
    ensures var row := CreatedRow(createDto, generatedId);
            var linked := CreateLinks(old(db.scores), createDto);
      r.Success? ==>
        && db.games == old(db.games)[row.id := row]
        && db.scores == Connected(old(db.scores), GameScores, row.id, linked)
        && Children(db.scores, GameScores, row.id) == linked
        && r.value == GamesExtensions.ToDto(row).(scores := r.value.scores)
        && r.value.scores.Some? && Elems(r.value.scores.value) == linked && Distinct(r.value.scores.value)
  {
    var game := GameDbModel(createDto.createdAt, createDto.genre, generatedId,
                            Some([]), createDto.title, createDto.updatedAt);
    if createDto.id.Some? {
      game := game.(id := createDto.id.value);
    }
    var linked: set<string> := {};
    if createDto.scores.Some? {
      linked := Matched(db.scores, Dtos.ScoreDtoIds(createDto.scores.value));
      var rows := db.Rows(linked);
      game := game.(scores := Some(rows));
    }
    // insert the new game and save
    if game.id in db.games && (GameColumnsFit(game) || keyCheckedFirst) {
      return Failure(DuplicateKey);
    }
    if !GameColumnsFit(game) {
      return Failure(ValueTooLong);
    }
    MissingParentHasNoChildren(db.players, db.games, db.scores, GameScores, game.id);
    ConnectedChildren(db.scores, GameScores, game.id, linked);
    var games := db.games[game.id := game.(scores := None)];
    GameStoredConsistent(db.players, db.games, db.scores, game.(scores := None));
    ConnectedConsistent(db.players, games, db.scores, GameScores, game.id, linked);
    db.games := games;
    db.scores := Connected(db.scores, GameScores, game.id, linked);
    // reading the new game back yields the tracked record, its loaded scores included
    r := Success(GamesExtensions.ToDto(game));
  }

  /** DeleteGame: NotFound for an unknown id. The store refuses to delete a
      game that scores still refer to; otherwise exactly that game goes. */
  method DeleteGame(db: Store, uniqueId: Dtos.WhereUniqueInput) returns (r: Outcome)
    requires db.Valid()
    modifies db
    ensures db.Valid()
    ensures db.players == old(db.players) && db.scores == old(db.scores)
    ensures uniqueId.id !in old(db.games) ==> r == Fail(NotFound)
    ensures uniqueId.id in old(db.games) && Children(old(db.scores), GameScores, uniqueId.id) != {}
            ==> r == Fail(ForeignKeyViolation)
    ensures r.Pass? <==> uniqueId.id in old(db.games) && Children(old(db.scores), GameScores, uniqueId.id) == {}
    ensures r.Pass? ==> db.games == old(db.games) - {uniqueId.id} && uniqueId.id !in db.games
    ensures r.Fail? ==> db.games == old(db.games)
  {
    if uniqueId.id !in db.games {
      return Fail(NotFound);
    }
    // remove the game and save
    if Children(db.scores, GameScores, uniqueId.id) != {} {
      return Fail(ForeignKeyViolation);
    }
    UnreferencedGameRemovedConsistent(db.players, db.games, db.scores, uniqueId.id);
    db.games := db.games - {uniqueId.id};
    r := Pass;
  }

  /** Game (get one): NotFound when no game has the id; otherwise the
      stored game's DTO with its Scores loaded: each score whose GameId is
      this id, once. */
  method Game(db: Store, uniqueId: Dtos.WhereUniqueInput) returns (r: Result<Dtos.Game>)
    requires db.Valid()
    ensures r.Failure? <==> uniqueId.id !in db.games
    ensures r.Failure? ==> r.error == NotFound
    ensures r.Success? ==>
      && r.value == GamesExtensions.ToDto(db.games[uniqueId.id]).(scores := r.value.scores)
      && r.value.scores.Some?
      && Elems(r.value.scores.value) == Children(db.scores, GameScores, uniqueId.id)
      && Distinct(r.value.scores.value)
  {
    if uniqueId.id !in db.games {
      return Failure(NotFound);
    }
    var loaded := db.Rows(Children(db.scores, GameScores, uniqueId.id));
    r := Success(GamesExtensions.ToDto(db.games[uniqueId.id].(scores := Some(loaded))));
  }

  /** UpdateGame: writes ToModel's record over the stored row (omitted
      fields become null or default(DateTime)) and links the stored scores the
      input names. When no row has the id the save fails: NotFound, or the
      re-raised conflict when the re-check finds the row again. */
  method UpdateGame(db: Store, uniqueId: Dtos.WhereUniqueInput, updateDto: Dtos.GameUpdateInput,
                      presentAtRecheck: bool)
    returns (r: Outcome)
    requires db.Valid()
    modifies db
    ensures db.Valid()
    ensures db.players == old(db.players)
    ensures var row := GamesExtensions.ToModel(updateDto, uniqueId).(scores := None);
      && (uniqueId.id !in old(db.games) ==> r == Fail(if presentAtRecheck then ConcurrencyConflict else NotFound))
      && (uniqueId.id in old(db.games) && !GameColumnsFit(row) ==> r == Fail(ValueTooLong))
      && (r.Pass? <==> uniqueId.id in old(db.games) && GameColumnsFit(row))
      && (r.Fail? ==> db.games == old(db.games) && db.scores == old(db.scores))
    ensures var row := GamesExtensions.ToModel(updateDto, uniqueId).(scores := None);
      r.Pass? ==>
        && db.games == old(db.games)[uniqueId.id := row]
        && db.scores == Connected(old(db.scores), GameScores, uniqueId.id, UpdateLinks(old(db.scores), updateDto))
  {
    var game := GamesExtensions.ToModel(updateDto, uniqueId);
    var linked: set<string> := {};
    if updateDto.scores.Some? {
      linked := Matched(db.scores, updateDto.scores.value);
      var rows := db.Rows(linked);
      game := game.(scores := Some(rows));
    }
    // mark the whole row modified and save
    if game.id !in db.games {
      // the save finds no row to update; a second lookup decides which error is raised
      if presentAtRecheck {
        return Fail(ConcurrencyConflict);
      }
      return Fail(NotFound);
    }
    if !GameColumnsFit(game) {
      return Fail(ValueTooLong);
    }
    var games := db.games[game.id := game.(scores := None)];
    ConnectedConsistent(db.players, games, db.scores, GameScores, game.id, linked);
    db.games := games;
    db.scores := Connected(db.scores, GameScores, game.id, linked);
    r := Pass;
  }

  /** ConnectScores: NotFound, with nothing written, when the game is
      unknown or no requested id names a stored score; otherwise the game's
      Scores become its old ones plus every matched score. */
  method ConnectScores(db: Store, uniqueId: Dtos.WhereUniqueInput, childrenIds: seq<Dtos.WhereUniqueInput>)
    returns (r: Outcome)
    requires db.Valid()
    modifies db
    ensures db.Valid()
    ensures db.games == old(db.games) && db.players == old(db.players)
    ensures var matched := Matched(old(db.scores), Dtos.UniqueIds(childrenIds));
      && (r.Fail? <==> uniqueId.id !in old(db.games) || matched == {})
      && (r.Fail? ==> r.error == NotFound && db.scores == old(db.scores))
      && (r.Pass? ==> db.scores == Connected(old(db.scores), GameScores, uniqueId.id, matched)
                      && Children(db.scores, GameScores, uniqueId.id)
                         == Children(old(db.scores), GameScores, uniqueId.id) + matched)
  {
    ghost var before := db.scores;
    r := RelationshipSync.Connect(db, GameScores, uniqueId.id, Dtos.UniqueIds(childrenIds));
    ConnectedChildren(before, GameScores, uniqueId.id, Matched(before, Dtos.UniqueIds(childrenIds)));
  }

  /** DisconnectScores: NotFound only when the game is unknown; otherwise the
      matched scores leave the game's Scores, and nothing else changes. */
  method DisconnectScores(db: Store, uniqueId: Dtos.WhereUniqueInput, childrenIds: seq<Dtos.WhereUniqueInput>)
    returns (r: Outcome)
    requires db.Valid()
    modifies db
    ensures db.Valid()
    ensures db.games == old(db.games) && db.players == old(db.players)
    ensures var matched := Matched(old(db.scores), Dtos.UniqueIds(childrenIds));
      && (r.Fail? <==> uniqueId.id !in old(db.games))
      && (r.Fail? ==> r.error == NotFound && db.scores == old(db.scores))
      && (r.Pass? ==> db.scores == Disconnected(old(db.scores), GameScores, uniqueId.id, matched)
                      && Children(db.scores, GameScores, uniqueId.id)
                         == Children(old(db.scores), GameScores, uniqueId.id) - matched)
  {
    ghost var before := db.scores;
    r := RelationshipSync.Disconnect(db, GameScores, uniqueId.id, Dtos.UniqueIds(childrenIds));
    DisconnectedChildren(before, GameScores, uniqueId.id, Matched(before, Dtos.UniqueIds(childrenIds)));
  }

  /** FindScores: the DTOs of the scores whose GameId is the id, each once.
      An unknown id is not an error: it has no scores. */
  method FindScores(db: Store, uniqueId: Dtos.WhereUniqueInput) returns (r: seq<Dtos.Score>)
    requires db.Valid()
    ensures Elems(Dtos.ScoreDtoIds(r)) == Children(db.scores, GameScores, uniqueId.id)
    ensures Distinct(Dtos.ScoreDtoIds(r))
    ensures forall i :: 0 <= i < |r| ==> r[i].id in db.scores && r[i] == ScoresExtensions.ToDto(db.scores[r[i].id])
    ensures uniqueId.id !in db.games ==> r == []
  {
    var found := db.Rows(Children(db.scores, GameScores, uniqueId.id));
    ScoreIdsInOrder(found);
    r := seq(|found|, i requires 0 <= i < |found| => ScoresExtensions.ToDto(found[i]));
    assert Dtos.ScoreDtoIds(r) == ScoreIds(found);
    if uniqueId.id !in db.games {
      MissingParentHasNoChildren(db.players, db.games, db.scores, GameScores, uniqueId.id);
      ElemsEmpty(ScoreIds(found));
    }
  }

  /** UpdateScores: NotFound, with nothing written, when the game is unknown
      or no requested id names a stored score; otherwise the game's Scores
      become exactly the matched scores. */
  method UpdateScores(db: Store, uniqueId: Dtos.WhereUniqueInput, childrenIds: seq<Dtos.WhereUniqueInput>)
    returns (r: Outcome)
    requires db.Valid()
    modifies db
    ensures db.Valid()
    ensures db.games == old(db.games) && db.players == old(db.players)
    ensures var matched := Matched(old(db.scores), Dtos.UniqueIds(childrenIds));
      && (r.Fail? <==> uniqueId.id !in old(db.games) || matched == {})
      && (r.Fail? ==> r.error == NotFound && db.scores == old(db.scores))
      && (r.Pass? ==> db.scores == Replaced(old(db.scores), GameScores, uniqueId.id, matched)
                      && Children(db.scores, GameScores, uniqueId.id) == matched)
  {
    ghost var before := db.scores;
    r := RelationshipSync.Replace(db, GameScores, uniqueId.id, Dtos.UniqueIds(childrenIds));
    ReplacedChildren(before, GameScores, uniqueId.id, Matched(before, Dtos.UniqueIds(childrenIds)));
  }
}
