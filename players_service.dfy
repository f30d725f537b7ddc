/** PlayersServiceBase: create, delete, get and update a player, and the
    relationship calls on its Scores collection. */
module PlayersService {
  import opened Common
  import opened Models
  import opened Tables
  import opened DataStore
  import Dtos
  import PlayersExtensions
  import ScoresExtensions
  import RelationshipSync

  /** The row CreatePlayer inserts: the input's columns under the caller's Id,
      or, when that Id is null, under the key supplied as `generatedId`; the C#
      code configures no key generation. */
  function CreatedRow(createDto: Dtos.PlayerCreateInput, generatedId: string): PlayerDbModel
  {
    PlayerDbModel(createDto.createdAt, createDto.email, Dtos.KeyFor(createDto.id, generatedId),
                  createDto.name, createDto.phone, None, createDto.updatedAt)
  }

  /** The stored scores a create input names, none when its Scores is null. */
  function CreateLinks(scores: ScoreTable, createDto: Dtos.PlayerCreateInput): set<string>
  {
    if createDto.scores.Some? then Matched(scores, Dtos.ScoreDtoIds(createDto.scores.value)) else {}
  }

  /** The stored scores an update input names, none when its Scores is null. */
  function UpdateLinks(scores: ScoreTable, updateDto: Dtos.PlayerUpdateInput): set<string>
  {
    if updateDto.scores.Some? then Matched(scores, updateDto.scores.value) else {}
  }

  /** CreatePlayer: inserts the player and links exactly the stored scores the
      input names (taking them from any previous player). The store refuses a
      taken key or an over-long column, and then nothing is written. Both are
      refused by the one save; when both apply, `keyCheckedFirst` says which
      the database reports. The result is the DTO of the new record, which is
      now in the table under its key. */
  method CreatePlayer(db: Store, createDto: Dtos.PlayerCreateInput, generatedId: string,
                      keyCheckedFirst: bool)
    returns (r: Result<Dtos.Player>)
    requires db.Valid()
    modifies db
    ensures db.Valid()
    ensures db.games == old(db.games)
    ensures var row := CreatedRow(createDto, generatedId);
      && (r.Failure? <==> row.id in old(db.players) || !PlayerColumnsFit(row))
      && (r.Failure? ==> db.players == old(db.players) && db.scores == old(db.scores)
                         && r.error == if row.id in old(db.players) && (PlayerColumnsFit(row) || keyCheckedFirst)
                                    then DuplicateKey else ValueTooLong)
    ensures var row := CreatedRow(createDto, generatedId);
            var linked := CreateLinks(old(db.scores), createDto);
      r.Success? ==>
        && db.players == old(db.players)[row.id := row]
        && db.scores == Connected(old(db.scores), PlayerScores, row.id, linked)
        && Children(db.scores, PlayerScores, row.id) == linked
        && r.value == PlayersExtensions.ToDto(row).(scores := r.value.scores)
        && r.value.scores.Some? && Elems(r.value.scores.value) == linked && Distinct(r.value.scores.value)
  {
    var player := PlayerDbModel(createDto.createdAt, createDto.email, generatedId,
                                createDto.name, createDto.phone, Some([]), createDto.updatedAt);
    if createDto.id.Some? {
      player := player.(id := createDto.id.value);
    }
    var linked: set<string> := {};
    if createDto.scores.Some? {
      linked := Matched(db.scores, Dtos.ScoreDtoIds(createDto.scores.value));
      var rows := db.Rows(linked);
      player := player.(scores := Some(rows));
    }
    // insert the new player and save
    if player.id in db.players && (PlayerColumnsFit(player) || keyCheckedFirst) {
      return Failure(DuplicateKey);
    }
    if !PlayerColumnsFit(player) {
      return Failure(ValueTooLong);
    }
    MissingParentHasNoChildren(db.players, db.games, db.scores, PlayerScores, player.id);
    ConnectedChildren(db.scores, PlayerScores, player.id, linked);
    var players := db.players[player.id := player.(scores := None)];
    PlayerStoredConsistent(db.players, db.games, db.scores, player.(scores := None));
    ConnectedConsistent(players, db.games, db.scores, PlayerScores, player.id, linked);
    db.players := players;
    db.scores := Connected(db.scores, PlayerScores, player.id, linked);
    // reading the new player back yields the tracked record, its loaded scores included
    r := Success(PlayersExtensions.ToDto(player));
  }

  /** DeletePlayer: NotFound for an unknown id. The store refuses to delete a
      player that scores still refer to; otherwise exactly that player goes. */
  method DeletePlayer(db: Store, uniqueId: Dtos.WhereUniqueInput) returns (r: Outcome)
    requires db.Valid()
    modifies db
    ensures db.Valid()
    ensures db.games == old(db.games) && db.scores == old(db.scores)
    ensures uniqueId.id !in old(db.players) ==> r == Fail(NotFound)
    ensures uniqueId.id in old(db.players) && Children(old(db.scores), PlayerScores, uniqueId.id) != {}
            ==> r == Fail(ForeignKeyViolation)
    ensures r.Pass? <==> uniqueId.id in old(db.players) && Children(old(db.scores), PlayerScores, uniqueId.id) == {}
    ensures r.Pass? ==> db.players == old(db.players) - {uniqueId.id} && uniqueId.id !in db.players
    ensures r.Fail? ==> db.players == old(db.players)
  {
    if uniqueId.id !in db.players {
      return Fail(NotFound);
    }
    // remove the player and save
    if Children(db.scores, PlayerScores, uniqueId.id) != {} {
      return Fail(ForeignKeyViolation);
    }
    UnreferencedPlayerRemovedConsistent(db.players, db.games, db.scores, uniqueId.id);
    db.players := db.players - {uniqueId.id};
    r := Pass;
  }

  /** Player (get one): NotFound when no player has the id; otherwise the
      stored player's DTO with its Scores loaded: each score whose PlayerId is
      this id, once. */
  method Player(db: Store, uniqueId: Dtos.WhereUniqueInput) returns (r: Result<Dtos.Player>)
    requires db.Valid()
    ensures r.Failure? <==> uniqueId.id !in db.players
    ensures r.Failure? ==> r.error == NotFound
    ensures r.Success? ==>
      && r.value == PlayersExtensions.ToDto(db.players[uniqueId.id]).(scores := r.value.scores)
      && r.value.scores.Some?
      && Elems(r.value.scores.value) == Children(db.scores, PlayerScores, uniqueId.id)
      && Distinct(r.value.scores.value)
  {
    if uniqueId.id !in db.players {
      return Failure(NotFound);
    }
    var loaded := db.Rows(Children(db.scores, PlayerScores, uniqueId.id));
    r := Success(PlayersExtensions.ToDto(db.players[uniqueId.id].(scores := Some(loaded))));
  }

  /** UpdatePlayer: writes ToModel's record over the stored row (omitted
      fields become null or default(DateTime)) and links the stored scores the
      input names. When no row has the id the save fails: NotFound, or the
      re-raised conflict when the re-check finds the row again. */
  method UpdatePlayer(db: Store, uniqueId: Dtos.WhereUniqueInput, updateDto: Dtos.PlayerUpdateInput,
                      presentAtRecheck: bool)
    returns (r: Outcome)
    requires db.Valid()
    modifies db
    ensures db.Valid()
    ensures db.games == old(db.games)
    ensures var row := PlayersExtensions.ToModel(updateDto, uniqueId).(scores := None);
      && (uniqueId.id !in old(db.players) ==> r == Fail(if presentAtRecheck then ConcurrencyConflict else NotFound))
      && (uniqueId.id in old(db.players) && !PlayerColumnsFit(row) ==> r == Fail(ValueTooLong))
      && (r.Pass? <==> uniqueId.id in old(db.players) && PlayerColumnsFit(row))
      && (r.Fail? ==> db.players == old(db.players) && db.scores == old(db.scores))
    ensures var row := PlayersExtensions.ToModel(updateDto, uniqueId).(scores := None);
      r.Pass? ==>
        && db.players == old(db.players)[uniqueId.id := row]
        && db.scores == Connected(old(db.scores), PlayerScores, uniqueId.id, UpdateLinks(old(db.scores), updateDto))
  {
    var player := PlayersExtensions.ToModel(updateDto, uniqueId);
    var linked: set<string> := {};
    if updateDto.scores.Some? {
      linked := Matched(db.scores, updateDto.scores.value);
      var rows := db.Rows(linked);
      player := player.(scores := Some(rows));
    }
    // mark the whole row modified and save
    if player.id !in db.players {
      // the save finds no row to update; a second lookup decides which error is raised
      if presentAtRecheck {
        return Fail(ConcurrencyConflict);
      }
      return Fail(NotFound);
    }
    if !PlayerColumnsFit(player) {
      return Fail(ValueTooLong);
    }
    var players := db.players[player.id := player.(scores := None)];
    ConnectedConsistent(players, db.games, db.scores, PlayerScores, player.id, linked);
    db.players := players;
    db.scores := Connected(db.scores, PlayerScores, player.id, linked);
    r := Pass;
  }

  /** ConnectScores: NotFound, with nothing written, when the player is
      unknown or no requested id names a stored score; otherwise the player's
      Scores become its old ones plus every matched score. */
  method ConnectScores(db: Store, uniqueId: Dtos.WhereUniqueInput, childrenIds: seq<Dtos.WhereUniqueInput>)
    returns (r: Outcome)
    requires db.Valid()
    modifies db
    ensures db.Valid()
    ensures db.players == old(db.players) && db.games == old(db.games)
    ensures var matched := Matched(old(db.scores), Dtos.UniqueIds(childrenIds));
      && (r.Fail? <==> uniqueId.id !in old(db.players) || matched == {})
      && (r.Fail? ==> r.error == NotFound && db.scores == old(db.scores))
      && (r.Pass? ==> db.scores == Connected(old(db.scores), PlayerScores, uniqueId.id, matched)
                      && Children(db.scores, PlayerScores, uniqueId.id)
                         == Children(old(db.scores), PlayerScores, uniqueId.id) + matched)
  {
    ghost var before := db.scores;
    r := RelationshipSync.Connect(db, PlayerScores, uniqueId.id, Dtos.UniqueIds(childrenIds));
    ConnectedChildren(before, PlayerScores, uniqueId.id, Matched(before, Dtos.UniqueIds(childrenIds)));
  }

  /** DisconnectScores: NotFound only when the player is unknown; otherwise the
      matched scores leave the player's Scores, and nothing else changes. */
  method DisconnectScores(db: Store, uniqueId: Dtos.WhereUniqueInput, childrenIds: seq<Dtos.WhereUniqueInput>)
    returns (r: Outcome)
    requires db.Valid()
    modifies db
    ensures db.Valid()
    ensures db.players == old(db.players) && db.games == old(db.games)
    ensures var matched := Matched(old(db.scores), Dtos.UniqueIds(childrenIds));
      && (r.Fail? <==> uniqueId.id !in old(db.players))
      && (r.Fail? ==> r.error == NotFound && db.scores == old(db.scores))
      && (r.Pass? ==> db.scores == Disconnected(old(db.scores), PlayerScores, uniqueId.id, matched)
                      && Children(db.scores, PlayerScores, uniqueId.id)
                         == Children(old(db.scores), PlayerScores, uniqueId.id) - matched)
  {
    ghost var before := db.scores;
    r := RelationshipSync.Disconnect(db, PlayerScores, uniqueId.id, Dtos.UniqueIds(childrenIds));
    DisconnectedChildren(before, PlayerScores, uniqueId.id, Matched(before, Dtos.UniqueIds(childrenIds)));
  }

  /** FindScores: the DTOs of the scores whose PlayerId is the id, each once.
      An unknown id is not an error: it has no scores. */
  method FindScores(db: Store, uniqueId: Dtos.WhereUniqueInput) returns (r: seq<Dtos.Score>)
    requires db.Valid()
    ensures Elems(Dtos.ScoreDtoIds(r)) == Children(db.scores, PlayerScores, uniqueId.id)
    ensures Distinct(Dtos.ScoreDtoIds(r))
    ensures forall i :: 0 <= i < |r| ==> r[i].id in db.scores && r[i] == ScoresExtensions.ToDto(db.scores[r[i].id])
    ensures uniqueId.id !in db.players ==> r == []
  {
    var found := db.Rows(Children(db.scores, PlayerScores, uniqueId.id));
    ScoreIdsInOrder(found);
    r := seq(|found|, i requires 0 <= i < |found| => ScoresExtensions.ToDto(found[i]));
    assert Dtos.ScoreDtoIds(r) == ScoreIds(found);
    if uniqueId.id !in db.players {
      MissingParentHasNoChildren(db.players, db.games, db.scores, PlayerScores, uniqueId.id);
      ElemsEmpty(ScoreIds(found));
    }
  }

  /** UpdateScores: NotFound, with nothing written, when the player is unknown
      or no requested id names a stored score; otherwise the player's Scores
      become exactly the matched scores. */
  method UpdateScores(db: Store, uniqueId: Dtos.WhereUniqueInput, childrenIds: seq<Dtos.WhereUniqueInput>)
    returns (r: Outcome)
    requires db.Valid()
    modifies db
    ensures db.Valid()
    ensures db.players == old(db.players) && db.games == old(db.games)
    ensures var matched := Matched(old(db.scores), Dtos.UniqueIds(childrenIds));
      && (r.Fail? <==> uniqueId.id !in old(db.players) || matched == {})
      && (r.Fail? ==> r.error == NotFound && db.scores == old(db.scores))
      && (r.Pass? ==> db.scores == Replaced(old(db.scores), PlayerScores, uniqueId.id, matched)
                      && Children(db.scores, PlayerScores, uniqueId.id) == matched)
  {
    ghost var before := db.scores;
    r := RelationshipSync.Replace(db, PlayerScores, uniqueId.id, Dtos.UniqueIds(childrenIds));
    ReplacedChildren(before, PlayerScores, uniqueId.id, Matched(before, Dtos.UniqueIds(childrenIds)));
  }
}
