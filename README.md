# player-service: the record store and its relationships, in Dafny

The player-service keeps three kinds of record: Players, Games and Scores. A
Score may belong to one Game and one Player, through its two nullable foreign
keys GameId and PlayerId. Three service base classes expose the same
operations for each record kind: create, delete, get one, update. The
parents (Players and Games) also have calls that connect, disconnect, list
and replace the scores in their Scores collection. Three extension classes
map between the stored records and the DTOs the API returns.

This project models that layer. The relational store becomes one object,
`DataStore.Store`, holding three maps from primary key to record. Each
service call is a method on that object that either fails with an error
value or writes its changes. Every method is proved to keep the store's
invariant `Tables.Consistent`:

- each record sits under its own Id;
- the bounded string columns fit their 1000 characters;
- every foreign key is null or names an existing record.

A parent's Scores collection is not stored. It is derived from the foreign
keys (`Tables.Children`), as it is in the database. So adding a score to one
parent's collection removes it from any other.

Three table-level functions specify the relationship calls. `Tables.Connected`,
`Tables.Disconnected` and `Tables.Replaced` give the new Scores table.
The methods are proved to produce exactly that table, and the lemmas in
`tables.dfy` prove what the tables mean:

- the collections afterwards;
- idempotence;
- moving a score between parents;
- that skipping already-linked scores changes nothing.

Files, in dependency order:

- `common.dfy`: Option, the errors as values, DateTime, int32.
- `models.dfy`: the three records and their column constraints.
- `dtos.dfy`: the DTO and input shapes.
- `players_extensions.dfy`, `games_extensions.dfy`, `scores_extensions.dfy`: the mappers.
- `tables.dfy`: the tables as values and the store invariant.
- `data_store.dfy`: the store class.
- `relationship_sync.dfy`: connect, disconnect and replace, written once for both parents.
- `players_service.dfy`, `games_service.dfy`, `scores_service.dfy`: the services.

Outside inputs are parameters:

- `generatedId`: the key a create call uses when the input's Id is null, supplied by the caller of the model. The C# code configures no key generation (see "## Left out").
- `keyCheckedFirst`: when a create input both reuses a taken key and has an over-long column, whether the database reports the taken key first. Both refusals come from the same save, and which one is reported depends on the database.
- `presentAtRecheck`: whether the re-check after a failed update still finds the row.

Where the code and its documented intent differ, the model follows the code:

- **Update overwrites all columns.** UpdatePlayer, UpdateGame and UpdateScore mark the whole `ToModel` result as modified. So an omitted field is written as null, or as `default(DateTime)` for a timestamp. It is not kept.
- **UpdateScore with an unknown Game or Player fails.** `ToModel` has already set the foreign key to the given id. The lookup only sets the navigation, and a miss leaves the key in place. The store then refuses the write (ForeignKeyViolation) instead of leaving the score unlinked. An omitted Game or Player clears the link.
- **A referenced player or game cannot be deleted.** The relationship's default delete behaviour leaves the referencing scores untouched. The database constraint then refuses the delete (ForeignKeyViolation).
- **UpdatePlayer and UpdateGame with Scores only link.** The matched scores join the record's collection, taken from any other parent. Scores already in the collection but not named stay in it. An empty match is not an error.

## Model

| member | source | states |
|---|---|---|
| Models.ScoreIdsInOrder | apps/player-service/src/APIs/Player/PlayersExtensions.cs:17 | `Select(x => x.Id)` keeps the length and puts each score's id at its position |
| Models.ScoreIdsAppend | apps/player-service/src/APIs/Game/GamesExtensions.cs:15 | the ids of a list extended by one score are the old ids followed by that score's id |
| PlayersExtensions.ToModelTakesRouteId | apps/player-service/src/APIs/Player/PlayersExtensions.cs:27-29 | the record's Id is the route's id, and the body's Id has no effect on the record |
| PlayersExtensions.ToModelFields | apps/player-service/src/APIs/Player/PlayersExtensions.cs:27-44 | Email, Name and Phone are copied verbatim, null included. Each timestamp is copied when present and is default(DateTime) otherwise. Scores is the default empty list, whatever the input's Scores |
| PlayersExtensions.ToDtoFields | apps/player-service/src/APIs/Player/PlayersExtensions.cs:8-20 | the DTO copies the scalar fields. Its Scores is null exactly when the record's is, and otherwise lists the record's score ids in order |
| PlayersExtensions.UpdateRoundTrip | apps/player-service/src/APIs/Player/PlayersExtensions.cs:10-33 | ToDto(ToModel(u, id)) has the route's Id, u's Email, Name and Phone, and an empty Scores list |
| GamesExtensions.ToModelTakesRouteId | apps/player-service/src/APIs/Game/GamesExtensions.cs:23-25 | the record's Id is the route's id, and the body's Id has no effect on the record |
| GamesExtensions.ToModelFields | apps/player-service/src/APIs/Game/GamesExtensions.cs:23-39 | Genre and Title are copied verbatim, null included. Each timestamp is copied when present and is default(DateTime) otherwise. Scores is the empty list |
| GamesExtensions.ToDtoFields | apps/player-service/src/APIs/Game/GamesExtensions.cs:8-19 | the DTO copies the scalar fields. Its Scores is null exactly when the record's is, and otherwise lists the record's score ids in order |
| GamesExtensions.UpdateRoundTrip | apps/player-service/src/APIs/Game/GamesExtensions.cs:10-28 | ToDto(ToModel(u, id)) has the route's Id, u's Genre and Title, and an empty Scores list |
| ScoresExtensions.ToModelTakesRouteId | apps/player-service/src/APIs/Score/ScoresExtensions.cs:26 | the record's Id is the route's id, and the body's Id has no effect on the record |
| ScoresExtensions.ToModelFields | apps/player-service/src/APIs/Score/ScoresExtensions.cs:26-45 | ScoreValue is copied verbatim. GameId and PlayerId are set exactly when the input names them, to the named id. The timestamps are copied when present and are default(DateTime) otherwise |
| ScoresExtensions.ToModelDoesNotCheckRange | apps/player-service/src/Infrastructure/Models/Score.cs:26-27 | the record's ScoreValue is in the declared range exactly when the input's is; ToModel neither clamps nor rejects, so 1000000000 passes through |
| ScoresExtensions.ToDtoFields | apps/player-service/src/APIs/Score/ScoresExtensions.cs:8-19 | GameId becomes Game and PlayerId becomes Player. Id, ScoreValue and the timestamps are copied |
| ScoresExtensions.UpdateRoundTrip | apps/player-service/src/APIs/Score/ScoresExtensions.cs:10-39 | ToDto(ToModel(u, id)) has the route's Id and u's Game, Player and ScoreValue |
| Tables.WithOwner | apps/player-service/src/Infrastructure/Models/Score.cs:12-24 | setting one foreign key of a score leaves its other columns, and the other foreign key, unchanged |
| Tables.Connected | apps/player-service/src/APIs/Player/Base/PlayersServiceBase.cs:173-180 | connecting keeps every key, changes only the foreign key of the relationship, and changes no score outside the matched set |
| Tables.Disconnected | apps/player-service/src/APIs/Player/Base/PlayersServiceBase.cs:199-207 | disconnecting changes only the foreign key, only of matched scores, and never a score that is not in the parent's collection |
| Tables.Replaced | apps/player-service/src/APIs/Player/Base/PlayersServiceBase.cs:254-255 | replacing changes only the foreign key, and only of scores that are matched or were in the parent's collection |
| Tables.ConnectedChildren | apps/player-service/src/APIs/Player/Base/PlayersServiceBase.cs:173-180 | after a connect, the parent's collection is its old collection plus every matched score |
| Tables.ConnectedMoves | apps/player-service/src/Infrastructure/Models/Score.cs:12-15 | a connect takes the matched scores out of every other parent's collection, since a score has one GameId |
| Tables.ConnectedIdempotent | apps/player-service/src/APIs/Game/Base/GamesServiceBase.cs:172-179 | connecting the same scores again changes nothing |
| Tables.ConnectedSkipsLinked | apps/player-service/src/APIs/Player/Base/PlayersServiceBase.cs:173 | skipping the scores already in the collection (`Except`) gives the same table as connecting them all |
| Tables.ConnectedStep | apps/player-service/src/APIs/Player/Base/PlayersServiceBase.cs:175-178 | one iteration of the connect loop is one update of the table |
| Tables.DisconnectedChildren | apps/player-service/src/APIs/Player/Base/PlayersServiceBase.cs:203-206 | after a disconnect, the parent's collection is its old one minus the matched scores, and every other parent's collection is unchanged |
| Tables.DisconnectedUnlinkedIsNoop | apps/player-service/src/APIs/Game/Base/GamesServiceBase.cs:190-206 | disconnecting scores none of which is in the collection changes nothing |
| Tables.DisconnectedStep | apps/player-service/src/APIs/Game/Base/GamesServiceBase.cs:202-205 | one iteration of the disconnect loop is one update of the table |
| Tables.ReplacedChildren | apps/player-service/src/APIs/Game/Base/GamesServiceBase.cs:253 | after a replace, the parent's collection is exactly the matched scores, and they have left every other parent |
| Tables.ReplacedIsDisconnectAllThenConnect | apps/player-service/src/APIs/Player/Base/PlayersServiceBase.cs:254 | assigning the collection is disconnecting all of it and then connecting the matched scores |
| Tables.MissingParentHasNoChildren | apps/player-service/src/APIs/Game/Base/GamesServiceBase.cs:217-218 | in a consistent store, an id that names no parent has an empty collection |
| Tables.PlayerStoredConsistent | apps/player-service/src/Infrastructure/Models/Player.cs:18-22 | storing a player row whose columns fit keeps the store consistent |
| Tables.GameStoredConsistent | apps/player-service/src/Infrastructure/Models/Game.cs:12-22 | storing a game row whose columns fit keeps the store consistent |
| Tables.UnreferencedPlayerRemovedConsistent | apps/player-service/src/Infrastructure/Models/Score.cs:21-24 | removing a player that no score refers to keeps every foreign key valid |
| Tables.UnreferencedGameRemovedConsistent | apps/player-service/src/Infrastructure/Models/Score.cs:12-15 | removing a game that no score refers to keeps every foreign key valid |
| Tables.ConnectedConsistent | apps/player-service/src/Infrastructure/Models/Score.cs:12-24 | linking scores to an existing parent, by connect or by replace, keeps every foreign key valid |
| Tables.DisconnectedConsistent | apps/player-service/src/Infrastructure/Models/Score.cs:12-24 | clearing foreign keys keeps the store consistent |
| DataStore.Store.Rows | apps/player-service/src/APIs/Player/Base/PlayersServiceBase.cs:41-43 | the query returns each selected stored score exactly once, as stored |
| RelationshipSync.Connect | apps/player-service/src/APIs/Player/Base/PlayersServiceBase.cs:152-181 | NotFound, with no write, exactly when the parent is missing or nothing matches. Otherwise the scores table becomes `Connected` of the matched set. The store stays consistent, and the players and games are unchanged |
| RelationshipSync.Disconnect | apps/player-service/src/APIs/Game/Base/GamesServiceBase.cs:185-207 | NotFound, with no write, exactly when the parent is missing. Otherwise the scores table becomes `Disconnected` of the matched set |
| RelationshipSync.Replace | apps/player-service/src/APIs/Game/Base/GamesServiceBase.cs:231-255 | NotFound, with no write, exactly when the parent is missing or nothing matches. Otherwise the scores table becomes `Replaced` of the matched set |
| PlayersService.CreatePlayer | apps/player-service/src/APIs/Player/Base/PlayersServiceBase.cs:24-57 | the key is the caller's Id when non-null. DuplicateKey or ValueTooLong leave the store unchanged; when both apply, `keyCheckedFirst` picks which is reported. On success the player is stored under that key, and its collection is exactly the stored scores the input names. The DTO returned is the new record with those score ids |
| PlayersService.DeletePlayer | apps/player-service/src/APIs/Player/Base/PlayersServiceBase.cs:62-72 | NotFound for an unknown id. ForeignKeyViolation while scores refer to the player. Otherwise exactly that id leaves the players table |
| PlayersService.Player | apps/player-service/src/APIs/Player/Base/PlayersServiceBase.cs:102-114 | NotFound exactly when the id is absent. Otherwise the stored player's DTO, whose Scores lists each score of its collection once |
| PlayersService.UpdatePlayer | apps/player-service/src/APIs/Player/Base/PlayersServiceBase.cs:119-147 | an absent id gives NotFound, or ConcurrencyConflict when the re-check finds the row. ValueTooLong when a column does not fit. Otherwise the row becomes ToModel's record, and the named scores are connected |
| PlayersService.ConnectScores | apps/player-service/src/APIs/Player/Base/PlayersServiceBase.cs:152-181 | NotFound, with no write, exactly when the player is unknown or nothing matches. Otherwise the player's collection is the old one plus the matched scores, and nothing else changes but their PlayerId |
| PlayersService.DisconnectScores | apps/player-service/src/APIs/Player/Base/PlayersServiceBase.cs:186-208 | NotFound exactly when the player is unknown. Otherwise its collection loses the matched scores, and unknown or foreign ids are ignored |
| PlayersService.FindScores | apps/player-service/src/APIs/Player/Base/PlayersServiceBase.cs:213-227 | the result holds the DTO of every score whose PlayerId is the id, each once. It is empty for an unknown player |
| PlayersService.UpdateScores | apps/player-service/src/APIs/Player/Base/PlayersServiceBase.cs:232-256 | NotFound, with no write, exactly when the player is unknown or nothing matches. Otherwise the player's collection is exactly the matched scores |
| GamesService.CreateGame | apps/player-service/src/APIs/Game/Base/GamesServiceBase.cs:24-56 | the key is the caller's Id when non-null. DuplicateKey or ValueTooLong leave the store unchanged; when both apply, `keyCheckedFirst` picks which is reported. On success the game is stored under that key, and its collection is exactly the stored scores the input names |
| GamesService.DeleteGame | apps/player-service/src/APIs/Game/Base/GamesServiceBase.cs:61-71 | NotFound for an unknown id. ForeignKeyViolation while scores refer to the game. Otherwise exactly that id leaves the games table |
| GamesService.Game | apps/player-service/src/APIs/Game/Base/GamesServiceBase.cs:101-113 | NotFound exactly when the id is absent. Otherwise the stored game's DTO, whose Scores lists each score of its collection once |
| GamesService.UpdateGame | apps/player-service/src/APIs/Game/Base/GamesServiceBase.cs:118-146 | an absent id gives NotFound, or ConcurrencyConflict when the re-check finds the row. ValueTooLong when a column does not fit. Otherwise the row becomes ToModel's record, and the named scores are connected |
| GamesService.ConnectScores | apps/player-service/src/APIs/Game/Base/GamesServiceBase.cs:151-180 | NotFound, with no write, exactly when the game is unknown or nothing matches. Otherwise the game's collection is the old one plus the matched scores |
| GamesService.DisconnectScores | apps/player-service/src/APIs/Game/Base/GamesServiceBase.cs:185-207 | NotFound exactly when the game is unknown. Otherwise its collection loses the matched scores |
| GamesService.FindScores | apps/player-service/src/APIs/Game/Base/GamesServiceBase.cs:212-226 | the result holds the DTO of every score whose GameId is the id, each once. It is empty for an unknown game |
| GamesService.UpdateScores | apps/player-service/src/APIs/Game/Base/GamesServiceBase.cs:231-255 | NotFound, with no write, exactly when the game is unknown or nothing matches. Otherwise the game's collection is exactly the matched scores |
| ScoresService.CreateScore | apps/player-service/src/APIs/Score/Base/ScoresServiceBase.cs:24-62 | the key is the caller's Id when non-null. DuplicateKey leaves the store unchanged. The timestamps and ScoreValue are copied. The score is linked to the named game (and player) exactly when that record exists, and a miss leaves the link null |
| ScoresService.DeleteScore | apps/player-service/src/APIs/Score/Base/ScoresServiceBase.cs:67-77 | NotFound for an unknown id. Otherwise exactly that score is removed, and from every collection |
| ScoresService.Score | apps/player-service/src/APIs/Score/Base/ScoresServiceBase.cs:108-120 | NotFound exactly when the id is absent. Otherwise the stored score's DTO |
| ScoresService.UpdateScore | apps/player-service/src/APIs/Score/Base/ScoresServiceBase.cs:125-160 | an absent id gives NotFound, or ConcurrencyConflict when the re-check finds the row. ForeignKeyViolation when a named game or player does not exist. Otherwise the row becomes ToModel's record, whose links are exactly the named ones |
| ScoresService.GetGame | apps/player-service/src/APIs/Score/Base/ScoresServiceBase.cs:165-176 | NotFound exactly when the score is absent. NullReference exactly when it has no game. Otherwise the linked game's DTO, with this score in its Scores |
| ScoresService.GetPlayer | apps/player-service/src/APIs/Score/Base/ScoresServiceBase.cs:181-192 | NotFound exactly when the score is absent. NullReference exactly when it has no player. Otherwise the linked player's DTO, with this score in its Scores |

## Left out

- Find-many (`Players`, `Games`, `Scores`) and the Meta counts are not modelled. Their `ApplyWhere`, `ApplySkip`, `ApplyTake` and `ApplyOrderBy` are defined in files that are not part of this model. Get-one is modelled directly as a lookup by id.
- PlayersService.FindScores and GamesService.FindScores take no find-many arguments, for the same reason. The list is the unfiltered, unpaged one, in an unspecified order.
- Controllers, HTTP status mapping and authorization roles are transport code outside the service layer.
- Entity Framework change tracking, `Include`, the async Tasks and transactions are not modelled. Each call is one sequential step that writes all of its changes or none.
- Concurrent writers are not modelled. `DbUpdateConcurrencyException` is reduced to "no row at save". The outcome of the re-check is the parameter `presentAtRecheck`.
- PlayersService.CreatePlayer: when the input's Id is null, the model stores the record under a key supplied as `generatedId`. The C# code configures no value generation for the string key (no `[DatabaseGenerated]` on `Player.Id`, nothing in the DbContext). As written, the insert then reaches the store with a null key and would fail. That failure is not modelled.
- GamesService.CreateGame: the same null-Id gap as CreatePlayer, for `Game.Id`.
- ScoresService.CreateScore: the same null-Id gap as CreatePlayer, for `Score.Id`.
- PlayersService.UpdatePlayer, GamesService.UpdateGame, ScoresService.UpdateScore: four lookups read `.Id` from a plain string, which does not type-check as written. They are `updateDto.Scores.Select(t => t.Id)` at PlayersServiceBase.cs:126 and GamesServiceBase.cs:125, where Scores is a `List<string>`. The others are `updateDto.Game.Id` and `updateDto.Player.Id` at ScoresServiceBase.cs:132 and :139, where Game and Player are `string?`. The model takes each string as the id itself: of a score, of the game and of the player. The UpdateScore foreign-key refusal above rests on that reading.
- The `[Range]` bound on ScoreValue is only a validation annotation, which neither the store nor the services check. It is stated as the predicate `Models.ScoreValueInRange` and not enforced; `ScoresExtensions.ToModelDoesNotCheckRange` shows an out-of-range value passing through.
- `[Required]` on CreatedAt, UpdatedAt and Id is captured by their non-null types.
- The ORM's ordering of loaded Scores lists is not modelled: the order of DataStore.Store.Rows is left unspecified.
- Development seeding, dependency-injection wiring and the service interfaces are configuration and I/O.
