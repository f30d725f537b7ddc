/** The three tables as values, the one-to-many relationships between them,
    and what connecting, disconnecting and replacing a parent's Scores does to
    the Scores table.

    A Score has one GameId and one PlayerId, so a parent's Scores collection is
    not stored anywhere: it is the set of scores whose foreign key names the
    parent. Adding a score to a collection sets that key (which moves the score
    away from any previous parent); removing it clears the key. */
module Tables {
  import opened Common
  import opened Models

  type PlayerTable = map<string, PlayerDbModel>
  type GameTable = map<string, GameDbModel>
  type ScoreTable = map<string, ScoreDbModel>

  /** The two relationships whose foreign key sits on Score. */
  datatype Relation = PlayerScores | GameScores

  function Other(rel: Relation): Relation
  {
    if rel == PlayerScores then GameScores else PlayerScores
  }

  /** The score's foreign key for the relationship: PlayerId or GameId. */
  function Owner(s: ScoreDbModel, rel: Relation): Option<string>
  {
    match rel
    case PlayerScores => s.playerId
    case GameScores => s.gameId
  }

  /** The two scores differ at most in the foreign key of `rel`. */
  predicate SameButOwner(a: ScoreDbModel, b: ScoreDbModel, rel: Relation)
  {
    && a.createdAt == b.createdAt && a.id == b.id
    && a.scoreValue == b.scoreValue && a.updatedAt == b.updatedAt
    && Owner(a, Other(rel)) == Owner(b, Other(rel))
  }

  /** The score with the foreign key of `rel` set to `o` and nothing else changed. */
  function WithOwner(s: ScoreDbModel, rel: Relation, o: Option<string>): (r: ScoreDbModel)
    ensures Owner(r, rel) == o
    ensures SameButOwner(s, r, rel)
  {
    match rel
    case PlayerScores => s.(playerId := o)
    case GameScores => s.(gameId := o)
  }

  /** The parent's Scores collection: the scores whose foreign key names it. */
  function Children(t: ScoreTable, rel: Relation, parent: string): set<string>
  {
    set k | k in t && Owner(t[k], rel) == Some(parent)
  }

  /** `Scores.Where(t => ids.Contains(t.Id))`: the stored scores a request
      names; ids naming nothing drop out, and repeated ids count once. */
  function Matched(t: ScoreTable, ids: seq<string>): set<string>
  {
    set k | k in t && k in ids
  }

  /** Every score in `m` is added to the parent's collection. */
  function Connected(t: ScoreTable, rel: Relation, parent: string, m: set<string>): (r: ScoreTable)
    ensures r.Keys == t.Keys
    ensures forall k :: k in t ==> SameButOwner(t[k], r[k], rel)
    ensures forall k :: k in t && k !in m ==> r[k] == t[k]
  {
    map k | k in t :: if k in m then WithOwner(t[k], rel, Some(parent)) else t[k]
  }

  /** Every score in `m` that is in the parent's collection leaves it; scores
      in another parent's collection, or in none, stay as they are. */
  function Disconnected(t: ScoreTable, rel: Relation, parent: string, m: set<string>): (r: ScoreTable)
    ensures r.Keys == t.Keys
    ensures forall k :: k in t ==> SameButOwner(t[k], r[k], rel)
    ensures forall k :: k in t && k !in m ==> r[k] == t[k]
    ensures forall k :: k in t && Owner(t[k], rel) != Some(parent) ==> r[k] == t[k]
  {
    map k | k in t ::
      if k in m && Owner(t[k], rel) == Some(parent) then WithOwner(t[k], rel, None) else t[k]
  }

  /** The parent's collection becomes `m`: the scores of `m` join it and its
      other members leave it. */
  function Replaced(t: ScoreTable, rel: Relation, parent: string, m: set<string>): (r: ScoreTable)
    ensures r.Keys == t.Keys
    ensures forall k :: k in t ==> SameButOwner(t[k], r[k], rel)
    ensures forall k :: k in t && k !in m && Owner(t[k], rel) != Some(parent) ==> r[k] == t[k]
  {
    map k | k in t ::
      if k in m then WithOwner(t[k], rel, Some(parent))
      else if Owner(t[k], rel) == Some(parent) then WithOwner(t[k], rel, None)
      else t[k]
  }

  // ---------------------------------------------------------------------
  // Connect

  /** After connecting, the parent's collection is its old one plus the matched scores. */
  lemma ConnectedChildren(t: ScoreTable, rel: Relation, parent: string, m: set<string>)
    requires m <= t.Keys
    ensures Children(Connected(t, rel, parent, m), rel, parent) == Children(t, rel, parent) + m
  {
    var r := Connected(t, rel, parent, m);
    forall k | k in Children(t, rel, parent) + m
      ensures k in Children(r, rel, parent)
    {
      assert k in t;
    }
  }

  /** Connecting moves the matched scores out of every other parent's collection. */
  lemma ConnectedMoves(t: ScoreTable, rel: Relation, parent: string, other: string, m: set<string>)
    requires other != parent
    ensures Children(Connected(t, rel, parent, m), rel, other) == Children(t, rel, other) - m
  {
  }

  /** Connecting the same scores a second time changes nothing. */
  lemma ConnectedIdempotent(t: ScoreTable, rel: Relation, parent: string, m: set<string>)
    ensures Connected(Connected(t, rel, parent, m), rel, parent, m) == Connected(t, rel, parent, m)
  {
  }

  /** Skipping the scores already in the collection (`children.Except(parent.Scores)`)
      gives the same table as connecting every matched score. */
  lemma ConnectedSkipsLinked(t: ScoreTable, rel: Relation, parent: string, m: set<string>)
    ensures Connected(t, rel, parent, m - Children(t, rel, parent)) == Connected(t, rel, parent, m)
  {
    var r1 := Connected(t, rel, parent, m - Children(t, rel, parent));
    var r2 := Connected(t, rel, parent, m);
    forall k | k in t ensures r1[k] == r2[k] {
      if k in m && k in Children(t, rel, parent) {
        assert WithOwner(t[k], rel, Some(parent)) == t[k];
      }
    }
  }

  /** Connecting one more score is one update of the table (the loop's step). */
  lemma ConnectedStep(t: ScoreTable, rel: Relation, parent: string, done: set<string>, c: string)
    requires c in t && c !in done
    ensures Connected(t, rel, parent, done + {c})
         == Connected(t, rel, parent, done)[c := WithOwner(t[c], rel, Some(parent))]
  {
  }

  // ---------------------------------------------------------------------
  // Disconnect

  /** After disconnecting, the parent's collection is its old one minus the
      matched scores, and every other parent's collection is unchanged. */
  lemma DisconnectedChildren(t: ScoreTable, rel: Relation, parent: string, m: set<string>)
    ensures Children(Disconnected(t, rel, parent, m), rel, parent) == Children(t, rel, parent) - m
    ensures forall other :: other != parent ==>
      Children(Disconnected(t, rel, parent, m), rel, other) == Children(t, rel, other)
  {
  }

  /** Disconnecting scores none of which is in the collection changes nothing. */
  lemma DisconnectedUnlinkedIsNoop(t: ScoreTable, rel: Relation, parent: string, m: set<string>)
    requires m * Children(t, rel, parent) == {}
    ensures Disconnected(t, rel, parent, m) == t
  {
    var r := Disconnected(t, rel, parent, m);
    forall k | k in t ensures r[k] == t[k] {
      assert k in m && Owner(t[k], rel) == Some(parent) ==> k in m * Children(t, rel, parent);
    }
  }

  /** Disconnecting one more score is one update of the table (the loop's step). */
  lemma DisconnectedStep(t: ScoreTable, rel: Relation, parent: string, done: set<string>, c: string)
    requires c in t && c !in done
    ensures Disconnected(t, rel, parent, done + {c})
         == Disconnected(t, rel, parent, done)[c := if Owner(t[c], rel) == Some(parent)
                                                   then WithOwner(t[c], rel, None) else t[c]]
  {
  }

  // ---------------------------------------------------------------------
  // Replace

  /** After replacing, the parent's collection is exactly the matched scores,
      and they have left every other parent's collection. */
  lemma ReplacedChildren(t: ScoreTable, rel: Relation, parent: string, m: set<string>)
    requires m <= t.Keys
    ensures Children(Replaced(t, rel, parent, m), rel, parent) == m
    ensures forall other :: other != parent ==>
      Children(Replaced(t, rel, parent, m), rel, other) == Children(t, rel, other) - m
  {
  }

  /** Replacing is disconnecting the whole collection and then connecting the matched scores. */
  lemma ReplacedIsDisconnectAllThenConnect(t: ScoreTable, rel: Relation, parent: string, m: set<string>)
    ensures Replaced(t, rel, parent, m)
         == Connected(Disconnected(t, rel, parent, Children(t, rel, parent)), rel, parent, m)
  {
  }

  // ---------------------------------------------------------------------
  // The store's invariant

  /** A nullable foreign key is null or names a stored record. */
  predicate LinkValid<V>(o: Option<string>, parents: map<string, V>)
  {
    o.None? || o.value in parents
  }

  /** The ids of the parents of a relationship. */
  function Parents(players: PlayerTable, games: GameTable, rel: Relation): set<string>
  {
    match rel
    case PlayerScores => players.Keys
    case GameScores => games.Keys
  }

  /** What every state of the store satisfies: each record sits under its own
      Id; player and game rows hold their columns only (the Scores navigation
      is derived from the foreign keys); the string columns fit their length;
      every foreign key is null or names an existing record. */
  ghost predicate Consistent(players: PlayerTable, games: GameTable, scores: ScoreTable)
  {
    && (forall k :: k in players ==> players[k].id == k && players[k].scores.None? && PlayerColumnsFit(players[k]))
    && (forall k :: k in games ==> games[k].id == k && games[k].scores.None? && GameColumnsFit(games[k]))
    && (forall k :: k in scores ==>
          scores[k].id == k && LinkValid(scores[k].gameId, games) && LinkValid(scores[k].playerId, players))
  }

  /** A parent that does not exist has an empty Scores collection. */
  lemma MissingParentHasNoChildren(players: PlayerTable, games: GameTable, scores: ScoreTable,
                                   rel: Relation, parent: string)
    requires Consistent(players, games, scores)
    requires parent !in Parents(players, games, rel)
    ensures Children(scores, rel, parent) == {}
  {
  }

  /** Inserting or overwriting a player row that holds its columns only, and
      fits them, keeps the store consistent: no foreign key loses its target. */
  lemma PlayerStoredConsistent(players: PlayerTable, games: GameTable, scores: ScoreTable, p: PlayerDbModel)
    requires Consistent(players, games, scores)
    requires p.scores.None? && PlayerColumnsFit(p)
    ensures Consistent(players[p.id := p], games, scores)
  {
  }

  /** Inserting or overwriting a game row that holds its columns only, and
      fits them, keeps the store consistent. */
  lemma GameStoredConsistent(players: PlayerTable, games: GameTable, scores: ScoreTable, g: GameDbModel)
    requires Consistent(players, games, scores)
    requires g.scores.None? && GameColumnsFit(g)
    ensures Consistent(players, games[g.id := g], scores)
  {
  }

  /** Removing a player no score refers to keeps the store consistent. */
  lemma UnreferencedPlayerRemovedConsistent(players: PlayerTable, games: GameTable, scores: ScoreTable, id: string)
    requires Consistent(players, games, scores)
    requires Children(scores, PlayerScores, id) == {}
    ensures Consistent(players - {id}, games, scores)
  {
    forall k | k in scores ensures LinkValid(scores[k].playerId, players - {id}) {
      assert k !in Children(scores, PlayerScores, id);
    }
  }

  /** Removing a game no score refers to keeps the store consistent. */
  lemma UnreferencedGameRemovedConsistent(players: PlayerTable, games: GameTable, scores: ScoreTable, id: string)
    requires Consistent(players, games, scores)
    requires Children(scores, GameScores, id) == {}
    ensures Consistent(players, games - {id}, scores)
  {
    forall k | k in scores ensures LinkValid(scores[k].gameId, games - {id}) {
      assert k !in Children(scores, GameScores, id);
    }
  }

  /** Linking scores to an existing parent keeps the store consistent. */
  lemma ConnectedConsistent(players: PlayerTable, games: GameTable, scores: ScoreTable,
                            rel: Relation, parent: string, m: set<string>)
    requires Consistent(players, games, scores)
    requires parent in Parents(players, games, rel)
    ensures Consistent(players, games, Connected(scores, rel, parent, m))
    ensures Consistent(players, games, Replaced(scores, rel, parent, m))
  {
  }

  /** Unlinking scores keeps the store consistent. */
  lemma DisconnectedConsistent(players: PlayerTable, games: GameTable, scores: ScoreTable,
                               rel: Relation, parent: string, m: set<string>)
    requires Consistent(players, games, scores)
    ensures Consistent(players, games, Disconnected(scores, rel, parent, m))
  {
  }
}
