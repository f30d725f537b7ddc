/** The relational store behind the services (PlayerServiceDbContext) as three
    in-memory tables. Each service call is one sequential step: it reads, and
    then either writes its changes or writes nothing. */
module DataStore {
  import opened Common
  import opened Models
  import opened Tables

  class Store {
    var players: PlayerTable
    var games: GameTable
    var scores: ScoreTable

    /** The store's invariant (see Tables.Consistent). */
    ghost predicate Valid()
      reads this
    {
      Consistent(players, games, scores)
    }

    constructor ()
      ensures Valid()
      ensures players == map[] && games == map[] && scores == map[]
    {
      players, games, scores := map[], map[], map[];
    }

    /** The parent addressed by a relationship call exists. */
    predicate HasParent(rel: Relation, id: string)
      reads this
    {
      id in Parents(players, games, rel)
    }

    /** `Scores.Where(...).ToListAsync()` for a filter that selects the scores
        whose ids are in `keys`: each of those stored scores once, in an order
        the store chooses. */
    method Rows(keys: set<string>) returns (found: seq<ScoreDbModel>)
      requires Valid()
      requires keys <= scores.Keys
      ensures Elems(ScoreIds(found)) == keys
      ensures Distinct(ScoreIds(found))
      ensures forall s :: s in found ==> s.id in scores && scores[s.id] == s
    {
      found := [];
      var rest := keys;
      while rest != {}
        invariant rest <= keys
        invariant Elems(ScoreIds(found)) == keys - rest
        invariant Distinct(ScoreIds(found))
        invariant forall s :: s in found ==> s.id in scores && scores[s.id] == s
        decreases rest
      {
        var k :| k in rest;
        assert scores[k].id == k;
        ScoreIdsAppend(found, scores[k]);
        ElemsAppend(ScoreIds(found), k);
        found := found + [scores[k]];
        rest := rest - {k};
      }
    }
  }
}
