/** ConnectScores, DisconnectScores and UpdateScores, written once for both
    parents: PlayersServiceBase and GamesServiceBase hold the same code with
    Player or Game in place of the parent. Each call loads the parent with its
    Scores collection, loads the requested scores, and then changes the
    collection, which the store records in the scores' foreign keys. */
module RelationshipSync {
  import opened Common
  import opened Tables
  import opened DataStore

  /** Connect: NotFound when the parent is missing or no requested id names a
      stored score, with nothing written; otherwise every matched score not yet
      in the collection is added to it. */
  method Connect(db: Store, rel: Relation, parentId: string, childIds: seq<string>) returns (r: Outcome)
    requires db.Valid()
    modifies db
    ensures db.Valid()
    ensures db.players == old(db.players) && db.games == old(db.games)
    ensures r.Fail? <==> !old(db.HasParent(rel, parentId)) || Matched(old(db.scores), childIds) == {}
    ensures r.Fail? ==> r.error == NotFound && db.scores == old(db.scores)
    ensures r.Pass? ==> db.scores == Connected(old(db.scores), rel, parentId, Matched(old(db.scores), childIds))
  {
    if !db.HasParent(rel, parentId) {
      return Fail(NotFound);
    }
    var children := Matched(db.scores, childIds);
    if children == {} {
      return Fail(NotFound);
    }
    var childrenToConnect := children - Children(db.scores, rel, parentId);
    ghost var before := db.scores;
    ghost var done: set<string> := {};
    var rest := childrenToConnect;
    while rest != {}
      invariant rest !! done && rest + done == childrenToConnect
      invariant db.scores == Connected(before, rel, parentId, done)
      invariant db.players == old(db.players) && db.games == old(db.games)
      decreases rest
    {
      var child :| child in rest;
      ConnectedStep(before, rel, parentId, done, child);
      db.scores := db.scores[child := WithOwner(db.scores[child], rel, Some(parentId))];
      rest := rest - {child};
      done := done + {child};
    }
    ConnectedSkipsLinked(before, rel, parentId, children);
    ConnectedConsistent(db.players, db.games, before, rel, parentId, children);
    r := Pass;
  }

  /** Disconnect: NotFound only when the parent is missing; otherwise every
      matched score that is in the collection leaves it. Ids naming nothing,
      and scores of another parent, are passed over without an error. */
  method Disconnect(db: Store, rel: Relation, parentId: string, childIds: seq<string>) returns (r: Outcome)
    requires db.Valid()
    modifies db
    ensures db.Valid()
    ensures db.players == old(db.players) && db.games == old(db.games)
    ensures r.Fail? <==> !old(db.HasParent(rel, parentId))
    ensures r.Fail? ==> r.error == NotFound && db.scores == old(db.scores)
    ensures r.Pass? ==> db.scores == Disconnected(old(db.scores), rel, parentId, Matched(old(db.scores), childIds))
  {
    if !db.HasParent(rel, parentId) {
      return Fail(NotFound);
    }
    var children := Matched(db.scores, childIds);
    ghost var before := db.scores;
    ghost var done: set<string> := {};
    var rest := children;
    while rest != {}
      invariant rest !! done && rest + done == children
      invariant db.scores == Disconnected(before, rel, parentId, done)
      invariant db.players == old(db.players) && db.games == old(db.games)
      decreases rest
    {
      var child :| child in rest;
      DisconnectedStep(before, rel, parentId, done, child);
      if Owner(db.scores[child], rel) == Some(parentId) {
        db.scores := db.scores[child := WithOwner(db.scores[child], rel, None)];
      }
      rest := rest - {child};
      done := done + {child};
    }
    DisconnectedConsistent(db.players, db.games, before, rel, parentId, children);
    r := Pass;
  }

  /** Replace (UpdateScores): NotFound when the parent is missing or no
      requested id names a stored score, with nothing written; otherwise the
      collection becomes exactly the matched scores. */
  method Replace(db: Store, rel: Relation, parentId: string, childIds: seq<string>) returns (r: Outcome)
    requires db.Valid()
    modifies db
    ensures db.Valid()
    ensures db.players == old(db.players) && db.games == old(db.games)
    ensures r.Fail? <==> !old(db.HasParent(rel, parentId)) || Matched(old(db.scores), childIds) == {}
    ensures r.Fail? ==> r.error == NotFound && db.scores == old(db.scores)
    ensures r.Pass? ==> db.scores == Replaced(old(db.scores), rel, parentId, Matched(old(db.scores), childIds))
  {
    if !db.HasParent(rel, parentId) {
      return Fail(NotFound);
    }
    var children := Matched(db.scores, childIds);
    if children == {} {
      return Fail(NotFound);
    }
    ConnectedConsistent(db.players, db.games, db.scores, rel, parentId, children);
    db.scores := Replaced(db.scores, rel, parentId, children);
    r := Pass;
  }
}
