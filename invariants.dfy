/**
 * What every handler preserves: the store stays well formed, and no user
 * ever holds two links of one kind to the same target.
 */
module Invariants {
  import opened JsonValues
  import opened Entities
  import opened Favorites
  import opened Handlers

  /** No user has two links of the same kind to the same target. */
  predicate FavoritesUnique(db: Db) {
    && (forall u :: u in db.planetFavs ==> NoDuplicateTargets(db.planetFavs[u]))
    && (forall u :: u in db.characterFavs ==> NoDuplicateTargets(db.characterFavs[u]))
  }

  /** Replacing one user's list by a list of existing targets keeps the store well formed. */
  lemma ReplaceKeepsWellFormed(db: Db, kind: Kind, userId: int, links: seq<Link>)
    requires WellFormed(db)
    requires userId in db.users
    requires forall l :: l in links ==> l.target in Targets(db, kind)
    ensures WellFormed(WithLinks(db, kind, Links(db, kind)[userId := links]))
  {
    match kind
    case PlanetFav =>
    case CharacterFav =>
  }

  /** Replacing one user's list by a list without duplicates keeps the store without duplicates. */
  lemma ReplaceKeepsUnique(db: Db, kind: Kind, userId: int, links: seq<Link>)
    requires NoDuplicateTargets(links)
    ensures FavoritesUnique(db) ==> FavoritesUnique(WithLinks(db, kind, Links(db, kind)[userId := links]))
  {
    match kind
    case PlanetFav =>
    case CharacterFav =>
  }

  /** A user's list in a store without duplicates has no duplicates. */
  lemma UniqueList(db: Db, kind: Kind, userId: int)
    requires FavoritesUnique(db)
    ensures NoDuplicateTargets(UserLinks(db, kind, userId))
  {
    match kind
    case PlanetFav =>
    case CharacterFav =>
  }

  /** In a well-formed store every link of a user references an existing target. */
  lemma ListReferencesTargets(db: Db, kind: Kind, userId: int, l: Link)
    requires WellFormed(db)
    requires l in UserLinks(db, kind, userId)
    ensures l.target in Targets(db, kind)
  {
    match kind
    case PlanetFav =>
    case CharacterFav =>
  }

  /** Creating a user under a positive id keeps the store well formed and without duplicate favourites. */
  lemma CreateUserKeepsInvariants(db: Db, data: map<string, Json>, today: Date, id: int)
    requires WellFormed(db)
    requires id > 0
    ensures WellFormed(CreateUser(db, data, today, id).0)
    ensures FavoritesUnique(db) ==> FavoritesUnique(CreateUser(db, data, today, id).0)
  {
  }

  /**
   * Adding a favourite keeps the store well formed, and keeps every user's
   * lists free of duplicate targets.
   */
  lemma {:induction false} AddFavoriteKeepsInvariants(db: Db, kind: Kind, userId: int, targetId: int, linkId: int)
    requires WellFormed(db)
    ensures WellFormed(AddFavorite(db, kind, userId, targetId, linkId).0)
    ensures FavoritesUnique(db) ==> FavoritesUnique(AddFavorite(db, kind, userId, targetId, linkId).0)
  {
    if userId in db.users && targetId in Targets(db, kind) && !HasTarget(UserLinks(db, kind, userId), targetId) {
      var links := UserLinks(db, kind, userId);
      var link := Link(linkId, targetId);
      AppendKeepsNoDuplicates(links, link);
      forall l | l in links + [link]
        ensures l.target in Targets(db, kind)
      {
        if l in links {
          ListReferencesTargets(db, kind, userId, l);
        }
      }
      ReplaceKeepsWellFormed(db, kind, userId, links + [link]);
      if FavoritesUnique(db) {
        UniqueList(db, kind, userId);
        ReplaceKeepsUnique(db, kind, userId, links + [link]);
      }
    }
  }

  /**
   * Removing a favourite keeps the store well formed, and keeps every user's
   * lists free of duplicate targets.
   */
  lemma {:induction false} RemoveFavoriteKeepsInvariants(db: Db, kind: Kind, userId: int, targetId: int)
    requires WellFormed(db)
    ensures WellFormed(RemoveFavorite(db, kind, userId, targetId).0)
    ensures FavoritesUnique(db) ==> FavoritesUnique(RemoveFavorite(db, kind, userId, targetId).0)
  {
    if userId in db.users && targetId in Targets(db, kind) && HasTarget(UserLinks(db, kind, userId), targetId) {
      var links := UserLinks(db, kind, userId);
      var i := FirstIndex(links, targetId).value;
      RemoveKeepsNoDuplicates(links, i);
      forall l | l in RemoveAt(links, i)
        ensures l.target in Targets(db, kind)
      {
        RemoveKeepsMembers(links, i, l);
        ListReferencesTargets(db, kind, userId, l);
      }
      ReplaceKeepsWellFormed(db, kind, userId, RemoveAt(links, i));
      if FavoritesUnique(db) {
        UniqueList(db, kind, userId);
        ReplaceKeepsUnique(db, kind, userId, RemoveAt(links, i));
      }
    }
  }
}
