/**
 * The store as the handlers update it in place: one object whose tables
 * and per-user favourite lists are replaced by each committed request.
 * Every handler method is proved to do exactly what the corresponding
 * function of Handlers says, and to keep the store's invariants.
 */
module Storage {
  import opened Wrappers
  import opened JsonValues
  import opened Entities
  import opened Favorites
  import opened Validation
  import opened Handlers
  import opened Invariants

  class Store {
    var users: map<int, User>
    var planets: map<int, Planet>
    var characters: map<int, Character>
    var planetFavs: map<int, seq<Link>>
    var characterFavs: map<int, seq<Link>>

    /** The store's current contents as a value. */
    function Snapshot(): Db
      reads this
    {
      Db(users, planets, characters, planetFavs, characterFavs)
    }

    ghost predicate Valid()
      reads this
    {
      WellFormed(Snapshot())
    }

    constructor (db: Db)
      requires WellFormed(db)
      ensures Valid() && Snapshot() == db
    {
      users := db.users;
      planets := db.planets;
      characters := db.characters;
      planetFavs := db.planetFavs;
      characterFavs := db.characterFavs;
    }

    /**
     * POST /users. The required fields are checked in order and the first
     * that fails is reported; otherwise the user is inserted under a fresh
     * id, returned in `newId` (0 when nothing is inserted).
     */
    method CreateUser(data: map<string, Json>, today: Date) returns (resp: Response, newId: int)
      requires Valid()
      modifies this
      ensures Valid()
      ensures FavoritesUnique(old(Snapshot())) ==> FavoritesUnique(Snapshot())
      ensures resp.status == 201 ==> newId > 0 && newId !in old(users)
      ensures (Snapshot(), resp) == Handlers.CreateUser(old(Snapshot()), data, today, newId)
    {
      for i := 0 to |RequiredFields|
        invariant forall j :: 0 <= j < i ==> Present(data, RequiredFields[j])
      {
        var field := RequiredFields[i];
        if field !in data || !Truthy(data[field]) {
          assert FirstFailing(data, RequiredFields) == i;
          resp := Response(400, ErrorBody(MissingFieldMessage(field)));
          newId := 0;
          return;
        }
      }
      newId := ChooseFreshId(users.Keys);
      CreateUserKeepsInvariants(Snapshot(), data, today, newId);
      var user := User(data["email"], data["password"], data["name"], today, true);
      users := users[newId := user];
      planetFavs := planetFavs[newId := []];
      characterFavs := characterFavs[newId := []];
      resp := Response(201, UserBody(newId, user));
    }

    /**
     * POST /users/{userId}/favorites/planets/{planetId}. The new link row
     * gets a fresh id, returned in `linkId` (0 when nothing is inserted).
     */
    method AddFavoritePlanet(userId: int, planetId: int) returns (resp: Response, linkId: int)
      requires Valid()
      modifies this
      ensures Valid()
      ensures FavoritesUnique(old(Snapshot())) ==> FavoritesUnique(Snapshot())
      ensures resp.status == 201 ==> linkId > 0 && linkId !in LinkIds(old(planetFavs))
      ensures (Snapshot(), resp) == AddFavorite(old(Snapshot()), PlanetFav, userId, planetId, linkId)
    {
      if userId !in users || planetId !in planets {
        return Response(404, ErrorBody(NotFoundMessage(PlanetFav))), 0;
      }
      if HasTarget(planetFavs[userId], planetId) {
        return Response(409, ErrorBody(DuplicateMessage(PlanetFav))), 0;
      }
      linkId := ChooseFreshId(LinkIds(planetFavs));
      AddFavoriteKeepsInvariants(Snapshot(), PlanetFav, userId, planetId, linkId);
      planetFavs := planetFavs[userId := planetFavs[userId] + [Link(linkId, planetId)]];
      resp := Response(201, MsgBody(AddedMessage(PlanetFav, planets[planetId].name)));
    }

    /** POST /users/{userId}/favorites/characters/{characterId}. */
    method AddFavoriteCharacter(userId: int, characterId: int) returns (resp: Response, linkId: int)
      requires Valid()
      modifies this
      ensures Valid()
      ensures FavoritesUnique(old(Snapshot())) ==> FavoritesUnique(Snapshot())
      ensures resp.status == 201 ==> linkId > 0 && linkId !in LinkIds(old(characterFavs))
      ensures (Snapshot(), resp) == AddFavorite(old(Snapshot()), CharacterFav, userId, characterId, linkId)
    {
      if userId !in users || characterId !in characters {
        return Response(404, ErrorBody(NotFoundMessage(CharacterFav))), 0;
      }
      if HasTarget(characterFavs[userId], characterId) {
        return Response(409, ErrorBody(DuplicateMessage(CharacterFav))), 0;
      }
      linkId := ChooseFreshId(LinkIds(characterFavs));
      AddFavoriteKeepsInvariants(Snapshot(), CharacterFav, userId, characterId, linkId);
      characterFavs := characterFavs[userId := characterFavs[userId] + [Link(linkId, characterId)]];
      resp := Response(201, MsgBody(AddedMessage(CharacterFav, characters[characterId].name)));
    }

    /**
     * DELETE /users/{userId}/favorites/planets/{planetId}. The user's links
     * are scanned in order; the first that references the planet is deleted
     * and the scan stops.
     */
    method RemoveFavoritePlanet(userId: int, planetId: int) returns (resp: Response)
      requires Valid()
      modifies this
      ensures Valid()
      ensures FavoritesUnique(old(Snapshot())) ==> FavoritesUnique(Snapshot())
      ensures (Snapshot(), resp) == RemoveFavorite(old(Snapshot()), PlanetFav, userId, planetId)
    {
      RemoveFavoriteKeepsInvariants(Snapshot(), PlanetFav, userId, planetId);
      if userId !in users || planetId !in planets {
        return Response(404, ErrorBody(NotFoundMessage(PlanetFav)));
      }
      var links := planetFavs[userId];
      assert UserLinks(Snapshot(), PlanetFav, userId) == links;
      var i := 0;
      while i < |links|
        invariant i <= |links|
        invariant forall j :: 0 <= j < i ==> links[j].target != planetId
      {
        if links[i].target == planetId {
          assert FirstIndex(links, planetId) == Some(i);
          planetFavs := planetFavs[userId := RemoveAt(links, i)];
          return Response(200, MsgBody(RemovedMessage(PlanetFav, planets[planetId].name)));
        }
        i := i + 1;
      }
      assert !HasTarget(links, planetId);
      resp := Response(404, ErrorBody(NotInFavoritesMessage(PlanetFav)));
    }

    /** DELETE /users/{userId}/favorites/characters/{characterId}. */
    method RemoveFavoriteCharacter(userId: int, characterId: int) returns (resp: Response)
      requires Valid()
      modifies this
      ensures Valid()
      ensures FavoritesUnique(old(Snapshot())) ==> FavoritesUnique(Snapshot())
      ensures (Snapshot(), resp) == RemoveFavorite(old(Snapshot()), CharacterFav, userId, characterId)
    {
      RemoveFavoriteKeepsInvariants(Snapshot(), CharacterFav, userId, characterId);
      if userId !in users || characterId !in characters {
        return Response(404, ErrorBody(NotFoundMessage(CharacterFav)));
      }
      var links := characterFavs[userId];
      assert UserLinks(Snapshot(), CharacterFav, userId) == links;
      var i := 0;
      while i < |links|
        invariant i <= |links|
        invariant forall j :: 0 <= j < i ==> links[j].target != characterId
      {
        if links[i].target == characterId {
          assert FirstIndex(links, characterId) == Some(i);
          characterFavs := characterFavs[userId := RemoveAt(links, i)];
          return Response(200, MsgBody(RemovedMessage(CharacterFav, characters[characterId].name)));
        }
        i := i + 1;
      }
      assert !HasTarget(links, characterId);
      resp := Response(404, ErrorBody(NotInFavoritesMessage(CharacterFav)));
    }
  }
}
