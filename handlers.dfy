/**
 * The route handlers as functions from the store before a request to the
 * store after it and the response. Each handler is one atomic step: its
 * lookups, checks and single commit happen together.
 */
module Handlers {
  import opened Wrappers
  import opened JsonValues
  import opened Entities
  import opened Favorites
  import opened Validation
  import opened Projection

  /**
   * A response body. UserBody and PlanetBody stand for the rows' own
   * serialisations, which are not part of this model.
   */
  datatype Body =
    | UserBody(userId: int, user: User)
    | PlanetBody(planetId: int, planet: Planet)
    | ObjectBody(fields: map<string, Json>)
    | ErrorBody(error: string)
    | MsgBody(msg: string)

  datatype Response = Response(status: int, body: Body)

  function Label(kind: Kind): string {
    match kind
    case PlanetFav => "Planet"
    case CharacterFav => "Character"
  }

  function NotFoundMessage(kind: Kind): string {
    "User or " + Label(kind) + " not found"
  }

  function DuplicateMessage(kind: Kind): string {
    Label(kind) + " already in favorites"
  }

  function NotInFavoritesMessage(kind: Kind): string {
    Label(kind) + " not in favorites"
  }

  function AddedMessage(kind: Kind, name: string): string {
    Label(kind) + " '" + name + "' added to favorites"
  }

  function RemovedMessage(kind: Kind, name: string): string {
    Label(kind) + " '" + name + "' removed from favorites"
  }

  /** The texts of the error messages of the planet routes. */
  lemma PlanetErrorTexts()
    ensures NotFoundMessage(PlanetFav) == "User or Planet not found"
    ensures DuplicateMessage(PlanetFav) == "Planet already in favorites"
    ensures NotInFavoritesMessage(PlanetFav) == "Planet not in favorites"
  {
    assert Label(PlanetFav) == "Planet";
  }

  /** The texts of the error messages of the character routes. */
  lemma CharacterErrorTexts()
    ensures NotFoundMessage(CharacterFav) == "User or Character not found"
    ensures DuplicateMessage(CharacterFav) == "Character already in favorites"
    ensures NotInFavoritesMessage(CharacterFav) == "Character not in favorites"
  {
    assert Label(CharacterFav) == "Character";
  }

  /** The texts of the success messages, around the target's name. */
  lemma SuccessMessageTexts(name: string)
    ensures AddedMessage(PlanetFav, name) == "Planet '" + name + "' added to favorites"
    ensures AddedMessage(CharacterFav, name) == "Character '" + name + "' added to favorites"
    ensures RemovedMessage(PlanetFav, name) == "Planet '" + name + "' removed from favorites"
    ensures RemovedMessage(CharacterFav, name) == "Character '" + name + "' removed from favorites"
  {
    assert "Planet" + " '" == "Planet '";
    assert "Character" + " '" == "Character '";
  }

  /** The success messages name the target: equal messages come from equal names. */
  lemma {:induction false} MessageNamesTarget(kind: Kind, n1: string, n2: string)
    ensures AddedMessage(kind, n1) == AddedMessage(kind, n2) ==> n1 == n2
    ensures RemovedMessage(kind, n1) == RemovedMessage(kind, n2) ==> n1 == n2
  {
    var pre := Label(kind) + " '";
    SliceMiddle(pre, n1, "' added to favorites");
    SliceMiddle(pre, n2, "' added to favorites");
    SliceMiddle(pre, n1, "' removed from favorites");
    SliceMiddle(pre, n2, "' removed from favorites");
  }

  lemma SliceMiddle(pre: string, mid: string, post: string)
    ensures (pre + mid + post)[|pre|..|pre + mid + post| - |post|] == mid
  {
    assert (pre + mid + post)[|pre|..|pre| + |mid|] == mid;
  }

  // ---------------------------------------------------------------- lookups

  function GetUser(db: Db, id: int): (r: Response)
    ensures r.status == 200 <==> id in db.users
    ensures r.status == 200 ==> r.body == UserBody(id, db.users[id])
    ensures r.status != 200 ==> r == Response(404, ErrorBody("User not found"))
  {
    if id in db.users then Response(200, UserBody(id, db.users[id]))
    else Response(404, ErrorBody("User not found"))
  }

  function GetPlanet(db: Db, id: int): (r: Response)
    ensures r.status == 200 <==> id in db.planets
    ensures r.status == 200 ==> r.body == PlanetBody(id, db.planets[id])
    ensures r.status != 200 ==> r == Response(404, ErrorBody("Planet not found"))
  {
    if id in db.planets then Response(200, PlanetBody(id, db.planets[id]))
    else Response(404, ErrorBody("Planet not found"))
  }

  /** A found character is returned as its four-key dictionary, from which it can be read back. */
  function GetCharacter(db: Db, id: int): (r: Response)
    ensures r.status == 200 <==> id in db.characters
    ensures r.status == 200 ==> r.body.ObjectBody? && r.body.fields.Keys == ViewKeys
    ensures r.status == 200 ==> ReadCharacterView(r.body.fields) == Some((id, db.characters[id]))
    ensures r.status != 200 ==> r == Response(404, ErrorBody("Character not found"))
  {
    if id in db.characters then
      ViewRoundTrip(id, db.characters[id]);
      Response(200, ObjectBody(CharacterView(id, db.characters[id])))
    else Response(404, ErrorBody("Character not found"))
  }

  // ---------------------------------------------------------- user creation

  /**
   * Creating a user from a payload; `id` is the id the database assigns.
   * A payload missing a field changes nothing; otherwise exactly the new
   * user, active and with no favourites, is added.
   */
  function CreateUser(db: Db, data: map<string, Json>, today: Date, id: int): (r: (Db, Response))
    ensures r.1.status == 400 <==> FirstMissing(data).Some?
    ensures FirstMissing(data).Some? ==>
      r == (db, Response(400, ErrorBody(MissingFieldMessage(FirstMissing(data).value))))
    ensures FirstMissing(data).None? ==>
      && "email" in data && "password" in data && "name" in data
      && var u := User(data["email"], data["password"], data["name"], today, true);
      && r.1 == Response(201, UserBody(id, u))
      && r.0.users == db.users[id := u]
      && r.0.planetFavs == db.planetFavs[id := []]
      && r.0.characterFavs == db.characterFavs[id := []]
      && r.0.planets == db.planets && r.0.characters == db.characters
  {
    match FirstMissing(data)
    case Some(field) => (db, Response(400, ErrorBody(MissingFieldMessage(field))))
    case None =>
      var u := User(data["email"], data["password"], data["name"], today, true);
      var db' := db.(users := db.users[id := u],
                     planetFavs := db.planetFavs[id := []],
                     characterFavs := db.characterFavs[id := []]);
      (db', Response(201, UserBody(id, u)))
  }

  // -------------------------------------------------------------- favourites

  /**
   * Adding a favourite; `linkId` is the id the database assigns to the new
   * link row. 404 when the user or the target is missing, 409 when the user
   * already references the target, otherwise exactly one link is appended
   * to that user's list of that kind and nothing else changes.
   */
  function AddFavorite(db: Db, kind: Kind, userId: int, targetId: int, linkId: int): (r: (Db, Response))
    ensures r.1.status == 404 <==> userId !in db.users || targetId !in Targets(db, kind)
    ensures r.1.status == 409 <==>
      userId in db.users && targetId in Targets(db, kind) && HasTarget(UserLinks(db, kind, userId), targetId)
    ensures r.1.status == 404 ==> r == (db, Response(404, ErrorBody(NotFoundMessage(kind))))
    ensures r.1.status == 409 ==> r == (db, Response(409, ErrorBody(DuplicateMessage(kind))))
    ensures r.1.status != 404 && r.1.status != 409 ==>
      && r.1 == Response(201, MsgBody(AddedMessage(kind, TargetName(db, kind, targetId))))
      && r.0 == WithLinks(db, kind, Links(db, kind)[userId := UserLinks(db, kind, userId) + [Link(linkId, targetId)]])
  {
    if userId !in db.users || targetId !in Targets(db, kind) then
      (db, Response(404, ErrorBody(NotFoundMessage(kind))))
    else if HasTarget(UserLinks(db, kind, userId), targetId) then
      (db, Response(409, ErrorBody(DuplicateMessage(kind))))
    else
      var links := UserLinks(db, kind, userId);
      (WithLinks(db, kind, Links(db, kind)[userId := links + [Link(linkId, targetId)]]),
       Response(201, MsgBody(AddedMessage(kind, TargetName(db, kind, targetId)))))
  }

  /**
   * Removing a favourite. 404 when the user or the target is missing, 404
   * when no link of the user references the target, otherwise exactly the
   * first such link is deleted, the others keep their order, and nothing
   * else changes.
   */
  function RemoveFavorite(db: Db, kind: Kind, userId: int, targetId: int): (r: (Db, Response))
    ensures r.1.status == 200 || r.1.status == 404
    ensures userId !in db.users || targetId !in Targets(db, kind) ==>
      r == (db, Response(404, ErrorBody(NotFoundMessage(kind))))
    ensures userId in db.users && targetId in Targets(db, kind) && !HasTarget(UserLinks(db, kind, userId), targetId) ==>
      r == (db, Response(404, ErrorBody(NotInFavoritesMessage(kind))))
    ensures userId in db.users && targetId in Targets(db, kind) && HasTarget(UserLinks(db, kind, userId), targetId) ==>
      var links := UserLinks(db, kind, userId);
      && r.1 == Response(200, MsgBody(RemovedMessage(kind, TargetName(db, kind, targetId))))
      && r.0 == WithLinks(db, kind, Links(db, kind)[userId := RemoveAt(links, FirstIndex(links, targetId).value)])
  {
    if userId !in db.users || targetId !in Targets(db, kind) then
      (db, Response(404, ErrorBody(NotFoundMessage(kind))))
    else
      var links := UserLinks(db, kind, userId);
      match FirstIndex(links, targetId)
      case None => (db, Response(404, ErrorBody(NotInFavoritesMessage(kind))))
      case Some(i) =>
        (WithLinks(db, kind, Links(db, kind)[userId := RemoveAt(links, i)]),
         Response(200, MsgBody(RemovedMessage(kind, TargetName(db, kind, targetId)))))
  }
}
