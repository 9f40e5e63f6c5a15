/**
 * Properties that relate several requests: a created user can be looked
 * up, repeated adds and removes are answered 409 and 404, and a remove
 * undoes the add before it.
 */
module Properties {
  import opened Wrappers
  import opened JsonValues
  import opened Entities
  import opened Favorites
  import opened Validation
  import opened Handlers
  import opened Invariants

  /** A user created from a complete payload is found under its id, as submitted and active. */
  lemma CreateThenGetUser(db: Db, data: map<string, Json>, today: Date, id: int)
    requires FirstMissing(data).None?
    ensures "email" in data && "password" in data && "name" in data
    ensures GetUser(CreateUser(db, data, today, id).0, id)
         == Response(200, UserBody(id, User(data["email"], data["password"], data["name"], today, true)))
  {
  }

  /** A creation under a fresh id adds exactly one user and keeps every other one; a rejected one adds none. */
  lemma CreateUserAddsOneUser(db: Db, data: map<string, Json>, today: Date, id: int)
    requires id !in db.users
    ensures var (db', r) := CreateUser(db, data, today, id);
      && (r.status == 400 ==> db' == db)
      && (r.status == 201 ==>
           && db'.users.Keys == db.users.Keys + {id}
           && |db'.users| == |db.users| + 1
           && forall u :: u in db.users ==> db'.users[u] == db.users[u])
  {
  }

  /** Replacing the lists of one kind touches nothing else, and putting the old lists back restores the store. */
  lemma WithLinksFacts(db: Db, kind: Kind, favs: map<int, seq<Link>>)
    ensures var db' := WithLinks(db, kind, favs);
      && Links(db', kind) == favs
      && db'.users == db.users
      && Targets(db', kind) == Targets(db, kind)
      && (forall t :: t in Targets(db, kind) ==> TargetName(db', kind, t) == TargetName(db, kind, t))
      && WithLinks(db', kind, Links(db, kind)) == db
  {
    match kind
    case PlanetFav =>
    case CharacterFav =>
  }

  /**
   * An add repeated at once changes nothing: it answers 404 again if the
   * first did, and 409 otherwise.
   */
  lemma {:induction false} RepeatedAddConflicts(db: Db, kind: Kind, userId: int, targetId: int, id1: int, id2: int)
    ensures var (db1, r1) := AddFavorite(db, kind, userId, targetId, id1);
      var (db2, r2) := AddFavorite(db1, kind, userId, targetId, id2);
      && db2 == db1
      && r2.status == (if r1.status == 404 then 404 else 409)
  {
    var (db1, r1) := AddFavorite(db, kind, userId, targetId, id1);
    if r1.status == 201 {
      var links := UserLinks(db, kind, userId);
      WithLinksFacts(db, kind, Links(db, kind)[userId := links + [Link(id1, targetId)]]);
      AppendHasTarget(links, Link(id1, targetId));
    }
  }

  /**
   * On a user whose list of that kind has no duplicate targets, a remove repeated at once
   * changes nothing and answers 404; after a successful remove the answer
   * is "not in favorites".
   */
  lemma {:induction false} RepeatedRemoveNotFound(db: Db, kind: Kind, userId: int, targetId: int)
    requires NoDuplicateTargets(UserLinks(db, kind, userId))
    ensures var (db1, r1) := RemoveFavorite(db, kind, userId, targetId);
      var (db2, r2) := RemoveFavorite(db1, kind, userId, targetId);
      && db2 == db1
      && r2.status == 404
      && (r1.status == 200 ==> r2.body == ErrorBody(NotInFavoritesMessage(kind)))
  {
    var (db1, r1) := RemoveFavorite(db, kind, userId, targetId);
    if r1.status == 200 {
      var links := UserLinks(db, kind, userId);
      var i := FirstIndex(links, targetId).value;
      WithLinksFacts(db, kind, Links(db, kind)[userId := RemoveAt(links, i)]);
      RemoveFirstClearsTarget(links, targetId);
    }
  }

  /**
   * Removing a favourite just added gives back the store as it was before
   * the add. The user must have a list of that kind, as every user of a
   * well-formed store has.
   */
  lemma {:induction false} RemoveUndoesAdd(db: Db, kind: Kind, userId: int, targetId: int, linkId: int)
    requires userId in Links(db, kind)
    requires AddFavorite(db, kind, userId, targetId, linkId).1.status == 201
    ensures targetId in Targets(db, kind)
    ensures RemoveFavorite(AddFavorite(db, kind, userId, targetId, linkId).0, kind, userId, targetId)
         == (db, Response(200, MsgBody(RemovedMessage(kind, TargetName(db, kind, targetId)))))
  {
    var links := UserLinks(db, kind, userId);
    var link := Link(linkId, targetId);
    var favs := Links(db, kind);
    var db1 := WithLinks(db, kind, favs[userId := links + [link]]);
    assert AddFavorite(db, kind, userId, targetId, linkId).0 == db1;
    WithLinksFacts(db, kind, favs[userId := links + [link]]);
    RemoveUndoesAppend(links, link);
    AppendHasTarget(links, link);
    assert favs[userId := links + [link]][userId := links] == favs;
  }

  /** The store of the session below: planet 3 is Tatooine, no users yet. */
  const SessionStart := Db(map[], map[3 := Planet("Tatooine")], map[], map[], map[])
  const SessionPayload := map["email" := JString("a@x.com"), "password" := JString("p"), "name" := JString("A")]
  const SessionDate := Date(2026, 1, 1)
  const SessionUser := User(JString("a@x.com"), JString("p"), JString("A"), SessionDate, true)
  /** After registering user 1. */
  const SessionRegistered := Db(map[1 := SessionUser], map[3 := Planet("Tatooine")], map[], map[1 := []], map[1 := []])
  /** After user 1 adds planet 3 under link id 1. */
  const SessionFavorited := Db(map[1 := SessionUser], map[3 := Planet("Tatooine")], map[], map[1 := [Link(1, 3)]], map[1 := []])

  lemma SessionRegisters()
    ensures CreateUser(SessionStart, SessionPayload, SessionDate, 1)
         == (SessionRegistered, Response(201, UserBody(1, SessionUser)))
  {
    assert Present(SessionPayload, "email") && Present(SessionPayload, "password") && Present(SessionPayload, "name");
  }

  lemma SessionAdds()
    ensures AddFavorite(SessionRegistered, PlanetFav, 1, 3, 1)
         == (SessionFavorited, Response(201, MsgBody("Planet 'Tatooine' added to favorites")))
  {
    assert UserLinks(SessionRegistered, PlanetFav, 1) == [];
    assert AddedMessage(PlanetFav, "Tatooine") == "Planet" + " '" + "Tatooine" + "' added to favorites";
    assert AddedMessage(PlanetFav, "Tatooine") == "Planet 'Tatooine' added to favorites";
    assert [] + [Link(1, 3)] == [Link(1, 3)];
    assert SessionRegistered.planetFavs[1 := [] + [Link(1, 3)]] == SessionFavorited.planetFavs;
  }

  lemma SessionAddsAgain()
    ensures AddFavorite(SessionFavorited, PlanetFav, 1, 3, 2)
         == (SessionFavorited, Response(409, ErrorBody("Planet already in favorites")))
  {
    assert UserLinks(SessionFavorited, PlanetFav, 1) == [Link(1, 3)];
    assert HasTarget([Link(1, 3)], 3);
    assert DuplicateMessage(PlanetFav) == "Planet" + " already in favorites";
    assert DuplicateMessage(PlanetFav) == "Planet already in favorites";
  }

  lemma TatooineRemovedMessage()
    ensures RemovedMessage(PlanetFav, "Tatooine") == "Planet 'Tatooine' removed from favorites"
  {
    assert Label(PlanetFav) == "Planet";
  }

  lemma SessionRemoves()
    ensures RemoveFavorite(SessionFavorited, PlanetFav, 1, 3)
         == (SessionRegistered, Response(200, MsgBody("Planet 'Tatooine' removed from favorites")))
  {
    assert RemoveFavorite(SessionFavorited, PlanetFav, 1, 3)
        == (SessionRegistered, Response(200, MsgBody(RemovedMessage(PlanetFav, "Tatooine")))) by {
      assert UserLinks(SessionFavorited, PlanetFav, 1) == [Link(1, 3)];
      assert HasTarget([Link(1, 3)], 3);
      assert FirstIndex([Link(1, 3)], 3) == Some(0);
      assert RemoveAt([Link(1, 3)], 0) == [];
      assert SessionFavorited.planetFavs[1 := []] == SessionRegistered.planetFavs;
    }
    TatooineRemovedMessage();
  }

  lemma SessionRemovesAgain()
    ensures RemoveFavorite(SessionRegistered, PlanetFav, 1, 3)
         == (SessionRegistered, Response(404, ErrorBody("Planet not in favorites")))
  {
    assert UserLinks(SessionRegistered, PlanetFav, 1) == [];
    assert !HasTarget([], 3);
    assert NotInFavoritesMessage(PlanetFav) == "Planet" + " not in favorites";
    assert NotInFavoritesMessage(PlanetFav) == "Planet not in favorites";
  }

  /**
   * The session of a user who registers, adds planet 3 twice and removes it
   * twice: 201, 201, 409, 200, 404.
   */
  lemma FavoritesSession()
    ensures CreateUser(SessionStart, SessionPayload, SessionDate, 1).1.status == 201
    ensures AddFavorite(SessionRegistered, PlanetFav, 1, 3, 1).1.status == 201
    ensures AddFavorite(SessionFavorited, PlanetFav, 1, 3, 2).1.status == 409
    ensures RemoveFavorite(SessionFavorited, PlanetFav, 1, 3).1.status == 200
    ensures RemoveFavorite(SessionRegistered, PlanetFav, 1, 3).1.status == 404
  {
    SessionRegisters();
    SessionAdds();
    SessionAddsAgain();
    SessionRemoves();
    SessionRemovesAgain();
  }
}
