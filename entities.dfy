/**
 * The rows the routes read and write, and the store that holds them.
 * Each table is a map from primary key to row; the favourite links of a
 * user are held per user, in the order the relationship list keeps them.
 */
module Entities {
  import opened JsonValues

  /** The registration date; the handler takes it from the clock. */
  datatype Date = Date(year: int, month: int, day: int)

  /** A User row. Email, password and name are stored as submitted. */
  datatype User = User(email: Json, password: Json, name: Json, registered: Date, isActive: bool)

  /** A Planets row; the routes use only its name. */
  datatype Planet = Planet(name: string)

  /** A Character row: the fields the character routes expose. */
  datatype Character = Character(name: string, image: string, data: Json)

  /** A PlanetFavs or CharacterFavs row of one user: its own id and the referenced target's id. */
  datatype Link = Link(id: int, target: int)

  /** Which of the two favourite relations an operation works on. */
  datatype Kind = PlanetFav | CharacterFav

  datatype Db = Db(
    users: map<int, User>,
    planets: map<int, Planet>,
    characters: map<int, Character>,
    planetFavs: map<int, seq<Link>>,
    characterFavs: map<int, seq<Link>>)

  /** Every link of every user references a row among `targets` (a foreign key). */
  predicate LinksReferTo(favs: map<int, seq<Link>>, targets: set<int>) {
    forall u, l :: u in favs && l in favs[u] ==> l.target in targets
  }

  /**
   * The store's consistency: primary keys are positive, every user has
   * exactly one list of each kind of link, and links reference existing rows.
   */
  predicate WellFormed(db: Db) {
    && (forall id :: id in db.users ==> id > 0)
    && (forall id :: id in db.planets ==> id > 0)
    && (forall id :: id in db.characters ==> id > 0)
    && db.planetFavs.Keys == db.users.Keys
    && db.characterFavs.Keys == db.users.Keys
    && LinksReferTo(db.planetFavs, db.planets.Keys)
    && LinksReferTo(db.characterFavs, db.characters.Keys)
  }

  /** The favourite lists of one kind, keyed by user id. */
  function Links(db: Db, kind: Kind): map<int, seq<Link>> {
    match kind
    case PlanetFav => db.planetFavs
    case CharacterFav => db.characterFavs
  }

  /** One user's list of one kind: the link rows that reference the user, none if there are none. */
  function UserLinks(db: Db, kind: Kind, userId: int): seq<Link> {
    var favs := Links(db, kind);
    if userId in favs then favs[userId] else []
  }

  /** The store with the favourite lists of one kind replaced. */
  function WithLinks(db: Db, kind: Kind, favs: map<int, seq<Link>>): Db {
    match kind
    case PlanetFav => db.(planetFavs := favs)
    case CharacterFav => db.(characterFavs := favs)
  }

  /** The table a link of this kind references. */
  function Targets(db: Db, kind: Kind): set<int> {
    match kind
    case PlanetFav => db.planets.Keys
    case CharacterFav => db.characters.Keys
  }

  function TargetName(db: Db, kind: Kind, id: int): string
    requires id in Targets(db, kind)
  {
    match kind
    case PlanetFav => db.planets[id].name
    case CharacterFav => db.characters[id].name
  }

  /** The ids of all link rows of one kind, over all users. */
  function LinkIds(favs: map<int, seq<Link>>): set<int> {
    set u, l | u in favs && l in favs[u] :: l.id
  }

  lemma NonEmptyHasMember(s: set<int>)
    requires s != {}
    ensures exists x :: x in s
  {
    if forall y :: y !in s {
      assert false;
    }
  }

  /**
   * The id the database assigns to a new row: positive and not yet used.
   * Nothing else about it is promised.
   */
  method ChooseFreshId(used: set<int>) returns (id: int)
    ensures id > 0 && id !in used
  {
    var rest := used;
    var top := 0;
    while rest != {}
      invariant rest <= used
      invariant top >= 0
      invariant forall x :: x in used && x !in rest ==> x <= top
      decreases |rest|
    {
      NonEmptyHasMember(rest);
      var next :| next in rest;
      if next > top {
        top := next;
      }
      rest := rest - {next};
    }
    id := top + 1;
  }
}
