/**
 * The dictionary the character routes build for a character: exactly the
 * keys id, name, image and data.
 */
module Projection {
  import opened Wrappers
  import opened JsonValues
  import opened Entities

  const ViewKeys: set<string> := {"id", "name", "image", "data"}

  function CharacterView(id: int, c: Character): (m: map<string, Json>)
    ensures m.Keys == ViewKeys
    ensures m["id"] == JInt(id) && m["name"] == JString(c.name)
    ensures m["image"] == JString(c.image) && m["data"] == c.data
  {
    map["id" := JInt(id), "name" := JString(c.name), "image" := JString(c.image), "data" := c.data]
  }

  /** Reads a character back from its dictionary; None if a key is missing or has the wrong shape. */
  function ReadCharacterView(m: map<string, Json>): (r: Option<(int, Character)>)
    ensures r.Some? ==> ViewKeys <= m.Keys
  {
    if "id" in m && m["id"].JInt? && "name" in m && m["name"].JString?
       && "image" in m && m["image"].JString? && "data" in m
    then Some((m["id"].i, Character(m["name"].s, m["image"].s, m["data"])))
    else None
  }

  /** The projection loses nothing of the record: it can be read back exactly. */
  lemma ViewRoundTrip(id: int, c: Character)
    ensures ReadCharacterView(CharacterView(id, c)) == Some((id, c))
  {
  }

  /** Two characters with the same view are the same character under the same id. */
  lemma ViewInjective(id1: int, c1: Character, id2: int, c2: Character)
    requires CharacterView(id1, c1) == CharacterView(id2, c2)
    ensures id1 == id2 && c1 == c2
  {
    ViewRoundTrip(id1, c1);
    ViewRoundTrip(id2, c2);
  }
}
