# Star Wars favourites API: a model of the route handlers

The repository is a Flask CRUD backend for users, planets and characters,
and for two "favourites" relations between users and planets and between
users and characters. This project models the small state machine inside
its route handlers in `src/routes.py`. It covers:

- user creation and its presence check;
- lookup by id, with 404 when the id is missing, and the fixed
  four-key dictionary built for a character;
- adding a favourite, with 404 when the user or target is missing and 409
  on a duplicate;
- removing a favourite: a linear scan that deletes the first matching
  link, with 404 when nothing matches.

The store is a value `Entities.Db`. It holds the three tables as maps from
positive id to row, and two maps from user id to that user's ordered list
of link rows (`Link(id, target)`). `Storage.Store` is the same state as an
object whose fields the handler methods update in place. Each handler is
one atomic step, because each commits a single write. `Handlers` gives
every handler as a function from the old store to the new store and the
response (status code and body). Each `Store` method is proved to do
exactly what its function says, and to keep two invariants from
`Invariants`:

- `WellFormed`: ids are positive, every user has exactly one list of each
  kind, and every link references an existing row;
- `FavoritesUnique`: no user has two links of one kind to the same target.

`Properties` proves facts that relate several requests. It also replays the
session of a user who registers, adds planet 3 twice and removes it twice
(201, 201, 409, 200, 404).

Modules, in dependency order:

- `Wrappers`: Option.
- `JsonValues`: decoded JSON values and Python truthiness.
- `Entities`: rows, the store, well-formedness, fresh ids.
- `Favorites`: the scan, the first match, deletion at a position, duplicate freedom.
- `Validation`: the required-field check.
- `Projection`: the character dictionary.
- `Handlers`: the handlers as functions.
- `Invariants`: what every handler preserves.
- `Properties`: facts that relate several requests.
- `Storage`: the store class and its handler methods.

## Model

| member | source | states |
|---|---|---|
| `Favorites.HasTarget` | src/routes.py:95 | The duplicate test is true exactly when some position of the user's list holds a link to the target. |
| `Favorites.FirstIndex` | src/routes.py:130-131 | The scan stops at the first link that references the target: that link matches and no earlier one does. It finds none exactly when no link references the target. |
| `Favorites.RemoveAt` | src/routes.py:132 | Deleting the link at position i leaves the links before i in place and shifts the later ones down by one, in their order. The multiset of links loses exactly that one link. |
| `Favorites.AppendKeepsNoDuplicates` | src/routes.py:95-99 | Appending a link whose target the list does not reference keeps the list free of duplicate targets. |
| `Favorites.AppendHasTarget` | src/routes.py:98-99 | After the append, the list references the new link's target, so the next duplicate test succeeds. |
| `Favorites.RemoveKeepsNoDuplicates` | src/routes.py:130-132 | Deleting one link keeps a list free of duplicate targets. |
| `Favorites.RemoveFirstClearsTarget` | src/routes.py:130-136 | On a list without duplicates, once the first match is deleted no link references the target. |
| `Favorites.RemoveUndoesAppend` | src/routes.py:130-134 | After appending a link to a list that does not reference its target, the first match is the appended link, and deleting it gives back the original list. |
| `Entities.ChooseFreshId` | src/routes.py:40-41 | The id the database gives a new row is positive and not used by any existing row. |
| `JsonValues.Truthy` | src/routes.py:29 | A decoded value fails `not data[field]` exactly when it is one of null, false, 0, 0.0, "", [] and {}. |
| `Validation.Present` | src/routes.py:29 | A field passes the check exactly when it is a key of the payload and its value is none of the falsy values. |
| `Validation.MissingFieldTexts` | src/routes.py:30 | The 400 message for a failing field is "Missing required field: " followed by that field, for each of email, password and name. |
| `Validation.FirstFailing` | src/routes.py:28-30 | The loop stops at the first field that is absent or falsy. Every earlier field is present. The result equals the list's length exactly when all fields pass. |
| `Validation.FirstMissing` | src/routes.py:27-30 | Reports email if it fails, else password if it fails, else name if it fails, else nothing. This is the fixed order of the check. |
| `Projection.CharacterView` | src/routes.py:78-83 | The character dictionary has exactly the keys id, name, image and data, holding the row's id and fields. |
| `Projection.ViewRoundTrip` | src/routes.py:78-83 | The character can be read back from its dictionary exactly, so the projection loses none of the character's fields. |
| `Projection.ViewInjective` | src/routes.py:78-83 | Two characters with equal dictionaries have the same id and the same fields. |
| `Handlers.GetUser` | src/routes.py:16-20 | Returns 200 exactly when the id is a user, with that user's row. Otherwise returns 404 "User not found". |
| `Handlers.GetPlanet` | src/routes.py:53-57 | Returns 200 exactly when the id is a planet, with that row. Otherwise returns 404 "Planet not found". |
| `Handlers.GetCharacter` | src/routes.py:73-83 | Returns 200 exactly when the id is a character, with a four-key dictionary that reads back as that character. Otherwise returns 404 "Character not found". |
| `Handlers.CreateUser` | src/routes.py:24-43 | Returns 400 exactly when a required field fails. The error names the first failing field and the store is unchanged. Otherwise returns 201 with the new user: the submitted email, password and name, today's date and active. Only the users table changes, and the new user gets empty favourite lists. |
| `Handlers.AddFavorite` | src/routes.py:87-102 | Returns 404 exactly when the user or target is missing, and 409 exactly when both exist and a link already references the target. In both cases the store is unchanged. Otherwise returns 201 with the target's name. Exactly one link to the target is appended to that user's list of that kind, and nothing else changes. The character handler at lines 105-120 is the same with kind CharacterFav. |
| `Handlers.RemoveFavorite` | src/routes.py:123-136 | Returns 404 "User or … not found" when the user or target is missing, and 404 "… not in favorites" when no link references the target. In both cases the store is unchanged. Otherwise returns 200 with the target's name. Exactly the first matching link is deleted, and nothing else changes. The character handler at lines 139-152 is the same with kind CharacterFav. |
| `Handlers.PlanetErrorTexts` | src/routes.py:93-136 | The planet routes answer "User or Planet not found", "Planet already in favorites" and "Planet not in favorites". |
| `Handlers.CharacterErrorTexts` | src/routes.py:111-152 | The character routes answer "User or Character not found", "Character already in favorites" and "Character not in favorites". |
| `Handlers.SuccessMessageTexts` | src/routes.py:102-150 | The success messages are "Planet '…' added to favorites", "Planet '…' removed from favorites" and their character twins, around the target's name. |
| `Handlers.MessageNamesTarget` | src/routes.py:102-150 | Two success messages of the same kind are equal only when they name the same target. |
| `Invariants.CreateUserKeepsInvariants` | src/routes.py:32-41 | Inserting a user under a positive id keeps the store well formed and free of duplicate favourites. |
| `Invariants.AddFavoriteKeepsInvariants` | src/routes.py:95-100 | An add keeps the store well formed, and keeps every user's lists free of duplicate targets. |
| `Invariants.RemoveFavoriteKeepsInvariants` | src/routes.py:130-134 | A remove keeps the store well formed, and keeps every user's lists free of duplicate targets. |
| `Properties.CreateThenGetUser` | src/routes.py:32-43 | After a successful creation, looking up the new id returns the user as submitted, registered today and active. |
| `Properties.CreateUserAddsOneUser` | src/routes.py:32-41 | A creation under a fresh id adds exactly one user and leaves every existing user unchanged. A rejected creation leaves the store unchanged. |
| `Properties.RepeatedAddConflicts` | src/routes.py:95-100 | Repeating an add changes nothing. The repeat returns 404 if the first add did, and 409 otherwise. |
| `Properties.RepeatedRemoveNotFound` | src/routes.py:130-136 | When the user's list of that kind has no duplicate targets, repeating a remove changes nothing and returns 404. After a successful remove, the repeat returns "not in favorites". |
| `Properties.RemoveUndoesAdd` | src/routes.py:130-134 | Removing a favourite that was just added gives back the store as it was before the add, with 200. |
| `Properties.SessionRegisters` | src/routes.py:24-43 | For the session's payload, registering creates user 1, active, with empty lists. |
| `Properties.SessionAdds` | src/routes.py:87-102 | Adding planet 3 answers 201 "Planet 'Tatooine' added to favorites" and stores one link. |
| `Properties.SessionAddsAgain` | src/routes.py:95-96 | Adding planet 3 again answers 409 "Planet already in favorites" and changes nothing. |
| `Properties.SessionRemoves` | src/routes.py:130-134 | Removing planet 3 answers 200 "Planet 'Tatooine' removed from favorites" and empties the list. |
| `Properties.SessionRemovesAgain` | src/routes.py:136 | Removing planet 3 again answers 404 "Planet not in favorites". |
| `Properties.FavoritesSession` | src/routes.py:86-136 | The whole session answers 201, 201, 409, 200 and 404, in that order. |
| `Storage.Store.CreateUser` | src/routes.py:24-43 | The loop over the required fields returns early on the first failing field. The insert stores the new user under a fresh positive id. The new state and response are those of `Handlers.CreateUser`, and both invariants are kept. |
| `Storage.Store.AddFavoritePlanet` | src/routes.py:87-102 | The in-place append gives the state and response of `Handlers.AddFavorite` for planets. The new link has a fresh id, and both invariants are kept. |
| `Storage.Store.AddFavoriteCharacter` | src/routes.py:105-120 | The same for characters. |
| `Storage.Store.RemoveFavoritePlanet` | src/routes.py:123-136 | The scan that deletes the first match and returns early gives the state and response of `Handlers.RemoveFavorite` for planets, and both invariants are kept. |
| `Storage.Store.RemoveFavoriteCharacter` | src/routes.py:139-152 | The same for characters. |

## Left out

- `get_users`, `get_planets` and `get_characters`: they list all rows and contain no logic beyond the character projection, which `Projection.CharacterView` models.
- Flask routing, `Blueprint`, `request.get_json`, `jsonify` and HTTP framing. A response is a status code and a body. A request body is taken to be a decoded JSON object. Other JSON bodies are not modelled: in the source a list or string body without the field gets 400, a list holding "email" or a string containing it passes the `in` test and then raises at `data[field]`, and null, a number or a boolean raises at `field not in data`.
- `User.serialize()` and `Planets.serialize()`: the models module is not part of this model. Their bodies are the row itself (`UserBody`, `PlanetBody`).
- Column types: the models module is not part of this model. Email, password and name are stored as the submitted JSON values. A planet's name and a character's name and image are strings, so a null name, which the source would print as 'None', is not modelled. A character's data is any JSON value.
- The SQLAlchemy session (`add`, `delete`, `commit`) and lazy loading of the relationship lists: each handler is one atomic update of maps and sequences.
- The order of a user's favourite lists: the model keeps links in the order they were appended, while the source reloads the relationship in whatever order the database returns. When a list has no duplicate targets, which every handler preserves, at most one link matches a target, so the order changes no response.
- `date.today()`: the registration date is a parameter of `CreateUser`.
- Id generation: `Entities.ChooseFreshId` promises only a positive id not yet in use. The spec functions take the chosen id as a parameter.
- The check-then-act race between concurrent identical requests, which can create duplicate links: every handler is one sequential step.
- Uniqueness of link-row ids across the whole table is not an invariant of the model. A new link's id is fresh with respect to all links of its kind when it is created.
- JSON numbers are integers or reals with no NaN or infinity.

The creation check rejects a field that is absent or holds any falsy value: null, false, 0, 0.0, "", [] and {}. `JsonValues.Truthy` models this test.
