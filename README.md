# Lyramor playlist service — a Dafny model

Lyramor is a small music-playlist web application: an Express/Mongoose
server with playlist, post, song and user endpoints, and React and
vanilla-JavaScript pages that display playlists. This project models the
parts of it that make decisions:

- **Server handlers.** Each endpoint is a method that takes the request's
  fields, the session user and the stores, and returns a `Response`
  (status and body) together with the new stores. Each store is a
  `map<Id, Record>`. These handlers are:
  - the playlist create, read, update, delete and add-song endpoints;
  - the post endpoints;
  - the song upload, create and delete endpoints;
  - signup and login;
  - the admin user endpoints.
- **Database save rules.** The schema checks that Mongoose applies when a
  record is saved are modelled as functions:
  - `required` fields, which refuse the empty string;
  - the unique genre name and the unique user name;
  - casting a request value to a String or an ObjectId field;
  - the user pre-save hook that hashes the password.
- **Route guards.** The `requireAuth` and `requireAdmin` middleware, and
  the order in which the user routes mount them.
- **Client transforms.** These work on data that is already fetched:
  - the feed's genre index, search filter and genre → artist → songs
    grouping;
  - the admin page's session gate, filter and editor;
  - the playlist card, and the creation date it reads from the ObjectId;
  - the vanilla page's form parsing and grouping;
  - the in-memory playlist list class of the vanilla page.

Calls into libraries whose code is not part of the model are parameters:

- `isValidId: string -> bool` stands for `mongoose.Types.ObjectId.isValid`.
- `hash: string -> Option<string>` stands for `argon2.hash`; `None` means
  the call threw.
- `verify: (string, string) -> bool` stands for `argon2.verify`.
- Identifiers the database would assign are `newId` parameters, each
  required to be fresh.

Request bodies are `JsValues.Json` values. `undefined` is a value of its
own, and JavaScript truthiness and `String(v)` are written out.

Files:

- Shared: `basics.dfy`, `strings.dfy`, `json.dfy`, `http.dfy`,
  `grouping.dfy`, `object_id.dfy`.
- Records and save rules: `schema.dfy`, `user_model.dfy`.
- Server: `middleware.dfy`, `playlist_router.dfy`, `post_router.dfy`,
  `song_router.dfy`, `signup.dfy`, `login.dfy`, `user_controller.dfy`.
- Client: `feed.dfy`, `admin.dfy`, `playlist_card.dfy`, `form_model.dfy`,
  `local_model.dfy`.

### Where the model follows the code rather than the intent

- **A playlist update with `name: ""`.** `PlaylistRouter.Update` lets it
  through the handler's own checks, because those checks only ask for a
  string. The save then fails, because a `required` String refuses `""`.
  The answer is therefore 400 and nothing is stored, although the
  handler's checks alone would accept the name.
- **`POST /api/songs`.** It builds a song without a genre, and
  server/src/models/playlist.js:20 makes the genre required. So the
  request always ends in the 400 catch, and
  `SongRouter.CreateSong` states this. An artist created from an object
  body on the way stays stored.
- **Deleting a song with a malformed id.** The lookup itself throws a cast
  error, so the answer is 500 and not 404.
- **The admin page without a session.** The session endpoint then answers
  200 with an empty body. Reading that body as JSON rejects, so the page
  stays on "Loading…" and never goes to the login page
  (`Admin.GateOfSession`).
- **A refused create on the admin page.** The create request throws, so the
  dialog stays open and the list is not reloaded. A refused update is only
  reported, and the dialog closes (`Admin.Submit`). The admin page imports
  its request functions from `client/src/api/playlistsClient`, which is not
  part of this model. The model assumes they behave like
  client/src/controllers/playlistscontroller.js:19-41: `createPlaylist`
  throws on a reply that is not OK, and `updatePlaylist` only alerts.

## Model

| member | source | states |
|---|---|---|
| Strings.Trim | server/src/controllers/signup.js:11-12 | the result has no JavaScript whitespace at either end, has only characters of the input, and is empty exactly when the input is all whitespace |
| Strings.TrimIdempotent | client/src/models/PlaylistModel.js:12-14 | trimming twice is trimming once |
| Strings.JoinSplit | client/src/models/PlaylistModel.js:16 | splitting on a character and joining with it again gives back the string |
| Strings.SplitJoin | client/src/models/PlaylistModel.js:16 | joining pieces that are free of the separator and splitting again gives back the pieces |
| Strings.SplitNoSep | client/src/models/PlaylistModel.js:16 | a string without the separator splits into itself alone |
| Strings.SplitAppend | client/src/models/PlaylistModel.js:16 | splitting two parts joined by the separator gives the pieces of the first part followed by those of the second |
| Basics.FilterAppend | src/model/PlaylistModel.js:23 | `filter` over a concatenation is the filter of each part, concatenated: kept elements stay in order and keep their multiplicity |
| Http.OwnedRecordGuard | server/src/routers/playlistRouter.js:125-144 | there is no rejection exactly when a session user exists, the id is well formed and stored, and the user is an admin or the owner; otherwise the answer is 401, then 404, then 403, in that order |
| Middleware.RequireAuth | server/middlewares/requireAuth.js:5-10 | passes exactly when there is a session user; otherwise 401 "Unauthorized" |
| Middleware.RequireAdmin | server/middlewares/requireAuth.js:13-18 | passes exactly when the session user is present and an admin; otherwise 403 `{message: "Admins only"}` |
| Middleware.AdminRoutes | server/src/routers/Auth-routers.js:23 | with both guards mounted in order: no session gives 401, a non-admin gives 403, and only an admin passes |
| Schema.SaveGenre | server/src/models/playlist.js:5-7 | an empty name is a validation error, a name another genre has is a duplicate-key error, and otherwise the genre is stored under its id |
| Schema.SaveGenreKeepsNamesUnique | server/src/models/playlist.js:6 | a successful genre save keeps genre names unique |
| Schema.SaveArtist | server/src/models/playlist.js:10-12 | any artist with a non-empty name is saved; names need not be unique |
| Schema.SaveSong | server/src/models/playlist.js:15-21 | a song is saved exactly when its title is non-empty and it has both an artist and a genre |
| Schema.SavePlaylist | server/src/models/playlist.js:24-33 | a playlist is saved exactly when its name is non-empty |
| Schema.SavePost | server/src/models/post-model.js:5-26 | a post is saved exactly when its title and content are non-empty |
| Schema.CastString | server/src/models/playlist.js:27 | a string is kept; null or undefined leaves the field unset; a number or boolean becomes its text; an object with a non-empty string `_id` becomes that id; an array, or an object without a non-empty string `_id`, is a cast error, and nothing else fails |
| Schema.CastObjectId | server/src/models/playlist.js:29 | a value casts to a reference exactly when it is a string the identifier check accepts |
| UserModel.NewUser | server/src/models/user-model.js:16-19 | `isAdmin` is true only when true is supplied; it defaults to false |
| UserModel.Public | server/src/controllers/signup.js:35-39 | the public projection carries the id, the name and the admin flag, and no password |
| UserModel.PreSave | server/src/models/user-model.js:23-32 | a modified password is replaced by its hash, a failed hash aborts with an error, and an unmodified password is kept |
| UserModel.SaveUser | server/src/models/user-model.js:6-32 | validation, then the hook, then the unique index decide the result; the stored user has the hashed password; unique user names are preserved |
| ObjectIdTime.ParseIntHexOfDigits | client/src/views/components/PlaylistCard.jsx:19 | `parseInt(s, 16)` of a string of hexadecimal digits is their value |
| ObjectIdTime.CreationMillisOfObjectId | client/src/Admin.jsx:114 | the time read from the hexadecimal form of a 12-byte ObjectId is its first four bytes, big-endian, times 1000 |
| ObjectIdTime.CreationMillisRoundTrip | client/src/views/components/PlaylistCard.jsx:19 | an ObjectId whose timestamp field holds second `t` reads back as `t * 1000` |
| Grouping.GroupAllBucket | client/src/Feed.jsx:183-185 | after grouping, each bucket holds exactly the items filed under its two keys, in input order |
| Grouping.GroupAllKeys | client/src/Feed.jsx:183 | the outer keys are the keys of the entries, each once, in order of first appearance |
| Grouping.GroupAllInnerKeys | client/src/Feed.jsx:184 | under each outer key, the inner keys appear each once, in order of first appearance |
| Grouping.GroupAllDistinct | client/src/Feed.jsx:183-184 | no key is repeated at either level |
| Grouping.GroupAllCount | client/src/Feed.jsx:175-185 | the buckets together hold one item per entry |
| Grouping.FirstSeenHead | client/src/Feed.jsx:17-18 | the first key seen is the first key listed, and there is none exactly when there are no keys |
| PlaylistRouter.SongErrorsEmpty | server/src/routers/playlistRouter.js:29-33 | there is no song-id error exactly when every song id is well formed |
| PlaylistRouter.CreateErrorsEmpty | server/src/routers/playlistRouter.js:21-40 | a create has no field error exactly when: the name is a non-empty string; a supplied genre is a well-formed id; supplied songs are an array of well-formed ids |
| PlaylistRouter.CollectCreateErrors | server/src/routers/playlistRouter.js:21-34 | the validation pass, loop over the songs included, collects every error of the create rules, in order |
| PlaylistRouter.FoundCountMatches | server/src/routers/playlistRouter.js:49-54 | the found-songs count equals the list length exactly when every id names a song and no id repeats, so a repeated valid id is refused |
| PlaylistRouter.Create | server/src/routers/playlistRouter.js:14-79 | 401, then 400 with all field errors, then 404 for an unknown genre, then 404 when songs are missing or repeated, then 400 for an uncastable description; 201 exactly when all pass; the new playlist's owner is the session user; any rejection leaves the store unchanged |
| PlaylistRouter.GetOne | server/src/routers/playlistRouter.js:99-120 | 200 with the playlist exactly when the id is well formed and stored, otherwise 404 |
| PlaylistRouter.UpdateErrors | server/src/routers/playlistRouter.js:146-158 | an update has no field error exactly when each supplied field has the right type; omitted fields are not checked |
| PlaylistRouter.CastIds | server/src/routers/playlistRouter.js:164-166 | a song list casts exactly when every element is a well-formed id string |
| PlaylistRouter.ApplyUpdate | server/src/routers/playlistRouter.js:160-164 | supplied fields overwrite, omitted ones are kept, the owner never changes, and a value that cannot be cast fails the update |
| PlaylistRouter.Update | server/src/routers/playlistRouter.js:123-180 | the guard answers first; then 400 with the field errors; 200 exactly when the merged document casts and validates, otherwise 400 with the database error; on 200 the store holds the merged document; every rejection leaves the store unchanged |
| PlaylistRouter.Delete | server/src/routers/playlistRouter.js:183-211 | a rejected request leaves the store unchanged; an authorised one removes exactly that playlist and answers 204 |
| PlaylistRouter.WithSong | server/src/routers/playlistRouter.js:221-224 | the song is in the result; an absent song is appended at the end, and a present one changes nothing |
| PlaylistRouter.AddSong | server/src/routers/playlistRouter.js:212-233 | 400 for either malformed id, 404 for an unknown playlist, otherwise 200 with the song present; a repeated call leaves the store unchanged |
| PostRouter.CreateErrors | server/src/routers/post-router.js:22-29 | title and content are each reported exactly when they are not a non-empty string |
| PostRouter.UpdateErrors | server/src/routers/post-router.js:93-100 | title and content are each reported exactly when they are not a string; empty strings pass |
| PostRouter.Create | server/src/routers/post-router.js:14-38 | 401, then 400 with the field errors; 201 exactly when the checks pass and the image casts; the author is the session user |
| PostRouter.GetOne | server/src/routers/post-router.js:51-65 | 200 with the post exactly when the id is well formed and stored, otherwise 404 |
| PostRouter.Update | server/src/routers/post-router.js:68-112 | the guard answers first; then 400 with the field errors; 200 exactly when the image casts, otherwise 400 with the database error; on 200 title and content are replaced, a supplied image replaces the stored one, an omitted image keeps it, and the author is kept |
| PostRouter.Delete | server/src/routers/post-router.js:115-143 | a rejected request leaves the store unchanged; an authorised one removes exactly that post and answers 204 |
| SongRouter.Upload | server/src/routers/song-router.js:23-59 | an artist and a genre with the exact name are reused, otherwise created; at most one artist and at most one genre are added; 201 exactly when the file, the names and the title are acceptable; the song references the resolved artist and genre |
| SongRouter.CreateSong | server/src/routers/song-router.js:62-95 | 400 for a bad title before any artist is created; a string artist is used as an id and an object with a name creates a new artist; the song is never stored |
| SongRouter.DeleteSong | server/src/routers/song-router.js:96-113 | 500 for a malformed id, 404 for an unknown one, otherwise the song is removed and the answer is 204 |
| Signup.Normalize | server/src/controllers/signup.js:18 | a normalised name has no upper-case ASCII letters and no whitespace at either end |
| Signup.NormalizeIdempotent | server/src/controllers/signup.js:18 | normalising twice is normalising once |
| Signup.SaveFailure | server/src/controllers/signup.js:40-46 | a duplicate-key error answers 409, any other failure 500 |
| Signup.Signup | server/src/controllers/signup.js:4-47 | 400 for a missing or blank field; 409 when the normalised name is taken; 201 exactly when neither holds and the hash succeeds; the stored user has the normalised name, the hashed password and no admin rights; the answer is the public projection; unique names are preserved |
| Login.SessionOf | server/src/controllers/login.js:30-34 | the session keeps exactly the id, the name and the admin flag |
| Login.Login | server/src/controllers/login.js:13-46 | an unknown name and a wrong password give the same 401; 200 exactly when the named user's stored hash accepts the password; on success the session is that user's projection, otherwise it is untouched |
| Login.GetSession | server/src/controllers/login.js:4-11 | answers 200 with the stored session user |
| UserController.ListUsers | server/src/controllers/user-controller.js:4-12 | every user is listed, as its public projection |
| UserController.UpdateUser | server/src/controllers/user-controller.js:14-43 | 400 for a non-boolean flag before the id is checked, then 404; on 200 only the admin flag changes; unique names are preserved |
| UserController.DeleteUser | server/src/controllers/user-controller.js:45-64 | 404 for a malformed or unknown id, otherwise the user is removed and the answer is 204 |
| Feed.GenreIndexKeys | client/src/Feed.jsx:162-165 | the index has a key exactly for each fetched genre id |
| Feed.GenreIndexLastWins | client/src/Feed.jsx:162-165 | for a repeated id, the name kept is that of the last genre with that id |
| Feed.GenresById | client/src/Feed.jsx:162-165 | the reduce loop builds exactly the genre index |
| Feed.FilterPlaylists | client/src/Feed.jsx:167-171 | a playlist is kept exactly when its lower-cased name or description contains the lower-cased search text |
| Feed.FilterEmptySearch | client/src/Feed.jsx:167-171 | an empty search keeps every playlist, in order |
| Feed.Resolve | client/src/Feed.jsx:176-178 | the first fetched song with that id, or none exactly when no song has it |
| Feed.GenreName | client/src/Feed.jsx:179-181 | the indexed genre name, or "Unknown Genre" when it is missing or empty; never empty |
| Feed.ArtistName | client/src/Feed.jsx:182 | the artist's name, or "Unknown Artist" when it is missing or empty; never empty |
| Feed.Entries | client/src/Feed.jsx:175-185 | one entry per resolvable song ref, filed under its genre and artist names; unresolvable refs are skipped |
| Feed.GroupPlaylist | client/src/Feed.jsx:173-188 | the forEach loop builds exactly the grouping of the playlist's resolvable songs |
| Feed.GroupedBucket | client/src/Feed.jsx:175-185 | each genre/artist bucket holds exactly the resolved songs with that genre and artist, in playlist order, repeats included |
| Feed.GroupedCount | client/src/Feed.jsx:175-185 | the buckets together hold as many songs as there are resolvable refs |
| Feed.GroupEach | client/src/Feed.jsx:173-188 | the map over the filtered playlists yields one entry per playlist, in order, each the playlist paired with its grouping |
| Feed.BuildFeed | client/src/Feed.jsx:162-188 | the feed is the filtered playlists, in order, each kept whole and paired with its grouping |
| Feed.CanEdit | client/src/Feed.jsx:31 | the controls are shown exactly when the server's admin-or-owner rule would allow the change |
| Feed.InitialTabOfPlaylist | client/src/Feed.jsx:17-18 | the first tab is the genre of the first resolvable song; it is "" exactly when no song resolves |
| Admin.CheckSession | client/src/Admin.jsx:23-39 | loading until the reply arrives, and also when an OK reply's body does not parse; authorised exactly on an OK reply whose parsed body has a truthy `isAdmin`; "/" for OK replies with a parsed body that is not an admin; "/login" exactly for replies that are not OK |
| Admin.GateOfSession | client/src/Admin.jsx:23-39 | against the session endpoint: an admin session is let in, another session is sent to "/", and no session (a 200 with an empty body) leaves the page loading |
| Admin.AdminFilter | client/src/Admin.jsx:49-54 | a playlist is kept exactly when its name, or a non-empty description, contains the search text, case-insensitively |
| Admin.AdminFilterInOrder | client/src/Admin.jsx:49-54 | the search keeps the matching playlists in their original order, each as often as it occurs: it splits over concatenation, and one playlist is kept exactly when it matches |
| Admin.AdminMatchesAsFeed | client/src/Admin.jsx:49-54 | the admin search and the feed search accept the same playlists |
| Admin.AdminFilterAsFeed | client/src/Admin.jsx:49-54 | the admin filter and the feed filter give the same list |
| Admin.OpenNew | client/src/Admin.jsx:59-63 | the dialog opens with an empty form and nothing being edited |
| Admin.StartEdit | client/src/Admin.jsx:65-69 | the dialog opens on that playlist, with its name and its description or "" |
| Admin.Submit | client/src/Admin.jsx:76-85 | an update of the edited id when one is set, a create otherwise; after an update or a successful create the dialog closes and the list reloads; after a failed create only the request is made and the editor is unchanged, dialog still open |
| Admin.EditThenSubmit | client/src/Admin.jsx:59-85 | editing a playlist submits an update of it with its name and description and closes the dialog; a new playlist submits a create, and the dialog stays open exactly when the create fails |
| PlaylistCard.View | client/src/views/components/PlaylistCard.jsx:17-82 | the creation time comes from the id; the controls follow `canEdit`; the description falls back to "No description."; a badge appears only with a genre; up to 4 songs, all of them are previewed; beyond 4, the first 4 are previewed and "+N more" shows N = count − 4; no "+N more" otherwise |
| PlaylistCard.ViewCreationTime | client/src/views/components/PlaylistCard.jsx:19 | a card for a playlist created at second `t` shows `t * 1000` |
| FormModel.ParseTracks | client/src/models/PlaylistModel.js:15-18 | no track is empty, has whitespace at either end or holds a line break |
| FormModel.ParseTracksLine | client/src/models/PlaylistModel.js:15-18 | one line gives its trimmed text as the single track, or no track when it is blank |
| FormModel.ParseTracksAppend | client/src/models/PlaylistModel.js:15-18 | the tracks of two blocks joined by a line break are the first block's tracks followed by the second's, so the tracks are the trimmed non-blank lines in order |
| FormModel.ParseTracksStable | client/src/models/PlaylistModel.js:15-18 | writing the tracks back one per line and parsing again gives the same tracks |
| FormModel.SubmitForm | client/src/models/PlaylistModel.js:8-23 | name, genre and artist are trimmed, the tracks are parsed, then the form is reset |
| FormModel.Render | client/src/models/PlaylistModel.js:25-38 | an empty list renders the message only; otherwise the loop builds exactly the genre → artist grouping |
| FormModel.RenderPlacesEachOnce | client/src/models/PlaylistModel.js:33-38 | each playlist appears exactly once, and each section lists its playlists in list order |
| LocalPlaylists.Merge | src/model/PlaylistModel.js:29 | every key of both objects is present, the new fields win, and the other keys are kept |
| LocalPlaylists.Removed | src/model/PlaylistModel.js:22-25 | exactly the playlists without that id remain; an absent id changes nothing |
| LocalPlaylists.RemovedInOrder | src/model/PlaylistModel.js:22-25 | the remaining playlists keep their order and multiplicity: removal splits over concatenation, and one playlist stays exactly when its id differs |
| LocalPlaylists.Updated | src/model/PlaylistModel.js:27-32 | matching playlists are merged with the fields, the others are unchanged, and the length is kept |
| LocalPlaylists.RemovedIdempotent | src/model/PlaylistModel.js:22-25 | removing twice is removing once |
| LocalPlaylists.UpdatedAbsent | src/model/PlaylistModel.js:27-32 | an update with an absent id leaves the list unchanged |
| LocalPlaylists.UpdatedKeepsId | src/model/PlaylistModel.js:27-32 | a merge that does not change the id keeps the playlist matching |
| LocalPlaylists.PlaylistModel.constructor | src/model/PlaylistModel.js:5-9 | the list is the saved array when there is one, otherwise empty; no listener is installed |
| LocalPlaylists.PlaylistModel.SetOnChange | src/controller/PlaylistController.js:6 | the listener is installed and nothing else changes |
| LocalPlaylists.PlaylistModel.GetAll | src/model/PlaylistModel.js:11-13 | returns the current list |
| LocalPlaylists.PlaylistModel.Commit | src/model/PlaylistModel.js:34-40 | the list is written to storage, and passed to the listener when there is one |
| LocalPlaylists.PlaylistModel.Create | src/model/PlaylistModel.js:15-20 | exactly one (empty) object is appended at the end, then the change is committed |
| LocalPlaylists.PlaylistModel.Remove | src/model/PlaylistModel.js:22-25 | the list becomes `Removed` of the old list, then the change is committed |
| LocalPlaylists.PlaylistModel.Update | src/model/PlaylistModel.js:27-32 | the list becomes `Updated` of the old list, then the change is committed |

## Left out

- Express routing, `populate` projections and `select` lists: each response carries the stored record instead of its populated form.
- The read-all endpoints (`GET /` of the playlist, post and song routers): each is one unfiltered query followed by `populate`.
- server/src/routers/genre-router.js: plain CRUD with no logic of its own; the unique genre name is in `Schema.SaveGenre`.
- Session middleware configuration, server startup and `logout`: configuration and callback I/O.
- The uploaded file itself: multer storage, file names made from the clock and a random number, and unlinking the audio file on delete. The upload's file name and the request's protocol and host are parameters.
- Absent multipart text fields in the upload, where the field would be `undefined`: the model takes the three names as strings.
- Library and runtime error texts (`error.message`): every such text is the single constant `DatabaseErrorText`.
- Identifier spelling: ids are matched by their exact string, so a non-canonical spelling of a stored id, such as the same ObjectId in upper-case hexadecimal, is not found by the model (404) although `findById` casts it and finds the record. Every "well formed and stored" condition in the table means stored under that exact string.
- Identifier values that are not strings: `ObjectId.isValid` also accepts numbers and objects. The model accepts only strings that the `isValidId` parameter accepts.
- Falsy `genre` or `songs` values other than `undefined` in a playlist create (`""`, `0`, `false`, `null`): the model treats them as absent.
- A login name that is not a string, which Mongoose would pass on as a query value: `Login.Login` takes the name as a string.
- The concurrent find-or-create race on artist and genre names, and other interleavings: the handlers run one at a time.
- `SongRouter.Upload`: when several artists share the name, the one reused is any of them. The database returns one it chooses.
- `PlaylistRouter.AddSong`: it requires the stored playlists to be valid. The route has no error handler, so a failing save would leave the request unanswered.
- Unicode case mapping: `toLowerCase` is modelled on ASCII letters only.
- JavaScript object key order: integer-like keys such as a genre named "80" come first. The groupings here keep first-seen order for every key.
- Keys inherited from `Object.prototype` (a genre named "toString" or "constructor") in the feed and render groupings.
- Numbers are integers: `NaN`, fractions and floating point in request bodies and in `parseInt` results are not modelled.
- Date formatting with `toLocaleDateString`.
- The feed's crash when the session user is `null`: `CanEdit` takes a present user.
- The UI itself: React state hooks, the DOM built by `render`, and the network calls of the client.
- `LocalPlaylists.PlaylistModel.constructor`: takes the saved value already split into "an array of plain objects" or "anything else". Arrays holding non-objects are not modelled.
- `LocalPlaylists.Merge`: a map, so the key order of the merged object is not modelled.
- `LocalPlaylists.StrictEq`: two arrays or objects are never strictly equal, because a parsed value is never the same reference as the argument.
- Storage (`localStorage`) is the `stored` field, and the listener is a flag plus the list of the lists it received.
- `PostRouter.Update`: follows Mongoose 6 and later, which drop an `undefined` key from an update, so an omitted `imgUrl` keeps the stored image. Mongoose 5 without `omitUndefined` would store `null` instead.
