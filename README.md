# Message board with directory login — a Dafny model

The system is a small Flask web application. Users log in against an
Active Directory server. Their `memberOf` groups decide which chat rooms,
message boards and news posts they may see, and members of
`Enterprise Admins` may delete message cards. This project models the
logic of the three core files:

- `auth.py`: the `User` record; `authenticate`, which binds with
  `username@domain`; and `get_user_groups`, which binds as the service
  account, searches with `(sAMAccountName=<username>)` under
  `dc=<label 1>,dc=<label 2>`, and turns each `memberOf` DN into its leaf
  name.
- `news.py`: `validate_input` and its fixed check order; how
  `add_post_to_database` builds the stored `permissions` column and inserts
  only after validation; and how `get_latest_news` builds the paged `LIKE`
  query and its parameter list.
- `app.py`: the group gates of the chat, board and admin routes; the
  `MessageCard` table, changed in place by posting and deleting; and
  `load_user`.

The project has five modules, one file each:

- `Wrappers`: Option and Result.
- `Strings`: Python's `str.split` with one separator character, `str.join`
  and `in` on strings.
- `Auth`, `News` and `App`: one module per core file.

The directory is an input, a pair of functions:

- the bind answers `Bound`, `Rejected` (`bind()` returned false) or
  `BindException` (an `LDAPException`);
- the search answers with the `memberOf` DNs of each entry found, or
  `SearchException`.

An exception raised in auth.py is a `Result.Failure` value carrying the
exception's kind and message. The ValueErrors of `validate_input` are a
`Check.Failed` value naming the failed check. The news table is a class with a sequence of rows. The
`MessageCard` table is a class with a sequence of cards in insertion order,
with the invariant that ids increase.

## Model

| member | source | states |
|---|---|---|
| Auth.User.constructor | auth.py:12-14 | The username is stored as given; the groups are the given list, or the empty list when none is given |
| Auth.User.GetId | auth.py:16-17 | Returns the stored username |
| Auth.User.GetGroups | auth.py:19-20 | Returns the stored group list unchanged |
| Auth.BindIdentity | auth.py:23 | The identity is the username, then one `@`, then the domain, and nothing more |
| Auth.BindIdentityParts | auth.py:23 | If the username has no `@`, cutting the identity at its first `@` gives back the username and the domain |
| Auth.Authentication | auth.py:22-40 | Succeeds exactly when the user's own bind is accepted, and yields that username. "Invalid credentials" exactly when the bind is refused. "LDAP authentication failed" exactly when the bind raises an LDAP exception |
| Auth.Authenticate | auth.py:22-40 | On success, a new User with the input username and no groups; otherwise the same error as Authentication |
| Auth.SearchBase | auth.py:57 | Defined exactly when the domain has a `.`, and is then `dc=<text before the first .>,dc=<text between the first and second .>`; otherwise IndexError |
| Auth.SearchBaseExample | auth.py:57 | `A10.dk` gives `dc=A10,dc=dk` |
| Auth.SearchBaseIgnoresLaterLabels | auth.py:57 | Labels after the second do not change the search base |
| Auth.SearchFilter | auth.py:58 | The filter is `(sAMAccountName=`, then the username unescaped, then `)` |
| Auth.LeafGroupName | auth.py:66 | The name exists exactly when the DN's first comma-separated component has an `=`. It holds neither `=` nor `,`, starts right after that first `=`, and runs to the next `=` or to the component's end |
| Auth.LeafGroupNameMeaning | auth.py:66 | The leaf name equals `dn.split(',')[0].split('=')[1]`: it exists exactly when that split has a second piece, and is that piece. It contains neither `=` nor `,` |
| Auth.LeafGroupNameOf | auth.py:66 | A DN `attr=name,rest` with plain `attr` and `name` (e.g. `CN=IT,OU=Groups,DC=A10,DC=dk`) names `name` |
| Auth.AllNames | auth.py:66 | Collects the names of a list of lookups: succeeds exactly when every lookup has a name, giving the names in the same order; otherwise IndexError |
| Auth.GroupNames | auth.py:66 | Succeeds exactly when every DN has a leaf name; then it has one name per DN, in DN order. Otherwise IndexError |
| Auth.GetUserGroups | auth.py:42-72 | A refused service bind: "Failed to connect to LDAP server". An LDAP exception in bind or search: "Failed to fetch user groups". No entry found: the empty list. A domain without `.` after a passing service bind: IndexError, which escapes the `except`. Otherwise the names of the first entry's DNs. Success implies the service bind passed and the search base existed |
| Auth.NoSearchWithoutServiceBind | auth.py:52-54 | When the service bind does not pass, the lookup fails and its result does not depend on the search |
| News.ValidateInput | news.py:49-62 | Passes exactly when all five checks hold. Otherwise it reports the first failing check in the order title (1..100 characters), content (1..2000), author (non-empty string), timestamp (non-empty string), permissions (list of strings); each error holds exactly when the earlier checks pass and its own fails |
| News.NewsTable.AddPost | news.py:64-79 | Validates first. On failure the table is unchanged. On success exactly one row is appended, holding the stored permission string |
| News.StoredPermissions | news.py:73-76 | No permissions are stored as `Public`; one permission is stored as it is; otherwise the column starts with the first permission and ends with the last |
| News.StoredPermissionsContain | news.py:73-76 | Each permission of the post occurs in the stored string; no permissions are stored as `Public` |
| News.StoredPermissionsOrder | news.py:76 | One permission is stored as it is; more are `", "`-separated in input order |
| News.JoinCommaSpace | news.py:76 | Joining by `", "`, with a space in front, equals joining by `,` each text with a space in front |
| News.StoredPermissionsCommaJoin | news.py:73-76 | The stored column of one or more permissions is the `,`-join of the first permission and the later ones with a space in front |
| News.StoredPermissionsSplit | news.py:73-76 | When no permission holds a `,`, splitting the column at `,` gives the first permission, then each later one with a leading space, in input order |
| News.Truthy | news.py:29 | Python truthiness: None is false, a list is true exactly when non-empty, and a true argument gives at least one permission |
| News.AsList | news.py:30-31 | A list is kept as it is; a lone string becomes the one-element list of that string |
| News.LikeClauses | news.py:33 | No clauses give the empty text; otherwise the text starts and ends with `permissions LIKE ?` |
| News.LikeClausesPlaceholders | news.py:33 | The WHERE clause for `n` permissions holds exactly `n` placeholders |
| News.LikeClausesStep | news.py:33 | The clauses for `n + 1` permissions are `permissions LIKE ?`, then ` OR `, then the clauses for `n` |
| News.PlaceholderCounts | news.py:33-35 | One `?` per LIKE clause; none before WHERE or in ` OR `; two in `ORDER BY ... LIMIT ? OFFSET ?` |
| News.QueryTextPlaceholders | news.py:33-35 | The query text for `n` clauses holds `n + 2` placeholders |
| News.Offset | news.py:27 | Page 1 has offset 0, and the offset is never negative for a page from 1 and a non-negative page size |
| News.LatestNewsQuery | news.py:24-46 | The query starts with `SELECT * FROM news WHERE `; it has one parameter per permission (one for `%Public%` when there are none) plus two; the last two are the page size and the offset |
| News.LikeParams | news.py:38 | One pattern `%<permission>%` per permission, in order |
| News.LatestNewsQueryPlaceholders | news.py:24-46 | For every argument, the query has exactly as many parameters as `?` |
| News.LatestNewsQueryPaging | news.py:27-43 | The last two parameters are the page size and `(page - 1) * page_size` |
| News.LatestNewsQueryWithPermissions | news.py:29-40 | With permissions: one LIKE clause and one `%p%` pattern per permission, in order, so the count is clauses + 2. A lone string becomes a one-element list |
| News.LatestNewsQueryPublic | news.py:41-43 | Without permissions: a single clause, and the parameters are `%Public%`, page size, offset. This is the same query a reader holding only `Public` runs |
| News.OffsetsTile | news.py:27 | Page 1 starts at row 0, and consecutive pages start one page size apart |
| App.InsertByTime | app.py:59 | Inserting into a newest-first list keeps it newest first and adds exactly that card |
| App.SortNewestFirst | app.py:59 | `order_by(timestamp.desc())`: the result is newest first and a permutation of the input |
| App.InGroups | app.py:149 | `group.in_(groups)`: exactly the cards whose group is listed, each as often as in the table |
| App.NextId | app.py:34 | The next id is at least 1 and, while ids increase, larger than every existing id |
| App.NextIdIsFresh | app.py:34 | Any card given the next id can be appended with the ids still increasing |
| App.WithoutId | app.py:175-178 | After deleting an id, exactly the cards with other ids remain |
| App.WithoutIdKeepsOrder | app.py:177 | Deleting keeps the ids increasing |
| App.WithoutIdRemovesExactly | app.py:175-178 | With unique ids, deleting the id of card `k` removes card `k` and nothing else, keeping the order |
| App.WithoutIdRemovesOnly | app.py:175-178 | A card whose id no other card has is the only one removed |
| App.WithoutIdAbsent | app.py:176 | Deleting an id that no card has leaves the table unchanged |
| App.Reverse | app.py:166 | `__reversed__()`: position `i` holds the card `i` places from the end |
| App.ChatView | app.py:113-135 | `/it-chat`, `/hr-chat` and `/manager-chat` render their page (room `IT`, `HR`, `manager`) exactly when `IT`, `HR` or `Manager` respectively is one of the user's groups; otherwise a redirect to `/` |
| App.ChatGateIsCaseSensitive | app.py:116 | The group `it` does not open the IT chat |
| App.MessageBoard.Add | app.py:55-57 | Appends one card with the next id and the given author, content, group and time |
| App.MessageBoard.Remove | app.py:175-178 | The table becomes the table without that id, and the ids stay increasing |
| App.MessageBoard.HomeView | app.py:59-60 | Exactly the `main` cards, newest first |
| App.MessageBoard.HomePost | app.py:53-58 | Appends one `main` card by the current user, then redirects to the referrer |
| App.MessageBoard.MessagePosterView | app.py:148-150 | Exactly the cards of the user's groups, newest first |
| App.MessageBoard.MessagePosterPost | app.py:140-146 | Appends one card to the chosen group, whether or not the user is a member, then redirects to the referrer |
| App.MessageBoard.GroupChat | app.py:152-158 | 403 exactly when the group is not the user's; otherwise exactly that group's cards, newest first |
| App.MessageBoard.AdminPanel | app.py:160-167 | 403 exactly outside `Enterprise Admins`; otherwise every card in the reverse of table order, so ids decrease |
| App.MessageBoard.DeletePost | app.py:169-179 | 403 with the table unchanged outside `Enterprise Admins`. Otherwise the card with that id, if any, is deleted, and then a redirect to the admin panel |
| App.LoadUser | app.py:44-48 | Success exactly when the group lookup succeeds; the User has the session username and exactly the looked-up groups; otherwise the lookup's error |
| Strings.Split | auth.py:57 | `str.split` with one character: at least one piece; the first piece is the text before the first separator; two or more pieces exactly when the separator occurs; no piece holds the separator |
| Strings.JoinSplit | auth.py:66 | Joining the pieces of a split with the separator gives back the string |
| Strings.Join | news.py:33 | `str.join`: no parts give the empty string; otherwise the result starts with the first part and ends with the last |
| Strings.SplitJoin | news.py:76 | Splitting parts joined by one character, none of which holds it, gives back the parts |
| Strings.JoinCount | news.py:33 | Joining parts that each hold one `?`, with a separator free of `?`, gives one `?` per part |
| Strings.JoinContains | news.py:76 | Every part occurs in the joined string |

## Left out

- The ldap3 `Server`/`Connection` objects, TLS and the network. The bind
  and the search are inputs: `Directory.bind` and `Directory.search`.
- A search entry that has no `memberOf` attribute. The model gives every
  entry a (possibly empty) list of DNs.
- Logging (every `logging.*` call).
- Executing SQL, both SQLite and SQLAlchemy. The model builds the query
  text and parameter list of `get_latest_news` but does not evaluate
  `LIKE`, so wildcards, ASCII case folding, `LIMIT`/`OFFSET` and the rows
  returned are not modelled.
- The connection handling of `add_post_to_database`: `get_db`, `with conn`,
  the commit and the re-raise logging. When validation fails, the
  `finally` block reads `conn` before it is assigned, so the caller
  actually receives an UnboundLocalError rather than the ValueError. The
  model reports the validation error and inserts nothing.
- News.NewsTable.AddPost: `sqlite3.DatabaseError` during the insert is not
  modelled; the insert always succeeds.
- Flask routing, templates, `request.form` parsing, `login_required` and
  the Flask-Login session. These appear only as the username and groups of
  the current `Auth.User` and as a `Response` value.
- The `login`, `show_news` and `create_post` routes: each calls a modelled
  function (`authenticate`, `get_latest_news`, `add_post_to_database`) and
  then renders or redirects. `create_post`'s `print` and
  `datetime.now().strftime` are I/O.
- The `loggedin` and `profile` routes only render the current user's fields.
  The `logout` route calls Flask-Login's `logout_user()`, which is session
  machinery, and redirects to `/`.
- The Socket.IO `join`, `leave` and `room_message` handlers (broadcasting
  only) and the process startup under `__main__`.
- `datetime.now` as the card timestamp. The insertion time is an `int`
  parameter `now`.
- The constants of config.py, such as `PAGE_SIZE`, `LDAP_DOMAIN` and the
  service account. They are parameters (`DirectoryConfig`, `pageSize`).
- App.SortNewestFirst: cards with equal timestamps are ordered by a stable
  insertion, but the contract claims only newest-first and permutation,
  since SQL leaves ties unordered.
- App.MessageBoard.AdminPanel: `MessageCard.query.all()` has no ORDER BY,
  so SQL promises no row order. The model takes the rows in table (id)
  order, which is what SQLite returns in practice, so "reversed" here means
  most recently added first only under that assumption.
- App.NextId: a new card's id is the last id + 1, which is SQLite's
  `max(rowid) + 1` for an `INTEGER PRIMARY KEY` while ids increase. The
  rowid-overflow fallback is not modelled.
- `get_latest_news` for a permissions list with non-string items: the
  model's permissions are strings.
- Column length limits `String(150)` on `author` and `group`: SQLite does
  not enforce them.
