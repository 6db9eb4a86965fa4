# Teslo Shop core, modelled in Dafny

This project models two parts of the Teslo Shop NestJS back end.

The first part is the websocket gateway for presence and chat (`MessagesWsGateway`):
- On connect, it verifies the JSON Web Token in the `authentication` handshake header.
- It registers the socket under the token's user id and broadcasts `clients-updated` to every socket.
- A socket that fails verification or registration is closed silently.
- On disconnect, it forgets the socket.
- It relays every `message-from-client` to all sockets as `message-from-server`, with the sender's full name. A missing or empty message becomes `no-message!!`.

The second part is the product service (`ProductsService`):
- paginated listing (`findAll`, limit 10 and offset 0 by default),
- lookup by UUID id, or else by case-insensitive title or a slug equal to the lower-cased term (`findOne`, `findOnePlain`),
- `create`, which returns the saved product with its image urls,
- `update`, which preloads the row and runs a transaction on a query runner,
- `remove`,
- `handleExceptions`, which maps PostgreSQL errors to HTTP exceptions. It reads SQLSTATE 23505 (unique violation) with the regular expression `\(.*?\)=\((.*?)\)` and 23502 (not-null violation).

Files:
- `wrappers.dfy`: Option and Result.
- `ascii_text.dfy`: `toUpperCase`, `toLowerCase` and `split(sep)[0]`.
- `uuid_format.dfy`: the `validate` check of the `uuid` package.
- `products_errors.dfy`: `handleExceptions`, with a leftmost, lazy matcher for its regular expression.
- `products_catalog.dfy`: the product shapes and the pure reads: `findAll`, `findOne`, `findOnePlain`, the `create` reply, and the product `update` saves.
- `products_service.dfy`: the `ProductsService` class. Its `Create`, `Update` and `Remove` methods change the product table in place. `Update` also logs the calls it makes on a query runner; `Create` and `Remove` make none.
- `messages_ws.dfy`: the gateway handlers as transition functions over a state (registry, closed sockets, outbox of emitted events), lemmas over traces of handler calls, and the `MessagesWsGateway` class whose methods perform those transitions in place.

The database, the token verifier and the user directory enter as parameters:
- a `verify` function from token to optional user id,
- a map from user id to full name,
- the outcome of each save, delete or registration,
- the UUID the database generates for a new row.

## Model

| member | source | states |
|---|---|---|
| MessagesWs.MessageText | src/messages-ws/messages-ws.gateway.ts:60 | the broadcast text is never empty: it is the payload's message when that is non-empty, and `no-message!!` otherwise |
| MessagesWs.AfterConnect | src/messages-ws/messages-ws.gateway.ts:18-34 | on a verified token and a registration that does not throw, the socket maps to the token's user id and every other entry is kept. Exactly one `clients-updated` event is appended, carrying the registry after registration. On a missing or invalid token, or a throwing registration, the registry and outbox are unchanged and the socket is closed |
| MessagesWs.AfterDisconnect | src/messages-ws/messages-ws.gateway.ts:35-40 | the socket's key is removed, every other entry is unchanged, and nothing is emitted |
| MessagesWs.AfterMessage | src/messages-ws/messages-ws.gateway.ts:41-63 | exactly one `message-from-server` event is appended. Its text is `payload.message || 'no-message!!'` (`MessageText`), which is never empty, and its name is the one resolved for the sender. The registry and the closed sockets are unchanged |
| MessagesWs.RunOutboxGrows | src/messages-ws/messages-ws.gateway.ts:32 | over any trace of handler calls, earlier broadcasts stay as they were: the old outbox is a prefix of the new one |
| MessagesWs.RunRegistryAuthenticated | src/messages-ws/messages-ws.gateway.ts:25-31 | after any trace, every registered socket was registered before or was accepted (verified, with a registration that did not throw) by a connect in the trace |
| MessagesWs.RejectedClientNeverRegistered | src/messages-ws/messages-ws.gateway.ts:25-31 | a socket all of whose connects fail verification or registration is never in the registry |
| MessagesWs.RunEventCounts | src/messages-ws/messages-ws.gateway.ts:18-63 | a trace emits exactly one `clients-updated` per accepted connect and one `message-from-server` per message, and nothing on disconnect |
| MessagesWs.RunMessagesKeepRegistry | src/messages-ws/messages-ws.gateway.ts:41-63 | a trace made only of messages changes neither the registry nor the closed sockets, and adds one event per message |
| MessagesWs.RepeatedConnect | src/messages-ws/messages-ws.gateway.ts:26-32 | connecting the same socket n times with a valid token adds at most that one key, mapped to the token's user, and broadcasts n presence updates |
| MessagesWs.DisconnectIdempotent | src/messages-ws/messages-ws.gateway.ts:38 | a second disconnect changes nothing, and disconnecting an unregistered socket changes nothing |
| MessagesWs.ScenarioConnectThenMessage | src/messages-ws/messages-ws.gateway.ts:18-63 | after a valid connect and a message, every socket sees a registry containing the user, then the message under the user's full name |
| MessagesWs.ScenarioMessageAfterDisconnect | src/messages-ws/messages-ws.gateway.ts:35-63 | a message from a socket that has disconnected is still relayed, under the empty name and with the placeholder text |
| MessagesWs.MessagesWsGateway.constructor | src/messages-ws/messages-ws.gateway.ts:12-16 | a new gateway has an empty registry, no closed sockets and no emitted events |
| MessagesWs.MessagesWsGateway.HandleConnection | src/messages-ws/messages-ws.gateway.ts:18-34 | updates the fields in place to the state `AfterConnect` specifies |
| MessagesWs.MessagesWsGateway.HandleDisconnect | src/messages-ws/messages-ws.gateway.ts:35-40 | updates the fields in place to the state `AfterDisconnect` specifies |
| MessagesWs.MessagesWsGateway.OnMessageFromClient | src/messages-ws/messages-ws.gateway.ts:41-63 | updates the fields in place to the state `AfterMessage` specifies |
| AsciiText.Upper | src/products/products.service.ts:69 | keeps the length and maps each character to its upper case |
| AsciiText.Lower | src/products/products.service.ts:70 | keeps the length and maps each character to its lower case |
| AsciiText.CaseMappingAbsorbs | src/products/products.service.ts:68-70 | upper-casing twice is upper-casing once, and lower-casing after upper-casing is lower-casing |
| AsciiText.SplitHead | src/products/products.service.ts:142 | `split(sep)[0]` is a prefix of the string with no occurrence of the separator before its end. When it is shorter than the string, the separator starts right after it |
| AsciiText.SplitHeadNoSeparator | src/products/products.service.ts:148 | a string in which the separator never starts is returned whole |
| UuidFormat.IsUuidIgnoresCase | src/products/products.service.ts:63 | the UUID check accepts a term exactly when it accepts the term upper-cased |
| ProductsErrors.CloseParen | src/products/products.service.ts:139 | finds the first `)` from a position that no line terminator precedes, or reports that there is none |
| ProductsErrors.MatchFrom | src/products/products.service.ts:139 | for a fixed start, finds the shortest first group and then the shortest capture that complete a match, or reports that none does |
| ProductsErrors.Search | src/products/products.service.ts:139 | finds the leftmost start of a match, with its shortest groups, or reports that the text has no match |
| ProductsErrors.DuplicateKeyCapture | src/products/products.service.ts:139 | yields a capture exactly when the detail matches. The capture is the second group of the leftmost, lazy match and holds no `)` |
| ProductsErrors.FirstMatchUnique | src/products/products.service.ts:139 | the match the expression reports is determined by the text |
| ProductsErrors.DuplicateSlugDetail | src/products/products.service.ts:139 | the detail `Key (slug)=(t-shirt) already exists.` captures `t-shirt` |
| ProductsErrors.HandleExceptions | src/products/products.service.ts:136-160 | returns normally exactly for code 23505 with a detail that does not match. It throws InternalServerError exactly for the other codes. It throws a TypeError exactly when the detail (23505) or the column (23502) it reads is missing. It throws BadRequest exactly for a matching 23505 detail or a present 23502 column. The value named is the capture up to its first `=`, or the column up to its first `""` |
| ProductsErrors.DuplicateSlugIsBadRequest | src/products/products.service.ts:137-143 | a duplicated slug `t-shirt` is reported as a bad request naming `t-shirt` |
| ProductsErrors.MissingTitleIsBadRequest | src/products/products.service.ts:145-149 | a not-null violation on column `title` is reported as a bad request naming `title` |
| ProductsCatalog.Urls | src/products/products.service.ts:55 | the url list has one url per image, in the same order |
| ProductsCatalog.ImagesFromUrls | src/products/products.service.ts:30 | one image entity per url, in the same order, each carrying its url |
| ProductsCatalog.UrlsRoundTrip | src/products/products.service.ts:30-34 | turning urls into image entities and back gives the same urls |
| ProductsCatalog.Plain | src/products/products.service.ts:83-87 | the product with its images replaced by their urls in order and every other field unchanged |
| ProductsCatalog.PlainAll | src/products/products.service.ts:53-56 | every row of a page is flattened, keeping count and order |
| ProductsCatalog.PlainAllAppend | src/products/products.service.ts:53-56 | flattening distributes over concatenation of pages |
| ProductsCatalog.FindAll | src/products/products.service.ts:40-57 | at most `limit` products (10 when absent), exactly as many as remain from `offset` (0 when absent). Product k is row `offset + k` flattened |
| ProductsCatalog.ConsecutivePages | src/products/products.service.ts:43-52 | over one fixed row order of the catalog, a page of n followed by the next page of m is the page of n + m: such paging skips and repeats nothing |
| ProductsCatalog.FirstMatching | src/products/products.service.ts:63-73 | the first row the term matches, where a UUID matches only the id and any other term matches a title equal to it after both are upper-cased, or a slug equal to the lower-cased term. None exactly when no row matches |
| ProductsCatalog.FindOne | src/products/products.service.ts:59-80 | a matching product from the catalog, or NotFound for the term exactly when no product matches |
| ProductsCatalog.FindOnePlain | src/products/products.service.ts:82-88 | succeeds exactly when `findOne` does, with that product's images flattened to urls |
| ProductsCatalog.LookupIgnoresTermCase | src/products/products.service.ts:63-72 | for the model's ASCII case maps, a term finds the same product whatever its letter case: a UUID is compared as a `uuid` value, a title upper-cased, a slug against the lower-cased term |
| ProductsCatalog.UuidTermFindsOnlyById | src/products/products.service.ts:63-64 | a UUID term finds a product exactly when some row's id is that UUID (as a `uuid` value, in any letter case), and only such a row; titles and slugs are never consulted |
| ProductsCatalog.CreatedReply | src/products/products.service.ts:26-34 | the reply's images are the given url list (none when absent), and the reply is the saved product flattened |
| ProductsCatalog.UpdateWithoutImagesDropsThem | src/products/products.service.ts:93-99 | as written, an update without images saves a product with no images, even if the stored product had some |
| ProductsCatalog.UpdatedAsWritten | src/products/products.service.ts:92-115 | the product the code as written saves: it keeps its id and takes the given user, and the given title when there is one. Its slug is the given slug, else the given title, else the stored slug. Columns are merged, with the given ones winning. Its images are the given urls when supplied, and none otherwise |
| ProductsCatalog.Updated | src/products/products.service.ts:92-113 | the saved product keeps its id and takes the given user, and the given title when there is one. Its slug is the given slug, else the given title, else the stored slug. Columns are merged, with the given ones winning. Images are replaced by the given urls when they are supplied and kept otherwise |
| ProductsCatalog.UpdatedAgreesWithImages | src/products/products.service.ts:108-111 | when images are supplied, the corrected update and the code as written save the same product |
| Products.IndexOfId | src/products/products.service.ts:93-100 | the row whose primary key is the given id as a `uuid` value, or None exactly when no row has it |
| Products.WithoutId | src/products/products.service.ts:132 | the remaining rows are exactly those with another id, and ids stay distinct |
| Products.UpdateReturnsUpdatedRow | src/products/products.service.ts:115-121 | after a successful update of the row a UUID names (in any letter case), ids stay distinct, and `findOnePlain(id)` returns the updated row |
| Products.CreatedIsFound | src/products/products.service.ts:23-38 | after a create under a fresh UUID, ids stay distinct, and `findOnePlain` by that id returns exactly what `create` returned |
| Products.RemovedIsGone | src/products/products.service.ts:130-134 | after the row a UUID names is removed, looking that UUID up again, in any letter case, finds nothing |
| Products.ProductsService.constructor | src/products/products.service.ts:15-21 | the service starts over the given table with distinct ids and no query-runner calls |
| Products.ProductsService.Create | src/products/products.service.ts:23-38 | on a successful save, appends the new product and returns it with the given urls as images. On a failed save, the table is unchanged and the call settles as `handleExceptions` decides |
| Products.ProductsService.Update | src/products/products.service.ts:91-128 | a preload miss throws BadRequest before any query-runner call. Otherwise it connects and starts a transaction, and deletes the images only when some are supplied. A failure then rolls back and releases, leaves the table unchanged, and settles as `handleExceptions` decides. Success saves the updated row in place, commits and releases, and returns `findOnePlain(id)`. The row saved is the corrected `Updated`, not the code as written (see Findings) |
| Products.ProductsService.Remove | src/products/products.service.ts:130-134 | throws NotFound and leaves the table unchanged when the term matches nothing. A failing delete leaves the table unchanged and throws the database error itself, which no catch block passes to `handleExceptions`. Otherwise it deletes the found row and returns it |

## Left out

- MessagesWsService (registerClient, removeClient, getConnectedClients, getUserFullName) is not part of this model. Its registry is modelled as a map from socket id to user id, and its name lookup as a map from user id to full name.
- The snapshot broadcast in `clients-updated` is modelled as the whole registry map, because the service that builds it is not part of this model.
- FullName: a socket that is not registered, or whose user has no name, gets the empty name. The service's actual fallback is not part of this model.
- JWT signature and expiry checking are left out. Verification is a parameter that yields an optional user id; a missing header yields none.
- A throw from `registerClient` is an input flag. A registration that fails is assumed to leave the registry unchanged.
- The socket.io transport, the fan-out of `wss.emit` and concurrent event delivery are left out. Handler calls form a sequential trace, and each emit is one event appended to an outbox.
- The gateway as written relays messages from any socket, registered or not, and emits no presence update on disconnect. The model follows the code, and ScenarioMessageAfterDisconnect shows the first point.
- Logging and console output are left out. This includes the logger's return value (undefined) being passed as the BadRequest message: the model records the logged name as the exception's reason instead.
- TypeORM internals are left out:
  - the generated SQL,
  - the column defaults and the slug hooks of the entity,
  - the `take`/`skip` handling of zero or negative values,
  - eager relations,
  - how `preload` merges fields other than title, slug, images and the remaining columns. For `images`, the model assumes that `preload` replaces the loaded images with the `[]` it is passed (`ProductsCatalog.UpdatedAsWritten`). The source does not show this, and the Findings row rests on it,
  - query-runner resource handling.
- Products.ProductsService.Update: saves the corrected product (`ProductsCatalog.Updated`), which keeps the stored images when none are supplied. The code as written saves none in that case; `ProductsCatalog.UpdatedAsWritten` models that, and the Findings table records it.
- ConsecutivePages: assumes the catalog keeps one row order from one call to the next. `find` is called without an `order`, so the database does not promise a stable order between two calls, and pages of a real listing may overlap or skip rows.
- Ids are compared as `uuid` values, by ignoring the letter case of their canonical spelling (`SameId`). Passing `preload` an id that is not a UUID, which PostgreSQL rejects with an error, is not modelled.
- Update: a failure between `startTransaction` and `commitTransaction` is a single input. The log records a delete only when images are supplied, and ends with rollback and release.
- Create: the id the database generates is an input, required to be new.
- Remove: TypeORM clearing the id of the removed entity it returns is not modelled.
- deleteAllProducts is left out. It belongs to seeding, not to the product operations modelled here.
- src/seed/seed.service.ts and src/auth/auth.module.ts are not part of this model.
- Upper and Lower map only ASCII letters; full Unicode case mapping is not modelled. One ASCII `Upper` stands for two different functions: PostgreSQL's `UPPER(title)` and JavaScript's `toUpperCase` on the term (src/products/products.service.ts:68-69). The same goes for `Lower` and `toLowerCase`. `CaseMappingAbsorbs` and `LookupIgnoresTermCase` hold only under these ASCII maps. Outside ASCII they can fail:
  - JavaScript upper-cases `ß` to `SS`, so upper-casing `straße` and lower-casing the result gives `strasse`, which does not match the slug `straße`.
  - JavaScript upper-cases `ſ` to `S`.
  - PostgreSQL's `UPPER` keeps `ß` where JavaScript's gives `SS`, so a product titled `Straße` is not found by its own title.
- UuidFormat.IsUuid follows version 9 of the `uuid` package: versions 1 to 5 and the nil UUID. Other package versions accept other version digits.
- OnMessageFromClient: a payload that is not an object is not modelled. An absent or empty `message` is covered.

## Findings

| source | as written | input that shows it | evidently intended | confidence | as-written member | corrected member |
|---|---|---|---|---|---|---|
| src/products/products.service.ts:93-99 | `preload` is passed `images: []`, and images are assigned again only when the request supplies some. The claim assumes that `preload` replaces the loaded images with that `[]`; this is not shown by the source | an update with only a new title, on a product that has images | an update without images keeps the product's images | medium, not executed | ProductsCatalog.UpdateWithoutImagesDropsThem | ProductsCatalog.Updated |
