# Token record store — a Dafny model

This project models the record-store core of `FSJS/userToken.js`, the module
that keeps one "token" record per user in the JSON document
`json/tokens.json`. A record has seven string fields: `username`, `email`,
`phone`, `token`, `created`, `expires` and `confirmed`. Each operation reads
the whole collection, works on it in memory, and, for `newToken` and
`updateToken`, writes the whole collection back:

- `tokenCount` gives the number of records.
- `tokenList` lists the `(username, token)` pair of every record.
- `newToken(username)` appends a record with fixed defaults. Its token is
  `crc32(username).toString(16)`.
- `fetchRecord(username)` reports every record of that username.
- `searchToken(username, email, phone)` reports every record that matches one
  of the supplied criteria. Username is tried first, then email, then phone.
- `updateToken` overwrites the phone (flag `p`/`P`) or the email (flag
  `e`/`E`) of every record of a username.

Layout:

- `hex.dfy` (module `Hex`): the lowercase hexadecimal rendering of a
  non-negative integer, with its inverse and a proof that the two are mutual
  inverses on canonical strings.
- `records.dfy` (module `TokenRecords`): the record, the token, the record
  `newToken` builds, and the listing.
- `queries.dfy` (module `TokenQueries`): fetch and search, as functions on
  the collection.
- `update.dfy` (module `TokenUpdate`): the effect of an update on the
  collection, as a function.
- `store.dfy` (module `TokenStore`): two classes.
  - `TokenArray` is the parsed array. Its `Push` and `Update` change it in
    place. Its loops for list, fetch and search are proved equal to the
    functions above.
  - `TokenFile` is the backing document, with the six source operations.
- `wrappers.dfy` (module `Wrappers`): `Option`.

Modelling choices:

- The document is either `Stored(tokens)` or `Unreadable`. A read of an
  unreadable document is a `ReadError`.
- Whether a write fails is a parameter of the two writing operations. A failed
  write leaves the document unchanged.
- `crc32` is a parameter of type `string -> Word`, where `Word` is a natural
  number below 2^32. The library that computes it is not part of this model.
- `created` and `expires` are strings supplied by the caller.
- An absent search argument (`undefined` or `null` in the source) is `None`.
  Within this model every stored field is a string, so `None` matches no
  field.
- In `newToken`, a failed read logs an error but does not return
  (FSJS/userToken.js:96-104). The code then calls `JSON.parse` on undefined
  data, which throws, so no write happens. The model makes this abort
  explicit: `NewToken` returns `Failed(ReadError)` and leaves the document
  unchanged.
- Lookups report every matching record in collection order, duplicates
  included. This follows the code, which never stops at the first match.

## Model

| member | source | states |
|---|---|---|
| `Hex.ToHex` | FSJS/userToken.js:87 | the rendering of `n` is non-empty and uses only `0-9a-f`; it starts with `0` exactly when `n` is zero, and is then `"0"` (no leading zeros) |
| `Hex.FromHexToHex` | FSJS/userToken.js:87 | reading the rendering of `n` back as a hex number gives `n` |
| `Hex.ToHexFromHex` | FSJS/userToken.js:87 | every canonical hex string is the rendering of the number it denotes, so rendering is a bijection between numbers and canonical strings |
| `Hex.ToHexInjective` | FSJS/userToken.js:87 | two numbers have the same rendering exactly when they are equal |
| `Hex.WordHexLength` | FSJS/userToken.js:87 | a 32-bit checksum renders in one to eight digits |
| `TokenRecords.Token` | FSJS/userToken.js:93 | the token of a username is a canonical hex string of at most eight digits that decodes to the username's checksum |
| `TokenRecords.TokenDeterminedByChecksum` | FSJS/userToken.js:87 | two usernames get the same token exactly when their checksums agree, so one username always gets the same token |
| `TokenRecords.NewRecord` | FSJS/userToken.js:82-93 | the new record carries the given username and timestamps, email `default@gmail.com`, phone `9999999999`, confirmed `tbd`, and a token that is a canonical hex string of at most eight digits decoding to `crc32(username)` |
| `TokenRecords.Listing` | FSJS/userToken.js:67-69 | one `(username, token)` entry per record, the i-th entry from the i-th record, nothing else |
| `TokenQueries.Fetch` | FSJS/userToken.js:193-203 | every reported record has the username and comes from the collection; every record of the username is reported |
| `TokenQueries.FetchAppend` | FSJS/userToken.js:193-203 | fetching over a concatenation is the concatenation of the fetches, so collection order is kept |
| `TokenQueries.FetchMultiplicity` | FSJS/userToken.js:193-203 | each occurrence of a record of the username is reported exactly once; no other record is reported |
| `TokenQueries.FetchEmpty` | FSJS/userToken.js:193-203 | the result is empty (and no error) exactly when no record has the username |
| `TokenQueries.FetchAfterAppend` | FSJS/userToken.js:106-107 | after a record is appended, fetching its username gives the earlier matches followed by the new record |
| `TokenQueries.Reason` | FSJS/userToken.js:216-240 | a criterion is reported exactly when the record matches some supplied argument; username beats email and email beats phone |
| `TokenQueries.HitsOf` | FSJS/userToken.js:216-240 | one record yields at most one hit, and a hit exactly when it matches; the hit names the record and its first matching criterion |
| `TokenQueries.Search` | FSJS/userToken.js:215-241 | there are never more hits than records |
| `TokenQueries.SearchSound` | FSJS/userToken.js:215-241 | every hit is a record of the collection paired with the criterion the chain picks for it |
| `TokenQueries.SearchAppend` | FSJS/userToken.js:215-241 | searching over a concatenation is the concatenation of the searches, so collection order is kept |
| `TokenQueries.SearchMultiplicity` | FSJS/userToken.js:215-241 | each occurrence of a matching record is reported exactly once, even when it meets several criteria; non-matching records are skipped |
| `TokenQueries.SearchEmpty` | FSJS/userToken.js:215-241 | nothing is reported exactly when no record matches any supplied argument |
| `TokenQueries.SearchByUsernameIsFetch` | FSJS/userToken.js:216-223 | a search with only a username reports the same records, in the same order, as fetching that username, each under the username criterion |
| `TokenUpdate.FieldOf` | FSJS/userToken.js:155-164 | the flag selects the phone exactly when it is `p` or `P`, and the email exactly when it is `e` or `E` |
| `TokenUpdate.Updated` | FSJS/userToken.js:153-165 | a record of the target username takes the new value in the phone (flag `p`/`P`) or the email (flag `e`/`E`); every other field, and every record of another username, is unchanged |
| `TokenUpdate.UpdateAll` | FSJS/userToken.js:152-168 | the collection after the pass has the same length, and its i-th record is the i-th record updated |
| `TokenUpdate.UpdateSetsField` | FSJS/userToken.js:153-163 | every record of the target username, duplicates included, gets the new value in the flagged field and nothing else changes; any other flag leaves it as it was |
| `TokenUpdate.UpdateFrame` | FSJS/userToken.js:152-168 | length and order are kept; records of other usernames are untouched; username, token, dates and status never change, and only the flagged field of phone and email can |
| `TokenUpdate.UpdateNoEffect` | FSJS/userToken.js:152-168 | with no record of the username, or a flag naming no field, the collection written back equals the one read |
| `TokenUpdate.UpdateChangedMeansMatched` | FSJS/userToken.js:152-168 | if the collection changed, the flag named a field and some record had the username |
| `TokenUpdate.UpdateIdempotent` | FSJS/userToken.js:152-168 | repeating the same update changes nothing more |
| `TokenUpdate.FetchAfterUpdate` | FSJS/userToken.js:152-168 | fetching the target username after the update gives the records fetched before, in the same order, each updated |
| `TokenStore.TokenArray.Parse` | FSJS/userToken.js:151 | the parsed array holds the stored collection |
| `TokenStore.TokenArray.Push` | FSJS/userToken.js:107 | the array becomes the old contents with the new record appended at the end |
| `TokenStore.TokenArray.Update` | FSJS/userToken.js:152-168 | the in-place loop leaves the array equal to the update function applied to its old contents |
| `TokenStore.TokenArray.ListEntries` | FSJS/userToken.js:67-69 | the loop produces exactly the listing of the array |
| `TokenStore.TokenArray.FetchMatches` | FSJS/userToken.js:193-203 | the loop reports exactly the fetch of the array |
| `TokenStore.TokenArray.SearchMatches` | FSJS/userToken.js:215-241 | the loop over the if / else-if chain reports exactly the search of the array |
| `TokenStore.TokenFile.Load` | FSJS/userToken.js:149-151 | an unreadable document gives a read error; otherwise a fresh array holding the stored records |
| `TokenStore.TokenFile.Save` | FSJS/userToken.js:170-172 | a failed write reports a write error and leaves the document unchanged; otherwise the document becomes the array's contents |
| `TokenStore.TokenFile.TokenCount` | FSJS/userToken.js:42-54 | the result is the number of stored records, or a read error |
| `TokenStore.TokenFile.TokenList` | FSJS/userToken.js:63-69 | the result is the listing of the stored records, or a read error |
| `TokenStore.TokenFile.NewToken` | FSJS/userToken.js:78-125 | a failed read aborts with a read error and writes nothing; a failed write leaves the document unchanged; otherwise the document is the old collection with the new record appended |
| `TokenStore.TokenFile.UpdateToken` | FSJS/userToken.js:146-183 | a failed read aborts with a read error; otherwise the updated collection is written back, whether or not any record matched, unless the write fails |
| `TokenStore.TokenFile.FetchRecord` | FSJS/userToken.js:187-206 | the result is the fetch of the stored records (possibly empty), or a read error |
| `TokenStore.TokenFile.SearchToken` | FSJS/userToken.js:209-244 | the result is the search of the stored records, or a read error |
| `TokenStore.CountAfterNewTokens` | FSJS/userToken.js:106-107 | starting from an empty document, `n` successful creations followed by a count give `n`, duplicate names included |

## Left out

- File reads and writes, the `__dirname` path and `JSON.parse`/`JSON.stringify`. The document is a whole collection of records or unreadable, and serialisation is taken to round-trip.
- A failed write that leaves a partly written file. Here a failed write changes nothing.
- The `crc32` implementation from the `crc` package. It is any function from strings to 32-bit values.
- Clock readings, `addDays` and date formatting (FSJS/userToken.js:79-80, 83, 88, 92, 247-251). `created` and `expires` are opaque strings, so "`expires` is `created` plus three days" is not stated.
- The event emitter, `logEvents` and console output. These are fire-and-forget side effects.
- The `tokenApp` command-line dispatch and the usage-text read (FSJS/userToken.js:254-298), and the browser code `handleNewTokenResult`/`generateToken` (FSJS/userToken.js:129-143).
- Asynchronous callbacks and the lost-update race between overlapping read-modify-write cycles. Operations here run one after another.
- `TokenStore.TokenFile.UpdateToken`: an update value or username missing from the command line (`undefined` in the source) is not modelled. Both are strings here. An `undefined` value would make the field disappear from the written JSON.
- A record whose field was dropped by an update or creation with a missing argument matches every search that omits that argument. In the source, `obj.phone === undefined` then holds, so `--search u bob` also reports such a record under the phone criterion. Here every field is a string and `None` matches nothing.
- `TokenStore.TokenFile.NewToken`: a missing username (`undefined`) is not modelled. The username is always a string.
