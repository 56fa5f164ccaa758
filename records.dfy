/** The token record, the record built for a new user, and the
    `(username, token)` listing of a collection. */
module TokenRecords {
  import opened Hex

  /** One entry of the token document: seven string fields. */
  datatype Record = Record(
    username: string,
    email: string,
    phone: string,
    token: string,
    created: string,
    expires: string,
    confirmed: string)

  const DefaultEmail: string := "default@gmail.com"
  const DefaultPhone: string := "9999999999"
  const Unconfirmed: string := "tbd"

  /** The CRC-32 of a string, from a library outside this model: any
      function from strings to 32-bit values. */
  type Checksum = string -> Word

  /** `crc32(username).toString(16)`. */
  function Token(crc32: Checksum, username: string): (t: string)
    ensures IsCanonical(t) && |t| <= 8
    ensures FromHex(t) == crc32(username)
  {
    FromHexToHex(crc32(username));
    WordHexLength(crc32(username));
    ToHex(crc32(username))
  }

  /** Two usernames get the same token exactly when their checksums agree;
      in particular one username always gets the same token. */
  lemma TokenDeterminedByChecksum(crc32: Checksum, u: string, v: string)
    ensures Token(crc32, u) == Token(crc32, v) <==> crc32(u) == crc32(v)
  {
    ToHexInjective(crc32(u), crc32(v));
  }

  /** The record `newToken(username)` builds; `created` and `expires` are the
      formatted clock readings, supplied by the caller. */
  function NewRecord(crc32: Checksum, username: string, created: string, expires: string): (r: Record)
    ensures r.username == username && r.created == created && r.expires == expires
    ensures r.email == DefaultEmail && r.phone == DefaultPhone && r.confirmed == Unconfirmed
    ensures IsCanonical(r.token) && |r.token| <= 8 && FromHex(r.token) == crc32(username)
  {
    Record(
      username := username,
      email := DefaultEmail,
      phone := DefaultPhone,
      token := Token(crc32, username),
      created := created,
      expires := expires,
      confirmed := Unconfirmed)
  }

  /** One line of the token list. */
  datatype Entry = Entry(username: string, token: string)

  /** The `(username, token)` of every record, in collection order. */
  function Listing(tokens: seq<Record>): (lines: seq<Entry>)
    ensures |lines| == |tokens|
    ensures forall i :: 0 <= i < |tokens| ==>
      lines[i] == Entry(tokens[i].username, tokens[i].token)
  {
    if tokens == [] then []
    else
      var last := tokens[|tokens| - 1];
      Listing(tokens[..|tokens| - 1]) + [Entry(last.username, last.token)]
  }
}
