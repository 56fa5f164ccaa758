/** The token store: the array a read of the token document parses into,
    which `newToken` pushes onto and `updateToken` overwrites in place, and
    the document itself, which every operation reads whole and the two
    mutating operations write back whole. */
module TokenStore {
  import opened Wrappers
  import opened TokenRecords
  import opened TokenQueries
  import opened TokenUpdate

  /** The in-memory array of records, as `JSON.parse` returns it. */
  class TokenArray {
    var elems: array<Record>

    constructor Parse(loaded: seq<Record>)
      ensures fresh(elems)
      ensures elems[..] == loaded
    {
      elems := new Record[|loaded|](i requires 0 <= i < |loaded| => loaded[i]);
    }

    /** `tokens.push(record)`: the array grows by one record at the end. */
    method Push(record: Record)
      modifies this
      ensures fresh(elems)
      ensures elems[..] == old(elems[..]) + [record]
    {
      var before, n := elems, elems.Length;
      var grown := new Record[n + 1](i reads before => if 0 <= i < n then before[i] else record);
      assert grown[..] == before[..] + [record];
      elems := grown;
    }

    /** The `forEach` of `updateToken`: each record of the target username
        gets its phone or email overwritten, as the flag says. */
    method Update(flag: string, username: string, value: string)
      modifies elems
      ensures elems[..] == UpdateAll(old(elems[..]), flag, username, value)
    {
      for i := 0 to elems.Length
        invariant forall k :: 0 <= k < i ==> elems[k] == Updated(old(elems[k]), flag, username, value)
        invariant forall k :: i <= k < elems.Length ==> elems[k] == old(elems[k])
      {
        var obj := elems[i];
        if obj.username == username {
          if flag == "p" || flag == "P" {
            elems[i] := obj.(phone := value);
          } else if flag == "e" || flag == "E" {
            elems[i] := obj.(email := value);
          }
        }
      }
    }

    /** The `forEach` of `tokenList`: one line per record. */
    method ListEntries() returns (lines: seq<Entry>)
      ensures lines == Listing(elems[..])
    {
      lines := [];
      for i := 0 to elems.Length
        invariant lines == Listing(elems[..i])
      {
        assert elems[..i + 1][..i] == elems[..i];
        lines := lines + [Entry(elems[i].username, elems[i].token)];
      }
      assert elems[..] == elems[..elems.Length];
    }

    /** The `forEach` of `fetchRecord`: the records of one username. */
    method FetchMatches(username: string) returns (found: seq<Record>)
      ensures found == Fetch(elems[..], username)
    {
      found := [];
      for i := 0 to elems.Length
        invariant found == Fetch(elems[..i], username)
      {
        assert elems[..i + 1][..i] == elems[..i];
        if elems[i].username == username {
          found := found + [elems[i]];
        }
      }
      assert elems[..] == elems[..elems.Length];
    }

    /** The `forEach` of `searchToken`: the `if / else if / else if` chain
        run on each record. */
    method SearchMatches(username: Option<string>, email: Option<string>, phone: Option<string>)
      returns (hits: seq<Hit>)
      ensures hits == Search(elems[..], username, email, phone)
    {
      hits := [];
      for i := 0 to elems.Length
        invariant hits == Search(elems[..i], username, email, phone)
      {
        var obj := elems[i];
        SearchSnoc(elems[..i], obj, username, email, phone);
        assert elems[..i + 1] == elems[..i] + [obj];
        if username == Some(obj.username) {
          hits := hits + [Hit(obj, ByUsername)];
        } else if email == Some(obj.email) {
          hits := hits + [Hit(obj, ByEmail)];
        } else if phone == Some(obj.phone) {
          hits := hits + [Hit(obj, ByPhone)];
        }
      }
      assert elems[..] == elems[..elems.Length];
    }
  }

  /** The token document: a collection of records, or content that cannot be
      read or parsed. */
  datatype Document = Stored(tokens: seq<Record>) | Unreadable

  datatype Error = ReadError | WriteError

  /** What an operation reports to its caller. */
  datatype Outcome<T> = Done(value: T) | Failed(error: Error)

  /** The backing file `json/tokens.json`. A failed write is a parameter of
      the operations that write; it leaves the document as it was. */
  class TokenFile {
    var document: Document

    constructor (document: Document)
      ensures this.document == document
    {
      this.document := document;
    }

    /** Read the whole document and parse it into a fresh array. */
    method Load() returns (r: Outcome<TokenArray>)
      ensures document.Unreadable? ==> r == Failed(ReadError)
      ensures document.Stored? ==> r.Done? && fresh(r.value) && fresh(r.value.elems)
      ensures document.Stored? ==> r.value.elems[..] == document.tokens
    {
      if document.Unreadable? {
        return Failed(ReadError);
      }
      var parsed := new TokenArray.Parse(document.tokens);
      r := Done(parsed);
    }

    /** Write the whole array back, unless the write fails. */
    method Save(tokens: TokenArray, writeFails: bool) returns (r: Outcome<()>)
      modifies this
      ensures writeFails ==> r == Failed(WriteError) && document == old(document)
      ensures !writeFails ==> r == Done(()) && document == Stored(tokens.elems[..])
    {
      if writeFails {
        r := Failed(WriteError);
      } else {
        document := Stored(tokens.elems[..]);
        r := Done(());
      }
    }

    /** `tokenCount`: the number of records, or the read error. */
    method TokenCount() returns (r: Outcome<nat>)
      ensures r == match document
        case Unreadable => Failed(ReadError)
        case Stored(tokens) => Done(|tokens|)
    {
      var loaded := Load();
      if loaded.Failed? {
        return Failed(ReadError);
      }
      r := Done(loaded.value.elems.Length);
    }

    /** `tokenList`: the `(username, token)` lines, or the read error. */
    method TokenList() returns (r: Outcome<seq<Entry>>)
      ensures r == match document
        case Unreadable => Failed(ReadError)
        case Stored(tokens) => Done(Listing(tokens))
    {
      var loaded := Load();
      if loaded.Failed? {
        return Failed(ReadError);
      }
      var lines := loaded.value.ListEntries();
      r := Done(lines);
    }

    /** `newToken(username)`: build the record, read the document, append
        the record and write the document back. A failed read aborts before
        any write. */
    method NewToken(crc32: Checksum, username: string, created: string, expires: string, writeFails: bool)
      returns (r: Outcome<Record>)
      modifies this
      ensures old(document).Unreadable? ==> r == Failed(ReadError) && document == old(document)
      ensures old(document).Stored? && writeFails ==> r == Failed(WriteError) && document == old(document)
      ensures old(document).Stored? && !writeFails ==>
        var record := NewRecord(crc32, username, created, expires);
        r == Done(record) && document == Stored(old(document).tokens + [record])
    {
      var record := Record(
        created := created,
        username := username,
        email := DefaultEmail,
        phone := DefaultPhone,
        token := Token(crc32, username),
        expires := expires,
        confirmed := Unconfirmed);
      record := record.(created := created, token := Token(crc32, username));

      var loaded := Load();
      if loaded.Failed? {
        return Failed(ReadError);
      }
      var tokens := loaded.value;
      tokens.Push(record);
      var saved := Save(tokens, writeFails);
      r := if saved.Failed? then Failed(WriteError) else Done(record);
    }

    /** `updateToken(argv)` with `argv[2]` the flag, `argv[3]` the username
        and `argv[4]` the new value: read, overwrite in place, write back,
        whether or not any record matched. */
    method UpdateToken(flag: string, username: string, value: string, writeFails: bool)
      returns (r: Outcome<()>)
      modifies this
      ensures old(document).Unreadable? ==> r == Failed(ReadError) && document == old(document)
      ensures old(document).Stored? && writeFails ==> r == Failed(WriteError) && document == old(document)
      ensures old(document).Stored? && !writeFails ==>
        r == Done(()) && document == Stored(UpdateAll(old(document).tokens, flag, username, value))
    {
      var loaded := Load();
      if loaded.Failed? {
        return Failed(ReadError);
      }
      var tokens := loaded.value;
      tokens.Update(flag, username, value);
      r := Save(tokens, writeFails);
    }

    /** `fetchRecord(username)`: the records of that username, possibly
        none, or the read error. */
    method FetchRecord(username: string) returns (r: Outcome<seq<Record>>)
      ensures r == match document
        case Unreadable => Failed(ReadError)
        case Stored(tokens) => Done(Fetch(tokens, username))
    {
      var loaded := Load();
      if loaded.Failed? {
        return Failed(ReadError);
      }
      var found := loaded.value.FetchMatches(username);
      r := Done(found);
    }

    /** `searchToken(username, email, phone)`, an absent argument being
        `None`: the hits in collection order, or the read error. */
    method SearchToken(username: Option<string>, email: Option<string>, phone: Option<string>)
      returns (r: Outcome<seq<Hit>>)
      ensures r == match document
        case Unreadable => Failed(ReadError)
        case Stored(tokens) => Done(Search(tokens, username, email, phone))
    {
      var loaded := Load();
      if loaded.Failed? {
        return Failed(ReadError);
      }
      var hits := loaded.value.SearchMatches(username, email, phone);
      r := Done(hits);
    }
  }

  /** Starting from an empty document, creating one token per name and then
      counting gives the number of names, duplicates included. */
  method CountAfterNewTokens(crc32: Checksum, names: seq<string>, created: string, expires: string)
    returns (count: Outcome<nat>)
    ensures count == Done(|names|)
  {
    var file := new TokenFile(Stored([]));
    for i := 0 to |names|
      invariant file.document.Stored? && |file.document.tokens| == i
    {
      var outcome := file.NewToken(crc32, names[i], created, expires, false);
    }
    count := file.TokenCount();
  }
}
