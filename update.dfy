/** What `updateToken` does to the collection: for every record of the target
    username, overwrite the phone (flag `p`/`P`) or the email (flag `e`/`E`);
    any other flag leaves every record as it was. */
module TokenUpdate {
  import opened Wrappers
  import opened TokenRecords
  import opened TokenQueries

  /** The two fields an update can overwrite. */
  datatype Field = Phone | Email

  /** The field a command-line flag names, if any. */
  function FieldOf(flag: string): (f: Option<Field>)
    ensures f == Some(Phone) <==> flag in {"p", "P"}
    ensures f == Some(Email) <==> flag in {"e", "E"}
  {
    if flag == "p" || flag == "P" then Some(Phone)
    else if flag == "e" || flag == "E" then Some(Email)
    else None
  }

  /** One record after the update: only the flagged field of a record of
      the target username takes the new value. */
  function Updated(r: Record, flag: string, username: string, value: string): (u: Record)
    ensures u.username == r.username && u.token == r.token && u.confirmed == r.confirmed
    ensures u.created == r.created && u.expires == r.expires
    ensures u.phone == if r.username == username && FieldOf(flag) == Some(Phone) then value else r.phone
    ensures u.email == if r.username == username && FieldOf(flag) == Some(Email) then value else r.email
  {
    if r.username != username then r
    else match FieldOf(flag)
      case Some(Phone) => r.(phone := value)
      case Some(Email) => r.(email := value)
      case None => r
  }

  /** The whole collection after the update. */
  function UpdateAll(tokens: seq<Record>, flag: string, username: string, value: string): (updated: seq<Record>)
    ensures |updated| == |tokens|
    ensures forall i :: 0 <= i < |tokens| ==> updated[i] == Updated(tokens[i], flag, username, value)
  {
    seq(|tokens|, i requires 0 <= i < |tokens| => Updated(tokens[i], flag, username, value))
  }

  /** Every record of the target username gets the new value in the flagged
      field, duplicates included; nothing else about it changes. */
  lemma UpdateSetsField(tokens: seq<Record>, flag: string, username: string, value: string, i: nat)
    requires i < |tokens| && tokens[i].username == username
    ensures var u := UpdateAll(tokens, flag, username, value)[i];
      match FieldOf(flag)
      case Some(Phone) => u == tokens[i].(phone := value)
      case Some(Email) => u == tokens[i].(email := value)
      case None => u == tokens[i]
  {
  }

  /** Length and order are kept; a record of another username is untouched;
      in every record the username, token, dates and status stay, and of
      phone and email at most the flagged one changes. */
  lemma UpdateFrame(tokens: seq<Record>, flag: string, username: string, value: string)
    ensures var updated := UpdateAll(tokens, flag, username, value);
      && |updated| == |tokens|
      && (forall i :: 0 <= i < |tokens| && tokens[i].username != username ==> updated[i] == tokens[i])
      && (forall i :: 0 <= i < |tokens| ==>
            && updated[i].username == tokens[i].username
            && updated[i].token == tokens[i].token
            && updated[i].created == tokens[i].created
            && updated[i].expires == tokens[i].expires
            && updated[i].confirmed == tokens[i].confirmed
            && (FieldOf(flag) != Some(Phone) ==> updated[i].phone == tokens[i].phone)
            && (FieldOf(flag) != Some(Email) ==> updated[i].email == tokens[i].email))
  {
  }

  /** With no record of the target username, or a flag that names no field,
      the collection written back equals the one read. */
  lemma UpdateNoEffect(tokens: seq<Record>, flag: string, username: string, value: string)
    requires FieldOf(flag) == None || forall i :: 0 <= i < |tokens| ==> tokens[i].username != username
    ensures UpdateAll(tokens, flag, username, value) == tokens
  {
  }

  /** Conversely, if the collection changed, some record had the target
      username and the flag named a field. */
  lemma UpdateChangedMeansMatched(tokens: seq<Record>, flag: string, username: string, value: string)
    requires UpdateAll(tokens, flag, username, value) != tokens
    ensures FieldOf(flag).Some?
    ensures exists i :: 0 <= i < |tokens| && tokens[i].username == username
  {
    var updated := UpdateAll(tokens, flag, username, value);
    if FieldOf(flag) == None || forall i :: 0 <= i < |tokens| ==> tokens[i].username != username {
      UpdateNoEffect(tokens, flag, username, value);
      assert false;
    }
  }

  /** Running the same update twice is the same as running it once. */
  lemma UpdateIdempotent(tokens: seq<Record>, flag: string, username: string, value: string)
    ensures UpdateAll(UpdateAll(tokens, flag, username, value), flag, username, value) ==
      UpdateAll(tokens, flag, username, value)
  {
  }

  lemma UpdateAllAppend(a: seq<Record>, b: seq<Record>, flag: string, username: string, value: string)
    ensures UpdateAll(a + b, flag, username, value) ==
      UpdateAll(a, flag, username, value) + UpdateAll(b, flag, username, value)
  {
  }

  /** Updating then fetching the target username is fetching then updating:
      the same records, in the same order, each with the new value. */
  lemma {:induction false} FetchAfterUpdate(tokens: seq<Record>, flag: string, username: string, value: string)
    ensures Fetch(UpdateAll(tokens, flag, username, value), username) ==
      UpdateAll(Fetch(tokens, username), flag, username, value)
  {
    if tokens != [] {
      var init, last := tokens[..|tokens| - 1], tokens[|tokens| - 1];
      SplitLast([], tokens);
      var updatedInit := UpdateAll(init, flag, username, value);
      var updatedLast := Updated(last, flag, username, value);
      var here := if last.username == username then [last] else [];
      var updatedHere := if last.username == username then [updatedLast] else [];
      UpdateAllAppend(init, [last], flag, username, value);
      assert UpdateAll([last], flag, username, value) == [updatedLast];
      assert UpdateAll(here, flag, username, value) == updatedHere;
      FetchSnoc(updatedInit, updatedLast, username);
      FetchSnoc(init, last, username);
      FetchAfterUpdate(init, flag, username, value);
      UpdateAllAppend(Fetch(init, username), here, flag, username, value);
    }
  }
}
