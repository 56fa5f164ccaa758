/** The two read-only scans of the token collection: fetching the records of
    one username, and searching by username, email or phone. */
module TokenQueries {
  import opened Wrappers
  import opened TokenRecords

  /** Every record whose username is `username`, in collection order. */
  function Fetch(tokens: seq<Record>, username: string): (found: seq<Record>)
    ensures |found| <= |tokens|
    ensures forall r :: r in found ==> r in tokens && r.username == username
    ensures forall r :: r in tokens && r.username == username ==> r in found
  {
    if tokens == [] then []
    else
      var init, last := tokens[..|tokens| - 1], tokens[|tokens| - 1];
      assert tokens == init + [last];
      Fetch(init, username) + (if last.username == username then [last] else [])
  }

  /** Fetching over two concatenated collections is fetching over each, in
      order: the scan keeps collection order. */
  lemma {:induction false} FetchAppend(a: seq<Record>, b: seq<Record>, username: string)
    ensures Fetch(a + b, username) == Fetch(a, username) + Fetch(b, username)
    decreases |b|
  {
    if b == [] {
      assert a + b == a;
    } else {
      var init, last := b[..|b| - 1], b[|b| - 1];
      assert (a + b)[..|a + b| - 1] == a + init;
      FetchAppend(a, init, username);
    }
  }

  /** Each occurrence of a matching record is reported exactly once, and no
      other record is reported. */
  lemma {:induction false} FetchMultiplicity(tokens: seq<Record>, username: string, r: Record)
    ensures multiset(Fetch(tokens, username))[r] ==
      if r.username == username then multiset(tokens)[r] else 0
  {
    if tokens != [] {
      var init, last := tokens[..|tokens| - 1], tokens[|tokens| - 1];
      assert tokens == init + [last];
      FetchMultiplicity(init, username, r);
    }
  }

  /** A username that no record carries yields an empty result, not an
      error; and an empty result means no record carries it. */
  lemma FetchEmpty(tokens: seq<Record>, username: string)
    ensures Fetch(tokens, username) == [] <==>
      forall i :: 0 <= i < |tokens| ==> tokens[i].username != username
  {
    if Fetch(tokens, username) == [] {
      forall i | 0 <= i < |tokens| ensures tokens[i].username != username {
        assert tokens[i] in tokens;
      }
    }
  }

  /** Adding one record at the end adds it at the end of the result exactly
      when it has the username. */
  lemma FetchSnoc(tokens: seq<Record>, r: Record, username: string)
    ensures Fetch(tokens + [r], username) ==
      Fetch(tokens, username) + (if r.username == username then [r] else [])
  {
    assert (tokens + [r])[..|tokens|] == tokens;
  }

  /** After a record is appended for `username`, fetching that username
      gives what it gave before followed by the new record: the freshly
      created token is always found, last. */
  lemma FetchAfterAppend(tokens: seq<Record>, record: Record)
    ensures Fetch(tokens + [record], record.username) == Fetch(tokens, record.username) + [record]
  {
    FetchSnoc(tokens, record, record.username);
  }

  /** The search criteria that can match a record. */
  datatype Criterion = ByUsername | ByEmail | ByPhone

  /** One reported record and the criterion that reported it. */
  datatype Hit = Hit(record: Record, criterion: Criterion)

  /** An absent argument matches nothing; a present one matches an equal
      field. */
  predicate Is(arg: Option<string>, field: string) {
    arg.Some? && arg.value == field
  }

  /** The record matches at least one supplied criterion. */
  predicate Matches(r: Record, username: Option<string>, email: Option<string>, phone: Option<string>) {
    Is(username, r.username) || Is(email, r.email) || Is(phone, r.phone)
  }

  /** The criterion under which the `if / else if / else if` chain reports a
      record, if any: username first, then email, then phone. */
  function Reason(r: Record, username: Option<string>, email: Option<string>, phone: Option<string>)
    : (c: Option<Criterion>)
    ensures c.Some? <==> Matches(r, username, email, phone)
    ensures c == Some(ByUsername) ==> Is(username, r.username)
    ensures c == Some(ByEmail) ==> !Is(username, r.username) && Is(email, r.email)
    ensures c == Some(ByPhone) ==> !Is(username, r.username) && !Is(email, r.email) && Is(phone, r.phone)
  {
    if username == Some(r.username) then Some(ByUsername)
    else if email == Some(r.email) then Some(ByEmail)
    else if phone == Some(r.phone) then Some(ByPhone)
    else None
  }

  /** The records of a list of hits. */
  function Records(hits: seq<Hit>): (rs: seq<Record>)
    ensures |rs| == |hits|
    ensures forall i :: 0 <= i < |hits| ==> rs[i] == hits[i].record
  {
    seq(|hits|, i requires 0 <= i < |hits| => hits[i].record)
  }

  /** What the chain reports for one record: nothing, or the record with
      the criterion that caught it. */
  function HitsOf(r: Record, username: Option<string>, email: Option<string>, phone: Option<string>)
    : (more: seq<Hit>)
    ensures |more| <= 1
    ensures more == [] <==> !Matches(r, username, email, phone)
    ensures forall h :: h in more ==> h.record == r && Reason(r, username, email, phone) == Some(h.criterion)
  {
    match Reason(r, username, email, phone)
    case Some(c) => [Hit(r, c)]
    case None => []
  }

  /** The hits `searchToken(username, email, phone)` reports, in collection
      order. */
  function Search(tokens: seq<Record>, username: Option<string>, email: Option<string>, phone: Option<string>)
    : (hits: seq<Hit>)
    ensures |hits| <= |tokens|
  {
    if tokens == [] then []
    else
      var init, last := tokens[..|tokens| - 1], tokens[|tokens| - 1];
      assert tokens == init + [last];
      Search(init, username, email, phone) + HitsOf(last, username, email, phone)
  }

  /** Every hit is a record of the collection, paired with the criterion
      the chain picks for it. */
  lemma {:induction false} SearchSound(tokens: seq<Record>, username: Option<string>,
                                       email: Option<string>, phone: Option<string>)
    ensures forall h :: h in Search(tokens, username, email, phone) ==>
      h.record in tokens && Reason(h.record, username, email, phone) == Some(h.criterion)
  {
    if tokens != [] {
      var init, last := tokens[..|tokens| - 1], tokens[|tokens| - 1];
      SearchSound(init, username, email, phone);
      assert tokens == init + [last];
    }
  }

  /** Adding one record at the end adds at most its own hit at the end. */
  lemma SearchSnoc(tokens: seq<Record>, r: Record,
                   username: Option<string>, email: Option<string>, phone: Option<string>)
    ensures Search(tokens + [r], username, email, phone) ==
      Search(tokens, username, email, phone) + HitsOf(r, username, email, phone)
  {
    assert (tokens + [r])[..|tokens|] == tokens;
  }

  lemma SplitLast<T>(a: seq<T>, b: seq<T>)
    requires b != []
    ensures b == b[..|b| - 1] + [b[|b| - 1]]
    ensures a + b == (a + b[..|b| - 1]) + [b[|b| - 1]]
  {
    assert b == b[..|b| - 1] + [b[|b| - 1]];
  }

  /** Searching over two concatenated collections is searching over each, in
      order. */
  lemma {:induction false} SearchAppend(a: seq<Record>, b: seq<Record>,
                                        username: Option<string>, email: Option<string>, phone: Option<string>)
    ensures Search(a + b, username, email, phone) ==
      Search(a, username, email, phone) + Search(b, username, email, phone)
    decreases |b|
  {
    if b == [] {
      assert a + b == a;
    } else {
      var init, last := b[..|b| - 1], b[|b| - 1];
      SplitLast(a, b);
      SearchAppend(a, init, username, email, phone);
      SearchSnoc(a + init, last, username, email, phone);
      SearchSnoc(init, last, username, email, phone);
    }
  }

  lemma RecordsAppend(x: seq<Hit>, y: seq<Hit>)
    ensures Records(x + y) == Records(x) + Records(y)
  {
  }

  /** Each occurrence of a matching record is reported exactly once (never
      twice, whatever number of criteria it meets), and nothing else is. */
  lemma {:induction false} SearchMultiplicity(tokens: seq<Record>, username: Option<string>,
                                              email: Option<string>, phone: Option<string>, r: Record)
    ensures multiset(Records(Search(tokens, username, email, phone)))[r] ==
      if Matches(r, username, email, phone) then multiset(tokens)[r] else 0
  {
    if tokens != [] {
      var init, last := tokens[..|tokens| - 1], tokens[|tokens| - 1];
      assert tokens == init + [last];
      SearchMultiplicity(init, username, email, phone, r);
      SearchSnoc(init, last, username, email, phone);
      var more := HitsOf(last, username, email, phone);
      RecordsAppend(Search(init, username, email, phone), more);
      assert Records(more) == if Matches(last, username, email, phone) then [last] else [];
    }
  }

  /** With no match the search reports nothing; when it reports nothing, no
      record matched. */
  lemma SearchEmpty(tokens: seq<Record>, username: Option<string>, email: Option<string>, phone: Option<string>)
    ensures Search(tokens, username, email, phone) == [] <==>
      forall i :: 0 <= i < |tokens| ==> !Matches(tokens[i], username, email, phone)
  {
    var hits := Search(tokens, username, email, phone);
    if hits == [] {
      forall i | 0 <= i < |tokens| ensures !Matches(tokens[i], username, email, phone) {
        SearchMultiplicity(tokens, username, email, phone, tokens[i]);
        assert tokens[i] in multiset(tokens);
      }
    } else {
      assert hits[0] in hits;
    }
  }

  /** `--search u <name>` reports the same records as `--fetch <name>`, each
      under the username criterion. */
  lemma {:induction false} SearchByUsernameIsFetch(tokens: seq<Record>, username: string)
    ensures Records(Search(tokens, Some(username), None, None)) == Fetch(tokens, username)
    ensures forall h :: h in Search(tokens, Some(username), None, None) ==> h.criterion == ByUsername
  {
    if tokens != [] {
      var init, last := tokens[..|tokens| - 1], tokens[|tokens| - 1];
      SplitLast([], tokens);
      SearchByUsernameIsFetch(init, username);
      SearchSnoc(init, last, Some(username), None, None);
      FetchSnoc(init, last, username);
      var more := HitsOf(last, Some(username), None, None);
      RecordsAppend(Search(init, Some(username), None, None), more);
      assert Records(more) == if last.username == username then [last] else [];
    }
  }
}
