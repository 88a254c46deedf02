/** Digest authentication of inbound INVITEs over a bounded list of challenges. */
module DigestAuth {
  import opened Wrappers
  import opened Traces

  const DIGEST_LIMIT: nat := 500

  /** Realm and algorithm are fixed, so a challenge is its nonce. */
  datatype Challenge = Challenge(nonce: int)

  datatype InProgress = InProgress(sipCallID: string, challenge: Option<Challenge>)

  /** The Proxy-Authorization header. */
  datatype Header = Malformed | Credentials(uri: string, username: string, response: string)

  datatype Request = Request(sipCallID: string, now: int, header: Option<Header>, username: string, password: string)

  datatype Answer = NotRequired | Challenged(challenge: Challenge) | BadCredentials | Unauthorized | Authenticated

  /** The digest library: the response to a challenge for a URI, a user name and a password, if it can be computed. */
  type Digest = (Challenge, string, string, string) -> Option<string>

  function Find(invites: seq<InProgress>, sipCallID: string): (i: nat)
    ensures i <= |invites|
    ensures i < |invites| ==> invites[i].sipCallID == sipCallID
    ensures forall j :: 0 <= j < i ==> invites[j].sipCallID != sipCallID
  {
    if invites == [] || invites[0].sipCallID == sipCallID then 0 else 1 + Find(invites[1..], sipCallID)
  }

  /** getInvite: the list afterwards, and where the entry is. */
  function Getting(invites: seq<InProgress>, sipCallID: string): (r: (seq<InProgress>, nat))
    ensures r.1 < |r.0| && r.0[r.1].sipCallID == sipCallID
  {
    var i := Find(invites, sipCallID);
    if i < |invites| then (invites, i)
    else
      var kept := if |invites| >= DIGEST_LIMIT then invites[1..] else invites;
      (kept + [InProgress(sipCallID, None)], |kept|)
  }

  predicate HasCredentials(r: Request) {
    r.username != "" && r.password != ""
  }

  /** The verdict on a header against the challenge on file. */
  function Verdict(digest: Digest, challenge: Option<Challenge>, header: Header, password: string): Answer {
    if header.Malformed? || challenge.None? then BadCredentials
    else
      var expected := digest(challenge.value, header.uri, header.username, password);
      if expected.None? then BadCredentials
      else if header.response != expected.value then Unauthorized
      else Authenticated
  }

  function Answering(digest: Digest, invites: seq<InProgress>, r: Request): (seq<InProgress>, Answer) {
    if !HasCredentials(r) then (invites, NotRequired)
    else
      var (list, i) := Getting(invites, r.sipCallID);
      match r.header
      case None =>
        var challenge := Challenge(r.now);
        (list[i := InProgress(r.sipCallID, Some(challenge))], Challenged(challenge))
      case Some(header) => (list, Verdict(digest, list[i].challenge, header, r.password))
  }

  class Server {
    var inProgressInvites: seq<InProgress>

    constructor ()
      ensures inProgressInvites == []
    {
      inProgressInvites := [];
    }

    method GetInvite(sipCallID: string) returns (i: nat)
      modifies this
      ensures (inProgressInvites, i) == Getting(old(inProgressInvites), sipCallID)
    {
      i := 0;
      while i < |inProgressInvites|
        invariant 0 <= i <= |inProgressInvites|
        invariant forall j :: 0 <= j < i ==> inProgressInvites[j].sipCallID != sipCallID
      {
        if inProgressInvites[i].sipCallID == sipCallID {
          return;
        }
        i := i + 1;
      }
      if |inProgressInvites| >= DIGEST_LIMIT {
        inProgressInvites := inProgressInvites[1..];
      }
      inProgressInvites := inProgressInvites + [InProgress(sipCallID, None)];
      i := |inProgressInvites| - 1;
    }

    method HandleInviteAuth(digest: Digest, r: Request) returns (answer: Answer)
      modifies this
      ensures (inProgressInvites, answer) == Answering(digest, old(inProgressInvites), r)
    {
      if r.username == "" || r.password == "" {
        return NotRequired;
      }
      var i := GetInvite(r.sipCallID);
      var state := inProgressInvites[i];
      match r.header {
        case None =>
          var challenge := Challenge(r.now);
          inProgressInvites := inProgressInvites[i := state.(challenge := Some(challenge))];
          return Challenged(challenge);
        case Some(Malformed) =>
          return BadCredentials;
        case Some(Credentials(uri, username, response)) =>
          if state.challenge.None? {
            return BadCredentials;
          }
          var expected := digest(state.challenge.value, uri, username, r.password);
          if expected.None? {
            return BadCredentials;
          }
          if response != expected.value {
            return Unauthorized;
          }
          return Authenticated;
      }
    }
  }

  // ----- The reference: an unbounded map that remembers when each entry was inserted -----

  datatype Record = Record(at: nat, challenge: Option<Challenge>)

  datatype Book = Book(insertions: nat, records: map<string, Record>)

  /** An entry is held until DIGEST_LIMIT later insertions. */
  predicate Held(b: Book, sipCallID: string) {
    sipCallID in b.records && b.insertions - b.records[sipCallID].at <= DIGEST_LIMIT
  }

  function Touched(b: Book, sipCallID: string): (t: Book)
    ensures sipCallID in t.records
  {
    if Held(b, sipCallID) then b
    else Book(b.insertions + 1, b.records[sipCallID := Record(b.insertions, None)])
  }

  function Issued(b: Book, r: Request): Book {
    if !HasCredentials(r) then b
    else
      var t := Touched(b, r.sipCallID);
      if r.header.Some? then t
      else t.(records := t.records[r.sipCallID := t.records[r.sipCallID].(challenge := Some(Challenge(r.now)))])
  }

  function InitialBook(): Book {
    Book(0, map[])
  }

  /** Place i of the list is the i-th of the book's last |invites| insertions. */
  ghost predicate Matches(invites: seq<InProgress>, b: Book, i: nat)
    requires i < |invites|
  {
    && invites[i].sipCallID in b.records
    && b.records[invites[i].sipCallID].at == b.insertions - |invites| + i
    && b.records[invites[i].sipCallID].challenge == invites[i].challenge
  }

  /** An entry that the book holds has its place on the list. */
  ghost predicate Placed(invites: seq<InProgress>, b: Book, id: string)
    requires id in b.records
  {
    var i := b.records[id].at - (b.insertions - |invites|);
    0 <= i < |invites| && invites[i].sipCallID == id
  }

  /** The list is the last min(DIGEST_LIMIT, N) of N insertions, in order. */
  ghost predicate Window(invites: seq<InProgress>, b: Book) {
    && |invites| == (if b.insertions <= DIGEST_LIMIT then b.insertions else DIGEST_LIMIT)
    && (forall i :: 0 <= i < |invites| ==> Matches(invites, b, i))
    && (forall id :: id in b.records ==> b.records[id].at < b.insertions && (Held(b, id) ==> Placed(invites, b, id)))
  }

  lemma FindIffHeld(invites: seq<InProgress>, b: Book, id: string)
    requires Window(invites, b)
    ensures Find(invites, id) < |invites| <==> Held(b, id)
    ensures Held(b, id) ==> Find(invites, id) == b.records[id].at - (b.insertions - |invites|)
  {
    var i := Find(invites, id);
    if i < |invites| {
      assert Matches(invites, b, i);
    }
    if Held(b, id) {
      assert Placed(invites, b, id);
    }
  }

  lemma GettingKeepsWindow(invites: seq<InProgress>, b: Book, id: string)
    requires Window(invites, b)
    ensures Window(Getting(invites, id).0, Touched(b, id)) && Held(Touched(b, id), id)
  {
    FindIffHeld(invites, b, id);
    if !Held(b, id) {
      var (list, n) := Getting(invites, id);
      var t := Touched(b, id);
      var off := if |invites| >= DIGEST_LIMIT then 1 else 0;
      assert |list| == |invites| - off + 1 && n == |invites| - off;
      forall i | 0 <= i < |list| ensures Matches(list, t, i) {
        if i < n {
          assert list[i] == invites[i + off] && Matches(invites, b, i + off);
        }
      }
      forall k | k in t.records ensures t.records[k].at < t.insertions && (Held(t, k) ==> Placed(list, t, k)) {
        if k != id && Held(t, k) {
          assert Held(b, k) && Placed(invites, b, k);
        }
      }
    }
  }

  /** So the Call-IDs on the list are pairwise distinct. */
  lemma CallIDsAreDistinct(invites: seq<InProgress>, b: Book, i: nat, j: nat)
    requires Window(invites, b) && i < j < |invites|
    ensures invites[i].sipCallID != invites[j].sipCallID
  {
    assert Matches(invites, b, i) && Matches(invites, b, j);
  }

  lemma ChallengeKeepsWindow(invites: seq<InProgress>, b: Book, i: nat, c: Challenge)
    requires Window(invites, b) && i < |invites| && invites[i].sipCallID in b.records
    ensures var id := invites[i].sipCallID;
            Window(invites[i := InProgress(id, Some(c))],
                   b.(records := b.records[id := b.records[id].(challenge := Some(c))]))
  {
    var id := invites[i].sipCallID;
    var list := invites[i := InProgress(id, Some(c))];
    var t := b.(records := b.records[id := b.records[id].(challenge := Some(c))]);
    forall j | 0 <= j < |list| ensures Matches(list, t, j) {
      assert Matches(invites, b, j);
      if j < i {
        CallIDsAreDistinct(invites, b, j, i);
      } else if i < j {
        CallIDsAreDistinct(invites, b, i, j);
      }
    }
    forall k | k in t.records ensures t.records[k].at < t.insertions && (Held(t, k) ==> Placed(list, t, k)) {
      assert k in b.records && t.records[k].at == b.records[k].at;
      if Held(t, k) {
        assert Placed(invites, b, k);
      }
    }
  }

  /** One request: the list follows the book, and every lookup agrees with the book's. */
  lemma AnsweringFollowsBook(digest: Digest, invites: seq<InProgress>, b: Book, r: Request)
    requires Window(invites, b)
    ensures Window(Answering(digest, invites, r).0, Issued(b, r))
    ensures HasCredentials(r) && r.header.Some? ==>
              Answering(digest, invites, r).1
                == Verdict(digest, if Held(b, r.sipCallID) then b.records[r.sipCallID].challenge else None,
                           r.header.value, r.password)
  {
    if HasCredentials(r) {
      FindIffHeld(invites, b, r.sipCallID);
      GettingKeepsWindow(invites, b, r.sipCallID);
      var (list, i) := Getting(invites, r.sipCallID);
      if r.header.None? {
        assert Matches(list, Touched(b, r.sipCallID), i);
        ChallengeKeepsWindow(list, Touched(b, r.sipCallID), i, Challenge(r.now));
      }
    }
  }

  // ----- Whole runs -----

  function ListStep(digest: Digest): (seq<InProgress>, Request) -> seq<InProgress> {
    (invites, r) => Answering(digest, invites, r).0
  }

  /** Over every run the bounded list is the window of the unbounded book. */
  lemma {:induction false} WindowOverRuns(digest: Digest, requests: seq<Request>)
    ensures Window(Run(ListStep(digest), [], requests), Run(Issued, InitialBook(), requests))
    decreases |requests|
  {
    if requests != [] {
      var n := |requests| - 1;
      WindowOverRuns(digest, requests[..n]);
      RunNext(ListStep(digest), [], requests, n);
      RunNext(Issued, InitialBook(), requests, n);
      assert requests[..n + 1] == requests;
      AnsweringFollowsBook(digest, Run(ListStep(digest), [], requests[..n]),
                           Run(Issued, InitialBook(), requests[..n]), requests[n]);
    }
  }

  /** The answer to a request that comes after those. */
  function AnswerAfter(digest: Digest, requests: seq<Request>, r: Request): Answer {
    Answering(digest, Run(ListStep(digest), [], requests), r).1
  }

  /** The challenge that was sent last for a Call-ID. */
  function LatestChallenge(digest: Digest, requests: seq<Request>, sipCallID: string): Option<Challenge> {
    if requests == [] then None
    else
      var front, r := requests[..|requests| - 1], requests[|requests| - 1];
      var answer := AnswerAfter(digest, front, r);
      if r.sipCallID == sipCallID && answer.Challenged? then Some(answer.challenge)
      else LatestChallenge(digest, front, sipCallID)
  }

  /** A request without the header gets a challenge, and that challenge goes on file. */
  lemma ChallengesIff(digest: Digest, requests: seq<Request>, r: Request)
    ensures AnswerAfter(digest, requests, r).Challenged? <==> HasCredentials(r) && r.header.None?
    ensures var t := Run(Issued, InitialBook(), requests + [r]);
            AnswerAfter(digest, requests, r).Challenged? ==>
              && r.sipCallID in t.records && Held(t, r.sipCallID)
              && t.records[r.sipCallID].challenge == Some(AnswerAfter(digest, requests, r).challenge)
  {
    RunSnoc(Issued, InitialBook(), requests, r);
    WindowOverRuns(digest, requests);
    GettingKeepsWindow(Run(ListStep(digest), [], requests), Run(Issued, InitialBook(), requests), r.sipCallID);
  }

  lemma {:induction false} RecordsHoldLatest(digest: Digest, requests: seq<Request>, id: string)
    ensures var b := Run(Issued, InitialBook(), requests);
            id in b.records && b.records[id].challenge.Some? ==>
              b.records[id].challenge == LatestChallenge(digest, requests, id)
    decreases |requests|
  {
    if requests != [] {
      var n := |requests| - 1;
      RecordsHoldLatest(digest, requests[..n], id);
      ChallengesIff(digest, requests[..n], requests[n]);
      assert requests[..n] + [requests[n]] == requests;
      RunSnoc(Issued, InitialBook(), requests[..n], requests[n]);
    }
  }

  /** The challenge that a header is held against: the one sent last, while it is on file. */
  function OnFile(digest: Digest, requests: seq<Request>, id: string): Option<Challenge> {
    var b := Run(Issued, InitialBook(), requests);
    if Held(b, id) && b.records[id].challenge.Some? then LatestChallenge(digest, requests, id) else None
  }

  /** The response that the digest library computes for the header, if it can. */
  function Expected(digest: Digest, requests: seq<Request>, r: Request): Option<string> {
    if r.header.None? || r.header.value.Malformed? || OnFile(digest, requests, r.sipCallID).None? then None
    else digest(OnFile(digest, requests, r.sipCallID).value, r.header.value.uri, r.header.value.username, r.password)
  }

  /** Which answer is given when, after any requests. */
  lemma AnswersIff(digest: Digest, requests: seq<Request>, r: Request)
    ensures var answer, expected := AnswerAfter(digest, requests, r), Expected(digest, requests, r);
            && (answer == NotRequired <==> r.username == "" || r.password == "")
            && (answer.Challenged? <==> r.username != "" && r.password != "" && r.header.None?)
            && (answer == BadCredentials <==>
                  r.username != "" && r.password != "" && r.header.Some? && expected.None?)
            && (answer == Unauthorized <==>
                  r.username != "" && r.password != "" && expected.Some? && r.header.value.response != expected.value)
            && (answer == Authenticated <==>
                  r.username != "" && r.password != "" && expected.Some? && r.header.value.response == expected.value)
  {
    var b := Run(Issued, InitialBook(), requests);
    WindowOverRuns(digest, requests);
    AnsweringFollowsBook(digest, Run(ListStep(digest), [], requests), b, r);
    RecordsHoldLatest(digest, requests, r.sipCallID);
  }

  /** After any sequence of requests, an INVITE with credentials configured is authenticated exactly
      when its Call-ID is still held with a challenge, and its response is the digest of the challenge
      sent last for that Call-ID. */
  lemma AuthenticatesIff(digest: Digest, requests: seq<Request>, r: Request)
    requires HasCredentials(r)
    ensures var b := Run(Issued, InitialBook(), requests);
            (AnswerAfter(digest, requests, r) == Authenticated
             <==> && r.header.Some? && r.header.value.Credentials?
                  && Held(b, r.sipCallID) && b.records[r.sipCallID].challenge.Some?
                  && LatestChallenge(digest, requests, r.sipCallID).Some?
                  && digest(LatestChallenge(digest, requests, r.sipCallID).value, r.header.value.uri,
                            r.header.value.username, r.password) == Some(r.header.value.response))
  {
    AnswersIff(digest, requests, r);
    RecordsHoldLatest(digest, requests, r.sipCallID);
  }

  /** No later request of that Call-ID asks for another challenge. */
  ghost predicate NoNewer(requests: seq<Request>, id: string) {
    forall r :: r in requests && r.sipCallID == id ==> r.header.Some? || !HasCredentials(r)
  }

  /** A challenge stays on file until the limit is reached or a newer one is sent. */
  lemma {:induction false} ChallengeStays(b: Book, id: string, requests: seq<Request>)
    requires id in b.records && b.records[id].at < b.insertions && NoNewer(requests, id)
    requires b.insertions - b.records[id].at + Insertions(b, requests) <= DIGEST_LIMIT
    ensures var t := Run(Issued, b, requests); Held(t, id) && t.records[id] == b.records[id]
    decreases |requests|
  {
    if requests != [] {
      assert requests[0] in requests;
      ChallengeStays(Issued(b, requests[0]), id, requests[1..]);
    }
  }

  /** The whole exchange: whoever answers the challenge he was sent with its digest is authenticated, as
      long as the entry survives the insertions in between and no newer challenge was sent. */
  lemma ChallengeRoundTrip(digest: Digest, before: seq<Request>, first: Request, between: seq<Request>, second: Request)
    requires AnswerAfter(digest, before, first).Challenged? && NoNewer(between, first.sipCallID)
    requires var b := Run(Issued, InitialBook(), before + [first]);
             first.sipCallID in b.records &&
             b.insertions - b.records[first.sipCallID].at + Insertions(b, between) <= DIGEST_LIMIT
    requires HasCredentials(second) && second.sipCallID == first.sipCallID
    requires second.header.Some? && second.header.value.Credentials?
    requires digest(AnswerAfter(digest, before, first).challenge, second.header.value.uri,
                    second.header.value.username, second.password) == Some(second.header.value.response)
    ensures AnswerAfter(digest, before + [first] + between, second) == Authenticated
  {
    var b := Run(Issued, InitialBook(), before + [first]);
    var all := before + [first] + between;
    ChallengesIff(digest, before, first);
    WindowOverRuns(digest, before + [first]);
    ChallengeStays(b, first.sipCallID, between);
    RunConcat(Issued, InitialBook(), before + [first], between);
    RecordsHoldLatest(digest, all, first.sipCallID);
    AuthenticatesIff(digest, all, second);
  }

  /** How many of the requests insert an entry: those whose Call-ID is not held. */
  function Insertions(b: Book, requests: seq<Request>): nat
    decreases |requests|
  {
    if requests == [] then 0
    else
      var r := requests[0];
      (if HasCredentials(r) && !Held(b, r.sipCallID) then 1 else 0) + Insertions(Issued(b, r), requests[1..])
  }

  /** Whatever requests follow, for its own Call-ID too, an entry just inserted survives exactly until
      500 later insertions. */
  lemma HeldUntilLimit(b: Book, id: string, requests: seq<Request>)
    requires id in b.records && b.records[id].at + 1 == b.insertions
    ensures var t := Run(Issued, b, requests);
            && id in t.records
            && (Held(t, id) && t.records[id].at == b.records[id].at <==> Insertions(b, requests) < 500)
  {
    InsertionsCount(b, id, b.records[id].at, requests);
  }

  /** The entry made at insertion `at` is only replaced once it is not held any more. */
  lemma {:induction false} InsertionsCount(b: Book, id: string, at: nat, requests: seq<Request>)
    requires id in b.records && (b.records[id].at == at || b.insertions - at > DIGEST_LIMIT)
    ensures var t := Run(Issued, b, requests);
            && t.insertions == b.insertions + Insertions(b, requests)
            && id in t.records && (t.records[id].at == at || t.insertions - at > DIGEST_LIMIT)
    decreases |requests|
  {
    if requests != [] {
      InsertionsCount(Issued(b, requests[0]), id, at, requests[1..]);
    }
  }
}
