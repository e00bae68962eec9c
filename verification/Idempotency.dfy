/** POST replay: the write-once store and the order of steps in a request. */
module Idempotency {
  import opened Common

  const NUL: char := '\0'

  /** SHA-256 is taken as injective, so a file is named by the text that is hashed. */
  function Slot(verb: string, path: string, key: string): string {
    verb + [NUL] + (path + [NUL] + key)
  }

  function RequestHash(verb: string, path: string, body: string): string {
    verb + [NUL] + (path + [NUL] + body)
  }

  datatype Response = Response(status: int, body: string)
  datatype Entry = Entry(requestHash: string, response: Response)

  datatype Request = Request(verb: string, path: string, headers: map<string, string>, body: string)

  /** What happens around the store: authentication and rate limit, then the dispatch. Failures carry a status. */
  datatype Surroundings = Surroundings(admission: Option<int>, dispatch: Result<Response, int>)

  datatype Reply = Reply(response: Response, dispatched: bool, replayed: bool)

  function OptionalHeader(headers: map<string, string>, name: string): Option<string> {
    if name in headers && Strip(headers[name]) != "" then Some(Strip(headers[name])) else None
  }

  const WEBHOOKS := "/v1/webhooks/"

  function FirstHeader(headers: map<string, string>, names: seq<string>): Option<string> {
    if names == [] then None
    else
      var value := OptionalHeader(headers, names[0]);
      if value.Some? then value else FirstHeader(headers, names[1..])
  }

  function IdempotencyKey(r: Request): Option<string> {
    if r.verb != "POST" then None
    else if WEBHOOKS <= r.path then
      FirstHeader(r.headers, ["x-github-delivery", "x-atlassian-webhook-identifier", "x-slack-request-timestamp",
                              "idempotency-key"])
    else OptionalHeader(r.headers, "idempotency-key")
  }

  /** The header is there and holds `value`, apart from white space around it, and that is not empty. */
  predicate Carries(r: Request, name: string, value: string) {
    name in r.headers && Strip(r.headers[name]) == value && value != ""
  }

  predicate Lacks(r: Request, name: string) {
    name !in r.headers || Strip(r.headers[name]) == ""
  }

  /**
   Which header identifies a request: for a webhook the sender's own delivery header, GitHub's
   before Jira's before Slack's before the general one; for any other POST the general one alone.
   */
  lemma KeyIs(r: Request, value: string)
    ensures r.verb != "POST" ==> IdempotencyKey(r) == None
    ensures r.verb == "POST" && !("/v1/webhooks/" <= r.path) ==>
      (IdempotencyKey(r) == Some(value) <==> Carries(r, "idempotency-key", value))
    ensures r.verb == "POST" && "/v1/webhooks/" <= r.path ==>
      (IdempotencyKey(r) == Some(value)
       <==> || Carries(r, "x-github-delivery", value)
            || (Lacks(r, "x-github-delivery") && Carries(r, "x-atlassian-webhook-identifier", value))
            || (Lacks(r, "x-github-delivery") && Lacks(r, "x-atlassian-webhook-identifier")
                && Carries(r, "x-slack-request-timestamp", value))
            || (Lacks(r, "x-github-delivery") && Lacks(r, "x-atlassian-webhook-identifier")
                && Lacks(r, "x-slack-request-timestamp") && Carries(r, "idempotency-key", value)))
  {
    FirstOfFour(r.headers, "x-github-delivery", "x-atlassian-webhook-identifier", "x-slack-request-timestamp",
                "idempotency-key");
    assert WEBHOOKS == "/v1/webhooks/";
  }

  lemma FirstOfFour(headers: map<string, string>, a: string, b: string, c: string, d: string)
    ensures var x, y, z := OptionalHeader(headers, a), OptionalHeader(headers, b), OptionalHeader(headers, c);
      FirstHeader(headers, [a, b, c, d])
        == if x.Some? then x else if y.Some? then y else if z.Some? then z else OptionalHeader(headers, d)
  {
    assert [a, b, c, d][1..] == [b, c, d] && [b, c, d][1..] == [c, d] && [c, d][1..] == [d] && [d][1..] == [];
    assert FirstHeader(headers, [d]) == OptionalHeader(headers, d);
    assert FirstHeader(headers, [c, d]) == if OptionalHeader(headers, c).Some? then OptionalHeader(headers, c)
                                           else OptionalHeader(headers, d);
  }

  class FileIdempotencyStore {
    var files: map<string, Entry>

    constructor ()
      ensures files == map[]
    {
      files := map[];
    }

    /** The stored response, nothing, or a conflict. */
    method Replay(r: Request, key: string) returns (result: Result<Option<Response>, int>)
      ensures var slot := Slot(r.verb, r.path, key);
        result == if slot !in files then Success(None)
                  else if files[slot].requestHash != RequestHash(r.verb, r.path, r.body) then Failure(409)
                  else Success(Some(files[slot].response))
    {
      var slot := Slot(r.verb, r.path, key);
      if slot !in files {
        return Success(None);
      }
      if files[slot].requestHash != RequestHash(r.verb, r.path, r.body) {
        return Failure(409);
      }
      return Success(Some(files[slot].response));
    }

    method Save(r: Request, key: string, response: Response)
      modifies this
      ensures files == old(files)[Slot(r.verb, r.path, key) := Entry(RequestHash(r.verb, r.path, r.body), response)]
    {
      files := files[Slot(r.verb, r.path, key) := Entry(RequestHash(r.verb, r.path, r.body), response)];
    }
  }

  function ErrorReply(status: int, dispatched: bool): Reply {
    Reply(Response(status, "error"), dispatched, false)
  }

  class ControlPlaneApi {
    const store: FileIdempotencyStore

    constructor (store: FileIdempotencyStore)
      ensures this.store == store
    {
      this.store := store;
    }

    method HandleRequest(r: Request, around: Surroundings) returns (reply: Reply)
      modifies store
      ensures (store.files, reply) == Handle(old(store.files), r, around)
    {
      if r.verb == "OPTIONS" {
        return Reply(Response(204, ""), false, false);
      }
      if around.admission.Some? {
        return ErrorReply(around.admission.value, false);
      }
      var key := IdempotencyKey(r);
      if key.Some? {
        var replay := store.Replay(r, key.value);
        if replay.Failure? {
          return ErrorReply(replay.error, false);
        }
        if replay.value.Some? {
          return Reply(replay.value.value, false, true);
        }
      }
      if around.dispatch.Failure? {
        return ErrorReply(around.dispatch.error, true);
      }
      if key.Some? && around.dispatch.value.status < 500 {
        store.Save(r, key.value, around.dispatch.value);
      }
      return Reply(around.dispatch.value, true, false);
    }
  }

  /** The store and the reply after one request. */
  function Handle(files: map<string, Entry>, r: Request, around: Surroundings): (map<string, Entry>, Reply) {
    var key := IdempotencyKey(r);
    var slot := if key.Some? then Slot(r.verb, r.path, key.value) else "";
    if r.verb == "OPTIONS" then (files, Reply(Response(204, ""), false, false))
    else if around.admission.Some? then (files, ErrorReply(around.admission.value, false))
    else if key.Some? && slot in files then
      if files[slot].requestHash != RequestHash(r.verb, r.path, r.body) then (files, ErrorReply(409, false))
      else (files, Reply(files[slot].response, false, true))
    else
      match around.dispatch
      case Failure(status) => (files, ErrorReply(status, true))
      case Success(response) =>
        if key.None? || response.status >= 500 then (files, Reply(response, true, false))
        else (files[slot := Entry(RequestHash(r.verb, r.path, r.body), response)], Reply(response, true, false))
  }

  // ---- Sequences of requests --------------------------------------------------

  datatype Exchange = Exchange(request: Request, around: Surroundings)

  function Files(xs: seq<Exchange>): map<string, Entry> {
    if xs == [] then map[]
    else Handle(Files(xs[..|xs| - 1]), xs[|xs| - 1].request, xs[|xs| - 1].around).0
  }

  function ReplyTo(xs: seq<Exchange>, n: nat): Reply
    requires n < |xs|
  {
    Handle(Files(xs[..n]), xs[n].request, xs[n].around).1
  }

  /** Exchange `n` wrote a file for `slot`. */
  predicate Writes(xs: seq<Exchange>, n: nat, slot: string)
    requires n < |xs|
  {
    var x := xs[n];
    && x.request.verb != "OPTIONS" && x.around.admission.None? && ReplyTo(xs, n).dispatched
    && x.around.dispatch.Success? && x.around.dispatch.value.status < 500
    && IdempotencyKey(x.request).Some? && Slot(x.request.verb, x.request.path, IdempotencyKey(x.request).value) == slot
  }

  lemma FilesNext(xs: seq<Exchange>, n: nat)
    requires n < |xs|
    ensures Files(xs[..n + 1]) == Handle(Files(xs[..n]), xs[n].request, xs[n].around).0
  {
    assert xs[..n + 1][..n] == xs[..n];
  }

  /** A file, once written, keeps its contents. */
  lemma {:induction false} EntriesStay(xs: seq<Exchange>, m: nat, n: nat, slot: string)
    requires m <= n <= |xs| && slot in Files(xs[..m])
    ensures slot in Files(xs[..n]) && Files(xs[..n])[slot] == Files(xs[..m])[slot]
  {
    if m < n {
      EntriesStay(xs, m, n - 1, slot);
      FilesNext(xs, n - 1);
    }
  }

  /** Over any sequence of requests a file is written at most once. */
  lemma WrittenOnce(xs: seq<Exchange>, m: nat, n: nat, slot: string)
    requires m < n < |xs| && Writes(xs, m, slot)
    ensures !Writes(xs, n, slot)
  {
    FilesNext(xs, m);
    EntriesStay(xs, m + 1, n, slot);
  }

  lemma {:induction false} AppendCancels(a: string, b: string, c: string)
    ensures a + b == a + c <==> b == c
  {
    assert (a + b)[|a|..] == b && (a + c)[|a|..] == c;
  }

  /** For one method and path, equal hashes mean equal bodies. */
  lemma HashIsBody(verb: string, path: string, b1: string, b2: string)
    ensures RequestHash(verb, path, b1) == RequestHash(verb, path, b2) <==> b1 == b2
  {
    AppendCancels(verb + [NUL], path + [NUL] + b1, path + [NUL] + b2);
    AppendCancels(path + [NUL], b1, b2);
    assert verb + [NUL] + (path + [NUL] + b1) == (verb + [NUL]) + (path + [NUL] + b1);
  }

  /**
   After a request with a key has been dispatched and stored, every later request with the
   same path and key that gets as far as the replay is answered without a dispatch: with the
   stored response if its body is the same, with 409 if not.
   */
  lemma ReplaysForEver(xs: seq<Exchange>, m: nat, n: nat)
    requires m < n < |xs|
    requires var x, y := xs[m].request, xs[n].request;
      && IdempotencyKey(x).Some? && IdempotencyKey(y) == IdempotencyKey(x) && y.path == x.path
      && Writes(xs, m, Slot(x.verb, x.path, IdempotencyKey(x).value))
      && xs[n].around.admission.None?
    ensures var x, y := xs[m].request, xs[n].request;
      ReplyTo(xs, n) == if y.body == x.body then Reply(xs[m].around.dispatch.value, false, true) else ErrorReply(409, false)
  {
    var x, y := xs[m].request, xs[n].request;
    FilesNext(xs, m);
    EntriesStay(xs, m + 1, n, Slot(x.verb, x.path, IdempotencyKey(x).value));
    HashIsBody(x.verb, x.path, x.body, y.body);
  }

  // ---- Slots --------------------------------------------------------------------

  /** The second path and key are the first ones with the separating NUL further left. */
  predicate Absorbs(p1: string, k1: string, p2: string, k2: string) {
    p1 + [NUL] <= p2 && k1 == p2[|p1| + 1..] + [NUL] + k2
  }

  lemma AbsorbsNul(p1: string, k1: string, p2: string, k2: string)
    ensures Absorbs(p1, k1, p2, k2) ==> NUL in p2 && NUL in k1
  {
    if Absorbs(p1, k1, p2, k2) {
      assert p2[|p1|] == NUL && k1[|p2| - |p1| - 1] == NUL;
    }
  }

  lemma AbsorbsMeets(p1: string, k1: string, p2: string, k2: string)
    requires Absorbs(p1, k1, p2, k2)
    ensures p1 + [NUL] + k1 == p2 + [NUL] + k2
  {
    assert p2 == p1 + [NUL] + p2[|p1| + 1..];
  }

  lemma MeetsAbsorbs(p1: string, k1: string, p2: string, k2: string)
    requires |p1| < |p2| && p1 + [NUL] + k1 == p2 + [NUL] + k2
    ensures Absorbs(p1, k1, p2, k2)
  {
    var s1, s2 := p1 + [NUL] + k1, p2 + [NUL] + k2;
    assert s1[..|p1| + 1] == p1 + [NUL] && s2[..|p1| + 1] == p2[..|p1| + 1];
    assert s1[|p1| + 1..] == k1 && s2[|p1| + 1..] == p2[|p1| + 1..] + [NUL] + k2;
  }

  lemma SamePathMeets(p1: string, k1: string, p2: string, k2: string)
    requires |p1| == |p2| && p1 + [NUL] + k1 == p2 + [NUL] + k2
    ensures p1 == p2 && k1 == k2
  {
    var s1, s2 := p1 + [NUL] + k1, p2 + [NUL] + k2;
    assert s1[..|p1|] == p1 && s2[..|p1|] == p2;
    assert s1[|p1| + 1..] == k1 && s2[|p1| + 1..] == k2;
  }

  lemma SlotTexts(p1: string, k1: string, p2: string, k2: string)
    ensures Slot("POST", p1, k1) == Slot("POST", p2, k2) <==> p1 + [NUL] + k1 == p2 + [NUL] + k2
  {
    AppendCancels("POST" + [NUL], p1 + [NUL] + k1, p2 + [NUL] + k2);
  }

  /** Two requests share a file iff they have the same path and key, or one path goes on with a NUL after the other. */
  lemma SlotsMeetIff(p1: string, k1: string, p2: string, k2: string)
    ensures Slot("POST", p1, k1) == Slot("POST", p2, k2)
       <==> (p1 == p2 && k1 == k2) || Absorbs(p1, k1, p2, k2) || Absorbs(p2, k2, p1, k1)
  {
    SlotTexts(p1, k1, p2, k2);
    if p1 + [NUL] + k1 == p2 + [NUL] + k2 {
      if |p1| < |p2| {
        MeetsAbsorbs(p1, k1, p2, k2);
      } else if |p2| < |p1| {
        MeetsAbsorbs(p2, k2, p1, k1);
      } else {
        SamePathMeets(p1, k1, p2, k2);
      }
    } else {
      if Absorbs(p1, k1, p2, k2) { AbsorbsMeets(p1, k1, p2, k2); }
      if Absorbs(p2, k2, p1, k1) { AbsorbsMeets(p2, k2, p1, k1); }
    }
  }

  /** Different paths can be brought to share a file, by some choice of keys, exactly when one goes on with a NUL after the other. */
  lemma PathsMayMeetIff(p1: string, p2: string)
    requires p1 != p2
    ensures (exists k1, k2 :: Slot("POST", p1, k1) == Slot("POST", p2, k2)) <==> p1 + [NUL] <= p2 || p2 + [NUL] <= p1
  {
    if k1, k2 :| Slot("POST", p1, k1) == Slot("POST", p2, k2) {
      SlotsMeetIff(p1, k1, p2, k2);
    }
    if p1 + [NUL] <= p2 {
      var k1 := p2[|p1| + 1..] + [NUL] + "";
      SlotsMeetIff(p1, k1, p2, "");
      assert Slot("POST", p1, k1) == Slot("POST", p2, "");
    } else if p2 + [NUL] <= p1 {
      var k2 := p1[|p2| + 1..] + [NUL] + "";
      SlotsMeetIff(p1, "", p2, k2);
      assert Slot("POST", p1, "") == Slot("POST", p2, k2);
    }
  }

  /** So requests share a file only for the same path and key, if either the paths or the keys hold no NUL. */
  lemma SlotsDiffer(p1: string, k1: string, p2: string, k2: string)
    requires (NUL !in p1 && NUL !in p2) || (NUL !in k1 && NUL !in k2)
    ensures Slot("POST", p1, k1) == Slot("POST", p2, k2) <==> p1 == p2 && k1 == k2
  {
    SlotsMeetIff(p1, k1, p2, k2);
    AbsorbsNul(p1, k1, p2, k2);
    AbsorbsNul(p2, k2, p1, k1);
  }

  const OK_REPLY := Surroundings(None, Success(Response(200, "done")))
  const LONG_PATH := "/a" + [NUL] + "b"
  const LONG_KEY := "b" + [NUL] + "c"
  const MEETING := [
    Exchange(Request("POST", LONG_PATH, map["idempotency-key" := "c"], "x"), OK_REPLY),
    Exchange(Request("POST", "/a", map["idempotency-key" := LONG_KEY], "x"), OK_REPLY)]

  lemma MeetingKeys()
    ensures IdempotencyKey(MEETING[0].request) == Some("c") && IdempotencyKey(MEETING[1].request) == Some(LONG_KEY)
  {
    assert Strip("c") == "c" && Strip(LONG_KEY) == LONG_KEY;
    assert !(WEBHOOKS <= LONG_PATH) && !(WEBHOOKS <= "/a") by {
      assert WEBHOOKS[1] == 'v';
    }
  }

  /** Two requests with different paths and keys: the first is stored, and the second is refused for it. */
  lemma FreshRequestIsRefused()
    ensures Slot("POST", LONG_PATH, "c") == Slot("POST", "/a", LONG_KEY)
    ensures Writes(MEETING, 0, Slot("POST", LONG_PATH, "c"))
    ensures ReplyTo(MEETING, 1) == ErrorReply(409, false)
  {
    MeetingKeys();
    assert MEETING[..0] == [];
    FilesNext(MEETING, 0);
    assert LONG_PATH + [NUL] + "c" == "/a" + [NUL] + LONG_KEY;
    SlotTexts(LONG_PATH, "c", "/a", LONG_KEY);
    var h1, h2 := RequestHash("POST", LONG_PATH, "x"), RequestHash("POST", "/a", "x");
    assert |h1| != |h2|;
  }
}
