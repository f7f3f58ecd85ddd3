/**
 * The transport under `HttpGet` and `HttpPost`. The network is a script of replies
 * consumed one per request; a request issued when the script is exhausted, or
 * answered by `Fault`, fails as a thrown transport error does.
 */
module Transport {
  import opened Wrappers
  import opened Portal
  import opened Page

  const TemporaryRedirect: int := 307
  const Found: int := 302

  datatype Verb = Get | Post

  /** A request as it leaves the client, with the Referer header then in force. */
  datatype Request = Request(verb: Verb, url: string, form: Form, referer: Option<string>)

  /** What the session records: requests in the order issued, and scheduled pauses. */
  datatype Event = Sent(request: Request) | Delay(milliseconds: nat)

  /** A response: status code, Location header if any, and the parsed body. */
  datatype Response = Response(status: int, location: Option<string>, body: Document)

  /** The network's answer to one request: a response, or a transport error. */
  datatype Reply = Answer(response: Response) | Fault

  /** The outcome of following one request: the final response (None on error), what was sent, the unread replies. */
  datatype Fetch = Fetch(result: Option<Response>, events: seq<Event>, rest: seq<Reply>)

  /** A reply that sends the client on: status 307 with a Location. */
  predicate Redirects(reply: Reply) {
    reply.Answer? && reply.response.status == TemporaryRedirect && reply.response.location.Some?
  }

  /**
   * What a reply that does not redirect gives the caller: the response unless it is
   * a 307 (one without a Location: requesting a null URI throws), or a transport error.
   */
  function Outcome(reply: Reply): Option<Response> {
    match reply
    case Fault => None
    case Answer(response) => if response.status != TemporaryRedirect then Some(response) else None
  }

  /**
   * Issue the request and, while the reply is a 307 with a Location, issue the same
   * verb and form again at that Location. An exhausted script fails like a transport error.
   */
  function Follow(verb: Verb, url: string, form: Form, referer: Option<string>, replies: seq<Reply>): Fetch
    decreases |replies|
  {
    var sent := Sent(Request(verb, url, form, referer));
    if replies == [] then Fetch(None, [sent], [])
    else if !Redirects(replies[0]) then Fetch(Outcome(replies[0]), [sent], replies[1..])
    else
      var f := Follow(verb, replies[0].response.location.value, form, referer, replies[1..]);
      Fetch(f.result, [sent] + f.events, f.rest)
  }

  /** One step of `Follow` when the first reply redirects. */
  lemma FollowRedirect(verb: Verb, url: string, form: Form, referer: Option<string>, replies: seq<Reply>)
    requires replies != [] && Redirects(replies[0])
    ensures var f := Follow(verb, replies[0].response.location.value, form, referer, replies[1..]);
      && Follow(verb, url, form, referer, replies).result == f.result
      && Follow(verb, url, form, referer, replies).rest == f.rest
      && Follow(verb, url, form, referer, replies).events == [Sent(Request(verb, url, form, referer))] + f.events
  {
  }

  /**
   * Whatever the script: at least one request and at most one per reply, the first to the
   * given URL; every request with the same verb, form and referer; a returned response
   * is never a 307; the unread replies are a suffix of the script.
   */
  lemma {:induction false} FollowShape(verb: Verb, url: string, form: Form, referer: Option<string>, replies: seq<Reply>)
    ensures var f := Follow(verb, url, form, referer, replies);
      && 1 <= |f.events| <= |replies| + 1
      && f.events[0] == Sent(Request(verb, url, form, referer))
      && (forall e :: e in f.events ==> e.Sent? && e.request.verb == verb && e.request.form == form && e.request.referer == referer)
      && (f.result.Some? ==> f.result.value.status != TemporaryRedirect)
      && |f.rest| <= |replies| && f.rest == replies[|replies| - |f.rest|..]
    decreases |replies|
  {
    if replies != [] && Redirects(replies[0]) {
      var tail := replies[1..];
      FollowShape(verb, replies[0].response.location.value, form, referer, tail);
      var g := Follow(verb, replies[0].response.location.value, form, referer, tail);
      assert tail[|tail| - |g.rest|..] == replies[|replies| - |g.rest|..];
    }
  }

  /**
   * k redirects followed by any reply that does not redirect: exactly k + 1 requests
   * are issued, the first to the given URL and each later one to the previous
   * Location. A final non-307 response (302 included) is returned unchanged; a
   * transport error, or a 307 without a Location, gives no response.
   */
  lemma {:induction false} FollowRedirectChain(
    verb: Verb, url: string, form: Form, referer: Option<string>, replies: seq<Reply>, k: nat)
    requires k < |replies|
    requires forall i :: 0 <= i < k ==> Redirects(replies[i])
    requires !Redirects(replies[k])
    ensures var f := Follow(verb, url, form, referer, replies);
      && f.result == (if replies[k].Answer? && replies[k].response.status != TemporaryRedirect
                      then Some(replies[k].response) else None)
      && f.rest == replies[k + 1..]
      && |f.events| == k + 1
      && f.events[0] == Sent(Request(verb, url, form, referer))
      && forall i :: 1 <= i <= k ==>
           Redirects(replies[i - 1]) && f.events[i] == Sent(Request(verb, replies[i - 1].response.location.value, form, referer))
    decreases k
  {
    if k > 0 {
      var next := replies[0].response.location.value;
      var tail := replies[1..];
      assert forall i :: 0 <= i < k - 1 ==> tail[i] == replies[i + 1];
      FollowRedirectChain(verb, next, form, referer, tail, k - 1);
      assert tail[k - 1..] == replies[k..];
      assert tail[k - 1 + 1..] == replies[k + 1..];
    }
  }

  /**
   * A script that only ever redirects runs out: one request per reply and one more,
   * each after the first to the previous Location, and no response.
   */
  lemma {:induction false} FollowExhausted(verb: Verb, url: string, form: Form, referer: Option<string>, replies: seq<Reply>)
    requires forall i :: 0 <= i < |replies| ==> Redirects(replies[i])
    ensures var f := Follow(verb, url, form, referer, replies);
      && f.result.None? && f.rest == []
      && |f.events| == |replies| + 1
      && f.events[0] == Sent(Request(verb, url, form, referer))
      && forall i :: 1 <= i <= |replies| ==>
           Redirects(replies[i - 1]) && f.events[i] == Sent(Request(verb, replies[i - 1].response.location.value, form, referer))
    decreases |replies|
  {
    if replies != [] {
      var next := replies[0].response.location.value;
      var tail := replies[1..];
      assert forall i :: 0 <= i < |tail| ==> tail[i] == replies[i + 1];
      FollowExhausted(verb, next, form, referer, tail);
    }
  }
}
